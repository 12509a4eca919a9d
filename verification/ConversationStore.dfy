/**
 `ConversationStore` as an object: each method updates the fields as the source does and is
 proved to be one step of the runs of StoreRuns, to keep their invariant, and to have the effect its
 callers rely on. Persistence, which every mutation triggers in
 the source, is the subject of the Persistence module.
 */
module ConversationStores {
  import opened Prelude
  import opened OrderedDict
  import opened StoreModel
  import opened StoreRuns
  import opened StoreLaws
  import opened StoreEffects

  class ConversationStore {
    var bindings: Dict<Route, Binding>
    var routes: Dict<Id, Route>
    var requests: map<Id, Request>
    var watches: Dict<Turn, int>
    var outbox: Dict<Id, Pending>
    var acks: Dict<Id, Turn>
    var outcomes: map<Id, Outcome>
    var sequence: nat
    var active: map<Id, (Id, string)>
    var suppressed: set<Turn>

    function Value(): State
      reads this
    {
      State(bindings, routes, requests, watches, outbox, acks, outcomes, sequence, active, suppressed)
    }

    ghost predicate Valid()
      reads this
    {
      Inv(Value())
    }

    constructor ()
      ensures Valid() && Value() == Init()
    {
      bindings, routes, requests := Empty(), Empty(), map[];
      watches, outbox, acks, outcomes, sequence := Empty(), Empty(), Empty(), map[], 0;
      active, suppressed := map[], {};
    }

    // `get_binding`: reading adds at most the default binding.
    method GetBinding(r: Route) returns (b: Binding)
      requires bindings.Valid()
      modifies this`bindings
      ensures bindings.Valid() && b == BindingOf(old(bindings), r)
      ensures Value() == ApplyRouting(old(Value()), StoreRuns.GetBinding(r))
      ensures old(Valid()) && RouteOk(r) ==> Valid()
    {
      hide Inv;
      ReadingKeepsInv(Value(), r);
      if r !in bindings.vals {
        bindings.PutValid(r, DEFAULT_BINDING);
        bindings := bindings.Put(r, DEFAULT_BINDING);
      }
      b := bindings.vals[r];
      assert bindings.vals == bindings.vals[r := b];
    }

    method FindBindingByThread(thread: Id) returns (found: Option<Route>)
      requires Valid()
      ensures found == BoundTo(Value(), thread)
      ensures forall r :: found == Some(r) <==> BindingOf(bindings, r).thread == Some(thread)
    {
      hide RequestsOk, WatchesOk, OutboxOk, AcksOk;
      forall r ensures BoundTo(Value(), thread) == Some(r) <==> BindingOf(bindings, r).thread == Some(thread) {
        FoundExactly(Value(), thread, r);
      }
      var i := 0;
      while i < |bindings.keys|
        invariant 0 <= i <= |bindings.keys|
        invariant Find(bindings.keys, bindings.vals, thread) == Find(bindings.keys[i..], bindings.vals, thread)
      {
        var key := bindings.keys[i];
        assert key in bindings.vals;
        assert bindings.keys[i..][0] == key && bindings.keys[i..][1..] == bindings.keys[i + 1..];
        if bindings.vals[key].thread == Some(thread) {
          return Some(key);
        }
        i := i + 1;
      }
      return None;
    }

    method SetBootstrapCwd(r: Route, cwd: string)
      requires Valid() && RouteOk(r)
      modifies this`bindings
      ensures Valid() && Value() == ApplyRouting(old(Value()), SetCwdOp(r, cwd))
      ensures Unbound(old(Value()), Value(), r, cwd)
    {
      hide Inv, Unbound, RouteOk;
      SetCwdLaw(Value(), r, cwd);
      var b := GetBinding(r);
      bindings := bindings.Put(r, b.(cwd := Some(cwd), thread := None));
      assert bindings == old(bindings).Put(r, b.(cwd := Some(cwd), thread := None));
    }

    // `bind_thread`: the thread is taken from every other conversation, and so are its requests.
    method BindThread(r: Route, thread: Id)
      requires Valid() && RouteOk(r) && ThreadOk(thread)
      modifies this
      ensures Valid() && Value() == ApplyRouting(old(Value()), BindOp(r, thread))
      ensures HandedOver(old(Value()), Value(), r, thread)
    {
      hide Stolen, Rerouted, WithoutThread, BindingOf, Inv, HandedOver, RouteOk, ThreadOk;
      BindLaw(Value(), r, thread);
      TakeFromOthers(r, thread);
      Reroute(r, thread);
      var previous := Claim(r, thread);
      if previous.Some? && previous.value != "" && previous.value != thread {
        RemoveDeliveriesForThread(previous.value);
      }
    }

    // Bind and route the thread to r; what r was bound to before is returned.
    method Claim(r: Route, thread: Id) returns (previous: Option<Id>)
      requires bindings.Valid()
      modifies this`bindings, this`routes
      ensures previous == BindingOf(old(bindings), r).thread
      ensures bindings == old(bindings).Put(r, BindingOf(old(bindings), r).(thread := Some(thread)))
      ensures routes == old(routes).Put(thread, r)
    {
      hide Inv, RouteOk;
      var b := GetBinding(r);
      previous := b.thread;
      bindings := bindings.Put(r, b.(thread := Some(thread)));
      assert bindings == old(bindings).Put(r, b.(thread := Some(thread)));
      routes := routes.Put(thread, r);
    }

    // The first loop of `bind_thread`.
    method TakeFromOthers(r: Route, thread: Id)
      requires bindings.Valid()
      modifies this`bindings
      ensures bindings.Valid() && bindings == Stolen(old(bindings), r, thread)
    {
      hide Stolen, BindingOf, Halfway;
      ghost var before := bindings;
      StartHalfway(before, r, thread);
      var i := 0;
      while i < |bindings.keys|
        invariant 0 <= i <= |bindings.keys| && bindings.keys == before.keys
        invariant Halfway(bindings, before, r, thread, i)
      {
        var key := bindings.keys[i];
        HalfwayNext(bindings, before, r, thread, i);
        if key != r && bindings.vals[key].thread == Some(thread) {
          bindings := Dict(bindings.keys, bindings.vals[key := bindings.vals[key].(thread := None)]);
        }
        i := i + 1;
      }
      EndHalfway(bindings, before, r, thread);
    }

    // The second loop of `bind_thread`.
    method Reroute(r: Route, thread: Id)
      modifies this`requests
      ensures requests == Rerouted(old(requests), r, thread)
    {
      var left := requests.Keys;
      while left != {}
        invariant left <= requests.Keys == old(requests).Keys
        invariant forall id :: id in requests ==>
          requests[id] == if id in left then old(requests)[id] else Rerouted(old(requests), r, thread)[id]
        decreases left
      {
        var id :| id in left;
        if requests[id].thread == Some(thread) {
          requests := requests[id := requests[id].(route := r)];
        }
        left := left - {id};
      }
    }

    method RemoveDeliveriesForThread(thread: Id)
      modifies this`watches, this`acks
      ensures Value() == WithoutThread(old(Value()), thread)
    {
      watches := watches.Keep(set t | t in watches.vals && t.thread != thread);
      acks := acks.Keep(set id | id in acks.vals && acks.vals[id].thread != thread);
    }

    method BindThreadWithCwd(r: Route, thread: Id, cwd: string)
      requires Valid() && RouteOk(r) && ThreadOk(thread)
      modifies this
      ensures Valid() && Value() == ApplyRouting(old(Value()), BindWithCwdOp(r, thread, cwd))
      ensures BelongsTo(Value(), thread, r) && HandedOverIn(old(Value()), Value(), r, thread, cwd)
    {
      hide Inv, RouteOk, ThreadOk, BelongsTo, HandedOverIn;
      BindStoresCwd(Value(), r, thread, cwd);
      BindWithCwdKeepsInv(Value(), r, thread, cwd);
      BindWithCwdBinds(Value(), r, thread, cwd);
      BindThread(r, thread);
      if cwd != "" {
        bindings := bindings.Put(r, BindingOf(bindings, r).(cwd := Some(cwd)));
      }
    }

    method ForgetThread(thread: Id)
      modifies this`watches, this`acks, this`active, this`suppressed
      ensures Value() == StoreModel.ForgetThread(old(Value()), thread)
    {
      RemoveDeliveriesForThread(thread);
      active := active - {thread};
      suppressed := set t | t in suppressed && t.thread != thread;
    }

    method ClearThreadBinding(r: Route)
      requires Valid() && RouteOk(r)
      modifies this
      ensures Valid() && Value() == ApplyRouting(old(Value()), ClearOp(r))
      ensures Cleared(old(Value()), Value(), r)
    {
      hide StoreModel.ForgetThread, Only, Inv, RouteOk, Cleared;
      ClearLaw(Value(), r);
      ghost var before := bindings;
      var b := GetBinding(r);
      if b.thread.Some? {
        ForgetsDeliveries(old(Value()), bindings, b.thread.value);
        ForgetThread(b.thread.value);
      }
      bindings := bindings.Put(r, b.(thread := None));
      assert bindings == before.Put(r, b.(thread := None));
    }

    // The approval and question branch of `project_notification`.
    method ProjectRequest(id: Id, thread: Id, turn: Id, kind: string, epoch: nat)
      requires Valid()
      modifies this`requests
      ensures Valid() && Value() == ApplyRouting(old(Value()), RequestOp(id, thread, turn, kind, epoch))
      ensures OthersKeepRequests(old(Value()), Value(), id)
      ensures !Silenced(Value(), thread, turn) ==>
        forall r :: BindingOf(bindings, r).thread == Some(thread) ==>
          id in requests && requests[id] == Request(r, OrNone(thread), OrNone(turn), kind, epoch)
      ensures Silenced(Value(), thread, turn) || (forall r :: BindingOf(bindings, r).thread != Some(thread)) ==>
        requests == old(requests)
    {
      hide Inv;
      RequestKeepsInv(Value(), id, thread, turn, kind, epoch);
      var bound := FindBindingByThread(thread);
      if bound.None? || (thread != "" && turn != "" && Turn(thread, turn) in suppressed) {
        return;
      }
      assert BindingOf(bindings, bound.value).thread == Some(thread);
      requests := requests[id := Request(bound.value, OrNone(thread), OrNone(turn), kind, epoch)];
    }

    // `invalidate_pending_requests_for_connection`
    method InvalidateForConnection(epoch: nat) returns (removed: set<Id>)
      requires Valid()
      modifies this`requests
      ensures Valid() && Value() == ApplyRouting(old(Value()), InvalidateOp(epoch))
      ensures removed == set id | id in old(requests) && old(requests)[id].epoch == epoch
      ensures LeavesRequests(old(Value()), Value(), removed)
    {
      hide Inv;
      FewerRequestsKeepInv(Value(), Invalidate(Value(), epoch));
      removed := set id | id in requests && requests[id].epoch == epoch;
      var left := removed;
      while left != {}
        invariant left <= removed
        invariant requests.Keys == old(requests).Keys - (removed - left)
        invariant forall id :: id in requests ==> requests[id] == old(requests)[id]
        decreases left
      {
        var id :| id in left;
        requests := requests - {id};
        left := left - {id};
      }
      assert requests == Invalidate(old(Value()), epoch).requests;
    }

    // `watch_terminal_delivery`: only a named turn of a bound thread is watched, from its first time on.
    method WatchTerminalDelivery(t: Turn, now: int)
      requires Valid()
      modifies this`watches
      ensures Valid() && Value() == Watch(old(Value()), t, now)
      ensures t in watches.vals <==>
        t in old(watches.vals) ||
          (t.thread != "" && t.turn != "" && exists r :: BindingOf(bindings, r).thread == Some(t.thread))
      ensures forall w :: w in old(watches.vals) ==> w in watches.vals && watches.vals[w] == old(watches.vals)[w]
    {
      hide Inv;
      WatchKeepsInv(Value(), t, now);
      var bound := FindBindingByThread(t.thread);
      if t.thread == "" || t.turn == "" || bound.None? || t in watches.vals {
        assert bound.Some? ==> BindingOf(bindings, bound.value).thread == Some(t.thread);
        return;
      }
      assert BindingOf(bindings, bound.value).thread == Some(t.thread);
      watches := watches.Put(t, now);
    }

    method NoteActiveTurn(t: Turn, status: string, now: int)
      requires Valid()
      modifies this
      ensures Valid() && Value() == ApplyRouting(old(Value()), NoteActiveTurnOp(t, status, now))
    {
      hide Inv;
      FewerRequestsKeepInv(Value(),
        Value().(active := active[t.thread := (t.turn, status)], suppressed := suppressed - {t}));
      active := active[t.thread := (t.turn, status)];
      suppressed := suppressed - {t};
      WatchTerminalDelivery(t, now);
    }

    // `stage_terminal_delivery`: an id already staged keeps its payload, a new one is listed last.
    method StageTerminalDelivery(id: Id, t: Turn, message: Message, now: int) returns (staged: Result<Pending, string>)
      requires Valid() && TurnOk(t)
      modifies this`outbox, this`sequence
      ensures Valid() && Value() == ApplyOutbox(old(Value()), StageOp(id, t, message, now))
      ensures staged.Err? <==> id == ""
      ensures id != "" ==> id in outbox.vals && staged == Ok(outbox.vals[id])
      ensures id == "" || id in old(outbox.vals) ==> outbox == old(outbox)
      ensures id != "" && id !in old(outbox.vals) ==>
        Listing(Value()) == old(Listing(Value())) + [Listed(id, Pending(t, message, now, sequence))]
    {
      hide Inv, Listing, TurnOk;
      StageLaw(Value(), id, t, message, now);
      if id == "" {
        return Err("delivery_id is required for terminal delivery staging");
      }
      if id !in outbox.vals {
        sequence := sequence + 1;
        outbox := outbox.Put(id, Pending(t, message, now, sequence));
      }
      staged := Ok(outbox.vals[id]);
    }

    method UpdateTerminalDeliveryMessage(id: Id, message: Message)
      requires Valid()
      modifies this`outbox
      ensures Valid() && Value() == ApplyOutbox(old(Value()), UpdateMessageOp(id, message))
      ensures Retold(old(Listing(Value())), Listing(Value()), id, message)
    {
      InvIsStorable(Value());
      hide Inv, Listing, Retold;
      UpdatedInPlace(Value(), id, message);
      if id in outbox.vals {
        outbox := outbox.Put(id, outbox.vals[id].(message := message));
      }
    }

    method CompleteTerminalDelivery(id: Id)
      requires Valid()
      modifies this`outbox, this`acks, this`outcomes
      ensures Valid() && Value() == ApplyOutbox(old(Value()), CompleteOp(id))
      ensures id in old(outbox.vals) ==> Delisted(old(Listing(Value())), Listing(Value()), id)
      ensures id in old(outbox.vals) && id !in old(acks.vals) ==>
        id in acks.vals && acks.vals[id] == old(outbox.vals[id]).turn
    {
      hide Inv, Listing, Delisted, Prune, OutcomeOf;
      CompleteLaw(Value(), id);
      if id !in outbox.vals {
        return;
      }
      var pending := outbox.vals[id];
      outbox := outbox.Pop(id);
      if pending.turn == NO_TURN {
        outcomes := outcomes[id := OutcomeOf(pending.message)];
      }
      acks := acks.Put(id, pending.turn);
      PruneAcknowledgements();
    }

    // `_prune_standalone_delivery_acknowledgements`
    method PruneAcknowledgements()
      requires acks.Valid()
      modifies this`acks, this`outcomes
      ensures Value() == Prune(old(Value()))
      ensures Standalone(acks) == Newest(old(Standalone(acks)), ACK_LIMIT)
    {
      hide WithoutFirst, Excess, Standalone, Newest, Prune, Only;
      PruneIsWithoutAll(Value());
      var excess := Excess(acks);
      var i := 0;
      while i < |excess|
        invariant 0 <= i <= |excess|
        invariant (acks, outcomes) == WithoutFirst(old(acks), old(outcomes), excess, i)
      {
        WithoutFirstNext(old(acks), old(outcomes), excess, i);
        acks := acks.Pop(excess[i]);
        outcomes := outcomes - {excess[i]};
        i := i + 1;
      }
    }

    method DiscardTerminalWatch(t: Turn)
      requires Valid()
      modifies this`watches, this`acks
      ensures Valid() && Value() == ApplyRouting(old(Value()), DiscardWatchOp(t))
      ensures Discarded(old(Value()), Value(), t)
    {
      hide Inv, Discarded;
      DiscardKeepsInv(Value(), t);
      DiscardForgets(Value(), t);
      watches := watches.Pop(t);
      acks := acks.Keep(set id | id in acks.vals && acks.vals[id] != t);
    }
  }

  lemma ReadingKeepsInv(s: State, r: Route)
    requires s.bindings.Valid()
    ensures Put(s, r, BindingOf(s.bindings, r)).bindings.Valid()
    ensures Inv(s) && RouteOk(r) ==> Inv(Put(s, r, BindingOf(s.bindings, r)))
  {
    s.bindings.PutValid(r, BindingOf(s.bindings, r));
    if Inv(s) && RouteOk(r) {
      PresetsAreNamed(s);
      PutKeepsBindings(s, r, BindingOf(s.bindings, r));
    }
  }

  lemma SetCwdLaw(s: State, r: Route, cwd: string)
    requires Inv(s) && RouteOk(r)
    ensures s.bindings.Valid() && Inv(SetCwd(s, r, cwd)) && Unbound(s, SetCwd(s, r, cwd), r, cwd)
  {
    RoutingKeepsInv(s, SetCwdOp(r, cwd));
    SetCwdUnbinds(s, r, cwd);
  }

  lemma BindLaw(s: State, r: Route, thread: Id)
    requires Inv(s) && RouteOk(r) && ThreadOk(thread)
    ensures s.bindings.Valid()
    ensures Inv(StoreModel.BindThread(s, r, thread)) && HandedOver(s, StoreModel.BindThread(s, r, thread), r, thread)
  {
    BindKeepsInv(s, r, thread);
    BindHandsOver(s, r, thread);
  }

  lemma ClearLaw(s: State, r: Route)
    requires Inv(s) && RouteOk(r)
    ensures s.bindings.Valid() && Inv(ClearBinding(s, r)) && Cleared(s, ClearBinding(s, r), r)
  {
    ClearKeepsInv(s, r);
    ClearForgets(s, r);
  }

  lemma StageLaw(s: State, id: Id, t: Turn, message: Message, now: int)
    requires Inv(s) && TurnOk(t)
    ensures Inv(Stage(s, id, t, message, now))
    ensures s.outbox.Valid() && Stage(s, id, t, message, now).outbox.Valid()
    ensures id != "" && id !in s.outbox.vals ==>
      Listing(Stage(s, id, t, message, now)) == Listing(s) + [Listed(id, Pending(t, message, now, s.sequence + 1))]
  {
    StageKeepsInv(s, id, t, message, now);
    hide Listing, TurnOk, Stage;
    if id != "" && id !in s.outbox.vals { StagedIsListedLast(s, id, t, message, now); }
  }

  lemma CompleteLaw(s: State, id: Id)
    requires Inv(s)
    ensures id in s.outbox.vals ==>
      && s.outbox.Valid() && Complete(s, id).outbox.Valid()
      && Inv(Complete(s, id)) && Delisted(Listing(s), Listing(Complete(s, id)), id)
      && (id !in s.acks.vals ==>
            id in Complete(s, id).acks.vals && Complete(s, id).acks.vals[id] == s.outbox.vals[id].turn)
      && s.acks.Put(id, s.outbox.vals[id].turn).Valid()
  {
    if id in s.outbox.vals {
      s.acks.PutValid(id, s.outbox.vals[id].turn);
      InvIsStorable(s);
      CompleteKeepsInv(s, id);
      InvIsStorable(Complete(s, id));
      hide Inv, Listing, Complete, Delisted;
      CompletedIsDelisted(s, id);
    }
  }

  lemma BindWithCwdBinds(s: State, r: Route, thread: Id, cwd: string)
    requires Inv(s) && RouteOk(r) && ThreadOk(thread)
    ensures BelongsTo(StoreModel.BindThreadWithCwd(s, r, thread, cwd), thread, r)
  {
    BindWithCwdKeepsInv(s, r, thread, cwd);
    hide Inv, StoreModel.BindThread, RouteOk, ThreadOk, BelongsTo;
    BindingsAfterBind(s, r, thread);
    BoundBelongs(StoreModel.BindThreadWithCwd(s, r, thread, cwd), r, thread);
  }

  function Loses(b: Binding, k: Route, r: Route, thread: Id): Binding {
    if k != r && b.thread == Some(thread) then b.(thread := None) else b
  }

  // The first loop of `bind_thread` has visited the first n conversations.
  ghost predicate Halfway(b: Dict<Route, Binding>, before: Dict<Route, Binding>, r: Route, thread: Id, n: nat)
    requires n <= |before.keys|
  {
    && before.Valid() && b.keys == before.keys && b.vals.Keys == before.vals.Keys
    && forall k :: k in b.vals ==>
         b.vals[k] == if k in before.keys[n..] then before.vals[k] else Loses(before.vals[k], k, r, thread)
  }

  lemma StartHalfway(b: Dict<Route, Binding>, r: Route, thread: Id)
    requires b.Valid()
    ensures Halfway(b, b, r, thread, 0)
  {
  }

  lemma HalfwayNext(b: Dict<Route, Binding>, before: Dict<Route, Binding>, r: Route, thread: Id, i: nat)
    requires i < |before.keys| && Halfway(b, before, r, thread, i)
    ensures var key := before.keys[i];
      && key in b.vals
      && Halfway(Dict(b.keys, b.vals[key := Loses(b.vals[key], key, r, thread)]), before, r, thread, i + 1)
      && (Loses(b.vals[key], key, r, thread) == b.vals[key] ==> Halfway(b, before, r, thread, i + 1))
  {
    KeysFrom(before.keys, i);
  }

  lemma EndHalfway(b: Dict<Route, Binding>, before: Dict<Route, Binding>, r: Route, thread: Id)
    requires Halfway(b, before, r, thread, |before.keys|)
    ensures b.Valid() && b == Stolen(before, r, thread)
  {
    assert b.vals == Stolen(before, r, thread).vals;
  }

  lemma KeysFrom(keys: seq<Route>, i: nat)
    requires i < |keys| && Distinct(keys)
    ensures forall k :: k in keys[i..] <==> k == keys[i] || k in keys[i + 1..]
    ensures keys[i] !in keys[i + 1..]
  {
    assert keys[i..] == [keys[i]] + keys[i + 1..];
  }

  // Forgetting a thread neither looks at the bindings nor touches them.
  lemma ForgetsDeliveries(s: State, b: Dict<Route, Binding>, thread: Id)
    ensures StoreModel.ForgetThread(s.(bindings := b), thread) == StoreModel.ForgetThread(s, thread).(bindings := b)
    ensures StoreModel.ForgetThread(s, thread).bindings == s.bindings
  {
  }

  // The acknowledgements and outcomes once the first n of `ids` are removed.
  function WithoutFirst(acks: Dict<Id, Turn>, outcomes: map<Id, Outcome>, ids: seq<Id>, n: nat)
    : (Dict<Id, Turn>, map<Id, Outcome>)
    requires n <= |ids|
  {
    (acks.Keep(acks.vals.Keys - Members(ids[..n])), outcomes - Members(ids[..n]))
  }

  lemma WithoutFirstBounds(acks: Dict<Id, Turn>, outcomes: map<Id, Outcome>, ids: seq<Id>)
    requires acks.Valid()
    ensures WithoutFirst(acks, outcomes, ids, 0) == (acks, outcomes)
    ensures var excess := set id | id in ids;
      && WithoutFirst(acks, outcomes, ids, |ids|) == (acks.Keep(acks.vals.Keys - excess), outcomes - excess)
      && acks.Keep(acks.vals.Keys - excess).Valid()
  {
    acks.KeepAll();
    assert acks.vals.Keys - Members(ids[..0]) == acks.vals.Keys;
    assert outcomes - Members(ids[..0]) == outcomes;
    assert ids[..|ids|] == ids;
    acks.KeepValid(acks.vals.Keys - Members(ids));
  }

  lemma PruneIsWithoutAll(s: State)
    requires s.acks.Valid()
    ensures var excess := Excess(s.acks);
      && WithoutFirst(s.acks, s.outcomes, excess, 0) == (s.acks, s.outcomes)
      && var (acks, outcomes) := WithoutFirst(s.acks, s.outcomes, excess, |excess|);
         Prune(s) == s.(acks := acks, outcomes := outcomes)
    ensures Standalone(Prune(s).acks) == Newest(Standalone(s.acks), ACK_LIMIT)
  {
    hide Standalone, Newest, WithoutFirst, Excess;
    WithoutFirstBounds(s.acks, s.outcomes, Excess(s.acks));
    PruneKeepsNewest(s);
  }

  lemma WithoutFirstNext(acks: Dict<Id, Turn>, outcomes: map<Id, Outcome>, ids: seq<Id>, i: nat)
    requires i < |ids|
    ensures var (acks', outcomes') := WithoutFirst(acks, outcomes, ids, i);
      (acks'.Pop(ids[i]), outcomes' - {ids[i]}) == WithoutFirst(acks, outcomes, ids, i + 1)
  {
    var ks := acks.vals.Keys - Members(ids[..i]);
    var kept := acks.Keep(ks);
    var ls := kept.vals.Keys - {ids[i]};
    var all := acks.vals.Keys - Members(ids[..i + 1]);
    assert ids[..i + 1] == ids[..i] + [ids[i]];
    OnlyOnly(acks.keys, ks, ls);
    assert ks * ls == all;
    assert kept.Pop(ids[i]).vals == acks.Keep(all).vals;
    OutcomesNext(outcomes, ids, i);
  }

  lemma OutcomesNext(outcomes: map<Id, Outcome>, ids: seq<Id>, i: nat)
    requires i < |ids|
    ensures outcomes - Members(ids[..i]) - {ids[i]} == outcomes - Members(ids[..i + 1])
  {
    assert ids[..i + 1] == ids[..i] + [ids[i]];
  }

  // `_load`: the loops of the source, each proved to be the loader of its part.
  method LoadStore(p: Payload, legacyId: Message -> Id) returns (loaded: Result<State, LoadError>)
    ensures loaded == Load(p, legacyId)
    ensures forall s :: Inv(s) && p == Save(s) ==> loaded == Ok(Restored(s))
  {
    SavedComesBack(p, legacyId);
    hide Inv, Save, Restored;
    var bindings := LoadBindingItems(p.bindings);
    var routes := LoadRouteItems(p.routes);
    if routes.Err? {
      return Err(routes.error);
    }
    var all := AddBindingRoutes(routes.value, bindings);
    var deliveries := LoadDeliveries(p, legacyId);
    if deliveries.Err? {
      return Err(deliveries.error);
    }
    var (box, acked) := deliveries.value;
    loaded := Ok(Prune(State(bindings, all, map[], box.watches, box.outbox, acked.acks, acked.outcomes,
                             box.sequence, map[], {})));
  }

  lemma SavedComesBack(p: Payload, legacyId: Message -> Id)
    ensures forall s :: Inv(s) && p == Save(s) ==> Load(p, legacyId) == Ok(Restored(s))
  {
    hide Load;
    forall s | Inv(s) && p == Save(s) ensures Load(p, legacyId) == Ok(Restored(s)) {
      LoadGivesRestored(s, legacyId);
    }
  }

  method LoadBindingItems(items: seq<BindingItem>) returns (bindings: Dict<Route, Binding>)
    ensures bindings == LoadBindings(items)
  {
    bindings := Empty();
    for i := 0 to |items|
      invariant bindings == LoadBindings(items[..i])
    {
      assert items[..i + 1][..i] == items[..i];
      bindings := LoadBinding(bindings, items[i]);
    }
    assert items[..|items|] == items;
  }

  method AddBindingRoutes(saved: Dict<Id, Route>, bindings: Dict<Route, Binding>) returns (routes: Dict<Id, Route>)
    ensures routes == BindingRoutes(saved, bindings.keys, bindings.vals)
  {
    routes := saved;
    for i := 0 to |bindings.keys|
      invariant routes == BindingRoutes(saved, bindings.keys[..i], bindings.vals)
    {
      assert bindings.keys[..i + 1][..i] == bindings.keys[..i];
      var r := bindings.keys[i];
      if r in bindings.vals && bindings.vals[r].thread.Some? && bindings.vals[r].thread.value != "" {
        routes := routes.Put(bindings.vals[r].thread.value, r);
      }
    }
    assert bindings.keys[..|bindings.keys|] == bindings.keys;
  }

  method LoadRouteItems(items: seq<RouteItem>) returns (loaded: Result<Dict<Id, Route>, LoadError>)
    ensures loaded == LoadRoutes(items)
  {
    loaded := Ok(Empty());
    for i := 0 to |items|
      invariant loaded.Ok? && loaded == LoadRoutes(items[..i])
    {
      assert items[..i + 1][..i] == items[..i];
      loaded := LoadRoute(loaded.value, items[i]);
      if loaded.Err? {
        RoutesStayBad(items, i + 1);
        return;
      }
    }
    assert items[..|items|] == items;
  }

  // The first bad entry decides the outcome.
  lemma {:induction false} RoutesStayBad(items: seq<RouteItem>, n: nat)
    requires n <= |items| && LoadRoutes(items[..n]).Err?
    ensures LoadRoutes(items) == LoadRoutes(items[..n])
  {
    if n == |items| {
      assert items[..n] == items;
    } else {
      var front := items[..|items| - 1];
      assert front[..n] == items[..n];
      RoutesStayBad(front, n);
    }
  }

  method LoadDeliveries(p: Payload, legacyId: Message -> Id) returns (loaded: Result<(Box, Acked), LoadError>)
    ensures loaded ==
      match LoadWatches(p.watches) {
        case Err(e) => Err(e)
        case Ok(watches) =>
          match LoadOutbox(watches, p.outbox, legacyId)
          case Err(e) => Err(e)
          case Ok(box) =>
            match LoadAcks(p.acks, box.watches)
            case Err(e) => Err(e)
            case Ok(acked) => Ok((box, acked))
      }
  {
    var watches := LoadWatchItems(p.watches);
    if watches.Err? { return Err(watches.error); }
    var box := LoadPendingItems(watches.value, p.outbox, legacyId);
    if box.Err? { return Err(box.error); }
    var acked := LoadAckItems(p.acks, box.value.watches);
    if acked.Err? { return Err(acked.error); }
    loaded := Ok((box.value, acked.value));
  }

  method LoadWatchItems(items: seq<WatchItem>) returns (loaded: Result<Dict<Turn, int>, LoadError>)
    ensures loaded == LoadWatches(items)
  {
    loaded := Ok(Empty());
    for i := 0 to |items|
      invariant loaded.Ok? && loaded == LoadWatches(items[..i])
    {
      assert items[..i + 1][..i] == items[..i];
      loaded := LoadWatch(loaded.value, items[i]);
      if loaded.Err? {
        WatchesStayBad(items, i + 1);
        return;
      }
    }
    assert items[..|items|] == items;
  }

  lemma {:induction false} WatchesStayBad(items: seq<WatchItem>, n: nat)
    requires n <= |items| && LoadWatches(items[..n]).Err?
    ensures LoadWatches(items) == LoadWatches(items[..n])
  {
    if n == |items| {
      assert items[..n] == items;
    } else {
      var front := items[..|items| - 1];
      assert front[..n] == items[..n];
      WatchesStayBad(front, n);
    }
  }

  method LoadPendingItems(watches: Dict<Turn, int>, items: seq<PendingItem>, legacyId: Message -> Id)
    returns (loaded: Result<Box, LoadError>)
    ensures loaded == LoadOutbox(watches, items, legacyId)
  {
    loaded := Ok(Box(watches, Empty(), 0));
    for i := 0 to |items|
      invariant loaded.Ok? && loaded == LoadOutbox(watches, items[..i], legacyId)
    {
      assert items[..i + 1][..i] == items[..i];
      loaded := LoadPending(loaded.value, items[i], i + 1, legacyId);
      if loaded.Err? {
        OutboxStaysBad(watches, items, legacyId, i + 1);
        return;
      }
    }
    assert items[..|items|] == items;
  }

  lemma {:induction false} OutboxStaysBad(watches: Dict<Turn, int>, items: seq<PendingItem>, legacyId: Message -> Id,
      n: nat)
    requires n <= |items| && LoadOutbox(watches, items[..n], legacyId).Err?
    ensures LoadOutbox(watches, items, legacyId) == LoadOutbox(watches, items[..n], legacyId)
  {
    if n == |items| {
      assert items[..n] == items;
    } else {
      var front := items[..|items| - 1];
      assert front[..n] == items[..n];
      OutboxStaysBad(watches, front, legacyId, n);
    }
  }

  method LoadAckItems(items: seq<AckItem>, watches: Dict<Turn, int>) returns (loaded: Result<Acked, LoadError>)
    ensures loaded == LoadAcks(items, watches)
  {
    loaded := Ok(Acked(Empty(), map[]));
    for i := 0 to |items|
      invariant loaded.Ok? && loaded == LoadAcks(items[..i], watches)
    {
      assert items[..i + 1][..i] == items[..i];
      loaded := LoadAck(loaded.value, items[i], watches);
      if loaded.Err? {
        AcksStayBad(items, watches, i + 1);
        return;
      }
    }
    assert items[..|items|] == items;
  }

  lemma {:induction false} AcksStayBad(items: seq<AckItem>, watches: Dict<Turn, int>, n: nat)
    requires n <= |items| && LoadAcks(items[..n], watches).Err?
    ensures LoadAcks(items, watches) == LoadAcks(items[..n], watches)
  {
    if n == |items| {
      assert items[..n] == items;
    } else {
      var front := items[..|items| - 1];
      assert front[..n] == items[..n];
      AcksStayBad(front, watches, n);
    }
  }
}
