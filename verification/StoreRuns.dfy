/**
 What every run of store operations keeps, and what loading a saved store gives back. A `Restart` here
 saves the store first; when the last save is older, see DeliveryRuns.
 */
module StoreRuns {
  import opened Prelude
  import opened OrderedDict
  import opened StoreModel
  import Text

  datatype Op =
    | GetBinding(r: Route)
    | BindOp(r: Route, thread: Id)
    | BindWithCwdOp(r: Route, thread: Id, cwd: string)
    | ClearOp(r: Route)
    | SetCwdOp(r: Route, cwd: string)
    | SetProfileOp(r: Route, profile: string)
    | SetVisibilityOp(r: Route, what: Visibility, enabled: bool)
    | SetContextOp(r: Route, context: map<string, string>)
    | RequestOp(id: Id, thread: Id, turn: Id, kind: string, epoch: nat)
    | RemoveRequestOp(id: Id)
    | RemoveRequestsForTurnOp(t: Turn)
    | InvalidateOp(epoch: nat)
    | NoteActiveTurnOp(t: Turn, status: string, now: int)
    | CompleteTurnOp(t: Turn)
    | ClearActiveTurnOp(thread: Id)
    | SuppressOp(t: Turn)
    | DiscardWatchOp(t: Turn)
    | StageOp(id: Id, t: Turn, message: Message, now: int)
    | UpdateMessageOp(id: Id, message: Message)
    | CompleteOp(id: Id)
    | Restart   // save, then load into a new store

  predicate RouteOk(r: Route) {
    r.channel != "" && r.conversation != "" && Text.Trimmed(r.channel) && Text.Trimmed(r.conversation)
  }

  predicate ThreadOk(thread: Id) {
    thread != "" && Text.Trimmed(thread)
  }

  // What callers pass: ids non-empty and trimmed where they name something.
  predicate WellFormed(op: Op) {
    match op
    case GetBinding(r) => RouteOk(r)
    case BindOp(r, thread) => RouteOk(r) && ThreadOk(thread)
    case BindWithCwdOp(r, thread, _) => RouteOk(r) && ThreadOk(thread)
    case ClearOp(r) => RouteOk(r)
    case SetCwdOp(r, _) => RouteOk(r)
    case SetProfileOp(r, profile) => RouteOk(r) && profile != ""
    case SetVisibilityOp(r, _, _) => RouteOk(r)
    case SetContextOp(r, _) => RouteOk(r)
    case DiscardWatchOp(t) => t.thread != "" && t.turn != ""
    case StageOp(id, t, _, _) => (t.thread == "") == (t.turn == "")
    case _ => true
  }

  predicate DeliveryOp(op: Op) {
    op.StageOp? || op.UpdateMessageOp? || op.CompleteOp? || op.Restart?
  }

  function Apply(s: State, op: Op, legacyId: Message -> Id): State
    requires Inv(s)
  {
    if DeliveryOp(op) then ApplyDelivery(s, op, legacyId) else ApplyRouting(s, op)
  }

  function ApplyDelivery(s: State, op: Op, legacyId: Message -> Id): State
    requires Inv(s) && DeliveryOp(op)
  {
    if op.Restart? then Reload(s, legacyId) else ApplyOutbox(s, op)
  }

  function ApplyOutbox(s: State, op: Op): State
    requires DeliveryOp(op) && !op.Restart?
  {
    match op
    case StageOp(id, t, message, now) => Stage(s, id, t, message, now)
    case UpdateMessageOp(id, message) => UpdateMessage(s, id, message)
    case CompleteOp(id) => Complete(s, id)
  }

  function ApplyRouting(s: State, op: Op): State
    requires !DeliveryOp(op)
  {
    match op
    case GetBinding(r) => Put(s, r, BindingOf(s.bindings, r))
    case BindOp(r, thread) => BindThread(s, r, thread)
    case BindWithCwdOp(r, thread, cwd) => BindThreadWithCwd(s, r, thread, cwd)
    case ClearOp(r) => ClearBinding(s, r)
    case SetCwdOp(r, cwd) => SetCwd(s, r, cwd)
    case SetProfileOp(r, profile) => SetProfile(s, r, profile)
    case SetVisibilityOp(r, what, enabled) => SetVisibility(s, r, what, enabled)
    case SetContextOp(r, context) => SetContext(s, r, context)
    case RequestOp(id, thread, turn, kind, epoch) => ProjectRequest(s, id, thread, turn, kind, epoch)
    case RemoveRequestOp(id) => RemoveRequest(s, id)
    case RemoveRequestsForTurnOp(t) => RemoveRequestsForTurn(s, t)
    case InvalidateOp(epoch) => Invalidate(s, epoch)
    case NoteActiveTurnOp(t, status, now) => NoteActiveTurn(s, t, status, now)
    case CompleteTurnOp(t) => CompleteTurn(s, t)
    case ClearActiveTurnOp(thread) => s.(active := s.active - {thread})
    case SuppressOp(t) => Suppress(s, t)
    case DiscardWatchOp(t) => DiscardWatch(s, t)
  }

  // Save, then load into a new store. A store that cannot be loaded does not start.
  function Reload(s: State, legacyId: Message -> Id): State
    requires Inv(s)
  {
    match Load(Save(s), legacyId)
    case Ok(loaded) => loaded
    case Err(_) => s
  }

  // ---- The invariant ----

  // A thread is bound to at most one conversation, and its recipient route names that one.
  ghost predicate BindingsOk(b: Dict<Route, Binding>, routes: Dict<Id, Route>) {
    && b.Valid() && routes.Valid()
    && (forall r :: r in b.vals ==> RouteOk(r) && b.vals[r].profile != "")
    && (forall r :: r in b.vals && b.vals[r].thread.Some? ==>
          var t := b.vals[r].thread.value;
          t != "" && t in routes.vals && routes.vals[t] == r)
    && (forall t :: t in routes.vals ==> ThreadOk(t) && RouteOk(routes.vals[t]))
  }

  // A request of a bound thread goes to the conversation the thread is bound to.
  ghost predicate RequestsOk(b: Dict<Route, Binding>, requests: map<Id, Request>) {
    forall id, r :: id in requests && r in b.vals && b.vals[r].thread.Some? && requests[id].thread == b.vals[r].thread
      ==> requests[id].route == r
  }

  predicate TurnOk(t: Turn) {
    (t.thread == "") == (t.turn == "")
  }

  ghost predicate OutboxOk(outbox: Dict<Id, Pending>, sequence: nat) {
    && outbox.Valid()
    && (forall id :: id in outbox.vals ==>
          id != "" && TurnOk(outbox.vals[id].turn) && 1 <= outbox.vals[id].sequence <= sequence)
    && Increasing(outbox.keys, outbox.vals)
  }

  // Dictionary order is the order of the sequence numbers.
  ghost predicate Increasing(keys: seq<Id>, vals: map<Id, Pending>)
    requires forall k :: k in keys ==> k in vals
  {
    forall i, j :: 0 <= i < j < |keys| ==> vals[keys[i]].sequence < vals[keys[j]].sequence
  }

  ghost predicate AcksOk(acks: Dict<Id, Turn>) {
    && acks.Valid()
    && (forall id :: id in acks.vals ==> id != "" && TurnOk(acks.vals[id]))
    && |Standalone(acks)| <= ACK_LIMIT
  }

  ghost predicate WatchesOk(watches: Dict<Turn, int>) {
    watches.Valid() && (forall t :: t in watches.vals ==> t.thread != "" && t.turn != "")
  }

  ghost predicate Inv(s: State) {
    && BindingsOk(s.bindings, s.routes)
    && RequestsOk(s.bindings, s.requests)
    && WatchesOk(s.watches)
    && OutboxOk(s.outbox, s.sequence)
    && AcksOk(s.acks)
  }

  // ---- Bindings and requests ----

  lemma PutKeepsBindings(s: State, r: Route, b: Binding)
    requires Inv(s) && RouteOk(r) && b.profile != ""
    requires b.thread == None || b.thread == BindingOf(s.bindings, r).thread
    ensures Inv(Put(s, r, b))
  {
    hide WatchesOk, OutboxOk, AcksOk, BindingsOk, RequestsOk;
    PutKeepsRoutes(s.bindings, s.routes, r, b);
    PutKeepsRequests(s.bindings, s.requests, r, b);
  }

  lemma PutKeepsRoutes(bindings: Dict<Route, Binding>, routes: Dict<Id, Route>, r: Route, b: Binding)
    requires BindingsOk(bindings, routes) && RouteOk(r) && b.profile != ""
    requires b.thread == None || b.thread == BindingOf(bindings, r).thread
    ensures BindingsOk(bindings.Put(r, b), routes)
  {
    hide RouteOk, ThreadOk;
    bindings.PutValid(r, b);
  }

  lemma PutKeepsRequests(bindings: Dict<Route, Binding>, requests: map<Id, Request>, r: Route, b: Binding)
    requires RequestsOk(bindings, requests)
    requires b.thread == None || b.thread == BindingOf(bindings, r).thread
    ensures RequestsOk(bindings.Put(r, b), requests)
  {
  }

  lemma BoundIsUnique(s: State, r: Route, thread: Id)
    requires Inv(s) && r in s.bindings.vals && s.bindings.vals[r].thread == Some(thread)
    ensures BoundTo(s, thread) == Some(r)
  {
    var found := BoundTo(s, thread);
    assert r in s.bindings.keys;
  }

  lemma BindKeepsBindings(b: Dict<Route, Binding>, routes: Dict<Id, Route>, r: Route, thread: Id)
    requires BindingsOk(b, routes) && RouteOk(r) && ThreadOk(thread)
    ensures var stolen := Stolen(b, r, thread);
      BindingsOk(stolen.Put(r, BindingOf(stolen, r).(thread := Some(thread))), routes.Put(thread, r))
  {
    var stolen := Stolen(b, r, thread);
    var b' := stolen.Put(r, BindingOf(stolen, r).(thread := Some(thread)));
    var routes' := routes.Put(thread, r);
    assert stolen.Valid();
    stolen.PutValid(r, BindingOf(stolen, r).(thread := Some(thread)));
    routes.PutValid(thread, r);
    forall q | q in b'.vals
      ensures RouteOk(q) && b'.vals[q].profile != ""
      ensures b'.vals[q].thread.Some? ==>
        var t := b'.vals[q].thread.value; t != "" && t in routes'.vals && routes'.vals[t] == q
    {
      if q != r { StolenElsewhere(b, r, thread, q); }
    }
  }

  // Another conversation keeps its binding, except that it loses the stolen thread.
  lemma StolenElsewhere(b: Dict<Route, Binding>, r: Route, thread: Id, q: Route)
    requires q != r
    ensures var b' := Stolen(b, r, thread).Put(r, BindingOf(Stolen(b, r, thread), r).(thread := Some(thread)));
      && (q in b'.vals <==> q in b.vals)
      && (q in b.vals ==>
            && b'.vals[q] == b.vals[q].(thread := b'.vals[q].thread)
            && b'.vals[q].thread == if b.vals[q].thread == Some(thread) then None else b.vals[q].thread)
  {
  }

  lemma BindKeepsRequests(b: Dict<Route, Binding>, requests: map<Id, Request>, r: Route, thread: Id)
    requires RequestsOk(b, requests)
    ensures var stolen := Stolen(b, r, thread);
      RequestsOk(stolen.Put(r, BindingOf(stolen, r).(thread := Some(thread))), Rerouted(requests, r, thread))
  {
    var stolen := Stolen(b, r, thread);
    var b' := stolen.Put(r, BindingOf(stolen, r).(thread := Some(thread)));
    var requests' := Rerouted(requests, r, thread);
    forall id, q | id in requests' && q in b'.vals && b'.vals[q].thread.Some? && requests'[id].thread ==
      b'.vals[q].thread
      ensures requests'[id].route == q
    {
      if q != r {
        StolenElsewhere(b, r, thread, q);
        assert requests[id].thread == b.vals[q].thread;
      }
    }
  }

  lemma BindKeepsInv(s: State, r: Route, thread: Id)
    requires Inv(s) && RouteOk(r) && ThreadOk(thread)
    ensures Inv(BindThread(s, r, thread))
  {
    hide BindingsOk, RequestsOk;
    var stolen := Stolen(s.bindings, r, thread);
    var previous := BindingOf(stolen, r).thread;
    BindKeepsBindings(s.bindings, s.routes, r, thread);
    BindKeepsRequests(s.bindings, s.requests, r, thread);
    var bound := s.(
      bindings := stolen.Put(r, BindingOf(stolen, r).(thread := Some(thread))),
      requests := Rerouted(s.requests, r, thread),
      routes := s.routes.Put(thread, r));
    if previous.Some? { WithoutThreadKeepsInv(bound, previous.value); }
  }

  // Removing acknowledgements leaves the remaining standalone ones in order.
  lemma StandaloneKeep(acks: Dict<Id, Turn>, ks: set<Id>)
    ensures Standalone(acks.Keep(ks)) == Only(Standalone(acks), ks)
  {
    var lone := set id | id in acks.vals && acks.vals[id] == NO_TURN;
    var kept := acks.Keep(ks);
    var lone' := set id | id in kept.vals && kept.vals[id] == NO_TURN;
    OnlyOnly(acks.keys, ks, lone');
    OnlyOnly(acks.keys, lone, ks);
    assert ks * lone' == lone * ks;
  }

  lemma KeepAcksOk(acks: Dict<Id, Turn>, ks: set<Id>)
    requires AcksOk(acks)
    ensures AcksOk(acks.Keep(ks))
  {
    acks.KeepValid(ks);
    StandaloneKeep(acks, ks);
  }

  lemma WithoutThreadKeepsInv(s: State, thread: Id)
    requires Inv(s)
    ensures Inv(WithoutThread(s, thread))
  {
    s.watches.KeepValid(set t | t in s.watches.vals && t.thread != thread);
    KeepAcksOk(s.acks, set id | id in s.acks.vals && s.acks.vals[id].thread != thread);
  }

  lemma BindWithCwdKeepsInv(s: State, r: Route, thread: Id, cwd: string)
    requires Inv(s) && RouteOk(r) && ThreadOk(thread)
    ensures Inv(BindThreadWithCwd(s, r, thread, cwd))
  {
    BindKeepsInv(s, r, thread);
    var bound := BindThread(s, r, thread);
    var b := BindingOf(bound.bindings, r);
    PutKeepsBindings(bound, r, b.(cwd := Some(cwd)));
  }

  lemma ClearKeepsInv(s: State, r: Route)
    requires Inv(s) && RouteOk(r)
    ensures Inv(ClearBinding(s, r))
  {
    var b := BindingOf(s.bindings, r);
    if b.thread.Some? { WithoutThreadKeepsInv(s, b.thread.value); }
    var cleaned := if b.thread.Some? then WithoutThread(s, b.thread.value) else s;
    PutKeepsBindings(cleaned, r, b.(thread := None));
  }

  lemma RequestKeepsInv(s: State, id: Id, thread: Id, turn: Id, kind: string, epoch: nat)
    requires Inv(s)
    ensures Inv(ProjectRequest(s, id, thread, turn, kind, epoch))
  {
    var s' := ProjectRequest(s, id, thread, turn, kind, epoch);
    forall i, r | i in s'.requests && r in s.bindings.vals && s.bindings.vals[r].thread.Some?
        && s'.requests[i].thread == s.bindings.vals[r].thread
      ensures s'.requests[i].route == r
    {
      if i == id && s' != s { BoundIsUnique(s, r, s.bindings.vals[r].thread.value); }
    }
  }

  // ---- Watches, outbox and acknowledgements ----

  lemma WatchKeepsInv(s: State, t: Turn, now: int)
    requires Inv(s)
    ensures Inv(Watch(s, t, now))
  {
    s.watches.PutValid(t, now);
  }

  lemma DiscardKeepsInv(s: State, t: Turn)
    requires Inv(s)
    ensures Inv(DiscardWatch(s, t))
  {
    s.watches.KeepValid(s.watches.vals.Keys - {t});
    KeepAcksOk(s.acks, set id | id in s.acks.vals && s.acks.vals[id] != t);
  }

  lemma StageKeepsInv(s: State, id: Id, t: Turn, message: Message, now: int)
    requires Inv(s) && TurnOk(t)
    ensures Inv(Stage(s, id, t, message, now))
  {
    var s' := Stage(s, id, t, message, now);
    if s' != s {
      s.outbox.PutValid(id, s'.outbox.vals[id]);
      forall i, j | 0 <= i < j < |s'.outbox.keys|
        ensures s'.outbox.vals[s'.outbox.keys[i]].sequence < s'.outbox.vals[s'.outbox.keys[j]].sequence
      {
        assert s.outbox.keys[i] in s.outbox.vals;
        if j < |s.outbox.keys| { assert s.outbox.keys[j] in s.outbox.vals; }
      }
    }
  }

  lemma UpdateKeepsInv(s: State, id: Id, message: Message)
    requires Inv(s)
    ensures Inv(UpdateMessage(s, id, message))
  {
    hide BindingsOk, RequestsOk, WatchesOk, AcksOk, OutboxOk;
    UpdateKeepsOutbox(s, id, message);
  }

  lemma UpdateKeepsOutbox(s: State, id: Id, message: Message)
    requires OutboxOk(s.outbox, s.sequence)
    ensures OutboxOk(UpdateMessage(s, id, message).outbox, s.sequence)
  {
    hide TurnOk;
    var outbox' := UpdateMessage(s, id, message).outbox;
    assert outbox'.keys == s.outbox.keys && outbox'.vals.Keys == s.outbox.vals.Keys;
    forall k | k in s.outbox.vals
      ensures outbox'.vals[k].sequence == s.outbox.vals[k].sequence && outbox'.vals[k].turn == s.outbox.vals[k].turn
    {
    }
  }

  // Dropping entries keeps the sequence order of the rest.
  lemma {:induction false} OnlyIncreasing(keys: seq<Id>, vals: map<Id, Pending>, ks: set<Id>)
    requires forall k :: k in keys ==> k in vals
    requires Increasing(keys, vals)
    ensures Increasing(Only(keys, ks), vals)
  {
    if keys != [] {
      var front, last := keys[..|keys| - 1], keys[|keys| - 1];
      OnlyIncreasing(front, vals, ks);
      var kept := Only(front, ks);
      forall i | 0 <= i < |kept| ensures vals[kept[i]].sequence < vals[last].sequence {
        assert kept[i] in front;
      }
    }
  }

  lemma PopKeepsOutbox(outbox: Dict<Id, Pending>, sequence: nat, id: Id)
    requires OutboxOk(outbox, sequence)
    ensures OutboxOk(outbox.Pop(id), sequence)
  {
    var ks := outbox.vals.Keys - {id};
    var popped := outbox.Pop(id);
    outbox.KeepValid(ks);
    OnlyIncreasing(outbox.keys, outbox.vals, ks);
    SameIncreasing(popped.keys, outbox.vals, popped.vals);
  }

  lemma SameIncreasing(keys: seq<Id>, vals: map<Id, Pending>, vals': map<Id, Pending>)
    requires forall k :: k in keys ==> k in vals && k in vals' && vals[k] == vals'[k]
    requires Increasing(keys, vals)
    ensures Increasing(keys, vals')
  {
    forall i, j | 0 <= i < j < |keys| ensures vals'[keys[i]].sequence < vals'[keys[j]].sequence {
      assert keys[i] in keys && keys[j] in keys;
    }
  }

  // After pruning, exactly the newest 512 standalone acknowledgements are left.
  lemma PruneKeepsNewest(s: State)
    requires s.acks.Valid()
    ensures Prune(s).acks.Valid()
    ensures Standalone(Prune(s).acks) == Newest(Standalone(s.acks), ACK_LIMIT)
    ensures forall id :: id in Prune(s).acks.vals ==> id in s.acks.vals && Prune(s).acks.vals[id] == s.acks.vals[id]
    ensures forall id :: id in s.acks.vals && s.acks.vals[id] != NO_TURN ==> id in Prune(s).acks.vals
  {
    var lone := set id | id in s.acks.vals && s.acks.vals[id] == NO_TURN;
    var excess := set id | id in Excess(s.acks);
    var ks := s.acks.vals.Keys - excess;
    s.acks.KeepValid(ks);
    StandaloneKeep(s.acks, ks);
    OnlyDistinct(s.acks.keys, lone);
    ExcessIsOldest(s.acks, Standalone(s.acks), ks);
    forall id | id in excess ensures id in lone { assert id in Standalone(s.acks); }
  }

  lemma ExcessIsOldest(acks: Dict<Id, Turn>, ids: seq<Id>, ks: set<Id>)
    requires ids == Standalone(acks) && Distinct(ids)
    requires ks == acks.vals.Keys - set id | id in Excess(acks)
    ensures Only(ids, ks) == Newest(ids, ACK_LIMIT)
  {
    var n := |Excess(acks)|;
    forall i | 0 <= i < |ids| ensures ids[i] in ks <==> i >= n {
      assert ids[i] in ids;
      if i >= n {
        forall j | 0 <= j < n ensures Excess(acks)[j] != ids[i] { assert Excess(acks)[j] == ids[j]; }
      } else {
        assert Excess(acks)[i] == ids[i];
      }
    }
    OnlyTail(ids, ks, n);
  }

  lemma {:induction false} OnlyTail(ids: seq<Id>, ks: set<Id>, n: nat)
    requires n <= |ids| && forall i :: 0 <= i < |ids| ==> (ids[i] in ks <==> i >= n)
    ensures Only(ids, ks) == ids[n..]
  {
    hide Only;
    if n < |ids| {
      var front, last := ids[..|ids| - 1], ids[|ids| - 1];
      assert ids == front + [last];
      OnlyAppend(front, last, ks);
      OnlyTail(front, ks, n);
      assert ids[n..] == front[n..] + [last];
    } else {
      OnlyNone(ids, ks);
    }
  }

  lemma {:induction false} OnlyNone(ids: seq<Id>, ks: set<Id>)
    requires forall i :: 0 <= i < |ids| ==> ids[i] !in ks
    ensures Only(ids, ks) == []
  {
    if ids != [] { OnlyNone(ids[..|ids| - 1], ks); }
  }

  lemma CompleteKeepsInv(s: State, id: Id)
    requires Inv(s)
    ensures Inv(Complete(s, id))
  {
    if id in s.outbox.vals {
      PopKeepsOutbox(s.outbox, s.sequence, id);
      AcknowledgeKeepsAcks(s, id, s.outbox.vals[id].turn);
      assert Complete(s, id).acks == Prune(s.(acks := s.acks.Put(id, s.outbox.vals[id].turn))).acks;
    }
  }

  lemma AcknowledgeKeepsAcks(s: State, id: Id, turn: Turn)
    requires AcksOk(s.acks) && id != "" && TurnOk(turn)
    ensures AcksOk(Prune(s.(acks := s.acks.Put(id, turn))).acks)
  {
    hide Prune, Standalone;
    s.acks.PutValid(id, turn);
    PruneKeepsNewest(s.(acks := s.acks.Put(id, turn)));
  }

  // ---- Restart ----

  // The part of a map whose keys are among `keys`.
  function Among<K(==), V>(keys: seq<K>, vals: map<K, V>): map<K, V> {
    map k | k in vals && k in keys :: vals[k]
  }

  lemma KeepIsAmong<K(!new), V>(d: Dict<K, V>, ks: set<K>)
    requires d.Valid()
    ensures d.Keep(ks) == Dict(Only(d.keys, ks), Among(Only(d.keys, ks), d.vals))
  {
    assert d.Keep(ks).vals == Among(Only(d.keys, ks), d.vals);
  }

  lemma AmongAll<K(!new), V>(d: Dict<K, V>)
    requires d.Valid()
    ensures Among(d.keys, d.vals) == d.vals
  {
  }

  // Loading one more saved entry.
  lemma AmongPut<K(!new), V>(keys: seq<K>, k: K, vals: map<K, V>)
    requires k in vals
    ensures k !in keys ==>
      Dict(keys, Among(keys, vals)).Put(k, vals[k]) == Dict(keys + [k], Among(keys + [k], vals))
    ensures Among(keys, vals)[k := vals[k]] == Among(keys + [k], vals)
  {
    assert Among(keys + [k], vals) == Among(keys, vals)[k := vals[k]];
  }

  lemma {:induction false} BindingsRestored(keys: seq<Route>, vals: map<Route, Binding>)
    requires Distinct(keys) && forall r :: r in keys ==> r in vals && vals[r].profile != ""
    ensures var worth := set r | r in vals && WorthSaving(vals[r]);
      LoadBindings(SaveBindings(keys, vals)) == Dict(Only(keys, worth), Among(Only(keys, worth), vals))
  {
    var worth := set r | r in vals && WorthSaving(vals[r]);
    if keys != [] {
      var front, last := keys[..|keys| - 1], keys[|keys| - 1];
      BindingsRestored(front, vals);
      if WorthSaving(vals[last]) {
        var saved := SaveBindings(front, vals);
        assert (saved + [BindingItem(last, vals[last])])[..|saved|] == saved;
        AmongPut(Only(front, worth), last, vals);
      } else {
        assert SaveBindings(keys, vals) == SaveBindings(front, vals);
        assert Only(keys, worth) == Only(front, worth);
      }
    }
  }

  lemma {:induction false} RoutesRestored(ids: seq<Id>, vals: map<Id, Route>, items: seq<RouteItem>)
    requires |items| == |ids|
    requires forall i :: 0 <= i < |ids| ==> ids[i] in vals && items[i] == RouteItem(ids[i], vals[ids[i]])
    requires forall t :: t in vals ==> ThreadOk(t) && RouteOk(vals[t])
    ensures var loaded := LoadRoutes(items);
      loaded.Ok? && loaded.value.Valid() && loaded.value.vals == Among(ids, vals)
  {
    hide ThreadOk, RouteOk, LoadRoute;
    if ids != [] {
      var n := |ids| - 1;
      var t := ids[n];
      RoutesRestored(ids[..n], vals, items[..n]);
      RouteRestored(LoadRoutes(items[..n]).value, t, vals[t]);
      AmongPut(ids[..n], t, vals);
      assert ids == ids[..n] + [t];
    }
  }

  lemma RouteRestored(routes: Dict<Id, Route>, t: Id, r: Route)
    requires routes.Valid() && ThreadOk(t) && RouteOk(r)
    ensures LoadRoute(routes, RouteItem(t, r)) == Ok(routes.Put(t, r)) && routes.Put(t, r).Valid()
    ensures routes.Put(t, r).vals == routes.vals[t := r]
  {
    Text.StripTrimmed(t);
    Text.StripTrimmed(r.channel);
    Text.StripTrimmed(r.conversation);
    routes.PutValid(t, r);
  }

  // Every bound thread's saved route already names its conversation.
  lemma {:induction false} BindingRoutesAddNothing(routes: Dict<Id, Route>, keys: seq<Route>, vals: map<Route, Binding>)
    requires forall r :: r in vals && vals[r].thread.Some? ==>
      vals[r].thread.value in routes.vals && routes.vals[vals[r].thread.value] == r
    ensures BindingRoutes(routes, keys, vals) == routes
  {
    if keys != [] { BindingRoutesAddNothing(routes, keys[..|keys| - 1], vals); }
  }

  lemma {:induction false} WatchesRestored(keys: seq<Turn>, vals: map<Turn, int>, items: seq<WatchItem>)
    requires |items| == |keys| && Distinct(keys)
    requires forall i :: 0 <= i < |keys| ==> keys[i] in vals && items[i] == WatchItem(keys[i], vals[keys[i]])
    requires forall t :: t in vals ==> t.thread != "" && t.turn != ""
    ensures LoadWatches(items) == Ok(Dict(keys, Among(keys, vals)))
  {
    if keys != [] {
      var n := |keys| - 1;
      WatchesRestored(keys[..n], vals, items[..n]);
      AmongPut(keys[..n], keys[n], vals);
      assert keys == keys[..n] + [keys[n]];
    }
  }

  function LastSequence(keys: seq<Id>, vals: map<Id, Pending>): nat {
    if keys == [] || keys[|keys| - 1] !in vals then 0 else vals[keys[|keys| - 1]].sequence
  }

  function PendingItemOf(id: Id, p: Pending): PendingItem {
    PendingItem(id, p.turn, Some(p.message), p.createdAt, p.sequence)
  }

  lemma {:induction false} OutboxRestored(
      watches: Dict<Turn, int>, keys: seq<Id>, vals: map<Id, Pending>, items: seq<PendingItem>, legacyId: Message -> Id)
    requires |items| == |keys| && Distinct(keys)
    requires forall i :: 0 <= i < |keys| ==> keys[i] in vals && items[i] == PendingItemOf(keys[i], vals[keys[i]])
    requires forall id :: id in vals ==> id != "" && TurnOk(vals[id].turn) && vals[id].sequence >= 1
    requires Increasing(keys, vals)
    ensures LoadOutbox(watches, items, legacyId)
         == Ok(Box(watches, Dict(keys, Among(keys, vals)), LastSequence(keys, vals)))
  {
    if keys == [] {
      NothingRestored(watches, vals, items, legacyId);
    } else {
      hide LoadOutbox, LoadPending, Among, LastSequence, TurnOk;
      var n := |keys| - 1;
      var front, id := keys[..n], keys[n];
      assert keys == front + [id] && id !in front;
      OutboxRestored(watches, front, vals, items[..n], legacyId);
      LoadOutboxLast(watches, items, legacyId);
      if n > 0 { assert vals[keys[n - 1]].sequence < vals[keys[n]].sequence; }
      PendingRestored(watches, front, id, vals, |items|, legacyId);
    }
  }

  lemma NothingRestored(
      watches: Dict<Turn, int>, vals: map<Id, Pending>, items: seq<PendingItem>, legacyId: Message -> Id)
    requires items == []
    ensures LoadOutbox(watches, items, legacyId) == Ok(Box(watches, Dict([], Among([], vals)), LastSequence([], vals)))
  {
    assert Among<Id, Pending>([], vals) == map[];
  }

  lemma LoadOutboxLast(watches: Dict<Turn, int>, items: seq<PendingItem>, legacyId: Message -> Id)
    requires items != []
    ensures var front := LoadOutbox(watches, items[..|items| - 1], legacyId);
      front.Ok? ==>
        LoadOutbox(watches, items, legacyId) == LoadPending(front.value, items[|items| - 1], |items|, legacyId)
  {
    hide LoadPending;
  }

  // Loading one more saved delivery.
  lemma PendingRestored(
      watches: Dict<Turn, int>, front: seq<Id>, id: Id, vals: map<Id, Pending>, position: nat, legacyId: Message -> Id)
    requires id in vals && id !in front && id != "" && TurnOk(vals[id].turn) && vals[id].sequence >= 1
    requires front != [] ==>
      front[|front| - 1] in vals && vals[front[|front| - 1]].sequence < vals[id].sequence
    ensures var box := Box(watches, Dict(front, Among(front, vals)), LastSequence(front, vals));
      var keys := front + [id];
      LoadPending(box, PendingItemOf(id, vals[id]), position, legacyId)
        == Ok(Box(watches, Dict(keys, Among(keys, vals)), LastSequence(keys, vals)))
  {
    AmongPut(front, id, vals);
    hide Among;
    assert (front + [id])[|front|] == id;
  }

  // The acknowledgements a load keeps: standalone, or of a turn that still has a watch.
  function Kept(acks: map<Id, Turn>, watches: Dict<Turn, int>): set<Id> {
    set id | id in acks && (acks[id].thread == "" || acks[id] in watches.vals)
  }

  // The outcomes a load keeps: those of standalone acknowledgements.
  function KeptOutcomes(keys: seq<Id>, acks: map<Id, Turn>, outcomes: map<Id, Outcome>): map<Id, Outcome> {
    map id | id in outcomes && id in keys && id in acks && acks[id] == NO_TURN :: outcomes[id]
  }

  function AckItemOf(id: Id, turn: Turn, outcomes: map<Id, Outcome>): AckItem {
    AckItem(id, turn, if id in outcomes then Some(outcomes[id]) else None)
  }

  lemma {:induction false} AcksRestored(
      keys: seq<Id>, acks: map<Id, Turn>, outcomes: map<Id, Outcome>, items: seq<AckItem>, watches: Dict<Turn, int>)
    requires |items| == |keys| && Distinct(keys)
    requires forall i :: 0 <= i < |keys| ==> keys[i] in acks && items[i] == AckItemOf(keys[i], acks[keys[i]], outcomes)
    requires forall id :: id in acks ==> id != "" && TurnOk(acks[id])
    ensures var kept := Only(keys, Kept(acks, watches));
      LoadAcks(items, watches) == Ok(Acked(Dict(kept, Among(kept, acks)), KeptOutcomes(keys, acks, outcomes)))
  {
    if keys == [] {
      NoAckRestored(acks, outcomes, watches);
    } else {
      hide LoadAcks, LoadAck, Among, KeptOutcomes, Kept, TurnOk, AckItemOf, Only;
      var n := |keys| - 1;
      var front, id := keys[..n], keys[n];
      assert keys == front + [id] && id !in front;
      AcksRestored(front, acks, outcomes, items[..n], watches);
      LoadAcksLast(items, watches);
      AckRestored(front, id, acks, outcomes, watches);
    }
  }

  lemma NoAckRestored(acks: map<Id, Turn>, outcomes: map<Id, Outcome>, watches: Dict<Turn, int>)
    ensures Only([], Kept(acks, watches)) == []
    ensures LoadAcks([], watches) == Ok(Acked(Dict([], Among([], acks)), KeptOutcomes([], acks, outcomes)))
  {
    assert Among<Id, Turn>([], acks) == map[] && KeptOutcomes([], acks, outcomes) == map[];
  }

  lemma LoadAcksLast(items: seq<AckItem>, watches: Dict<Turn, int>)
    requires items != []
    ensures var front := LoadAcks(items[..|items| - 1], watches);
      front.Ok? ==> LoadAcks(items, watches) == LoadAck(front.value, items[|items| - 1], watches)
  {
    hide LoadAck;
  }

  lemma OutcomesAppend(front: seq<Id>, last: Id, acks: map<Id, Turn>, outcomes: map<Id, Outcome>)
    requires last in acks && last !in front
    ensures KeptOutcomes(front + [last], acks, outcomes)
         == if last in outcomes && acks[last] ==
           NO_TURN then KeptOutcomes(front, acks, outcomes)[last := outcomes[last]]
            else KeptOutcomes(front, acks, outcomes)
  {
    var before, after := KeptOutcomes(front, acks, outcomes), KeptOutcomes(front + [last], acks, outcomes);
    forall id ensures id in after <==> id in before || (id == last && last in outcomes && acks[last] == NO_TURN) {
      assert id in front + [last] <==> id in front || id == last;
    }
  }

  lemma AckRestored(front: seq<Id>, last: Id, acks: map<Id, Turn>, outcomes: map<Id, Outcome>, watches: Dict<Turn, int>)
    requires last in acks && last !in front && last != "" && TurnOk(acks[last])
    ensures var kept := Only(front, Kept(acks, watches));
      var kept' := Only(front + [last], Kept(acks, watches));
      LoadAck(Acked(Dict(kept, Among(kept, acks)), KeptOutcomes(front, acks, outcomes)),
              AckItemOf(last, acks[last], outcomes), watches)
        == Ok(Acked(Dict(kept', Among(kept', acks)), KeptOutcomes(front + [last], acks, outcomes)))
  {
    hide Among, KeptOutcomes, Kept, Only;
    var kept := Only(front, Kept(acks, watches));
    OnlyAppend(front, last, Kept(acks, watches));
    OutcomesAppend(front, last, acks, outcomes);
    AmongPut(kept, last, acks);
    KeptLast(last, acks, watches);
    assert last !in kept;
    assert kept + [] == kept;
  }

  lemma KeptLast(last: Id, acks: map<Id, Turn>, watches: Dict<Turn, int>)
    requires last in acks
    ensures last in Kept(acks, watches) <==> acks[last].thread == "" || acks[last] in watches.vals
  {
  }

  // The store a restart comes back with.
  function Restored(s: State): State
    requires Storable(s)
  {
    var worth := set r | r in s.bindings.vals && WorthSaving(s.bindings.vals[r]);
    var loaded := LoadRoutes(SaveRoutes(s.routes));
    State(s.bindings.Keep(worth), if loaded.Ok? then loaded.value else s.routes, map[], s.watches, s.outbox,
          s.acks.Keep(Kept(s.acks.vals, s.watches)), KeptOutcomes(s.acks.keys, s.acks.vals, s.outcomes),
          LastSequence(s.outbox.keys, s.outbox.vals), map[], {})
  }

  lemma LoadGivesRestored(s: State, legacyId: Message -> Id)
    requires Inv(s)
    ensures Load(Save(s), legacyId) == Ok(Restored(s))
    ensures Restored(s).routes.Valid() && Restored(s).routes.vals == s.routes.vals
  {
    InvIsStorable(s);
    hide BindingsOk, OutboxOk, AcksOk, WatchesOk, LoadBindings, LoadRoutes, LoadWatches, LoadOutbox, LoadAcks, Save;
    BindingsLoaded(s);
    RoutesLoaded(s);
    OthersLoaded(s, legacyId);
    AcksLoaded(s);
    InvIsStorable(s);
    KeptAcksOk(s);
    PruneNothing(Restored(s));
  }

  lemma InvIsStorable(s: State)
    requires Inv(s)
    ensures Storable(s)
  {
  }

  lemma KeptAcksOk(s: State)
    requires Inv(s)
    ensures AcksOk(Restored(s).acks)
  {
    KeepAcksOk(s.acks, Kept(s.acks.vals, s.watches));
  }

  lemma BindingsLoaded(s: State)
    requires Inv(s)
    ensures LoadBindings(Save(s).bindings) == Restored(s).bindings
  {
    BindingsRestored(s.bindings.keys, s.bindings.vals);
    KeepIsAmong(s.bindings, set r | r in s.bindings.vals && WorthSaving(s.bindings.vals[r]));
  }

  lemma RoutesLoaded(s: State)
    requires Inv(s)
    ensures var loaded := LoadRoutes(Save(s).routes);
      && loaded == Ok(Restored(s).routes) && loaded.value.Valid() && loaded.value.vals == s.routes.vals
      && BindingRoutes(loaded.value, Restored(s).bindings.keys, Restored(s).bindings.vals) == loaded.value
  {
    var ids := SortedIds(s.routes.keys);
    RoutesRestored(ids, s.routes.vals, SaveRoutes(s.routes));
    assert Among(ids, s.routes.vals) == s.routes.vals;
    BindingRoutesUnchanged(s, LoadRoutes(SaveRoutes(s.routes)).value);
  }

  lemma BindingRoutesUnchanged(s: State, routes: Dict<Id, Route>)
    requires Inv(s) && routes.vals == s.routes.vals
    ensures BindingRoutes(routes, Restored(s).bindings.keys, Restored(s).bindings.vals) == routes
  {
    BindingRoutesAddNothing(routes, Restored(s).bindings.keys, Restored(s).bindings.vals);
  }

  lemma OthersLoaded(s: State, legacyId: Message -> Id)
    requires Inv(s)
    ensures LoadWatches(Save(s).watches) == Ok(s.watches)
    ensures LoadOutbox(s.watches, Save(s).outbox, legacyId)
         == Ok(Box(s.watches, s.outbox, LastSequence(s.outbox.keys, s.outbox.vals)))
  {
    WatchesRestored(s.watches.keys, s.watches.vals, Save(s).watches);
    AmongAll(s.watches);
    OutboxRestored(s.watches, s.outbox.keys, s.outbox.vals, Save(s).outbox, legacyId);
    AmongAll(s.outbox);
  }

  lemma AcksLoaded(s: State)
    requires Inv(s)
    ensures LoadAcks(Save(s).acks, s.watches) == Ok(Acked(Restored(s).acks, Restored(s).outcomes))
  {
    var kept := Kept(s.acks.vals, s.watches);
    AcksRestored(s.acks.keys, s.acks.vals, s.outcomes, SaveAcks(s), s.watches);
    KeepIsAmong(s.acks, kept);
  }

  lemma PruneNothing(s: State)
    requires AcksOk(s.acks)
    ensures Prune(s) == s
  {
    s.acks.KeepAll();
    assert (set id | id in Excess(s.acks)) == {};
    assert s.acks.vals.Keys - {} == s.acks.vals.Keys;
    assert s.outcomes - {} == s.outcomes;
  }

  lemma RestoredKeepsInv(s: State)
    requires Inv(s)
    ensures Inv(Restored(s))
  {
    var legacyId := (m: Message) => "";
    LoadGivesRestored(s, legacyId);
    var worth := set r | r in s.bindings.vals && WorthSaving(s.bindings.vals[r]);
    s.bindings.KeepValid(worth);
    KeepAcksOk(s.acks, Kept(s.acks.vals, s.watches));
    LastIsGreatest(s.outbox.keys, s.outbox.vals);
  }

  lemma LastIsGreatest(keys: seq<Id>, vals: map<Id, Pending>)
    requires forall k :: k in keys ==> k in vals
    requires Increasing(keys, vals)
    ensures forall k :: k in keys ==> vals[k].sequence <= LastSequence(keys, vals)
  {
    forall k | k in keys ensures vals[k].sequence <= LastSequence(keys, vals) {
      var i :| 0 <= i < |keys| && keys[i] == k;
      assert i < |keys| - 1 ==> vals[keys[i]].sequence < vals[keys[|keys| - 1]].sequence;
    }
  }

  // ---- Results over all runs ----

  lemma RestartIsRestored(s: State, legacyId: Message -> Id)
    requires Inv(s)
    ensures Storable(s) && Reload(s, legacyId) == Restored(s) && Inv(Restored(s))
  {
    InvIsStorable(s);
    hide Inv, Load, Save, Restored, Storable;
    LoadGivesRestored(s, legacyId);
    RestoredKeepsInv(s);
  }

  lemma ProfileKeepsInv(s: State, r: Route, profile: string)
    requires Inv(s) && RouteOk(r) && profile != ""
    ensures Inv(SetProfile(s, r, profile))
  {
    s.bindings.PutValid(r, BindingOf(SetProfile(s, r, profile).bindings, r));
    PutKeepsBindings(s, r, BindingOf(SetProfile(s, r, profile).bindings, r));
  }

  lemma VisibilityKeepsInv(s: State, r: Route, what: Visibility, enabled: bool)
    requires Inv(s) && RouteOk(r)
    ensures Inv(SetVisibility(s, r, what, enabled))
  {
    PutKeepsBindings(s, r, BindingOf(SetVisibility(s, r, what, enabled).bindings, r));
  }

  // Dropping requests, and the bookkeeping of active turns, keep the invariant.
  lemma FewerRequestsKeepInv(s: State, s': State)
    requires Inv(s) && s' == s.(requests := s'.requests, active := s'.active, suppressed := s'.suppressed)
    requires forall id :: id in s'.requests ==> id in s.requests && s'.requests[id] == s.requests[id]
    ensures Inv(s')
  {
  }

  lemma ActiveTurnKeepsInv(s: State, t: Turn, status: string, now: int)
    requires Inv(s)
    ensures Inv(NoteActiveTurn(s, t, status, now))
  {
    var noted := s.(active := s.active[t.thread := (t.turn, status)], suppressed := s.suppressed - {t});
    FewerRequestsKeepInv(s, noted);
    WatchKeepsInv(noted, t, now);
  }

  predicate BindingOp(op: Op) {
    op.GetBinding? || op.BindOp? || op.BindWithCwdOp? || op.ClearOp? || op.SetCwdOp? || op.SetProfileOp?
    || op.SetVisibilityOp? || op.SetContextOp?
  }

  lemma BindingOpKeepsInv(s: State, op: Op)
    requires Inv(s) && WellFormed(op) && BindingOp(op)
    ensures Inv(ApplyRouting(s, op))
  {
    PresetsAreNamed(s);
    hide Inv, BindThread, BindThreadWithCwd, ClearBinding, SetProfile, SetVisibility, Put, RouteOk, ThreadOk, BindingOf;
    match op
    case GetBinding(r) => PutKeepsBindings(s, r, BindingOf(s.bindings, r));
    case BindOp(r, thread) => BindKeepsInv(s, r, thread);
    case BindWithCwdOp(r, thread, cwd) => BindWithCwdKeepsInv(s, r, thread, cwd);
    case ClearOp(r) => ClearKeepsInv(s, r);
    case SetCwdOp(r, cwd) => PutKeepsBindings(s, r, BindingOf(s.bindings, r).(cwd := Some(cwd), thread := None));
    case SetProfileOp(r, profile) => ProfileKeepsInv(s, r, profile);
    case SetVisibilityOp(r, what, enabled) => VisibilityKeepsInv(s, r, what, enabled);
    case SetContextOp(r, context) => PutKeepsBindings(s, r, BindingOf(s.bindings, r).(context := context));
  }

  lemma RoutingKeepsInv(s: State, op: Op)
    requires Inv(s) && WellFormed(op) && !DeliveryOp(op)
    ensures Inv(ApplyRouting(s, op))
  {
    hide Inv, ProjectRequest, DiscardWatch, NoteActiveTurn, WellFormed;
    if BindingOp(op) {
      hide ApplyRouting;
      BindingOpKeepsInv(s, op);
    } else {
      match op
      case RequestOp(id, thread, turn, kind, epoch) => RequestKeepsInv(s, id, thread, turn, kind, epoch);
      case NoteActiveTurnOp(t, status, now) => ActiveTurnKeepsInv(s, t, status, now);
      case DiscardWatchOp(t) => DiscardKeepsInv(s, t);
      case RemoveRequestOp(id) => FewerRequestsKeepInv(s, RemoveRequest(s, id));
      case RemoveRequestsForTurnOp(t) => FewerRequestsKeepInv(s, RemoveRequestsForTurn(s, t));
      case InvalidateOp(epoch) => FewerRequestsKeepInv(s, Invalidate(s, epoch));
      case CompleteTurnOp(t) => FewerRequestsKeepInv(s, CompleteTurn(s, t));
      case ClearActiveTurnOp(thread) => FewerRequestsKeepInv(s, s.(active := s.active - {thread}));
      case SuppressOp(t) => FewerRequestsKeepInv(s, Suppress(s, t));
    }
  }

  lemma ApplyKeepsInv(s: State, op: Op, legacyId: Message -> Id)
    requires Inv(s) && WellFormed(op)
    ensures Inv(Apply(s, op, legacyId))
  {
    hide Inv, Stage, UpdateMessage, Complete, Reload, ApplyRouting, RouteOk, ThreadOk;
    match op
    case StageOp(id, t, message, now) => StageKeepsInv(s, id, t, message, now);
    case UpdateMessageOp(id, message) => UpdateKeepsInv(s, id, message);
    case CompleteOp(id) => CompleteKeepsInv(s, id);
    case Restart => RestartIsRestored(s, legacyId);
    case _ => RoutingKeepsInv(s, op);
  }

  lemma PresetsAreNamed(s: State)
    requires Inv(s)
    ensures forall r :: BindingOf(s.bindings, r).profile != ""
  {
  }

  ghost predicate AllWellFormed(ops: seq<Op>) {
    forall i :: 0 <= i < |ops| ==> WellFormed(ops[i])
  }

  // The store after a sequence of operations on a new one.
  ghost function Run(ops: seq<Op>, legacyId: Message -> Id): (s: State)
    requires AllWellFormed(ops)
    ensures Inv(s)
  {
    if ops == [] then Init()
    else
      var before := Run(ops[..|ops| - 1], legacyId);
      ApplyKeepsInv(before, ops[|ops| - 1], legacyId);
      Apply(before, ops[|ops| - 1], legacyId)
  }

  lemma RunStep(ops: seq<Op>, legacyId: Message -> Id)
    requires AllWellFormed(ops) && ops != []
    ensures Run(ops, legacyId) == Apply(Run(ops[..|ops| - 1], legacyId), ops[|ops| - 1], legacyId)
  {
  }

  // The thread is bound to r and to no other conversation, its recipient route names r, and so does
  // the route of every pending native request of the thread.
  ghost predicate BelongsTo(s: State, thread: Id, r: Route) {
    && thread != "" && BoundTo(s, thread) == Some(r)
    && (forall q :: BindingOf(s.bindings, q).thread == Some(thread) <==> q == r)
    && thread in s.routes.vals && s.routes.vals[thread] == r
    && (forall id :: id in s.requests && s.requests[id].thread == Some(thread) ==> s.requests[id].route == r)
  }

  lemma BoundBelongs(s: State, r: Route, thread: Id)
    requires Inv(s) && BindingOf(s.bindings, r).thread == Some(thread)
    ensures BelongsTo(s, thread, r)
  {
    BoundIsUnique(s, r, thread);
  }

  /** Whatever rebinds, steals, clears, `/cwd` changes, saves and reloads came before, a bound thread
      belongs to one conversation. */
  lemma ThreadHasOneConversation(ops: seq<Op>, legacyId: Message -> Id, r: Route, thread: Id)
    requires AllWellFormed(ops) && BindingOf(Run(ops, legacyId).bindings, r).thread == Some(thread)
    ensures BelongsTo(Run(ops, legacyId), thread, r)
  {
    BoundBelongs(Run(ops, legacyId), r, thread);
  }

  /** Behind a restart the store is what loading its snapshot gives: the same binding of every conversation,
      though defaults are not saved, the same routes, watches and outbox, and exactly the
      acknowledgements that are standalone or whose turn still has a watch, in their old order. */
  lemma RestartIsInvisible(ops: seq<Op>, legacyId: Message -> Id)
    requires AllWellFormed(ops)
    ensures AllWellFormed(ops + [Restart])
    ensures var s, s' := Run(ops, legacyId), Run(ops + [Restart], legacyId);
      && Load(Save(s), legacyId) == Ok(s') && Inv(s')
      && (forall r :: BindingOf(s'.bindings, r) == BindingOf(s.bindings, r))
      && s'.routes.vals == s.routes.vals
      && s'.watches == s.watches
      && Listing(s') == Listing(s)
      && s'.acks.keys == Only(s.acks.keys, s'.acks.vals.Keys)
      && (forall id :: id in s'.acks.vals <==>
            id in s.acks.vals && (s.acks.vals[id] == NO_TURN || s.acks.vals[id] in s.watches.vals))
      && (forall id :: id in s'.acks.vals ==> s'.acks.vals[id] == s.acks.vals[id])
      && (forall id :: id in s.acks.vals && s.acks.vals[id] == NO_TURN ==>
            (id in s'.outcomes <==> id in s.outcomes) && (id in s.outcomes ==> s'.outcomes[id] == s.outcomes[id]))
      && s'.requests == map[] && s'.active == map[] && s'.suppressed == {}
  {
    var s := Run(ops, legacyId);
    RestartedRun(ops, legacyId);
    LoadGivesRestored(s, legacyId);
    RestoredKeepsInv(s);
    RestoredBindings(s);
    RestoredAcks(s);
    ListingIsEntries(s);
    ListingIsEntries(Restored(s));
  }

  lemma RestartedRun(ops: seq<Op>, legacyId: Message -> Id)
    requires AllWellFormed(ops)
    ensures AllWellFormed(ops + [Restart])
    ensures Run(ops + [Restart], legacyId) == Restored(Run(ops, legacyId))
  {
    hide Restored, Inv;
    assert (ops + [Restart])[..|ops|] == ops;
    RestartIsRestored(Run(ops, legacyId), legacyId);
  }

  lemma RestoredBindings(s: State)
    requires Inv(s)
    ensures forall r :: BindingOf(Restored(s).bindings, r) == BindingOf(s.bindings, r)
  {
  }

  lemma RestoredAcks(s: State)
    requires Inv(s)
    ensures var s' := Restored(s);
      && s'.acks.keys == Only(s.acks.keys, s'.acks.vals.Keys)
      && (forall id :: id in s'.acks.vals <==>
            id in s.acks.vals && (s.acks.vals[id] == NO_TURN || s.acks.vals[id] in s.watches.vals))
      && (forall id :: id in s'.acks.vals ==> s'.acks.vals[id] == s.acks.vals[id])
      && (forall id :: id in s.acks.vals && s.acks.vals[id] == NO_TURN ==>
            (id in s'.outcomes <==> id in s.outcomes) && (id in s.outcomes ==> s'.outcomes[id] == s.outcomes[id]))
  {
    var s' := Restored(s);
    assert s'.acks.vals.Keys == Kept(s.acks.vals, s.watches);
    forall id | id in s.acks.vals && s.acks.vals[id] == NO_TURN
      ensures id in s'.outcomes <==> id in s.outcomes
    {
      assert id in s.acks.keys;
    }
  }

  // ---- The outbox over a run ----

  // The ids owed after a run: staged in this order and not completed since.
  function Owed(ops: seq<Op>): seq<Id> {
    if ops == [] then []
    else
      var before := Owed(ops[..|ops| - 1]);
      match ops[|ops| - 1]
      case StageOp(id, _, _, _) => if id == "" || id in before then before else before + [id]
      case CompleteOp(id) => Only(before, (set k | k in before) - {id})
      case _ => before
  }

  ghost predicate Ascending(entries: seq<Listed>) {
    forall i, j :: 0 <= i < j < |entries| ==> entries[i].pending.sequence < entries[j].pending.sequence
  }

  lemma {:induction false} ListingSortsNothing(entries: seq<Listed>)
    requires Ascending(entries)
    ensures Sorted(entries) == entries
  {
    if entries != [] {
      var front, last := entries[..|entries| - 1], entries[|entries| - 1];
      assert Ascending(front);
      ListingSortsNothing(front);
      if front != [] { assert entries[|front| - 1].pending.sequence < last.pending.sequence; }
      assert Insert(front, last) == front + [last];
      assert entries == front + [last];
    }
  }

  lemma ListingIsEntries(s: State)
    requires Inv(s)
    ensures Listing(s) == Entries(s.outbox)
  {
    ListingSortsNothing(Entries(s.outbox));
  }

  lemma RoutingKeepsOutbox(s: State, op: Op)
    requires !DeliveryOp(op)
    ensures ApplyRouting(s, op).outbox == s.outbox
  {
    hide OrderedDict.Only, Find, Stolen, Rerouted;
  }

  // No operation but a fresh stage and a completion changes which ids are in the outbox.
  lemma OutboxStep(s: State, op: Op, legacyId: Message -> Id)
    requires Inv(s) && WellFormed(op)
    ensures Apply(s, op, legacyId).outbox.keys ==
      match op
      case StageOp(id, _, _, _) => if id == "" || id in s.outbox.keys then s.outbox.keys else s.outbox.keys + [id]
      case CompleteOp(id) => Only(s.outbox.keys, s.outbox.vals.Keys - {id})
      case _ => s.outbox.keys
  {
    hide ApplyRouting, Reload;
    if op.Restart? {
      RestartIsRestored(s, legacyId);
    } else if !DeliveryOp(op) {
      RoutingKeepsOutbox(s, op);
    } else if op.CompleteOp? && op.id !in s.outbox.vals {
      OnlyAll(s.outbox.keys, s.outbox.vals.Keys - {op.id});
    }
  }

  /** Listing the outbox gives exactly the staged and uncompleted deliveries, in staging order, also
      across saves and reloads. */
  lemma ListingIsStagingOrder(ops: seq<Op>, legacyId: Message -> Id)
    requires AllWellFormed(ops)
    ensures var listing := Listing(Run(ops, legacyId));
      |listing| == |Owed(ops)| && forall i :: 0 <= i < |listing| ==> listing[i].id == Owed(ops)[i]
  {
    ListingIsEntries(Run(ops, legacyId));
    OutboxIsOwed(ops, legacyId);
  }

  lemma {:induction false} OutboxIsOwed(ops: seq<Op>, legacyId: Message -> Id)
    requires AllWellFormed(ops)
    ensures Run(ops, legacyId).outbox.keys == Owed(ops)
  {
    if ops != [] {
      hide Apply, Only;
      var before := Run(ops[..|ops| - 1], legacyId);
      RunStep(ops, legacyId);
      OutboxIsOwed(ops[..|ops| - 1], legacyId);
      KeysAreVals(before);
      hide Inv, Run;
      OutboxStep(before, ops[|ops| - 1], legacyId);
    }
  }

  lemma KeysAreVals(s: State)
    requires Inv(s)
    ensures s.outbox.vals.Keys == set k | k in s.outbox.keys
  {
  }

  // What an operation can do to one staged delivery.
  lemma StagedStep(s: State, op: Op, legacyId: Message -> Id, id: Id)
    requires Inv(s) && WellFormed(op) && id in s.outbox.vals && op != CompleteOp(id)
    ensures var s' := Apply(s, op, legacyId);
      && id in s'.outbox.vals
      && (if op.UpdateMessageOp? && op.id == id then s'.outbox.vals[id] == s.outbox.vals[id].(message := op.message)
          else s'.outbox.vals[id] == s.outbox.vals[id])
  {
    hide ApplyRouting, Reload, Complete, Inv, WellFormed;
    if op.Restart? {
      RestartIsRestored(s, legacyId);
    } else if !DeliveryOp(op) {
      RoutingKeepsOutbox(s, op);
    } else if op.CompleteOp? {
      if op.id in s.outbox.vals { CompletedOutbox(s, op.id); } else { CompletesNothing(s, op.id); }
    }
  }

  lemma CompletedOutbox(s: State, id: Id)
    requires id in s.outbox.vals
    ensures Complete(s, id).outbox == s.outbox.Pop(id)
    ensures Complete(s, id).acks == Prune(s.(acks := s.acks.Put(id, s.outbox.vals[id].turn))).acks
  {
  }

  /** A staged delivery stays in the outbox until it is completed, and no re-staging, rebinding or
      reload replaces it: without an explicit message update it is unchanged. */
  lemma {:induction false} StagedUntilCompleted(ops: seq<Op>, more: seq<Op>, legacyId: Message -> Id, id: Id)
    requires AllWellFormed(ops) && AllWellFormed(ops + more) && id in Run(ops, legacyId).outbox.vals
    requires CompleteOp(id) !in more
    ensures id in Run(ops + more, legacyId).outbox.vals
    ensures (forall m :: UpdateMessageOp(id, m) !in more) ==>
      Run(ops + more, legacyId).outbox.vals[id] == Run(ops, legacyId).outbox.vals[id]
    decreases |more|
  {
    if more == [] {
      assert ops + more == ops;
    } else {
      var front, last := more[..|more| - 1], more[|more| - 1];
      var all := ops + more;
      assert all[..|all| - 1] == ops + front && all[|all| - 1] == last;
      assert last in more && forall op :: op in front ==> op in more;
      hide Apply, Inv, Run;
      StagedUntilCompleted(ops, front, legacyId, id);
      RunStep(all, legacyId);
      StagedStep(Run(ops + front, legacyId), last, legacyId, id);
    }
  }

  // ---- Acknowledgements over a run ----

  // Every completion that took effect, with the turn it was staged for.
  ghost function Completions(ops: seq<Op>, legacyId: Message -> Id): seq<(Id, Turn)>
    requires AllWellFormed(ops)
  {
    if ops == [] then []
    else
      var front := ops[..|ops| - 1];
      var before := Run(front, legacyId).outbox;
      match ops[|ops| - 1]
      case CompleteOp(id) =>
        if id in before.vals then Completions(front, legacyId) + [(id, before.vals[id].turn)]
        else Completions(front, legacyId)
      case _ => Completions(front, legacyId)
  }

  // The standalone ones among them, in order.
  function Lone(completions: seq<(Id, Turn)>): seq<Id> {
    if completions == [] then []
    else
      var last := completions[|completions| - 1];
      Lone(completions[..|completions| - 1]) + (if last.1 == NO_TURN then [last.0] else [])
  }

  // Every completion that took effect found its id not acknowledged.
  ghost predicate NotAcknowledgedYet(ops: seq<Op>, legacyId: Message -> Id)
    requires AllWellFormed(ops)
  {
    ops != [] ==>
      var front, last := ops[..|ops| - 1], ops[|ops| - 1];
      var before := Run(front, legacyId);
      && NotAcknowledgedYet(front, legacyId)
      && (last.CompleteOp? && last.id in before.outbox.vals ==> last.id !in before.acks.vals)
  }

  lemma StandalonePut(acks: Dict<Id, Turn>, id: Id, turn: Turn)
    requires id !in acks.vals && acks.Valid()
    ensures Standalone(acks.Put(id, turn)) == Standalone(acks) + (if turn == NO_TURN then [id] else [])
  {
    var acks' := acks.Put(id, turn);
    var lone := set k | k in acks.vals && acks.vals[k] == NO_TURN;
    var lone' := set k | k in acks'.vals && acks'.vals[k] == NO_TURN;
    OnlyAppend(acks.keys, id, lone');
    OnlySame(acks.keys, lone, lone');
  }

  lemma StandaloneUntouched(acks: Dict<Id, Turn>, ks: set<Id>)
    requires forall id :: id in acks.vals && acks.vals[id] == NO_TURN ==> id in ks
    ensures Standalone(acks.Keep(ks)) == Standalone(acks)
  {
    StandaloneKeep(acks, ks);
    OnlyAll(Standalone(acks), ks);
  }

  // Operations that complete nothing leave the standalone acknowledgements alone and add none.
  lemma AcksStep(s: State, op: Op, legacyId: Message -> Id)
    requires Inv(s) && WellFormed(op) && !op.CompleteOp?
    ensures Standalone(Apply(s, op, legacyId).acks) == Standalone(s.acks)
    ensures Apply(s, op, legacyId).acks.vals.Keys <= s.acks.vals.Keys
  {
    hide Inv, Standalone, ApplyRouting, ApplyDelivery;
    if BindingOp(op) {
      BindingAcksStep(s, op);
    } else {
      OtherAcksStep(s, op, legacyId);
    }
  }

  lemma BindingAcksStep(s: State, op: Op)
    requires Inv(s) && WellFormed(op) && BindingOp(op)
    ensures Standalone(ApplyRouting(s, op).acks) == Standalone(s.acks)
    ensures ApplyRouting(s, op).acks.vals.Keys <= s.acks.vals.Keys
  {
    hide BindThread, ClearBinding, Standalone, Inv;
    match op
    case BindOp(r, thread) => BindAcks(s, r, thread);
    case BindWithCwdOp(r, thread, cwd) => BindAcks(s, r, thread);
    case ClearOp(r) => ClearAcks(s, r);
    case _ =>
  }

  lemma OtherAcksStep(s: State, op: Op, legacyId: Message -> Id)
    requires Inv(s) && WellFormed(op) && !op.CompleteOp? && !BindingOp(op)
    ensures Standalone(Apply(s, op, legacyId).acks) == Standalone(s.acks)
    ensures Apply(s, op, legacyId).acks.vals.Keys <= s.acks.vals.Keys
  {
    hide ProjectRequest, DiscardWatch, NoteActiveTurn, Reload, Standalone, Inv;
    match op
    case DiscardWatchOp(t) => DiscardAcks(s, t);
    case NoteActiveTurnOp(t, status, now) => NoteAcks(s, t, status, now);
    case RequestOp(id, thread, turn, kind, epoch) => RequestAcks(s, id, thread, turn, kind, epoch);
    case Restart => RestartAcks(s, legacyId);
    case _ =>
  }

  lemma RestartAcks(s: State, legacyId: Message -> Id)
    requires Inv(s)
    ensures Standalone(Reload(s, legacyId).acks) == Standalone(s.acks)
    ensures Reload(s, legacyId).acks.vals.Keys <= s.acks.vals.Keys
  {
    RestartIsRestored(s, legacyId);
    StandaloneUntouched(s.acks, Kept(s.acks.vals, s.watches));
  }

  lemma NoteAcks(s: State, t: Turn, status: string, now: int)
    ensures NoteActiveTurn(s, t, status, now).acks == s.acks
  {
  }

  lemma RequestAcks(s: State, id: Id, thread: Id, turn: Id, kind: string, epoch: nat)
    ensures ProjectRequest(s, id, thread, turn, kind, epoch).acks == s.acks
  {
  }

  lemma ClearAcks(s: State, r: Route)
    requires Inv(s)
    ensures Standalone(ClearBinding(s, r).acks) == Standalone(s.acks)
    ensures ClearBinding(s, r).acks.vals.Keys <= s.acks.vals.Keys
  {
    var thread := BindingOf(s.bindings, r).thread;
    if thread.Some? { WithoutThreadAcks(s, thread.value); }
  }

  lemma DiscardAcks(s: State, t: Turn)
    requires t.thread != ""
    ensures Standalone(DiscardWatch(s, t).acks) == Standalone(s.acks)
    ensures DiscardWatch(s, t).acks.vals.Keys <= s.acks.vals.Keys
  {
    StandaloneUntouched(s.acks, set id | id in s.acks.vals && s.acks.vals[id] != t);
  }

  lemma WithoutThreadAcks(s: State, thread: Id)
    requires thread != ""
    ensures Standalone(WithoutThread(s, thread).acks) == Standalone(s.acks)
    ensures WithoutThread(s, thread).acks.vals.Keys <= s.acks.vals.Keys
  {
    StandaloneUntouched(s.acks, set id | id in s.acks.vals && s.acks.vals[id].thread != thread);
  }

  lemma BindAcks(s: State, r: Route, thread: Id)
    ensures Standalone(BindThread(s, r, thread).acks) == Standalone(s.acks)
    ensures BindThread(s, r, thread).acks.vals.Keys <= s.acks.vals.Keys
  {
    var previous := BindingOf(Stolen(s.bindings, r, thread), r).thread;
    var bound := BindThread(s, r, thread);
    if previous.Some? && previous.value != "" && previous.value != thread {
      WithoutThreadAcks(s, previous.value);
      assert bound.acks == WithoutThread(s, previous.value).acks;
    }
  }

  lemma NewestAppend(ids: seq<Id>, id: Id)
    ensures Newest(Newest(ids, ACK_LIMIT) + [id], ACK_LIMIT) == Newest(ids + [id], ACK_LIMIT)
    ensures Newest(Newest(ids, ACK_LIMIT), ACK_LIMIT) == Newest(ids, ACK_LIMIT)
  {
    var newest := Newest(ids, ACK_LIMIT);
    if |ids| > ACK_LIMIT {
      assert (newest + [id])[1..] == (ids + [id])[|ids| - ACK_LIMIT + 1..];
    } else {
      assert newest == ids;
    }
  }

  lemma CompletionIsNewest(s: State, id: Id, done: seq<(Id, Turn)>)
    requires s.acks.Valid() && id in s.outbox.vals && id !in s.acks.vals
    requires Standalone(s.acks) == Newest(Lone(done), ACK_LIMIT)
    ensures Standalone(Complete(s, id).acks) == Newest(Lone(done + [(id, s.outbox.vals[id].turn)]), ACK_LIMIT)
  {
    var turn := s.outbox.vals[id].turn;
    var put := s.(acks := s.acks.Put(id, turn));
    assert Complete(s, id).acks == Prune(put).acks;
    s.acks.PutValid(id, turn);
    PruneKeepsNewest(put);
    StandalonePut(s.acks, id, turn);
    hide Prune, Standalone, Newest, Complete;
    NewestLone(done, id, turn);
  }

  lemma NewestLone(done: seq<(Id, Turn)>, id: Id, turn: Turn)
    ensures Newest(Newest(Lone(done), ACK_LIMIT) + (if turn == NO_TURN then [id] else []), ACK_LIMIT) ==
      Newest(Lone(done + [(id, turn)]), ACK_LIMIT)
  {
    hide Newest;
    LoneAppend(done, id, turn);
    NewestAppend(Lone(done), id);
    assert Newest(Lone(done), ACK_LIMIT) + [] == Newest(Lone(done), ACK_LIMIT);
    assert Lone(done) + [] == Lone(done);
  }

  lemma LoneAppend(done: seq<(Id, Turn)>, id: Id, turn: Turn)
    ensures Lone(done + [(id, turn)]) == Lone(done) + (if turn == NO_TURN then [id] else [])
  {
    assert (done + [(id, turn)])[..|done|] == done;
  }

  /** As long as no acknowledged delivery is staged and completed again, the store keeps exactly the
      newest 512 standalone acknowledgements of the whole run, in order. An id whose acknowledgement is
      gone may come again. */
  lemma {:induction false} AcksAreTheNewest(ops: seq<Op>, legacyId: Message -> Id)
    requires AllWellFormed(ops) && NotAcknowledgedYet(ops, legacyId)
    ensures Standalone(Run(ops, legacyId).acks) == Newest(Lone(Completions(ops, legacyId)), 512)
  {
    if ops == [] {
      NothingAcknowledged(legacyId);
    } else {
      var front, last := ops[..|ops| - 1], ops[|ops| - 1];
      AcksAreTheNewest(front, legacyId);
      CompletionsLast(ops, legacyId);
      RunStep(ops, legacyId);
      hide Run, Completions, Standalone, Newest, NotAcknowledgedYet;
      AcksOfStep(Run(front, legacyId), last, legacyId, Completions(front, legacyId));
    }
  }

  lemma NothingAcknowledged(legacyId: Message -> Id)
    ensures Standalone(Run([], legacyId).acks) == Newest(Lone(Completions([], legacyId)), ACK_LIMIT)
  {
  }

  lemma AcksOfStep(s: State, op: Op, legacyId: Message -> Id, done: seq<(Id, Turn)>)
    requires Inv(s) && WellFormed(op) && Standalone(s.acks) == Newest(Lone(done), ACK_LIMIT)
    requires op.CompleteOp? && op.id in s.outbox.vals ==> op.id !in s.acks.vals
    ensures Standalone(Apply(s, op, legacyId).acks) == Newest(Lone(done + Completed(s, op)), ACK_LIMIT)
  {
    assert s.acks.Valid() by { hide BindingsOk, RequestsOk, WatchesOk, OutboxOk; }
    hide Inv, Complete, Standalone, Newest, ApplyRouting, Reload;
    assert done + [] == done;
    if !op.CompleteOp? {
      AcksStep(s, op, legacyId);
    } else if op.id in s.outbox.vals {
      CompletionIsNewest(s, op.id, done);
    } else {
      CompletesNothing(s, op.id);
    }
  }

  // What one operation completes.
  function Completed(s: State, op: Op): seq<(Id, Turn)> {
    if op.CompleteOp? && op.id in s.outbox.vals then [(op.id, s.outbox.vals[op.id].turn)] else []
  }

  lemma CompletionsLast(ops: seq<Op>, legacyId: Message -> Id)
    requires AllWellFormed(ops) && ops != []
    ensures var front, last := ops[..|ops| - 1], ops[|ops| - 1];
      Completions(ops, legacyId) == Completions(front, legacyId) + Completed(Run(front, legacyId), last)
  {
    hide Run;
    var done := Completions(ops[..|ops| - 1], legacyId);
    assert done + [] == done;
  }

  lemma CompletesNothing(s: State, id: Id)
    requires id !in s.outbox.vals
    ensures Complete(s, id) == s
  {
  }

  /** Pruning never removes the acknowledgement of a native turn. */
  lemma TurnAcksSurviveCompletion(s: State, id: Id, other: Id)
    requires Inv(s) && other in s.acks.vals && s.acks.vals[other] != NO_TURN && other != id
    ensures other in Complete(s, id).acks.vals && Complete(s, id).acks.vals[other] == s.acks.vals[other]
  {
    if id in s.outbox.vals {
      assert s.acks.Valid();
      CompletedOutbox(s, id);
      hide Inv, Complete, Prune, Standalone, Newest;
      s.acks.PutValid(id, s.outbox.vals[id].turn);
      PruneKeepsNewest(s.(acks := s.acks.Put(id, s.outbox.vals[id].turn)));
    } else {
      CompletesNothing(s, id);
    }
  }
}
