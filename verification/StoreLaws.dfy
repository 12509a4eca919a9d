/** What the operations of the bridge store mean to their callers, and which files it refuses. */
module StoreLaws {
  import opened Prelude
  import opened OrderedDict
  import opened StoreModel
  import opened StoreRuns
  import Text

  // ---- Letting go of a thread ----

  // Only the binding of r changed.
  ghost predicate OthersKeepBindings(s: State, s': State, r: Route) {
    forall q :: q != r ==> BindingOf(s'.bindings, q) == BindingOf(s.bindings, q)
  }

  // Exactly the watches and acknowledgements of the thread are gone, if there is one; the others keep
  // their values and their order.
  ghost predicate DropsThread(s: State, s': State, gone: Option<Id>) {
    DropsWatches(s.watches, s'.watches, gone) && DropsAcks(s.acks, s'.acks, gone)
  }

  ghost predicate DropsWatches(d: Dict<Turn, int>, d': Dict<Turn, int>, gone: Option<Id>) {
    && (forall t :: t in d'.vals <==> t in d.vals && gone != Some(t.thread))
    && (forall t :: t in d'.vals ==> d'.vals[t] == d.vals[t])
    && d'.keys == Only(d.keys, d'.vals.Keys)
  }

  ghost predicate DropsAcks(d: Dict<Id, Turn>, d': Dict<Id, Turn>, gone: Option<Id>) {
    && (forall id :: id in d'.vals <==> id in d.vals && gone != Some(d.vals[id].thread))
    && (forall id :: id in d'.vals ==> d'.vals[id] == d.vals[id])
    && d'.keys == Only(d.keys, d'.vals.Keys)
  }

  // No conversation has the thread, if there is one.
  ghost predicate BoundNowhere(s: State, gone: Option<Id>) {
    gone.Some? ==> forall r :: BindingOf(s.bindings, r).thread != gone
  }

  // The thread r gives up when it is bound to another one.
  function GivenUp(s: State, r: Route, thread: Id): Option<Id> {
    var was := BindingOf(s.bindings, r).thread;
    if was == Some(thread) then None else was
  }

  // What `bind_thread` does: the thread is r's alone, what r gives up is let go of, and nothing else
  // changes.
  ghost predicate HandedOver(s: State, s': State, r: Route, thread: Id) {
    && BelongsTo(s', thread, r)
    && (forall q :: BindingOf(s'.bindings, q) == BoundBinding(s, q, r, thread))
    && s'.routes.vals == s.routes.vals[thread := r]
    && s'.requests.Keys == s.requests.Keys
    && (forall id :: id in s.requests ==> s'.requests[id] == RoutedTo(s.requests[id], r, thread))
    && BoundNowhere(s', GivenUp(s, r, thread)) && DropsThread(s, s', GivenUp(s, r, thread))
    && s' == s.(bindings := s'.bindings, routes := s'.routes, requests := s'.requests,
                watches := s'.watches, acks := s'.acks)
  }

  // The binding of q once the thread is r's.
  function BoundBinding(s: State, q: Route, r: Route, thread: Id): Binding {
    var b := BindingOf(s.bindings, q);
    if q == r then b.(thread := Some(thread)) else if b.thread == Some(thread) then b.(thread := None) else b
  }

  function RoutedTo(request: Request, r: Route, thread: Id): Request {
    if request.thread == Some(thread) then request.(route := r) else request
  }

  /** Binding gives the thread to r alone, together with its requests and its recipient route. The
      thread r had before, if it is another one, is bound nowhere and leaves no watch and no
      acknowledgement; every other watch, acknowledgement, conversation, request and staged delivery is
      as before, and so is every turn, also when r had the thread already. */
  lemma BindHandsOver(s: State, r: Route, thread: Id)
    requires Inv(s) && RouteOk(r) && ThreadOk(thread)
    ensures HandedOver(s, BindThread(s, r, thread), r, thread)
  {
    var s' := BindThread(s, r, thread);
    BindKeepsInv(s, r, thread);
    GivenUpIsNamed(s, r, thread);
    hide *;
    BindingsAfterBind(s, r, thread);
    BoundToR(s, s', r, thread);
    RequestsAfterBind(s, r, thread);
    DropsAfterBind(s, r, thread);
    GivenUpAfterBind(s, r, thread);
    RestAfterBind(s, r, thread);
    HandedOverBy(s, s', r, thread);
  }

  lemma BoundToR(s: State, s': State, r: Route, thread: Id)
    requires Inv(s') && forall q :: BindingOf(s'.bindings, q) == BoundBinding(s, q, r, thread)
    ensures BelongsTo(s', thread, r)
  {
    hide Inv, BelongsTo, BindingOf;
    assert BindingOf(s'.bindings, r).thread == Some(thread);
    BoundBelongs(s', r, thread);
  }

  lemma HandedOverBy(s: State, s': State, r: Route, thread: Id)
    requires BelongsTo(s', thread, r)
    requires forall q :: BindingOf(s'.bindings, q) == BoundBinding(s, q, r, thread)
    requires s'.routes.vals == s.routes.vals[thread := r] && s'.requests.Keys == s.requests.Keys
    requires forall id :: id in s.requests ==> s'.requests[id] == RoutedTo(s.requests[id], r, thread)
    requires BoundNowhere(s', GivenUp(s, r, thread)) && DropsThread(s, s', GivenUp(s, r, thread))
    requires s' == s.(bindings := s'.bindings, routes := s'.routes, requests := s'.requests,
                      watches := s'.watches, acks := s'.acks)
    ensures HandedOver(s, s', r, thread)
  {
    hide BelongsTo, BoundBinding, BindingOf, GivenUp, BoundNowhere, DropsThread, RoutedTo;
  }

  lemma GivenUpIsNamed(s: State, r: Route, thread: Id)
    requires Inv(s)
    ensures GivenUp(s, r, thread) != Some("")
  {
  }

  lemma BindingsAfterBind(s: State, r: Route, thread: Id)
    ensures forall q :: BindingOf(BindThread(s, r, thread).bindings, q) == BoundBinding(s, q, r, thread)
  {
    hide WithoutThread;
    forall q ensures BindingOf(BoundBindings(s, r, thread), q) == BoundBinding(s, q, r, thread) {
      if q != r { StolenElsewhere(s.bindings, r, thread, q); }
    }
    BindingsAreBound(s, r, thread);
  }

  function BoundBindings(s: State, r: Route, thread: Id): Dict<Route, Binding> {
    var stolen := Stolen(s.bindings, r, thread);
    stolen.Put(r, BindingOf(stolen, r).(thread := Some(thread)))
  }

  lemma BindingsAreBound(s: State, r: Route, thread: Id)
    ensures BindThread(s, r, thread).bindings == BoundBindings(s, r, thread)
  {
    hide Only;
  }

  lemma RequestsAfterBind(s: State, r: Route, thread: Id)
    ensures var requests := BindThread(s, r, thread).requests;
      && requests.Keys == s.requests.Keys
      && forall id :: id in s.requests ==> requests[id] == RoutedTo(s.requests[id], r, thread)
  {
    hide Only, Stolen;
  }

  lemma RestAfterBind(s: State, r: Route, thread: Id)
    ensures var s' := BindThread(s, r, thread);
      && s'.routes.vals == s.routes.vals[thread := r]
      && s' == s.(bindings := s'.bindings, routes := s'.routes, requests := s'.requests,
                  watches := s'.watches, acks := s'.acks)
  {
    hide Only, Stolen, Rerouted;
  }

  // Nothing of a thread is left, and everything else.
  lemma WithoutThreadDrops(s: State, gone: Id)
    ensures DropsThread(s, WithoutThread(s, gone), Some(gone))
  {
    hide DropsWatches, DropsAcks, Dict.Keep;
    WatchesLeft(s.watches, gone);
    AcksLeft(s.acks, gone);
  }

  lemma WatchesLeft(d: Dict<Turn, int>, gone: Id)
    ensures DropsWatches(d, d.Keep(set t | t in d.vals && t.thread != gone), Some(gone))
  {
    hide Only;
    KeepOrder(d, set t | t in d.vals && t.thread != gone);
  }

  lemma AcksLeft(d: Dict<Id, Turn>, gone: Id)
    ensures DropsAcks(d, d.Keep(set id | id in d.vals && d.vals[id].thread != gone), Some(gone))
  {
    hide Only;
    KeepOrder(d, set id | id in d.vals && d.vals[id].thread != gone);
  }

  lemma KeepOrder<K(!new), V>(d: Dict<K, V>, ks: set<K>)
    requires ks <= d.vals.Keys
    ensures d.Keep(ks).keys == Only(d.keys, d.Keep(ks).vals.Keys)
  {
    hide Only;
    assert d.Keep(ks).vals.Keys == ks;
  }

  lemma DropsNothing(s: State, s': State)
    requires s.watches.Valid() && s.acks.Valid() && s'.watches == s.watches && s'.acks == s.acks
    ensures DropsThread(s, s', None)
  {
    OnlyAll(s.watches.keys, s.watches.vals.Keys);
    OnlyAll(s.acks.keys, s.acks.vals.Keys);
  }

  lemma DropsSame(s: State, s': State, s'': State, gone: Option<Id>)
    requires DropsThread(s, s', gone) && s''.watches == s'.watches && s''.acks == s'.acks
    ensures DropsThread(s, s'', gone)
  {
  }

  lemma DropsAfterBind(s: State, r: Route, thread: Id)
    requires Inv(s) && GivenUp(s, r, thread) != Some("")
    ensures DropsThread(s, BindThread(s, r, thread), GivenUp(s, r, thread))
  {
    var gone := GivenUp(s, r, thread);
    DeliveriesAfterBind(s, r, thread);
    hide BindThread, WithoutThread, DropsThread;
    if gone.Some? {
      WithoutThreadDrops(s, gone.value);
      DropsSame(s, WithoutThread(s, gone.value), BindThread(s, r, thread), gone);
    } else {
      DropsNothing(s, BindThread(s, r, thread));
    }
  }

  lemma DeliveriesAfterBind(s: State, r: Route, thread: Id)
    requires GivenUp(s, r, thread) != Some("")
    ensures var s', gone := BindThread(s, r, thread), GivenUp(s, r, thread);
      if gone.None? then s'.watches == s.watches && s'.acks == s.acks
      else s'.watches == WithoutThread(s, gone.value).watches && s'.acks == WithoutThread(s, gone.value).acks
  {
    hide Only, Rerouted;
  }

  lemma GivenUpAfterBind(s: State, r: Route, thread: Id)
    requires Inv(s)
    ensures BoundNowhere(BindThread(s, r, thread), GivenUp(s, r, thread))
  {
    var gone := GivenUp(s, r, thread);
    if gone.Some? {
      BoundBelongs(s, r, gone.value);
      BindingsAfterBind(s, r, thread);
      hide Inv, BindThread, BindingOf, BoundTo;
    }
  }

  // What `clear_thread_binding` does: nothing of the thread is left, and nothing else changes.
  ghost predicate Cleared(s: State, s': State, r: Route) {
    var gone := BindingOf(s.bindings, r).thread;
    && BindingOf(s'.bindings, r) == BindingOf(s.bindings, r).(thread := None)
    && OthersKeepBindings(s, s', r) && BoundNowhere(s', gone) && DropsThread(s, s', gone)
    && (forall k :: k in s'.active <==> k in s.active && gone != Some(k))
    && (forall k :: k in s'.active ==> s'.active[k] == s.active[k])
    && (forall t :: t in s'.suppressed <==> t in s.suppressed && gone != Some(t.thread))
    && s' == s.(bindings := s'.bindings, watches := s'.watches, acks := s'.acks,
                active := s'.active, suppressed := s'.suppressed)
  }

  /** Clearing leaves nothing of the thread but its staged deliveries and pending requests, and touches
      nothing else. */
  lemma ClearForgets(s: State, r: Route)
    requires Inv(s)
    ensures Cleared(s, ClearBinding(s, r), r)
  {
    ClearedBinding(s, r);
    ClearedTurns(s, r);
    ClearedDrops(s, r);
    ClearedBound(s, r);
    hide ClearBinding, DropsThread, OthersKeepBindings, BoundNowhere, BindingOf, Inv;
  }

  lemma ClearedBinding(s: State, r: Route)
    ensures var s' := ClearBinding(s, r);
      && BindingOf(s'.bindings, r) == BindingOf(s.bindings, r).(thread := None)
      && OthersKeepBindings(s, s', r)
  {
    hide Only;
  }

  lemma ClearedTurns(s: State, r: Route)
    ensures var s', gone := ClearBinding(s, r), BindingOf(s.bindings, r).thread;
      && (forall k :: k in s'.active <==> k in s.active && gone != Some(k))
      && (forall k :: k in s'.active ==> s'.active[k] == s.active[k])
      && (forall t :: t in s'.suppressed <==> t in s.suppressed && gone != Some(t.thread))
      && s' == s.(bindings := s'.bindings, watches := s'.watches, acks := s'.acks,
                  active := s'.active, suppressed := s'.suppressed)
  {
    hide Only;
  }

  lemma ClearedDrops(s: State, r: Route)
    requires Inv(s)
    ensures DropsThread(s, ClearBinding(s, r), BindingOf(s.bindings, r).thread)
  {
    var gone := BindingOf(s.bindings, r).thread;
    ClearedDeliveries(s, r);
    hide ClearBinding, WithoutThread, DropsThread;
    if gone.Some? {
      WithoutThreadDrops(s, gone.value);
      DropsSame(s, WithoutThread(s, gone.value), ClearBinding(s, r), gone);
    } else {
      DropsNothing(s, ClearBinding(s, r));
    }
  }

  lemma ClearedDeliveries(s: State, r: Route)
    ensures var s', gone := ClearBinding(s, r), BindingOf(s.bindings, r).thread;
      if gone.None? then s'.watches == s.watches && s'.acks == s.acks
      else s'.watches == WithoutThread(s, gone.value).watches && s'.acks == WithoutThread(s, gone.value).acks
  {
    hide Only;
  }

  lemma ClearedBound(s: State, r: Route)
    requires Inv(s)
    ensures BoundNowhere(ClearBinding(s, r), BindingOf(s.bindings, r).thread)
  {
    var gone := BindingOf(s.bindings, r).thread;
    ClearedBinding(s, r);
    if gone.Some? {
      BoundBelongs(s, r, gone.value);
      hide Inv, ClearBinding, BindingOf, BoundTo;
    }
  }

  // What `set_bootstrap_cwd` does: r's thread is unbound, but stays watched.
  ghost predicate Unbound(s: State, s': State, r: Route, cwd: string) {
    && BindingOf(s'.bindings, r) == BindingOf(s.bindings, r).(thread := None, cwd := Some(cwd))
    && OthersKeepBindings(s, s', r)
    && (forall was :: BindingOf(s.bindings, r).thread == Some(was) ==> BoundTo(s', was) == None)
    && s' == s.(bindings := s'.bindings)
  }

  /** After `/cwd` the thread the conversation had is bound nowhere. */
  lemma SetCwdUnbinds(s: State, r: Route, cwd: string)
    requires Inv(s)
    ensures Unbound(s, SetCwd(s, r, cwd), r, cwd)
  {
    hide Inv;
    var b := BindingOf(s.bindings, r);
    if b.thread.Some? { SetCwdLetsGo(s, r, cwd, b.thread.value); }
  }

  lemma SetCwdLetsGo(s: State, r: Route, cwd: string, was: Id)
    requires Inv(s) && BindingOf(s.bindings, r).thread == Some(was)
    ensures BoundTo(SetCwd(s, r, cwd), was) == None
  {
    hide Inv;
    BoundBelongs(s, r, was);
    var found := BoundTo(SetCwd(s, r, cwd), was);
    assert found.Some? ==> found.value == r || BindingOf(s.bindings, found.value).thread == Some(was);
  }

  // What `discard_terminal_watch` does: the turn is neither watched nor acknowledged.
  ghost predicate Discarded(s: State, s': State, t: Turn) {
    && t !in s'.watches.vals && (forall id :: id in s'.acks.vals ==> s'.acks.vals[id] != t)
    && (forall w :: w in s.watches.vals && w != t ==> w in s'.watches.vals && s'.watches.vals[w] == s.watches.vals[w])
    && (forall id :: id in s.acks.vals && s.acks.vals[id] != t ==>
          id in s'.acks.vals && s'.acks.vals[id] == s.acks.vals[id])
    && s' == s.(watches := s'.watches, acks := s'.acks)
  }

  /** Discarding leaves neither a watch nor an acknowledgement of the turn, and all other ones. */
  lemma DiscardForgets(s: State, t: Turn)
    ensures Discarded(s, DiscardWatch(s, t), t)
  {
    hide Only;
  }

  /** `find_binding_by_thread_id` finds the conversation a thread is bound to, or that there is none. */
  lemma FoundExactly(s: State, thread: Id, r: Route)
    requires Inv(s)
    ensures BoundTo(s, thread) == Some(r) <==> BindingOf(s.bindings, r).thread == Some(thread)
  {
    if BindingOf(s.bindings, r).thread == Some(thread) { BoundIsUnique(s, r, thread); }
  }

  // ---- The outbox as its readers see it ----

  // The listing without the delivery.
  ghost predicate Delisted(listing: seq<Listed>, listing': seq<Listed>, id: Id) {
    exists n :: 0 <= n < |listing| && listing[n].id == id
      && |listing'| == |listing| - 1
      && forall i :: 0 <= i < |listing'| ==> listing'[i] == listing[if i < n then i else i + 1]
  }

  ghost predicate Retold(listing: seq<Listed>, listing': seq<Listed>, id: Id, message: Message) {
    && |listing'| == |listing|
    && forall i :: 0 <= i < |listing| ==>
         listing'[i] == if listing[i].id == id then Listed(id, listing[i].pending.(message := message)) else listing[i]
  }

  /** A new delivery is listed last. */
  lemma StagedIsListedLast(s: State, id: Id, t: Turn, message: Message, now: int)
    requires Inv(s) && TurnOk(t) && id != "" && id !in s.outbox.vals
    ensures var s' := Stage(s, id, t, message, now);
      Listing(s') == Listing(s) + [Listed(id, Pending(t, message, now, s.sequence + 1))]
  {
    StageKeepsInv(s, id, t, message, now);
    ListingIsEntries(s);
    ListingIsEntries(Stage(s, id, t, message, now));
    hide *;
    var p := Pending(t, message, now, s.sequence + 1);
    StagedOutbox(s, id, t, message, now);
    EntriesPut(s.outbox, id, p);
  }

  lemma StagedOutbox(s: State, id: Id, t: Turn, message: Message, now: int)
    requires Inv(s) && TurnOk(t) && id != "" && id !in s.outbox.vals
    ensures var p := Pending(t, message, now, s.sequence + 1);
      && Stage(s, id, t, message, now).outbox == s.outbox.Put(id, p)
      && s.outbox.Valid() && s.outbox.Put(id, p).Valid()
  {
    s.outbox.PutValid(id, Pending(t, message, now, s.sequence + 1));
  }

  lemma EntriesPut(outbox: Dict<Id, Pending>, id: Id, p: Pending)
    requires outbox.Valid() && id !in outbox.vals && outbox.Put(id, p).Valid()
    ensures Entries(outbox.Put(id, p)) == Entries(outbox) + [Listed(id, p)]
  {
  }

  /** Updating a message changes neither the order of the listing nor any other entry. */
  lemma UpdatedInPlace(s: State, id: Id, message: Message)
    requires Inv(s)
    ensures Inv(UpdateMessage(s, id, message))
    ensures Retold(Listing(s), Listing(UpdateMessage(s, id, message)), id, message)
  {
    UpdateKeepsInv(s, id, message);
    ListingIsEntries(s);
    ListingIsEntries(UpdateMessage(s, id, message));
    hide Listing, Entries, UpdateMessage, Retold;
    EntriesUpdated(s, id, message);
  }

  lemma EntriesUpdated(s: State, id: Id, message: Message)
    requires s.outbox.Valid() && UpdateMessage(s, id, message).outbox.Valid()
    ensures Retold(Entries(s.outbox), Entries(UpdateMessage(s, id, message).outbox), id, message)
  {
  }

  /** Completing takes exactly that delivery out of the listing and acknowledges it, unless it is then
      among the standalone acknowledgements beyond the newest 512, which only an id that was
      acknowledged before can be. */
  lemma CompletedIsDelisted(s: State, id: Id)
    requires Inv(s) && id in s.outbox.vals
    ensures Inv(Complete(s, id))
    ensures Delisted(Listing(s), Listing(Complete(s, id)), id)
    ensures var turn, acks := s.outbox.vals[id].turn, Complete(s, id).acks.vals;
      && (id in acks <==> id !in Excess(s.acks.Put(id, turn)))
      && (id in acks ==> acks[id] == turn)
      && (id in Excess(s.acks.Put(id, turn)) ==> id in s.acks.vals)
  {
    CompleteKeepsInv(s, id);
    ListingIsEntries(s);
    ListingIsEntries(Complete(s, id));
    assert AcksOk(s.acks);
    hide Listing, Entries, Delisted, Complete, Prune, Excess, Inv;
    CompletedOutbox(s, id);
    OutboxWithout(s.outbox, id);
    AcknowledgedExactly(s, id, s.outbox.vals[id].turn);
    if id !in s.acks.vals { AcknowledgedLast(s, id, s.outbox.vals[id].turn); }
  }

  lemma AcknowledgedExactly(s: State, id: Id, turn: Turn)
    ensures var put := s.acks.Put(id, turn);
      var acks := Prune(s.(acks := put)).acks.vals;
      (id in acks <==> id !in Excess(put)) && (id in acks ==> acks[id] == turn)
  {
    hide Excess, Only;
  }

  lemma OutboxWithout(outbox: Dict<Id, Pending>, id: Id)
    requires outbox.Valid() && id in outbox.vals
    ensures outbox.Pop(id).Valid() && Delisted(Entries(outbox), Entries(outbox.Pop(id)), id)
  {
    var ks := outbox.vals.Keys - {id};
    var n := Place(outbox, id);
    outbox.KeepValid(ks);
    OnlyMissing(outbox.keys, ks, n);
    EntriesWithout(outbox, outbox.Pop(id), n);
  }

  lemma Place(d: Dict<Id, Pending>, id: Id) returns (n: nat)
    requires d.Valid() && id in d.vals
    ensures n < |d.keys| && d.keys[n] == id
    ensures forall i :: 0 <= i < |d.keys| ==> (d.keys[i] in d.vals.Keys - {id} <==> i != n)
  {
    n :| 0 <= n < |d.keys| && d.keys[n] == id;
    forall i | 0 <= i < |d.keys| ensures d.keys[i] in d.vals.Keys - {id} <==> i != n {
      assert d.keys[i] in d.keys;
    }
  }

  lemma {:induction false} OnlyMissing(keys: seq<Id>, ks: set<Id>, n: nat)
    requires n < |keys| && forall i :: 0 <= i < |keys| ==> (keys[i] in ks <==> i != n)
    ensures |Only(keys, ks)| == |keys| - 1
    ensures forall i :: 0 <= i < |keys| - 1 ==> Only(keys, ks)[i] == keys[if i < n then i else i + 1]
  {
    hide Only;
    var front, last := keys[..|keys| - 1], keys[|keys| - 1];
    assert keys == front + [last];
    OnlyAppend(front, last, ks);
    if n == |front| {
      AllIn(front, ks);
      OnlyAll(front, ks);
    } else {
      OnlyMissing(front, ks, n);
    }
  }

  lemma AllIn(keys: seq<Id>, ks: set<Id>)
    requires forall i :: 0 <= i < |keys| ==> keys[i] in ks
    ensures forall k :: k in keys ==> k in ks
  {
  }

  lemma EntriesWithout(d: Dict<Id, Pending>, d': Dict<Id, Pending>, n: nat)
    requires d.Valid() && d'.Valid() && n < |d.keys| && |d'.keys| == |d.keys| - 1
    requires forall i :: 0 <= i < |d'.keys| ==> d'.keys[i] == d.keys[if i < n then i else i + 1]
    requires forall k :: k in d'.vals ==> k in d.vals && d'.vals[k] == d.vals[k]
    ensures Delisted(Entries(d), Entries(d'), d.keys[n])
  {
    var listing, listing' := Entries(d), Entries(d');
    assert listing[n].id == d.keys[n];
    forall i | 0 <= i < |listing'| ensures listing'[i] == listing[if i < n then i else i + 1] {
      assert d'.keys[i] in d'.keys;
    }
  }

  lemma AcknowledgedLast(s: State, id: Id, turn: Turn)
    requires AcksOk(s.acks) && id !in s.acks.vals
    ensures var acks := Prune(s.(acks := s.acks.Put(id, turn))).acks;
      id in acks.vals && acks.vals[id] == turn
  {
    var put := s.(acks := s.acks.Put(id, turn));
    s.acks.PutValid(id, turn);
    PruneKeepsNewest(put);
    if turn == NO_TURN {
      StandalonePut(s.acks, id, turn);
      var newest := Newest(Standalone(put.acks), ACK_LIMIT);
      assert newest[|newest| - 1] == id;
      assert id in Standalone(Prune(put).acks);
    }
  }

  // ---- Loading any file ----

  predicate BadRoute(item: RouteItem) {
    Text.Blank(item.thread) || Text.Blank(item.route.channel) || Text.Blank(item.route.conversation)
  }

  predicate BadWatch(item: WatchItem) {
    item.turn.thread == "" || item.turn.turn == ""
  }

  predicate BadPending(item: PendingItem) {
    !TurnOk(item.turn) || (item.message.None? && item.turn.thread == "")
  }

  predicate BadAck(item: AckItem) {
    item.id == "" || !TurnOk(item.turn)
  }

  ghost predicate Any<T(!new)>(items: seq<T>, bad: T -> bool) {
    exists i :: 0 <= i < |items| && bad(items[i])
  }

  // The error of the first part with a malformed entry.
  ghost function FirstBad(p: Payload): LoadError {
    if Any(p.routes, BadRoute) then InvalidRoute
    else if Any(p.watches, BadWatch) then InvalidWatch
    else if Any(p.outbox, BadPending) then InvalidPending
    else InvalidAck
  }

  /** A state file is refused exactly when one of its entries is malformed, with the error of the
      first part that has one. */
  lemma LoadFailsExactly(p: Payload, legacyId: Message -> Id)
    ensures Load(p, legacyId).Err? <==>
      Any(p.routes, BadRoute) || Any(p.watches, BadWatch) || Any(p.outbox, BadPending) || Any(p.acks, BadAck)
    ensures Load(p, legacyId).Err? ==> Load(p, legacyId).error == FirstBad(p)
  {
    hide Prune, BindingRoutes, LoadRoutes, LoadWatches, LoadOutbox, LoadAcks, Any;
    RoutesFail(p.routes);
    WatchesFail(p.watches);
    if LoadWatches(p.watches).Ok? {
      var watches := LoadWatches(p.watches).value;
      OutboxFails(watches, p.outbox, legacyId);
      if LoadOutbox(watches, p.outbox, legacyId).Ok? {
        AcksFail(p.acks, LoadOutbox(watches, p.outbox, legacyId).value.watches);
      }
    }
  }

  lemma AnyLast<T(!new)>(items: seq<T>, bad: T -> bool)
    requires items != []
    ensures Any(items, bad) <==> Any(items[..|items| - 1], bad) || bad(items[|items| - 1])
  {
    var front := items[..|items| - 1];
    if Any(items, bad) && !bad(items[|items| - 1]) {
      var i :| 0 <= i < |items| && bad(items[i]);
      assert front[i] == items[i];
    }
  }

  lemma {:induction false} RoutesFail(items: seq<RouteItem>)
    ensures LoadRoutes(items).Err? <==> Any(items, BadRoute)
    ensures LoadRoutes(items).Err? ==> LoadRoutes(items).error == InvalidRoute
  {
    if items != [] {
      var last := items[|items| - 1];
      RoutesFail(items[..|items| - 1]);
      AnyLast(items, BadRoute);
      Text.StripBlank(last.thread);
      Text.StripBlank(last.route.channel);
      Text.StripBlank(last.route.conversation);
    }
  }

  lemma {:induction false} WatchesFail(items: seq<WatchItem>)
    ensures LoadWatches(items).Err? <==> Any(items, BadWatch)
    ensures LoadWatches(items).Err? ==> LoadWatches(items).error == InvalidWatch
  {
    if items != [] {
      WatchesFail(items[..|items| - 1]);
      AnyLast(items, BadWatch);
    }
  }

  lemma {:induction false} OutboxFails(watches: Dict<Turn, int>, items: seq<PendingItem>, legacyId: Message -> Id)
    ensures LoadOutbox(watches, items, legacyId).Err? <==> Any(items, BadPending)
    ensures LoadOutbox(watches, items, legacyId).Err? ==>
      LoadOutbox(watches, items, legacyId).error == InvalidPending
  {
    if items != [] {
      OutboxFails(watches, items[..|items| - 1], legacyId);
      AnyLast(items, BadPending);
    }
  }

  lemma {:induction false} AcksFail(items: seq<AckItem>, watches: Dict<Turn, int>)
    ensures LoadAcks(items, watches).Err? <==> Any(items, BadAck)
    ensures LoadAcks(items, watches).Err? ==> LoadAcks(items, watches).error == InvalidAck
  {
    if items != [] {
      AcksFail(items[..|items| - 1], watches);
      AnyLast(items, BadAck);
    }
  }

  /** Whatever the file says, a loaded store keeps at most 512 standalone acknowledgements and no
      other one without a watch, routes every bound thread to a conversation that is bound to it, and
      lists what is staged next behind everything it loaded. */
  lemma LoadedIsConsistent(p: Payload, legacyId: Message -> Id)
    requires Load(p, legacyId).Ok?
    ensures var s := Load(p, legacyId).value;
      && Storable(s)
      && |Standalone(s.acks)| <= 512
      && (forall id :: id in s.acks.vals ==> s.acks.vals[id] == NO_TURN || s.acks.vals[id] in s.watches.vals)
      && RoutesNameBound(s.bindings, s.routes)
      && (forall id :: id in s.outbox.vals ==> s.outbox.vals[id].sequence <= s.sequence)
  {
    hide BindingRoutes, LoadRoutes, LoadWatches, LoadOutbox, LoadAcks, LoadBindings, Prune, Standalone;
    var bindings, routes := LoadBindings(p.bindings), LoadRoutes(p.routes).value;
    var watches := LoadWatches(p.watches).value;
    var box := LoadOutbox(watches, p.outbox, legacyId).value;
    var acked := LoadAcks(p.acks, box.watches).value;
    BindingsLoadValid(p.bindings);
    RoutesLoadValid(p.routes);
    BoundAreRouted(routes, bindings.keys, bindings);
    WatchesLoadValid(p.watches);
    OutboxLoadsInOrder(watches, p.outbox, legacyId);
    AcksLoadWatched(p.acks, box.watches);
    var s := State(bindings, BindingRoutes(routes, bindings.keys, bindings.vals), map[],
                   box.watches, box.outbox, acked.acks, acked.outcomes, box.sequence, map[], {});
    PruneKeepsNewest(s);
    PruneTouchesAcks(s);
  }

  lemma PruneTouchesAcks(s: State)
    ensures Prune(s) == s.(acks := Prune(s).acks, outcomes := Prune(s).outcomes)
  {
  }

  ghost predicate RoutesNameBound(b: Dict<Route, Binding>, routes: Dict<Id, Route>) {
    forall r :: r in b.vals && b.vals[r].thread.Some? && b.vals[r].thread.value != "" ==>
      var t := b.vals[r].thread.value;
      t in routes.vals && BindingOf(b, routes.vals[t]).thread == Some(t)
  }

  lemma {:induction false} BindingsLoadValid(items: seq<BindingItem>)
    ensures LoadBindings(items).Valid()
  {
    if items != [] { BindingsLoadValid(items[..|items| - 1]); }
  }

  lemma {:induction false} RoutesLoadValid(items: seq<RouteItem>)
    ensures LoadRoutes(items).Ok? ==> LoadRoutes(items).value.Valid()
  {
    if items != [] { RoutesLoadValid(items[..|items| - 1]); }
  }

  lemma {:induction false} BoundAreRouted(routes: Dict<Id, Route>, keys: seq<Route>, b: Dict<Route, Binding>)
    requires routes.Valid() && forall r :: r in keys ==> r in b.vals
    ensures var all := BindingRoutes(routes, keys, b.vals);
      && all.Valid()
      && forall r :: r in keys && b.vals[r].thread.Some? && b.vals[r].thread.value != "" ==>
           var t := b.vals[r].thread.value;
           t in all.vals && BindingOf(b, all.vals[t]).thread == Some(t)
  {
    if keys != [] {
      var front, last := keys[..|keys| - 1], keys[|keys| - 1];
      BoundAreRouted(routes, front, b);
      assert keys == front + [last];
    }
  }

  lemma {:induction false} WatchesLoadValid(items: seq<WatchItem>)
    ensures LoadWatches(items).Ok? ==> LoadWatches(items).value.Valid()
  {
    if items != [] { WatchesLoadValid(items[..|items| - 1]); }
  }

  lemma {:induction false} OutboxLoadsInOrder(watches: Dict<Turn, int>, items: seq<PendingItem>,
      legacyId: Message -> Id)
    requires watches.Valid()
    ensures var loaded := LoadOutbox(watches, items, legacyId);
      loaded.Ok? ==>
        && loaded.value.watches.Valid() && loaded.value.outbox.Valid()
        && forall id :: id in loaded.value.outbox.vals ==>
             loaded.value.outbox.vals[id].sequence <= loaded.value.sequence
  {
    if items != [] { OutboxLoadsInOrder(watches, items[..|items| - 1], legacyId); }
  }

  lemma {:induction false} AcksLoadWatched(items: seq<AckItem>, watches: Dict<Turn, int>)
    ensures var loaded := LoadAcks(items, watches);
      loaded.Ok? ==>
        && loaded.value.acks.Valid()
        && forall id :: id in loaded.value.acks.vals ==>
             loaded.value.acks.vals[id] == NO_TURN || loaded.value.acks.vals[id] in watches.vals
  {
    if items != [] { AcksLoadWatched(items[..|items| - 1], watches); }
  }
}
