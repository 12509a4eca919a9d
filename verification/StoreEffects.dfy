/** What the remaining operations of the bridge store do, entry by entry, and what they leave alone. */
module StoreEffects {
  import opened Prelude
  import opened OrderedDict
  import opened StoreModel
  import opened StoreRuns
  import opened StoreLaws
  import Text

  // ---- What an operation leaves alone ----

  /** Each operation changes only the parts of the store it is about. */
  lemma TouchesOnly(s: State, op: Op)
    requires !op.Restart?
    ensures var s' := if DeliveryOp(op) then ApplyOutbox(s, op) else ApplyRouting(s, op);
      match op
      case GetBinding(_) => s' == s.(bindings := s'.bindings)
      case SetCwdOp(_, _) => s' == s.(bindings := s'.bindings)
      case SetProfileOp(_, _) => s' == s.(bindings := s'.bindings)
      case SetVisibilityOp(_, _, _) => s' == s.(bindings := s'.bindings)
      case SetContextOp(_, _) => s' == s.(bindings := s'.bindings)
      case BindOp(_, _) =>
        s' == s.(bindings := s'.bindings, routes := s'.routes, requests := s'.requests, watches := s'.watches,
                 acks := s'.acks)
      case BindWithCwdOp(_, _, _) =>
        s' == s.(bindings := s'.bindings, routes := s'.routes, requests := s'.requests, watches := s'.watches,
                 acks := s'.acks)
      case ClearOp(_) =>
        s' == s.(bindings := s'.bindings, watches := s'.watches, acks := s'.acks, active := s'.active,
                 suppressed := s'.suppressed)
      case RequestOp(_, _, _, _, _) => s' == s.(requests := s'.requests)
      case RemoveRequestOp(_) => s' == s.(requests := s'.requests)
      case RemoveRequestsForTurnOp(_) => s' == s.(requests := s'.requests)
      case InvalidateOp(_) => s' == s.(requests := s'.requests)
      case NoteActiveTurnOp(_, _, _) =>
        s' == s.(active := s'.active, suppressed := s'.suppressed, watches := s'.watches)
      case CompleteTurnOp(_) => s' == s.(active := s'.active, suppressed := s'.suppressed)
      case ClearActiveTurnOp(_) => s' == s.(active := s'.active)
      case SuppressOp(_) => s' == s.(suppressed := s'.suppressed)
      case DiscardWatchOp(_) => s' == s.(watches := s'.watches, acks := s'.acks)
      case StageOp(_, _, _, _) => s' == s.(outbox := s'.outbox, sequence := s'.sequence)
      case UpdateMessageOp(_, _) => s' == s.(outbox := s'.outbox)
      case CompleteOp(_) => s' == s.(outbox := s'.outbox, acks := s'.acks, outcomes := s'.outcomes)
  {
    hide Only, Stolen, Rerouted, Excess;
  }

  // ---- Binding with a directory ----

  // As after binding, but r works in this directory, if one is given.
  ghost predicate HandedOverIn(s: State, s': State, r: Route, thread: Id, cwd: string) {
    exists bound: State :: HandedOver(s, bound, r, thread) && MovesTo(bound, s', r, cwd)
  }

  ghost predicate MovesTo(s: State, s': State, r: Route, cwd: string) {
    && s' == s.(bindings := s'.bindings)
    && (cwd == "" ==> BindingOf(s'.bindings, r) == BindingOf(s.bindings, r))
    && (cwd != "" ==> BindingOf(s'.bindings, r) == BindingOf(s.bindings, r).(cwd := Some(cwd)))
    && OthersKeepBindings(s, s', r)
  }

  /** Binding with a directory binds, and stores the directory unless it is empty. */
  lemma BindStoresCwd(s: State, r: Route, thread: Id, cwd: string)
    requires Inv(s) && RouteOk(r) && ThreadOk(thread)
    ensures HandedOverIn(s, BindThreadWithCwd(s, r, thread, cwd), r, thread, cwd)
  {
    BindHandsOver(s, r, thread);
    CwdMoves(s, r, thread, cwd);
    hide *;
    HandedOverInBy(s, BindThread(s, r, thread), BindThreadWithCwd(s, r, thread, cwd), r, thread, cwd);
  }

  lemma CwdMoves(s: State, r: Route, thread: Id, cwd: string)
    ensures MovesTo(BindThread(s, r, thread), BindThreadWithCwd(s, r, thread, cwd), r, cwd)
  {
    hide BindThread;
  }

  lemma HandedOverInBy(s: State, bound: State, s': State, r: Route, thread: Id, cwd: string)
    requires HandedOver(s, bound, r, thread) && MovesTo(bound, s', r, cwd)
    ensures HandedOverIn(s, s', r, thread, cwd)
  {
    hide HandedOver, MovesTo;
  }

  // ---- Pending native requests ----

  // The requests are as before but for this one.
  ghost predicate OthersKeepRequests(s: State, s': State, id: Id) {
    forall other :: other != id ==>
      (other in s'.requests <==> other in s.requests)
      && (other in s.requests ==> s'.requests[other] == s.requests[other])
  }

  predicate Silenced(s: State, thread: Id, turn: Id) {
    thread != "" && turn != "" && Turn(thread, turn) in s.suppressed
  }

  // The request as it is recorded for conversation r.
  predicate RecordedFor(s: State, id: Id, r: Route, thread: Id, turn: Id, kind: string, epoch: nat) {
    && id in s.requests && s.requests[id].route == r
    && s.requests[id].kind == kind && s.requests[id].epoch == epoch
    && s.requests[id].thread == (if thread == "" then None else Some(thread))
    && s.requests[id].turn == (if turn == "" then None else Some(turn))
  }

  /** A native request is recorded for the one conversation its thread is bound to, unless no conversation
      has the thread or its turn is suppressed; then nothing changes. */
  lemma RequestIsRecordedExactly(s: State, id: Id, thread: Id, turn: Id, kind: string, epoch: nat, r: Route)
    requires Inv(s)
    ensures var s' := ProjectRequest(s, id, thread, turn, kind, epoch);
      && OthersKeepRequests(s, s', id)
      && (BindingOf(s.bindings, r).thread == Some(thread) && !Silenced(s, thread, turn) ==>
            RecordedFor(s', id, r, thread, turn, kind, epoch))
      && (Silenced(s, thread, turn) || (forall q :: BindingOf(s.bindings, q).thread != Some(thread)) ==> s' == s)
  {
    FoundExactly(s, thread, r);
    var bound := BoundTo(s, thread);
    if bound.Some? { FoundExactly(s, thread, bound.value); }
    hide Inv, BindingOf, BoundTo;
    RequestWhenBound(s, id, thread, turn, kind, epoch);
    if bound.Some? { assert BindingOf(s.bindings, bound.value).thread == Some(thread); }
    hide ProjectRequest, Silenced, OthersKeepRequests, RecordedFor;
  }

  lemma RequestWhenBound(s: State, id: Id, thread: Id, turn: Id, kind: string, epoch: nat)
    ensures var s', bound := ProjectRequest(s, id, thread, turn, kind, epoch), BoundTo(s, thread);
      && OthersKeepRequests(s, s', id)
      && (bound.Some? && !Silenced(s, thread, turn) ==>
            RecordedFor(s', id, bound.value, thread, turn, kind, epoch))
      && (bound.None? || Silenced(s, thread, turn) ==> s' == s)
  {
    hide BoundTo;
  }

  // Exactly the requests that are left are as before.
  ghost predicate LeavesRequests(s: State, s': State, gone: set<Id>) {
    && (forall id :: id in s'.requests <==> id in s.requests && id !in gone)
    && (forall id :: id in s'.requests ==> s'.requests[id] == s.requests[id])
  }

  /** Removing one request, those of a turn, or those of a connection that was lost, removes exactly these. */
  lemma RequestsAreRemovedExactly(s: State, id: Id, t: Turn, epoch: nat)
    ensures LeavesRequests(s, ApplyRouting(s, RemoveRequestOp(id)), {id})
    ensures LeavesRequests(s, ApplyRouting(s, RemoveRequestsForTurnOp(t)),
      set k | k in s.requests && s.requests[k].thread == Some(t.thread) && s.requests[k].turn == Some(t.turn))
    ensures LeavesRequests(s, ApplyRouting(s, InvalidateOp(epoch)),
      set k | k in s.requests && s.requests[k].epoch == epoch)
  {
  }

  // ---- Turns ----

  /** A turn is watched afterwards exactly when it was before or is a named one of a bound thread; a new
      watch comes last and has the present time, the others stay. */
  lemma WatchedExactly(s: State, t: Turn, now: int)
    requires Inv(s)
    ensures var s' := Watch(s, t, now);
      && (t in s'.watches.vals <==>
            t in s.watches.vals
            || (t.thread != "" && t.turn != "" && exists r :: BindingOf(s.bindings, r).thread == Some(t.thread)))
      && (t in s'.watches.vals && t !in s.watches.vals ==>
            s'.watches.vals[t] == now && s'.watches.keys == s.watches.keys + [t])
      && (t !in s'.watches.vals || t in s.watches.vals ==> s' == s)
      && (forall w :: w != t ==> (w in s'.watches.vals <==> w in s.watches.vals))
      && (forall w :: w in s.watches.vals ==> s'.watches.vals[w] == s.watches.vals[w])
  {
    var bound := BoundTo(s, t.thread);
    if bound.Some? {
      FoundExactly(s, t.thread, bound.value);
      assert BindingOf(s.bindings, bound.value).thread == Some(t.thread);
    } else if r: Route :| BindingOf(s.bindings, r).thread == Some(t.thread) {
      FoundExactly(s, t.thread, r);
    }
  }

  // The active turns of all other threads are as before.
  ghost predicate OthersKeepTurns(s: State, s': State, thread: Id) {
    forall k :: k != thread ==>
      (k in s'.active <==> k in s.active) && (k in s.active ==> s'.active[k] == s.active[k])
  }

  /** A turn that is noted becomes the active one of its thread, is no longer suppressed and is watched like
      any other. */
  lemma NotedExactly(s: State, t: Turn, status: string, now: int)
    ensures var s' := ApplyRouting(s, NoteActiveTurnOp(t, status, now));
      && t.thread in s'.active && s'.active[t.thread] == (t.turn, status) && OthersKeepTurns(s, s', t.thread)
      && s'.suppressed == s.suppressed - {t} && s'.watches == Watch(s, t, now).watches
  {
    hide Find;
  }

  /** It stops being active when it completes or is cleared, and another one stays; suppressing adds it to the
      suppressed ones, and completing takes it out. */
  lemma TurnsExactly(s: State, t: Turn)
    ensures var s' := ApplyRouting(s, CompleteTurnOp(t));
      && OthersKeepTurns(s, s', t.thread) && s'.suppressed == s.suppressed - {t}
      && (t.thread in s'.active <==> t.thread in s.active && s.active[t.thread].0 != t.turn)
      && (t.thread in s'.active ==> s'.active[t.thread] == s.active[t.thread])
    ensures ApplyRouting(s, SuppressOp(t)).suppressed == s.suppressed + {t}
  {
  }

  lemma ClearedTurnExactly(s: State, thread: Id)
    ensures var s' := ApplyRouting(s, ClearActiveTurnOp(thread));
      thread !in s'.active && OthersKeepTurns(s, s', thread) && s' == s.(active := s'.active)
  {
  }

  // ---- What a conversation shows ----

  /** A profile presets what a conversation shows: a minimal one nothing, a verbose one everything, any
      other one commentary only. */
  lemma ProfileExactly(s: State, r: Route, profile: string)
    ensures var b, b' := BindingOf(s.bindings, r), BindingOf(ApplyRouting(s, SetProfileOp(r, profile)).bindings, r);
      && b' == b.(profile := profile, commentary := b'.commentary, toolcalls := b'.toolcalls, system := b'.system)
      && (b'.commentary <==> profile != "minimal")
      && (b'.toolcalls <==> profile == "verbose") && (b'.system <==> profile == "verbose")
      && OthersKeepBindings(s, ApplyRouting(s, SetProfileOp(r, profile)), r)
  {
  }

  /** A single switch changes that switch, and a context only the context. */
  lemma VisibilityExactly(s: State, r: Route, what: Visibility, enabled: bool, c: map<string, string>)
    ensures var s' := ApplyRouting(s, SetVisibilityOp(r, what, enabled));
      var b, b' := BindingOf(s.bindings, r), BindingOf(s'.bindings, r);
      && b'.commentary == (if what.Commentary? then enabled else b.commentary)
      && b'.toolcalls == (if what.Toolcalls? then enabled else b.toolcalls)
      && b'.system == (if what.System? then enabled else b.system)
      && b' == b.(commentary := b'.commentary, toolcalls := b'.toolcalls, system := b'.system)
      && OthersKeepBindings(s, s', r)
    ensures BindingOf(ApplyRouting(s, SetContextOp(r, c)).bindings, r) == BindingOf(s.bindings, r).(context := c)
    ensures OthersKeepBindings(s, ApplyRouting(s, SetContextOp(r, c)), r)
  {
  }

  /** A conversation is saved exactly when it differs from one nobody has used. */
  lemma SavedExactly(b: Binding)
    ensures WorthSaving(b) <==> b != DEFAULT_BINDING
    ensures DEFAULT_BINDING.thread == None && DEFAULT_BINDING.cwd == None && DEFAULT_BINDING.commentary
    ensures !DEFAULT_BINDING.toolcalls && !DEFAULT_BINDING.system
  {
  }

  // ---- Outcomes ----

  /** Completing a standalone delivery keeps what became of its files, and that only, while it is
      acknowledged; the other outcomes stay, but for those of acknowledgements pruned with it. */
  lemma OutcomesExactly(s: State, id: Id, other: Id)
    requires id in s.outbox.vals
    ensures var p, s', pruned := s.outbox.vals[id], Complete(s, id), Excess(s.acks.Put(id, s.outbox.vals[id].turn));
      && (p.turn == NO_TURN && id !in pruned ==>
            && id in s'.outcomes
            && (forall k :: k in s'.outcomes[id] <==>
                  k in p.message.metadata && (k == "artifact_receipts" || k == "artifact_failures"))
            && (forall k :: k in s'.outcomes[id] ==> s'.outcomes[id][k] == p.message.metadata[k]))
      && (other != id || p.turn != NO_TURN ==>
            && (other in s'.outcomes <==> other in s.outcomes && other !in pruned)
            && (other in s'.outcomes ==> s'.outcomes[other] == s.outcomes[other]))
  {
    hide Excess, Only;
  }

  // ---- The order of any outbox ----

  // The strings part at place k, where a has the smaller character.
  predicate PartsAt(a: string, b: string, k: nat) {
    k < |a| && k < |b| && a[..k] == b[..k] && a[k] < b[k]
  }

  // a comes no later than b: b goes on where a ends, or they part and a has the smaller character.
  ghost predicate NotBehind(a: string, b: string) {
    a <= b || exists k: nat :: PartsAt(a, b, k)
  }

  // The older sequence number comes first, then the older time, then the smaller id.
  ghost predicate InOrder(a: Listed, b: Listed) {
    || a.pending.sequence < b.pending.sequence
    || (a.pending.sequence == b.pending.sequence
        && (a.pending.createdAt < b.pending.createdAt
            || (a.pending.createdAt == b.pending.createdAt && NotBehind(a.id, b.id))))
  }

  lemma {:induction false} LexMeans(a: string, b: string)
    ensures !LexLess(b, a) ==> NotBehind(a, b)
    ensures LexLess(a, b) ==> NotBehind(a, b)
  {
    if a != [] && b != [] {
      if a[0] == b[0] {
        LexMeans(a[1..], b[1..]);
        if a[1..] <= b[1..] {
          assert a == [a[0]] + a[1..] && b == [b[0]] + b[1..];
        } else if NotBehind(a[1..], b[1..]) {
          var k: nat :| PartsAt(a[1..], b[1..], k);
          assert a[..k + 1] == [a[0]] + a[1..][..k] && b[..k + 1] == [b[0]] + b[1..][..k];
          assert PartsAt(a, b, k + 1);
        }
      } else {
        assert a[..0] == b[..0] && (a[0] < b[0] ==> PartsAt(a, b, 0));
      }
    }
  }

  lemma BeforeMeans(a: Listed, b: Listed)
    ensures Before(a, b) ==> InOrder(a, b)
    ensures !Before(b, a) ==> InOrder(a, b)
  {
    hide LexLess, NotBehind;
    LexMeans(a.id, b.id);
  }

  lemma PartEarlier(a: string, b: string, c: string, j: nat, k: nat)
    requires PartsAt(a, b, j) && PartsAt(b, c, k)
    ensures PartsAt(a, c, if j < k then j else k)
  {
    var m := if j < k then j else k;
    assert a[..m] == a[..j][..m] && b[..m] == b[..j][..m] == b[..k][..m] && c[..m] == c[..k][..m];
  }

  lemma PrefixParts(a: string, b: string, c: string, k: nat)
    requires a <= b && PartsAt(b, c, k)
    ensures a <= c || PartsAt(a, c, k)
  {
    if k < |a| {
      assert a[..k] == b[..k];
    } else {
      assert a == b[..k][..|a|] == c[..k][..|a|] == c[..|a|];
    }
  }

  lemma PartsPrefix(a: string, b: string, c: string, k: nat)
    requires PartsAt(a, b, k) && b <= c
    ensures PartsAt(a, c, k)
  {
    assert b[..k] == c[..k];
  }

  lemma NotBehindTrans(a: string, b: string, c: string)
    requires NotBehind(a, b) && NotBehind(b, c)
    ensures NotBehind(a, c)
  {
    hide PartsAt;
    if a <= b {
      if !(b <= c) {
        var k: nat :| PartsAt(b, c, k);
        PrefixParts(a, b, c, k);
      }
    } else {
      var j: nat :| PartsAt(a, b, j);
      if b <= c {
        PartsPrefix(a, b, c, j);
      } else {
        var k: nat :| PartsAt(b, c, k);
        PartEarlier(a, b, c, j, k);
      }
    }
  }

  lemma InOrderTrans(a: Listed, b: Listed, c: Listed)
    requires InOrder(a, b) && InOrder(b, c)
    ensures InOrder(a, c)
  {
    hide NotBehind;
    if NotBehind(a.id, b.id) && NotBehind(b.id, c.id) { NotBehindTrans(a.id, b.id, c.id); }
  }

  ghost predicate Ordered(entries: seq<Listed>) {
    forall i, j :: 0 <= i < j < |entries| ==> InOrder(entries[i], entries[j])
  }

  lemma {:induction false} InsertKeepsOrder(sorted: seq<Listed>, x: Listed)
    requires Ordered(sorted)
    ensures Ordered(Insert(sorted, x)) && multiset(Insert(sorted, x)) == multiset(sorted) + multiset{x}
  {
    hide InOrder, Before;
    if sorted != [] {
      var front, last := sorted[..|sorted| - 1], sorted[|sorted| - 1];
      assert sorted == front + [last];
      BeforeMeans(x, last);
      BeforeMeans(last, x);
      if Before(x, last) {
        InsertKeepsOrder(front, x);
        var inner := Insert(front, x);
        forall i | 0 <= i < |inner| ensures InOrder(inner[i], last) {
          assert inner[i] in multiset(inner);
          if inner[i] != x {
            assert inner[i] in multiset(front);
            var j :| 0 <= j < |front| && front[j] == inner[i];
            assert InOrder(sorted[j], sorted[|front|]);
          }
        }
      } else {
        forall i | 0 <= i < |sorted| ensures InOrder(sorted[i], x) {
          if i < |front| { InOrderTrans(sorted[i], last, x); }
        }
      }
    }
  }

  lemma {:induction false} SortedIsOrdered(entries: seq<Listed>)
    ensures Ordered(Sorted(entries)) && multiset(Sorted(entries)) == multiset(entries)
  {
    hide InOrder, Before, Insert;
    if entries != [] {
      var front, last := entries[..|entries| - 1], entries[|entries| - 1];
      assert entries == front + [last];
      SortedIsOrdered(front);
      InsertKeepsOrder(Sorted(front), last);
    }
  }

  /** The listing of any outbox, one loaded from an old or edited file too, has each staged delivery once,
      by sequence, then by time, then by id. */
  lemma ListingIsOrdered(s: State)
    requires s.outbox.Valid()
    ensures Ordered(Listing(s)) && multiset(Listing(s)) == multiset(Entries(s.outbox))
    ensures |Entries(s.outbox)| == |s.outbox.keys|
    ensures forall i :: 0 <= i < |s.outbox.keys| ==>
      Entries(s.outbox)[i] == Listed(s.outbox.keys[i], s.outbox.vals[s.outbox.keys[i]])
  {
    SortedIsOrdered(Entries(s.outbox));
  }

  ghost predicate Ascending(ids: seq<Id>) {
    forall i, j :: 0 <= i < j < |ids| ==> NotBehind(ids[i], ids[j])
  }

  lemma {:induction false} InsertIdKeepsOrder(sorted: seq<Id>, x: Id)
    requires Ascending(sorted)
    ensures Ascending(InsertId(sorted, x)) && multiset(InsertId(sorted, x)) == multiset(sorted) + multiset{x}
  {
    hide NotBehind, LexLess;
    if sorted != [] {
      var front, last := sorted[..|sorted| - 1], sorted[|sorted| - 1];
      assert sorted == front + [last];
      LexMeans(x, last);
      LexMeans(last, x);
      forall y | y in front ensures NotBehind(y, last) {
        var j :| 0 <= j < |front| && front[j] == y;
        assert NotBehind(sorted[j], sorted[|front|]);
      }
      if LexLess(x, last) {
        InsertIdKeepsOrder(front, x);
        var inner := InsertId(front, x);
        hide InsertId;
        forall i | 0 <= i < |inner| ensures NotBehind(inner[i], last) {
          assert inner[i] in inner;
        }
        AscendingAppend(inner, last);
      } else {
        forall y | y in front ensures NotBehind(y, x) { NotBehindTrans(y, last, x); }
        AscendingAppend(sorted, x);
      }
    }
  }

  lemma AscendingAppend(ids: seq<Id>, x: Id)
    requires Ascending(ids) && forall i :: 0 <= i < |ids| ==> NotBehind(ids[i], x)
    ensures Ascending(ids + [x])
  {
    hide NotBehind;
  }

  lemma {:induction false} SortedIdsAscend(ids: seq<Id>)
    ensures Ascending(SortedIds(ids)) && multiset(SortedIds(ids)) == multiset(ids)
  {
    hide NotBehind, InsertId;
    if ids != [] {
      var front, last := ids[..|ids| - 1], ids[|ids| - 1];
      assert ids == front + [last];
      SortedIdsAscend(front);
      InsertIdKeepsOrder(SortedIds(front), last);
    }
  }

  /** The recipient routes are saved by thread, so that equal stores give equal files whatever the order
      in which their threads were bound. */
  lemma RoutesAreSavedInOrder(s: State)
    requires s.routes.Valid()
    ensures var items := SaveRoutes(s.routes);
      && |items| == |s.routes.keys|
      && (forall i, j :: 0 <= i < j < |items| ==> NotBehind(items[i].thread, items[j].thread))
      && (forall i :: 0 <= i < |items| ==>
            items[i].thread in s.routes.vals && items[i].route == s.routes.vals[items[i].thread])
  {
    hide NotBehind;
    SortedIdsAscend(s.routes.keys);
    assert |multiset(s.routes.keys)| == |s.routes.keys|;
    assert |multiset(SortedIds(s.routes.keys))| == |SortedIds(s.routes.keys)|;
    forall i | 0 <= i < |SortedIds(s.routes.keys)| ensures SortedIds(s.routes.keys)[i] in s.routes.vals {
      assert SortedIds(s.routes.keys)[i] in s.routes.keys;
    }
  }

  // ---- Loading what other versions saved ----

  // The id a loaded delivery gets: its own, the one in its message, or one derived from the message.
  predicate Names(id: Id, item: PendingItem, m: Message, legacyId: Message -> Id) {
    if item.id != "" then id == item.id
    else if "delivery_id" in m.metadata && m.metadata["delivery_id"] != "" then id == m.metadata["delivery_id"]
    else id == legacyId(m)
  }

  /** An entry without a message is the watch of its turn; one with a message is staged under its id, its
      sequence or else its place in the file, and new deliveries are numbered behind it. */
  lemma PendingIsLoaded(box: Box, item: PendingItem, position: nat, legacyId: Message -> Id)
    requires !BadPending(item)
    ensures LoadPending(box, item, position, legacyId).Ok?
    ensures var box' := LoadPending(box, item, position, legacyId).value;
      match item.message
      case None =>
        && item.turn in box'.watches.vals && box'.watches.vals[item.turn] == item.createdAt
        && box' == box.(watches := box'.watches)
      case Some(m) =>
        exists id :: Names(id, item, m, legacyId) && id in box'.outbox.vals
          && box'.outbox.vals[id] == Pending(item.turn, m, item.createdAt,
                                             if item.sequence == 0 then position else item.sequence)
          && box'.sequence >= box'.outbox.vals[id].sequence && box'.sequence >= box.sequence
          && (box'.sequence == box.sequence || box'.sequence == box'.outbox.vals[id].sequence)
          && box'.watches == box.watches
          && forall other :: other != id ==>
               (other in box'.outbox.vals <==> other in box.outbox.vals)
               && (other in box.outbox.vals ==> box'.outbox.vals[other] == box.outbox.vals[other])
  {
    if item.message.Some? {
      var m := item.message.value;
      var id := if item.id != "" then item.id
                else if "delivery_id" in m.metadata && m.metadata["delivery_id"] != "" then m.metadata["delivery_id"]
                else legacyId(m);
      assert Names(id, item, m, legacyId);
    }
  }

  /** A recipient route is loaded without the blanks around its names, and a conversation without a profile
      gets the standard one. */
  lemma NamesAreLoaded(routes: Dict<Id, Route>, item: RouteItem, b: Dict<Route, Binding>, saved: BindingItem)
    requires !BadRoute(item)
    ensures LoadRoute(routes, item).Ok?
    ensures exists thread, channel, conversation ::
      && Text.Trimmed(thread) && Text.Trimmed(channel) && Text.Trimmed(conversation)
      && Padded(item.thread, thread) && Padded(item.route.channel, channel)
      && Padded(item.route.conversation, conversation)
      && LoadRoute(routes, item).value == routes.Put(thread, Route(channel, conversation))
    ensures var b' := LoadBinding(b, saved);
      && saved.route in b'.vals
      && b'.vals[saved.route]
           == saved.binding.(profile := if saved.binding.profile != "" then saved.binding.profile else "standard")
  {
    Text.StripBlank(item.thread);
    Text.StripBlank(item.route.channel);
    Text.StripBlank(item.route.conversation);
    Stripped(item.thread);
    Stripped(item.route.channel);
    Stripped(item.route.conversation);
  }

  // s is t with blanks around it.
  ghost predicate Padded(s: string, t: string) {
    exists a, b :: s == a + (t + b) && Text.Blank(a) && Text.Blank(b)
  }

  lemma Stripped(s: string)
    ensures Text.Trimmed(Text.Strip(s)) && Padded(s, Text.Strip(s))
  {
    var a, b := Text.StripParts(s);
  }
}
