/** What every step of the bridge core keeps, and its runs. */
module DeliveryRuns {
  import opened Prelude
  import opened OrderedDict
  import opened StoreModel
  import opened Delivery
  import R = Recency
  import S = StoreRuns

  // ---- The invariant ----

  // Behind a remembered acceptance of an id, at least 512 other remembered ones come before its next.
  ghost predicate Spaced(log: seq<Acceptance>) {
    forall i, j :: 0 <= i < j < |log| && log[i].id == log[j].id && log[i].remembered ==> Apart(log, i, j)
  }

  predicate Apart(log: seq<Acceptance>, i: nat, j: nat)
    requires i < j <= |log|
  {
    |Members(Remembered(log[i + 1..j]))| >= 512
  }

  ghost predicate Unacked(s: State) {
    forall id :: id in s.outbox.vals ==> id !in s.acks.vals
  }

  // What is staged was not remembered lately.
  ghost predicate Fresh(c: Core) {
    forall id :: id in c.store.outbox.vals ==> id !in R.Recent(Remembered(c.log), LIMIT)
  }

  // Accepted by a channel at some time, or completed because it could not be sent.
  function Done(c: Core): set<Id> {
    c.history.earlier + AcceptedIds(c.log) + c.history.unusable
  }

  // What this process still has, or is done.
  function Held(c: Core): set<Id> {
    c.store.outbox.vals.Keys + Done(c)
  }

  // What the next process will still have, or is done.
  function Secured(c: Core): set<Id> {
    c.saved.outbox.vals.Keys + Done(c)
  }

  // A store of this process or its state file: what it acknowledged is done, and nothing in it is new.
  ghost predicate Traced(c: Core, s: State) {
    && S.Inv(s) && Unacked(s)
    && s.acks.vals.Keys <= Done(c) && s.outbox.vals.Keys <= Held(c)
  }

  ghost predicate CoreInv(c: Core) {
    Traced(c, c.store) && Traced(c, c.saved) && Fresh(c) && Spaced(c.log)
  }

  // ---- What each store operation does to the staged and the acknowledged ids ----

  lemma StageView(s: State, id: Id, t: Turn, m: Message, now: int)
    requires S.Inv(s) && id != "" && NamedTurn(t)
    ensures var s' := Stage(s, id, t, m, now);
            && S.Inv(s')
            && s'.outbox.vals.Keys == s.outbox.vals.Keys + {id}
            && s'.acks == s.acks
  {
    S.StageKeepsInv(s, id, t, m, now);
  }

  lemma CompleteView(s: State, id: Id)
    requires S.Inv(s)
    ensures var s' := Complete(s, id);
            && S.Inv(s')
            && s'.outbox.vals.Keys == s.outbox.vals.Keys - {id}
            && s'.acks.vals.Keys <= s.acks.vals.Keys + if id in s.outbox.vals then {id} else {}
  {
    S.CompleteKeepsInv(s, id);
    InvParts(s);
    hide S.Inv, Prune;
    CompletedOutbox(s, id);
    if id in s.outbox.vals {
      CompletedAcks(s, id);
    }
  }

  lemma InvParts(s: State)
    requires S.Inv(s)
    ensures s.outbox.Valid() && s.acks.Valid()
  {
  }

  lemma CompletedOutbox(s: State, id: Id)
    ensures Complete(s, id).outbox.vals.Keys == s.outbox.vals.Keys - {id}
    ensures id !in s.outbox.vals ==> Complete(s, id) == s
  {
    hide Only, Excess;
  }

  lemma CompletedAcks(s: State, id: Id)
    requires s.acks.Valid() && id in s.outbox.vals
    ensures Complete(s, id).acks.vals.Keys <= s.acks.vals.Keys + {id}
  {
    hide Prune, Only;
    var acked := s.(acks := s.acks.Put(id, s.outbox.vals[id].turn));
    s.acks.PutValid(id, s.outbox.vals[id].turn);
    S.PruneKeepsNewest(acked);
    PruneOnlyAcks(s, id);
    forall k | k in Prune(acked).acks.vals ensures k in s.acks.vals.Keys + {id} {
    }
  }

  // What completion adds besides the acknowledgement does not matter to pruning.
  lemma PruneOnlyAcks(s: State, id: Id)
    requires id in s.outbox.vals
    ensures Complete(s, id).acks == Prune(s.(acks := s.acks.Put(id, s.outbox.vals[id].turn))).acks
  {
    hide Only, Excess;
  }

  lemma DiscardView(s: State, t: Turn)
    requires S.Inv(s)
    ensures var s' := DiscardWatch(s, t);
            S.Inv(s') && s'.outbox == s.outbox && s'.acks.vals.Keys <= s.acks.vals.Keys && t !in s'.watches.vals
  {
    S.DiscardKeepsInv(s, t);
    hide S.Inv;
  }

  lemma UpdateView(s: State, id: Id, m: Message)
    requires S.Inv(s)
    ensures var s' := UpdateMessage(s, id, m);
            S.Inv(s') && s'.outbox.vals.Keys == s.outbox.vals.Keys && s'.acks == s.acks && s'.watches == s.watches
  {
    S.UpdateKeepsInv(s, id, m);
    hide S.Inv;
  }

  lemma RoutingView(s: State, op: S.Op, legacyId: Message -> Id)
    requires S.Inv(s) && S.WellFormed(op) && !S.DeliveryOp(op)
    ensures var s' := S.ApplyRouting(s, op);
            S.Inv(s') && s'.outbox == s.outbox && s'.acks.vals.Keys <= s.acks.vals.Keys
  {
    hide S.ApplyRouting, S.Inv, S.WellFormed;
    S.RoutingKeepsInv(s, op);
    S.RoutingKeepsOutbox(s, op);
    S.AcksStep(s, op, legacyId);
    assert S.Apply(s, op, legacyId) == S.ApplyRouting(s, op);
  }

  lemma RestartView(s: State, legacyId: Message -> Id)
    requires S.Inv(s)
    ensures var s' := S.Reload(s, legacyId);
            && S.Inv(s') && s'.outbox == s.outbox && s'.watches == s.watches
            && s'.acks.vals.Keys <= s.acks.vals.Keys
  {
    hide S.Reload, S.Inv;
    S.RestartIsRestored(s, legacyId);
    S.RestartAcks(s, legacyId);
  }

  // ---- What an acceptance does to the log ----

  lemma RecentAppend(d: seq<Id>, id: Id, other: Id)
    requires other in R.Recent(d + [id], LIMIT)
    ensures other == id || other in R.Recent(d, LIMIT)
  {
    hide R.Recent;
    R.RecentStep(d, id, LIMIT);
    R.RemoveMembers(R.Recent(d, LIMIT), id, other);
  }

  lemma RememberedAppend(log: seq<Acceptance>, a: Acceptance)
    ensures Remembered(log + [a]) == Remembered(log) + if a.remembered then [a.id] else []
    ensures AcceptedIds(log + [a]) == AcceptedIds(log) + {a.id}
  {
    assert (log + [a])[..|log|] == log;
  }

  lemma {:induction false} RememberedConcat(log: seq<Acceptance>, a: seq<Acceptance>, b: seq<Acceptance>)
    requires log == a + b
    ensures Remembered(log) == Remembered(a) + Remembered(b)
  {
    if b == [] {
      assert log == a;
    } else {
      var front := b[..|b| - 1];
      assert log[..|log| - 1] == a + front;
      RememberedConcat(a + front, a, front);
    }
  }

  lemma {:induction false} AfterIsSuffix(d: seq<Id>, a: seq<Id>, id: Id, b: seq<Id>, other: Id)
    requires d == a + [id] + b && other in R.After(d, id)
    ensures other in b
  {
    if b != [] {
      var front, last := b[..|b| - 1], b[|b| - 1];
      assert d[..|d| - 1] == a + [id] + front && d[|d| - 1] == last;
      if last != id && other in R.After(d[..|d| - 1], id) {
        AfterIsSuffix(d[..|d| - 1], a, id, front, other);
      }
    }
  }

  lemma {:induction false} AfterIsLastSuffix(d: seq<Id>, a: seq<Id>, id: Id, b: seq<Id>)
    requires d == a + [id] + b && id !in b
    ensures R.After(d, id) == b
  {
    if b != [] {
      var front, last := b[..|b| - 1], b[|b| - 1];
      assert d[..|d| - 1] == a + [id] + front && d[|d| - 1] == last;
      assert last in b && forall k :: k in front ==> k in b;
      AfterIsLastSuffix(d[..|d| - 1], a, id, front);
      assert b == front + [last];
    }
  }

  lemma SubsetSize(a: set<Id>, b: set<Id>)
    requires a <= b
    ensures |a| <= |b|
  {
    assert b == a + (b - a);
  }

  // The log around one of its remembered acceptances.
  lemma RememberedAround(log: seq<Acceptance>, i: nat)
    requires i < |log| && log[i].remembered
    ensures Remembered(log) == Remembered(log[..i]) + [log[i].id] + Remembered(log[i + 1..])
  {
    hide Remembered;
    var front, back := log[..i + 1], log[i + 1..];
    assert log == front + back;
    RememberedConcat(log, front, back);
    assert front == log[..i] + [log[i]];
    RememberedAppend(log[..i], log[i]);
  }

  lemma {:induction false} LastRemembered(log: seq<Acceptance>, id: Id) returns (i: nat)
    requires id in Remembered(log)
    ensures i < |log| && log[i] == Acceptance(id, true) && id !in Remembered(log[i + 1..])
  {
    RememberedNothing();
    hide Remembered;
    var front, last := log[..|log| - 1], log[|log| - 1];
    assert log == front + [last];
    RememberedAppend(front, last);
    if last == Acceptance(id, true) {
      i := |front|;
      assert log[i + 1..] == [];
    } else {
      assert id in Remembered(front);
      i := LastRemembered(front, id);
      var back := front[i + 1..];
      RememberedAppend(back, last);
      assert log[i + 1..] == back + [last];
      assert log[i] == front[i];
    }
  }

  lemma RememberedNothing()
    ensures Remembered([]) == []
  {
  }

  /** A remembered id has left the newest 512 exactly when each remembered acceptance of it has at
      least 512 different ids remembered after it. */
  lemma RecentInLog(log: seq<Acceptance>, id: Id)
    ensures id !in R.Recent(Remembered(log), LIMIT) <==>
      forall i :: 0 <= i < |log| && log[i] == Acceptance(id, true) ==> Apart(log, i, |log|)
  {
    hide R.Recent, R.After;
    R.RecentMeans(Remembered(log), id, LIMIT);
    forall i | 0 <= i < |log| && log[i] == Acceptance(id, true)
      ensures id in Remembered(log) && Members(R.After(Remembered(log), id)) <= Members(Remembered(log[i + 1..]))
      ensures log[i + 1..|log|] == log[i + 1..]
    {
      RememberedAround(log, i);
      forall other | other in R.After(Remembered(log), id) ensures other in Remembered(log[i + 1..]) {
        AfterIsSuffix(Remembered(log), Remembered(log[..i]), id, Remembered(log[i + 1..]), other);
      }
    }
    if id !in R.Recent(Remembered(log), LIMIT) {
      forall i | 0 <= i < |log| && log[i] == Acceptance(id, true) ensures Apart(log, i, |log|) {
        SubsetSize(Members(R.After(Remembered(log), id)), Members(Remembered(log[i + 1..])));
      }
    } else {
      var i := LastRemembered(log, id);
      RememberedAround(log, i);
      AfterIsLastSuffix(Remembered(log), Remembered(log[..i]), id, Remembered(log[i + 1..]));
      assert !Apart(log, i, |log|);
    }
  }

  lemma SpacedAppend(log: seq<Acceptance>, a: Acceptance)
    requires Spaced(log) && a.id !in R.Recent(Remembered(log), LIMIT)
    ensures Spaced(log + [a])
  {
    hide R.Recent, Remembered;
    RecentInLog(log, a.id);
    var log' := log + [a];
    forall i, j | 0 <= i < j < |log'| && log'[i].id == log'[j].id && log'[i].remembered ensures Apart(log', i, j) {
      assert log'[i + 1..j] == log[i + 1..j];
      if j == |log| {
        assert log[i] == Acceptance(a.id, true);
        assert Apart(log, i, |log|);
      } else {
        assert Apart(log, i, j);
      }
    }
  }

  // ---- Every step keeps the invariant ----

  // The log is unchanged, or has one acceptance more.
  predicate Logs(c: Core, c': Core, id: Id) {
    || c'.log == c.log
    || c'.log == c.log + [Acceptance(id, false)]
    || c'.log == c.log + [Acceptance(id, true)]
  }

  lemma LogsAccepted(c: Core, c': Core, id: Id)
    requires Logs(c, c', id)
    ensures AcceptedIds(c'.log) == AcceptedIds(c.log) + if c'.log == c.log then {} else {id}
  {
    hide Remembered;
    RememberedAppend(c.log, Acceptance(id, false));
    RememberedAppend(c.log, Acceptance(id, true));
    LongerDiffers(c.log, Acceptance(id, false));
    LongerDiffers(c.log, Acceptance(id, true));
  }

  lemma LongerDiffers(log: seq<Acceptance>, a: Acceptance)
    ensures log + [a] != log && log + [a.(remembered := !a.remembered)] != log + [a]
  {
    assert |log + [a]| == |log| + 1;
    assert (log + [a])[|log|] == a;
  }

  // A change around one id that was not remembered lately keeps the staged ids fresh.
  lemma ChangeKeepsFresh(c: Core, c': Core, id: Id)
    requires Fresh(c) && Spaced(c.log) && Logs(c, c', id) && id !in R.Recent(Remembered(c.log), LIMIT)
    requires c'.store.outbox.vals.Keys <= c.store.outbox.vals.Keys + {id}
    requires id in c'.store.outbox.vals.Keys ==> c'.log != c.log + [Acceptance(id, true)]
    ensures Fresh(c') && Spaced(c'.log)
  {
    hide R.Recent, Remembered, Spaced;
    forall flag | c'.log == c.log + [Acceptance(id, flag)]
      ensures Spaced(c'.log)
      ensures Remembered(c'.log) == Remembered(c.log) + if flag then [id] else []
    {
      SpacedAppend(c.log, Acceptance(id, flag));
      RememberedAppend(c.log, Acceptance(id, flag));
    }
    forall other | other in c'.store.outbox.vals ensures other !in R.Recent(Remembered(c'.log), LIMIT) {
      assert other in c'.store.outbox.vals.Keys;
      if other != id { assert other in c.store.outbox.vals.Keys; }
      if other in R.Recent(Remembered(c.log) + [id], LIMIT) {
        RecentAppend(Remembered(c.log), id, other);
      }
      assert Remembered(c.log) + [] == Remembered(c.log);
    }
  }

  // ---- Writing the state file ----

  lemma WrittenKeepsInv(c: Core)
    requires CoreInv(c)
    ensures CoreInv(Written(c))
    ensures Held(Written(c)) == Held(c) == Secured(Written(c)) && Secured(c) <= Held(c)
  {
    hide S.Inv, Unacked, Spaced, R.Recent, Remembered, AcceptedIds;
  }

  // ---- Staging ----

  lemma StagingKeepsInv(c: Core, t: Turn, try: Try)
    requires CoreInv(c) && !Known(c, try.id) && NamedTurn(t) && !Refuses(try)
    ensures var c' := StageAndFlush(c, t, try);
            && CoreInv(c') && c'.log == c.log && c'.store.watches == c.store.watches
            && try.id in c'.store.outbox.vals && Held(c') == Held(c) + {try.id}
            && c'.saved == (if Lands(try) then c'.store else c.saved)
            && Secured(c') == (if Lands(try) then Held(c') else Secured(c))
            && c'.history == c.history.(writes := c.history.writes + if Lands(try) then 1 else 0)
  {
    hide CoreInv, Stage, AcceptedIds;
    var staged := c.(store := Stage(c.store, try.id, t, Identified(try), try.now));
    StagedKeepsInv(c, t, try, staged);
    WrittenKeepsInv(staged);
  }

  lemma StagedKeepsInv(c: Core, t: Turn, try: Try, staged: Core)
    requires CoreInv(c) && !Known(c, try.id) && NamedTurn(t) && !Refuses(try)
    requires staged == c.(store := Stage(c.store, try.id, t, Identified(try), try.now))
    ensures CoreInv(staged) && try.id in staged.store.outbox.vals && Held(staged) == Held(c) + {try.id}
    ensures staged.store.watches == c.store.watches
  {
    hide S.Inv, Spaced, R.Recent, Remembered, AcceptedIds, Identified, Fresh;
    StageView(c.store, try.id, t, Identified(try), try.now);
    hide Stage;
    ChangeKeepsFresh(c, staged, try.id);
    forall id | id in staged.store.outbox.vals ensures id !in staged.store.acks.vals {
      assert id in staged.store.outbox.vals.Keys;
      assert id != try.id ==> id in c.store.outbox.vals.Keys && id in c.store.outbox.vals;
    }
    assert try.id in staged.store.outbox.vals.Keys;
  }

  // ---- What happens to a staged delivery ----

  // The delivery stays staged and nothing accepts it for good, or it is done and leaves.
  predicate Handles(c: Core, c': Core, id: Id) {
    && Logs(c, c', id) && c'.saved == c.saved
    && c'.store.outbox.vals.Keys == c.store.outbox.vals.Keys - (if id in c'.store.outbox.vals then {} else {id})
    && c'.store.acks.vals.Keys <= c.store.acks.vals.Keys + (if id in c'.store.outbox.vals then {} else {id})
    && c'.history == c.history.(unusable := c'.history.unusable)
    && c'.history.unusable == c.history.unusable + (if id in c'.store.outbox.vals || c'.log != c.log then {} else {id})
    && (id in c'.store.outbox.vals ==> c'.log != c.log + [Acceptance(id, true)])
  }

  lemma HandlingKeepsInv(c: Core, c': Core, id: Id)
    requires CoreInv(c) && id in c.store.outbox.vals && S.Inv(c'.store) && Handles(c, c', id)
    ensures CoreInv(c') && Held(c') == Held(c)
    ensures Secured(c) <= Secured(c') && Secured(c') <= Secured(c) + {id}
    ensures c'.log == c.log && id in c'.store.outbox.vals ==> Secured(c') == Secured(c)
  {
    hide S.Inv, Spaced, R.Recent, Remembered, AcceptedIds, Fresh;
    StagedIsFresh(c, id);
    LogsAccepted(c, c', id);
    assert id in c.store.outbox.vals.Keys;
    assert id in c'.store.outbox.vals <==> id in c'.store.outbox.vals.Keys;
    ChangeKeepsFresh(c, c', id);
    HandlingKeepsUnacked(c, c', id);
    assert Traced(c', c'.saved) by { assert Held(c) == Held(c'); }
  }

  lemma HandlingKeepsUnacked(c: Core, c': Core, id: Id)
    requires Unacked(c.store) && id in c.store.outbox.vals && Handles(c, c', id)
    ensures Unacked(c'.store)
  {
    hide Logs;
    forall k | k in c'.store.outbox.vals ensures k !in c'.store.acks.vals {
      assert k in c'.store.outbox.vals.Keys;
      assert k in c.store.outbox.vals.Keys;
      assert k !in c.store.acks.vals.Keys;
    }
  }

  lemma StagedIsFresh(c: Core, id: Id)
    requires CoreInv(c) && id in c.store.outbox.vals
    ensures id !in c.store.acks.vals && id !in R.Recent(Remembered(c.log), LIMIT) && id in Held(c)
  {
    hide S.Inv, R.Recent, Remembered, Spaced, AcceptedIds;
    assert id in c.store.outbox.vals.Keys;
  }

  // A staged delivery is completed: accepted, and maybe remembered, or found unusable.
  function Completed(c: Core, updated: State, id: Id, accepted: Option<bool>): Core {
    match accepted
    case Some(remembered) => c.(store := Complete(updated, id), log := c.log + [Acceptance(id, remembered)])
    case None => c.(store := Complete(updated, id), history := c.history.(unusable := c.history.unusable + {id}))
  }

  lemma CompletionKeepsInv(c: Core, updated: State, id: Id, accepted: Option<bool>)
    requires CoreInv(c) && id in c.store.outbox.vals && S.Inv(updated)
    requires updated.outbox.vals.Keys == c.store.outbox.vals.Keys && updated.acks == c.store.acks
    ensures var c' := Completed(c, updated, id, accepted);
            && CoreInv(c') && Held(c') == Held(c) && Secured(c) <= Secured(c')
            && c'.store.outbox.vals.Keys == c.store.outbox.vals.Keys - {id} && c'.store.watches == updated.watches
  {
    CompletedWatches(updated, id);
    hide S.Inv, Complete, CoreInv, Held, Secured;
    var c' := Completed(c, updated, id, accepted);
    assert id in updated.outbox.vals.Keys;
    CompleteView(updated, id);
    assert id !in c'.store.outbox.vals.Keys;
    if accepted.Some? { LongerDiffers(c.log, Acceptance(id, accepted.value)); }
    HandlingKeepsInv(c, c', id);
  }

  // A staged delivery stays staged; a channel may have accepted it all the same.
  lemma FailureKeepsInv(c: Core, updated: State, id: Id, c': Core, accepted: bool)
    requires CoreInv(c) && id in c.store.outbox.vals && S.Inv(updated)
    requires updated.outbox.vals.Keys == c.store.outbox.vals.Keys && updated.acks == c.store.acks
    requires c' == c.(store := updated, log := if accepted then c.log + [Acceptance(id, false)] else c.log)
    ensures CoreInv(c') && Held(c') == Held(c) && Secured(c) <= Secured(c')
    ensures !accepted ==> Secured(c') == Secured(c)
  {
    hide S.Inv, CoreInv, Held, Secured;
    assert id in updated.outbox.vals.Keys;
    LongerDiffers(c.log, Acceptance(id, true));
    HandlingKeepsInv(c, c', id);
  }

  lemma SendKeepsInv(c: Core, try: Try)
    requires CoreInv(c) && try.id in c.store.outbox.vals && !Refuses(try)
    ensures var c' := Send(c, try);
            && CoreInv(c') && Held(c') == Held(c) && Secured(c) <= Secured(c')
            && (!Accepts(try) ==> Secured(c') == Secured(c))
            && c'.saved == c.saved && c'.store.watches == c.store.watches && c'.history == c.history
  {
    InvIsStored(c);
    hide S.Inv, CoreInv, Send, Held, Secured, Refuses;
    if try.ending.CutOff? || try.ending.Sent? {
      SentKeepsInv(c, try);
    } else {
      UnsentKeepsInv(c, try);
    }
  }

  lemma SentKeepsInv(c: Core, try: Try)
    requires CoreInv(c) && S.Inv(c.store) && try.id in c.store.outbox.vals && !Refuses(try)
    requires try.ending.CutOff? || try.ending.Sent?
    ensures var c' := Send(c, try);
            && CoreInv(c') && Held(c') == Held(c) && Secured(c) <= Secured(c') && Accepts(try)
            && c'.saved == c.saved && c'.store.watches == c.store.watches && c'.history == c.history
  {
    CompletedWatches(c.store, try.id);
    hide S.Inv, CoreInv, Complete, Held, Secured, Refuses;
    CompletionKeepsInv(c, c.store, try.id, Some(try.ending.Sent?));
  }

  lemma UnsentKeepsInv(c: Core, try: Try)
    requires CoreInv(c) && S.Inv(c.store) && try.id in c.store.outbox.vals && !Refuses(try)
    requires !try.ending.CutOff? && !try.ending.Sent?
    ensures var c' := Send(c, try);
            && CoreInv(c') && Held(c') == Held(c) && Secured(c) <= Secured(c')
            && (!Accepts(try) ==> Secured(c') == Secured(c))
            && c'.saved == c.saved && c'.store == c.store && c'.history == c.history
  {
    hide S.Inv, CoreInv, Complete, Held, Secured, Refuses;
    FailureKeepsInv(c, c.store, try.id, Send(c, try), Accepts(try));
  }

  lemma CompletedWatches(s: State, id: Id)
    ensures Complete(s, id).watches == s.watches
  {
  }

  // ---- One attempt ----

  lemma DeliverKeepsInv(c: Core, t: Turn, try: Try)
    requires CoreInv(c) && !Known(c, try.id) && NamedTurn(t)
    ensures CoreInv(Deliver(c, t, try))
  {
    hide CoreInv, Send, StageAndFlush, Known, Held, Secured;
    if !Refuses(try) {
      var staged := StageAndFlush(c, t, try);
      StagingKeepsInv(c, t, try);
      SendKeepsInv(staged, try);
      WrittenKeepsInv(Send(staged, try));
    }
  }

  /** An attempt that is not refused stages its id; one that reaches the state file secures it, and with it
      whatever else the store holds. */
  lemma DeliverHolds(c: Core, t: Turn, try: Try)
    requires CoreInv(c) && !Known(c, try.id) && NamedTurn(t)
    ensures var c' := Deliver(c, t, try);
            && Held(c') == Held(c) + (if Refuses(try) then {} else {try.id})
            && (if Lands(try) then Secured(c') == Held(c') else Secured(c') == Secured(c))
            && (Lands(try) <==> c'.history.writes > c.history.writes)
            && c'.history.writes >= c.history.writes
            && c'.history.unusable == c.history.unusable
            && c'.store.watches == c.store.watches
            && (if Lands(try) then c'.saved.watches == c.store.watches else c'.saved == c.saved)
            && c'.ended == c.ended && c'.recovered == c.recovered
  {
    hide CoreInv, Known, Held, Secured, Complete, Stage;
    if !Refuses(try) {
      var staged := StageAndFlush(c, t, try);
      StagingKeepsInv(c, t, try);
      SendKeepsInv(staged, try);
      WrittenKeepsInv(staged);
      WrittenKeepsInv(Send(staged, try));
    }
  }

  // ---- Dropping watches and other state ----

  // Fewer acknowledged ids keep the invariant.
  lemma ShrinkKeepsInv(c: Core, c': Core)
    requires CoreInv(c) && S.Inv(c'.store) && c'.saved == c.saved && c'.log == c.log && c'.history == c.history
    requires c'.store.outbox == c.store.outbox
    requires c'.store.acks.vals.Keys <= c.store.acks.vals.Keys
    ensures CoreInv(c') && Held(c') == Held(c) && Secured(c') == Secured(c)
  {
    hide S.Inv, Spaced, R.Recent, Remembered, AcceptedIds;
    forall id | id in c'.store.outbox.vals ensures id !in c'.store.acks.vals {
      assert id !in c.store.acks.vals.Keys;
    }
  }

  lemma SameKeepsInv(c: Core, c': Core)
    requires CoreInv(c) && c'.store == c.store && c'.saved == c.saved && c'.log == c.log && c'.history == c.history
    ensures CoreInv(c') && Held(c') == Held(c) && Secured(c') == Secured(c)
  {
    InvIsStored(c);
    hide S.Inv, CoreInv, Held, Secured;
    ShrinkKeepsInv(c, c');
  }

  lemma DiscardKeepsInv(c: Core, t: Turn)
    requires CoreInv(c)
    ensures var c' := c.(store := DiscardWatch(c.store, t));
            CoreInv(c') && Held(c') == Held(c) && Secured(c') == Secured(c)
  {
    InvIsStored(c);
    hide DiscardWatch, CoreInv, S.Inv, Held, Secured;
    DiscardView(c.store, t);
    ShrinkKeepsInv(c, c.(store := DiscardWatch(c.store, t)));
  }

  lemma InvIsStored(c: Core)
    requires CoreInv(c)
    ensures S.Inv(c.store) && S.Inv(c.saved)
  {
    hide S.Inv, Spaced, Fresh, Held, Done, Unacked;
  }

  // ---- The live path ----

  lemma LiveAnswerKeepsInv(c: Core, t: Turn, shown: Option<Try>)
    requires CoreInv(c) && NamedTurn(t)
    ensures CoreInv(LiveAnswer(c, t, shown))
  {
    hide CoreInv, Deliver, Known;
    if shown.Some? && !Known(c, shown.value.id) {
      DeliverKeepsInv(c, t, shown.value);
    }
  }

  lemma TurnEndsKeepsInv(c: Core, t: Turn, shown: Option<Try>)
    requires CoreInv(c) && NamedTurn(t)
    ensures CoreInv(TurnEnds(c, t, shown))
  {
    hide CoreInv, LiveAnswer, DiscardWatch, R.Recent, HasPending, Known, Raises, IsDurable, Held, Secured;
    LiveAnswerKeepsInv(c, t, shown);
    var ended := LiveAnswer(c, t, shown).(ended := LiveAnswer(c, t, shown).ended + [t]);
    SameKeepsInv(LiveAnswer(c, t, shown), ended);
    DiscardKeepsInv(ended, t);
  }

  // ---- Recovery ----

  lemma {:induction false} RecoverLoopKeepsInv(c: Core, t: Turn, tries: seq<Try>)
    requires CoreInv(c) && NamedTurn(t)
    ensures CoreInv(RecoverLoop(c, t, tries).core)
  {
    hide CoreInv, Deliver, Known, Raises, IsDurable;
    if tries != [] {
      var front, try := tries[..|tries| - 1], tries[|tries| - 1];
      RecoverLoopKeepsInv(c, t, front);
      var before := RecoverLoop(c, t, front);
      if !before.raised && !Known(before.core, try.id) {
        DeliverKeepsInv(before.core, t, try);
      }
    }
  }

  lemma RecoverTurnKeepsInv(c: Core, t: Turn, tries: seq<Try>)
    requires CoreInv(c) && NamedTurn(t)
    ensures CoreInv(RecoverTurn(c, t, tries))
  {
    hide CoreInv, RecoverLoop, DiscardWatch, BoundTo, Held, Secured;
    if BoundTo(c.store, t.thread).None? {
      SameKeepsInv(c, RecoverTurn(c, t, tries));
    } else {
      RecoverLoopKeepsInv(c, t, tries);
      var loop := RecoverLoop(c, t, tries).core;
      DiscardKeepsInv(loop, t);
      SameKeepsInv(loop.(store := DiscardWatch(loop.store, t)),
                   loop.(store := DiscardWatch(loop.store, t), recovered := loop.recovered - {t}));
    }
  }

  // ---- Retries ----

  lemma ReleaseKeepsInv(c: Core, t: Turn)
    requires CoreInv(c)
    ensures CoreInv(Release(c, t)) && Release(c, t).store.outbox == c.store.outbox
    ensures Release(c, t) == c.(store := Release(c, t).store)
    ensures Held(Release(c, t)) == Held(c) && Secured(Release(c, t)) == Secured(c)
  {
    hide CoreInv, DiscardWatch, R.Recent, HasPending, Held, Secured;
    DiscardKeepsInv(c, t);
    DiscardKeepsOutbox(c.store, t);
  }

  lemma DiscardKeepsOutbox(s: State, t: Turn)
    ensures DiscardWatch(s, t).outbox == s.outbox
  {
  }

  // What a retry of a staged delivery sends.
  function SentBy(id: Id, r: Retry): seq<Acceptance> {
    if r.Accepted? then [Acceptance(id, true)]
    else if r.RetryFails? && r.accepted then [Acceptance(id, false)]
    else []
  }

  // The retry before the watch of a settled turn is released.
  function Retried(c: Core, id: Id, t: Turn, r: Retry): Core {
    match r
    case Blocked => c
    case RetryFails(m, accepted) =>
      c.(store := UpdateMessage(c.store, id, m), log := if accepted then c.log + [Acceptance(id, false)] else c.log)
    case Invalid => c.(store := Complete(c.store, id), history := c.history.(unusable := c.history.unusable + {id}))
    case Accepted(m) =>
      c.(store := Complete(if t.thread == "" then UpdateMessage(c.store, id, m) else c.store, id),
         log := c.log + [Acceptance(id, true)])
  }

  // What a retry of one staged delivery keeps.
  ghost predicate Retries(c: Core, c': Core, id: Id, r: Retry) {
    && CoreInv(c') && Held(c') == Held(c) && Secured(c) <= Secured(c')
    && c.store.outbox.vals.Keys - {id} <= c'.store.outbox.vals.Keys
    && c'.log == c.log + SentBy(id, r)
    && c'.store.watches == c.store.watches
  }

  lemma RetriedKeepsInv(c: Core, id: Id, t: Turn, r: Retry)
    requires CoreInv(c) && id in c.store.outbox.vals
    ensures Retries(c, Retried(c, id, t, r), id, r)
  {
    hide Retries, CoreInv, Retried;
    match r
    case Blocked => BlockedRetries(c, id, t);
    case RetryFails(m, accepted) => FailedRetries(c, id, t, m, accepted);
    case Invalid => UnusableRetries(c, id, t);
    case Accepted(m) => AcceptedRetries(c, id, t, m);
  }

  lemma BlockedRetries(c: Core, id: Id, t: Turn)
    requires CoreInv(c)
    ensures Retries(c, Retried(c, id, t, Blocked), id, Blocked)
  {
    hide CoreInv, Held, Secured;
    assert c.log + [] == c.log;
    assert Secured(c) <= Secured(c);
  }

  lemma FailedRetries(c: Core, id: Id, t: Turn, m: Message, accepted: bool)
    requires CoreInv(c) && id in c.store.outbox.vals
    ensures Retries(c, Retried(c, id, t, RetryFails(m, accepted)), id, RetryFails(m, accepted))
  {
    InvIsStored(c);
    hide S.Inv, CoreInv, UpdateMessage, Held, Secured;
    UpdateView(c.store, id, m);
    FailureKeepsInv(c, UpdateMessage(c.store, id, m), id, Retried(c, id, t, RetryFails(m, accepted)), accepted);
    assert c.log + [] == c.log;
  }

  lemma UnusableRetries(c: Core, id: Id, t: Turn)
    requires CoreInv(c) && id in c.store.outbox.vals
    ensures Retries(c, Retried(c, id, t, Invalid), id, Invalid)
  {
    InvIsStored(c);
    hide *;
    UnusableIsCompleted(c, id, t);
    CompletionKeepsInv(c, c.store, id, None);
    CompletedRetries(c, Completed(c, c.store, id, None), id, Invalid);
  }

  lemma UnusableIsCompleted(c: Core, id: Id, t: Turn)
    ensures Retried(c, id, t, Invalid) == Completed(c, c.store, id, None)
    ensures Completed(c, c.store, id, None).log == c.log + SentBy(id, Invalid)
  {
    hide Complete;
    assert c.log + [] == c.log;
  }

  lemma AcceptedRetries(c: Core, id: Id, t: Turn, m: Message)
    requires CoreInv(c) && id in c.store.outbox.vals
    ensures Retries(c, Retried(c, id, t, Accepted(m)), id, Accepted(m))
  {
    InvIsStored(c);
    UpdateView(c.store, id, m);
    hide *;
    var updated := if t.thread == "" then UpdateMessage(c.store, id, m) else c.store;
    AcceptedIsCompleted(c, id, t, m, updated);
    CompletionKeepsInv(c, updated, id, Some(true));
    CompletedRetries(c, Completed(c, updated, id, Some(true)), id, Accepted(m));
  }

  lemma AcceptedIsCompleted(c: Core, id: Id, t: Turn, m: Message, updated: State)
    requires updated == if t.thread == "" then UpdateMessage(c.store, id, m) else c.store
    ensures Retried(c, id, t, Accepted(m)) == Completed(c, updated, id, Some(true))
    ensures Completed(c, updated, id, Some(true)).log == c.log + SentBy(id, Accepted(m))
  {
    hide Complete, UpdateMessage;
  }

  lemma CompletedRetries(c: Core, c': Core, id: Id, r: Retry)
    requires CoreInv(c') && Held(c') == Held(c) && Secured(c) <= Secured(c')
    requires c'.store.outbox.vals.Keys == c.store.outbox.vals.Keys - {id}
    requires c'.log == c.log + SentBy(id, r) && c'.store.watches == c.store.watches
    ensures Retries(c, c', id, r)
  {
    hide CoreInv, Held, Secured, SentBy;
  }

  lemma RetryOneKeepsInv(c: Core, id: Id, t: Turn, r: Retry)
    requires CoreInv(c) && id in c.store.outbox.vals
    ensures var c' := RetryOne(c, id, t, r);
            && CoreInv(c') && Held(c') == Held(c) && Secured(c) <= Secured(c')
            && c.store.outbox.vals.Keys - {id} <= c'.store.outbox.vals.Keys
            && c'.log == c.log + SentBy(id, r)
            && c'.saved == c.saved && c'.ended == c.ended && c'.history.writes == c.history.writes
  {
    hide CoreInv, Complete, UpdateMessage, Release, Held, Secured;
    RetriedKeepsInv(c, id, t, r);
    ReleaseKeepsInv(Retried(c, id, t, r), t);
  }

  // Distinct ids, all of them staged.
  ghost predicate StagedIn(c: Core, listed: seq<Listed>) {
    && (forall k :: 0 <= k < |listed| ==> listed[k].id in c.store.outbox.vals)
    && (forall j, k :: 0 <= j < k < |listed| ==> listed[j].id != listed[k].id)
  }

  function AllSent(listed: seq<Listed>, results: seq<Retry>): seq<Acceptance>
    requires |results| == |listed|
  {
    if listed == [] then []
    else
      var n := |listed| - 1;
      AllSent(listed[..n], results[..n]) + SentBy(listed[n].id, results[n])
  }

  // A retry pass sends staged deliveries only, each at most once.
  lemma {:induction false} RetryAllKeepsInv(c: Core, listed: seq<Listed>, results: seq<Retry>)
    requires CoreInv(c) && |results| == |listed| && StagedIn(c, listed)
    ensures var c' := RetryAll(c, listed, results);
            && CoreInv(c') && c'.log == c.log + AllSent(listed, results)
            && Held(c') == Held(c) && Secured(c) <= Secured(c')
            && c'.saved == c.saved && c'.ended == c.ended && c'.history.writes == c.history.writes
            && (forall id :: id in c.store.outbox.vals && (forall k :: 0 <= k < |listed| ==> listed[k].id != id)
                             ==> id in c'.store.outbox.vals)
  {
    hide CoreInv, RetryOne, Held, Secured;
    if listed == [] {
      WrittenKeepsInv(c);
      assert Secured(c) <= Secured(c);
    } else {
      var n := |listed| - 1;
      assert StagedIn(c, listed[..n]);
      RetryAllKeepsInv(c, listed[..n], results[..n]);
      var before := RetryAll(c, listed[..n], results[..n]);
      RetryOneKeepsInv(before, listed[n].id, listed[n].pending.turn, results[n]);
      forall id | id in c.store.outbox.vals && (forall k :: 0 <= k < |listed| ==> listed[k].id != id)
        ensures id in RetryAll(c, listed, results).store.outbox.vals
      {
        assert id in before.store.outbox.vals.Keys;
        assert listed[n].id != id;
      }
    }
  }

  lemma ListingIsStaged(c: Core)
    requires CoreInv(c)
    ensures c.store.outbox.Valid() && StagedIn(c, Listing(c.store))
  {
    hide R.Recent, Listing, Spaced;
    S.ListingIsEntries(c.store);
  }

  // ---- The store and the state file ----

  lemma StoreStepKeepsInv(c: Core, op: S.Op, legacyId: Message -> Id)
    requires CoreInv(c) && S.WellFormed(op) && !S.DeliveryOp(op)
    ensures var c' := c.(store := S.ApplyRouting(c.store, op));
            CoreInv(c') && Held(c') == Held(c) && Secured(c') == Secured(c)
  {
    InvIsStored(c);
    hide S.ApplyRouting, S.WellFormed, CoreInv, S.Inv, Held, Secured;
    RoutingView(c.store, op, legacyId);
    ShrinkKeepsInv(c, c.(store := S.ApplyRouting(c.store, op)));
  }

  // What a restart begins with.
  function Restarted(c: Core, loaded: State): Core {
    Core(loaded, c.saved, [], [], map[], c.history.(earlier := c.history.earlier + AcceptedIds(c.log)))
  }

  /** A restart keeps exactly what is secured. */
  lemma RestartKeepsInv(c: Core, legacyId: Message -> Id)
    requires CoreInv(c)
    ensures S.Inv(c.saved)
    ensures var c' := Restarted(c, S.Reload(c.saved, legacyId));
            && CoreInv(c') && Held(c') == Secured(c') == Secured(c)
            && c'.store.outbox == c.saved.outbox && c'.store.watches == c.saved.watches
  {
    InvIsStored(c);
    hide S.Reload, S.Inv, CoreInv, Held, Secured;
    RestartView(c.saved, legacyId);
    ReloadedKeepsInv(c, S.Reload(c.saved, legacyId));
  }

  lemma ReloadedKeepsInv(c: Core, loaded: State)
    requires CoreInv(c) && S.Inv(loaded)
    requires loaded.outbox == c.saved.outbox && loaded.acks.vals.Keys <= c.saved.acks.vals.Keys
    ensures var c' := Restarted(c, loaded); CoreInv(c') && Held(c') == Secured(c') == Secured(c)
  {
    hide S.Inv, R.Recent, Spaced;
    NothingRecent();
    assert Done(Restarted(c, loaded)) == Done(c);
    forall id | id in loaded.outbox.vals ensures id !in loaded.acks.vals {
      assert id !in c.saved.acks.vals.Keys;
    }
  }

  lemma NothingRecent()
    ensures R.Recent(Remembered([]), LIMIT) == [] && AcceptedIds([]) == {} && Spaced([])
  {
  }

  /** Every step keeps staged ids apart from those remembered lately and those acknowledged, also in the
      state file, and neither holds an id that was not attempted. */
  lemma ApplyKeepsInv(c: Core, step: Step, legacyId: Message -> Id)
    requires CoreInv(c) && WellFormed(step)
    ensures S.Inv(c.store) && S.Inv(c.saved) && CoreInv(Apply(c, step, legacyId))
  {
    hide CoreInv, LiveAnswer, TurnEnds, RecoverTurn, RetryAll, S.Inv, Listing, Held, Secured, Written;
    InvIsStored(c);
    match step
    case AnswerStep(t, shown) =>
      LiveAnswerKeepsInv(c, t, shown);
    case TurnEndsStep(t, shown) =>
      TurnEndsKeepsInv(c, t, shown);
    case FoundStep(t, ids) =>
      SameKeepsInv(c, Apply(c, step, legacyId));
    case RecoverStep(t, tries) =>
      RecoverTurnKeepsInv(c, t, tries);
    case RetryStep(results) =>
      RetryStepKeepsInv(c, results);
    case StoreStep(op) =>
      StoreStepKeepsInv(c, op, legacyId);
    case WriteStep =>
      WrittenKeepsInv(c);
    case RestartStep =>
      RestartKeepsInv(c, legacyId);
  }

  lemma RestartIs(c: Core, legacyId: Message -> Id)
    requires S.Inv(c.store) && S.Inv(c.saved)
    ensures Apply(c, RestartStep, legacyId) == Restarted(c, S.Reload(c.saved, legacyId))
  {
    hide S.Inv, S.Reload;
  }

  lemma RetryStepKeepsInv(c: Core, results: seq<Retry>)
    requires CoreInv(c)
    ensures c.store.outbox.Valid()
    ensures |results| == |Listing(c.store)| ==>
      var c' := RetryAll(Written(c), Listing(c.store), results);
      && CoreInv(c') && Held(c') == Held(c) && Held(c) <= Secured(c')
      && c'.log == c.log + AllSent(Listing(c.store), results)
      && c'.saved == c.store && c'.ended == c.ended && c'.history.writes == c.history.writes + 1
  {
    hide CoreInv, RetryAll, Listing, Held, Secured;
    ListingIsStaged(c);
    if |results| == |Listing(c.store)| {
      WrittenKeepsInv(c);
      assert StagedIn(Written(c), Listing(c.store));
      RetryAllKeepsInv(Written(c), Listing(c.store), results);
    }
  }

  // ---- Runs ----

  ghost predicate AllWellFormed(steps: seq<Step>) {
    forall i :: 0 <= i < |steps| ==> WellFormed(steps[i])
  }

  // The core after a run of steps on a new one.
  ghost function Run(steps: seq<Step>, legacyId: Message -> Id): (c: Core)
    requires AllWellFormed(steps)
    ensures CoreInv(c)
  {
    if steps == [] then
      InitInv();
      NewCore()
    else
      var before := Run(steps[..|steps| - 1], legacyId);
      ApplyKeepsInv(before, steps[|steps| - 1], legacyId);
      Apply(before, steps[|steps| - 1], legacyId)
  }

  lemma InitInv()
    ensures CoreInv(NewCore())
  {
    NothingRecent();
    hide R.Recent;
  }

  lemma RunStep(steps: seq<Step>, step: Step, legacyId: Message -> Id)
    requires AllWellFormed(steps) && WellFormed(step)
    ensures AllWellFormed(steps + [step]) && CoreInv(Run(steps, legacyId)) && CoreInv(Run(steps + [step], legacyId))
    ensures S.Inv(Run(steps, legacyId).store) && S.Inv(Run(steps, legacyId).saved)
    ensures Run(steps + [step], legacyId) == Apply(Run(steps, legacyId), step, legacyId)
  {
    hide CoreInv, Apply, WellFormed, S.Inv;
    InvIsStored(Run(steps, legacyId));
    assert (steps + [step])[..|steps|] == steps;
  }

  lemma InvAfter(steps: seq<Step>, legacyId: Message -> Id)
    requires AllWellFormed(steps)
    ensures CoreInv(Run(steps, legacyId))
  {
  }
}
