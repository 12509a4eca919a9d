/** When a delivery is sent again: by one process, and by the next one. */
module DeliveryRepeats {
  import opened Prelude
  import opened OrderedDict
  import opened StoreModel
  import opened Delivery
  import opened DeliveryRuns
  import R = Recency
  import S = StoreRuns

  // ---- What is sent twice ----

  /** In every run of live answers, turn ends, recoveries, retries and store operations, a second
      acceptance of an id that was remembered the first time comes after at least 512 different ids were
      remembered in between. */
  lemma SentOnceInAWhile(steps: seq<Step>, legacyId: Message -> Id, i: nat, j: nat)
    requires AllWellFormed(steps) && i < j < |Run(steps, legacyId).log|
    requires Run(steps, legacyId).log[i].id == Run(steps, legacyId).log[j].id
    requires Run(steps, legacyId).log[i].remembered
    ensures |Members(Remembered(Run(steps, legacyId).log[i + 1..j]))| >= 512
  {
    hide Run, Fresh, S.Inv, Remembered, Traced;
    assert Apart(Run(steps, legacyId).log, i, j);
  }

  /** An attempt that a channel accepts sends its id, whatever was accepted of it before, exactly when
      it is neither staged nor acknowledged and each remembered acceptance of it lies 512 different
      ids back. */
  lemma SentAgainExactly(c: Core, t: Turn, try: Try)
    requires Accepts(try)
    ensures var sent := c.log + [Acceptance(try.id, try.ending.Sent?)];
            var c' := LiveAnswer(c, t, Some(try));
            && c'.log in {c.log, sent}
            && (c'.log == sent <==>
                  && try.id !in c.store.outbox.vals
                  && try.id !in c.store.acks.vals
                  && forall i :: 0 <= i < |c.log| && c.log[i] == Acceptance(try.id, true) ==> Apart(c.log, i, |c.log|))
  {
    hide R.Recent, Stage, Complete, Remembered, Apart;
    RecentInLog(c.log, try.id);
    LongerDiffers(c.log, Acceptance(try.id, try.ending.Sent?));
  }

  // ---- Across a restart ----

  /** Behind a restart an accepted attempt sends its id, whatever earlier processes sent, exactly when the
      state file neither has it staged nor keeps its acknowledgement: for a standalone delivery, or while
      the turn is watched. */
  lemma SentAfterRestartExactly(c: Core, legacyId: Message -> Id, t: Turn, try: Try)
    requires CoreInv(c) && Accepts(try)
    ensures S.Inv(c.saved)
    ensures var s, c' := c.saved, LiveAnswer(Restarted(c, S.Reload(c.saved, legacyId)), t, Some(try));
            && c'.log in {[], [Acceptance(try.id, try.ending.Sent?)]}
            && (c'.log != [] <==>
                  && try.id !in s.outbox.vals
                  && !(try.id in s.acks.vals &&
                    (s.acks.vals[try.id] == NO_TURN || s.acks.vals[try.id] in s.watches.vals)))
  {
    InvIsStored(c);
    hide CoreInv, S.Inv, S.Reload, LiveAnswer, Accepts, Apart, Listing;
    var next := Restarted(c, S.Reload(c.saved, legacyId));
    ReloadedDeliveries(c.saved, legacyId);
    SentAgainExactly(next, t, try);
    assert [] + [Acceptance(try.id, try.ending.Sent?)] == [Acceptance(try.id, try.ending.Sent?)];
  }

  lemma ReloadedDeliveries(s: State, legacyId: Message -> Id)
    requires S.Inv(s)
    ensures var s' := S.Reload(s, legacyId);
            && S.Inv(s') && s'.outbox == s.outbox
            && (forall id :: id in s'.acks.vals <==>
                  id in s.acks.vals && (s.acks.vals[id] == NO_TURN || s.acks.vals[id] in s.watches.vals))
  {
    hide S.Inv, S.Reload;
    RestartView(s, legacyId);
    S.RestartIsRestored(s, legacyId);
    S.RestoredAcks(s);
  }

  /** And its first retry pass sends exactly those the state file has staged and a channel accepts. */
  lemma RetriedAfterRestartExactly(c: Core, legacyId: Message -> Id, results: seq<Retry>, id: Id)
    requires CoreInv(c)
    ensures S.Inv(c.saved) && c.saved.outbox.Valid()
    ensures var listed, c' := Listing(c.saved), Restarted(c, S.Reload(c.saved, legacyId));
            && S.Inv(c'.store) && S.Inv(c'.saved)
            && (|results| == |listed| ==>
                  (Sends(c', Apply(c', RetryStep(results), legacyId), id) <==>
                     exists k :: 0 <= k < |listed| && listed[k].id == id && SentBy(id, results[k]) != []))
            && (id in c.saved.outbox.vals <==> exists k :: 0 <= k < |listed| && listed[k].id == id)
  {
    InvIsStored(c);
    hide CoreInv, S.Inv, S.Reload, Listing, SentBy, Held, Secured;
    RestartKeepsInv(c, legacyId);
    var next := Restarted(c, S.Reload(c.saved, legacyId));
    InvIsStored(next);
    SameListing(c.saved, next.store);
    ListedExactly(c.saved, id);
    if |results| == |Listing(c.saved)| {
      PassSendsExactly(next, legacyId, results, id);
    }
  }

  lemma SameListing(s: State, s': State)
    requires S.Inv(s) && s'.outbox == s.outbox
    ensures s.outbox.Valid() && Listing(s') == Listing(s)
  {
  }

  lemma ListedExactly(s: State, id: Id)
    requires S.Inv(s)
    ensures s.outbox.Valid()
    ensures id in s.outbox.vals <==> exists k :: 0 <= k < |Listing(s)| && Listing(s)[k].id == id
  {
    hide Listing;
    S.ListingIsEntries(s);
    hide S.Inv;
    if id in s.outbox.vals {
      assert id in s.outbox.keys;
      var k :| 0 <= k < |s.outbox.keys| && s.outbox.keys[k] == id;
      assert Listing(s)[k].id == id;
    }
  }

  lemma PassSendsExactly(c: Core, legacyId: Message -> Id, results: seq<Retry>, id: Id)
    requires CoreInv(c) && S.Inv(c.store) && S.Inv(c.saved) && c.store.outbox.Valid() && |results| == |Listing(c.store)|
    ensures var listed := Listing(c.store);
            Sends(c, Apply(c, RetryStep(results), legacyId), id) <==>
              exists k :: 0 <= k < |listed| && listed[k].id == id && SentBy(id, results[k]) != []
  {
    hide CoreInv, S.Inv, RetryAll, Listing, SentBy, Held, Secured, AllSent;
    var listed, c' := Listing(c.store), Apply(c, RetryStep(results), legacyId);
    RetryStepKeepsInv(c, results);
    AllSentExactly(listed, results, id);
    var sent := AllSent(listed, results);
    assert c'.log == c.log + sent;
    if exists j :: 0 <= j < |sent| && sent[j].id == id {
      var j :| 0 <= j < |sent| && sent[j].id == id;
      assert c'.log[|c.log| + j].id == id;
    }
    if Sends(c, c', id) {
      var k :| |c.log| <= k < |c'.log| && c'.log[k].id == id;
      assert sent[k - |c.log|].id == id;
    }
  }

  lemma {:induction false} AllSentExactly(listed: seq<Listed>, results: seq<Retry>, id: Id)
    requires |results| == |listed|
    ensures Has(AllSent(listed, results), id) <==>
      exists k :: 0 <= k < |listed| && listed[k].id == id && SentBy(id, results[k]) != []
  {
    if listed != [] {
      var n := |listed| - 1;
      var front, last := AllSent(listed[..n], results[..n]), SentBy(listed[n].id, results[n]);
      AllSentExactly(listed[..n], results[..n], id);
      assert AllSent(listed, results) == front + last;
      hide AllSent;
      SentByIds(listed[n].id, results[n]);
      HasConcat(front, last, id);
      assert forall k :: 0 <= k < n ==> listed[..n][k] == listed[k] && results[..n][k] == results[k];
    }
  }

  ghost predicate Has(log: seq<Acceptance>, id: Id) {
    exists j :: 0 <= j < |log| && log[j].id == id
  }

  lemma HasConcat(a: seq<Acceptance>, b: seq<Acceptance>, id: Id)
    ensures Has(a + b, id) <==> Has(a, id) || Has(b, id)
  {
    if Has(a, id) {
      var j :| 0 <= j < |a| && a[j].id == id;
      assert (a + b)[j].id == id;
    }
    if Has(b, id) {
      var j :| 0 <= j < |b| && b[j].id == id;
      assert (a + b)[|a| + j].id == id;
    }
  }

  lemma SentByIds(id: Id, r: Retry)
    ensures forall other :: Has(SentBy(id, r), other) <==> SentBy(id, r) != [] && other == id
  {
    assert SentBy(id, r) != [] ==> SentBy(id, r)[0].id == id;
  }

  // ---- No step sends what is acknowledged ----

  // A channel accepts the id between two states of one process.
  ghost predicate Sends(c: Core, c': Core, id: Id) {
    |c.log| <= |c'.log| && exists k :: |c.log| <= k < |c'.log| && c'.log[k].id == id
  }

  ghost predicate Acked(c: Core, id: Id) {
    id in c.store.acks.vals && c.store.acks.vals[id] != NO_TURN
  }

  predicate Extends(c: Core, c': Core) {
    c.log <= c'.log
  }

  // An attempt for another id leaves an acknowledgement in place.
  lemma DeliverKeepsAck(c: Core, t: Turn, try: Try, id: Id)
    requires CoreInv(c) && !Known(c, try.id) && NamedTurn(t) && Acked(c, id)
    ensures Acked(Deliver(c, t, try), id)
    ensures Extends(c, Deliver(c, t, try)) && !Sends(c, Deliver(c, t, try), id)
  {
    hide S.Inv, Complete, Stage, R.Recent, Spaced, Remembered, Lands;
    if !Refuses(try) {
      StageView(c.store, try.id, t, Identified(try), try.now);
      var staged := Stage(c.store, try.id, t, Identified(try), try.now);
      assert id !in staged.outbox.vals.Keys;
      if try.id in staged.outbox.vals {
        S.TurnAcksSurviveCompletion(staged, try.id, id);
      }
    }
  }

  lemma SendsInTwo(c: Core, middle: Core, c': Core, id: Id)
    requires Extends(c, middle) && Extends(middle, c') && !Sends(c, middle, id) && !Sends(middle, c', id)
    ensures Extends(c, c') && !Sends(c, c', id)
  {
  }

  lemma {:induction false} RecoverLoopSendsNew(c: Core, t: Turn, tries: seq<Try>, id: Id)
    requires CoreInv(c) && NamedTurn(t) && Acked(c, id)
    ensures var c' := RecoverLoop(c, t, tries).core;
            Acked(c', id) && Extends(c, c') && !Sends(c, c', id)
  {
    hide CoreInv, Deliver, Known, Acked, Raises, IsDurable;
    if tries != [] {
      var front, try := tries[..|tries| - 1], tries[|tries| - 1];
      RecoverLoopSendsNew(c, t, front, id);
      var before := RecoverLoop(c, t, front);
      if !before.raised && !Known(before.core, try.id) {
        RecoverLoopKeepsInv(c, t, front);
        DeliverKeepsAck(before.core, t, try, id);
        SendsInTwo(c, before.core, Deliver(before.core, t, try), id);
      }
    }
  }

  lemma LiveSendsNew(c: Core, t: Turn, shown: Option<Try>, id: Id)
    requires CoreInv(c) && NamedTurn(t) && Acked(c, id)
    ensures !Sends(c, LiveAnswer(c, t, shown), id)
  {
    hide CoreInv, Deliver, Known, Acked;
    if shown.Some? && !Known(c, shown.value.id) {
      DeliverKeepsAck(c, t, shown.value, id);
    }
  }

  lemma RetrySendsNew(c: Core, legacyId: Message -> Id, results: seq<Retry>, id: Id)
    requires CoreInv(c) && Acked(c, id)
    ensures S.Inv(c.store) && S.Inv(c.saved) && !Sends(c, Apply(c, RetryStep(results), legacyId), id)
  {
    InvIsStored(c);
    AckedIsNotStaged(c, id);
    hide CoreInv, S.Inv, Listing, SentBy, Acked, Apply, Sends;
    ListedExactly(c.store, id);
    if |results| == |Listing(c.store)| { PassSendsExactly(c, legacyId, results, id); }
    else { NoPass(c, legacyId, results, id); }
  }

  lemma NoPass(c: Core, legacyId: Message -> Id, results: seq<Retry>, id: Id)
    requires S.Inv(c.store) && S.Inv(c.saved) && c.store.outbox.Valid() && |results| != |Listing(c.store)|
    ensures !Sends(c, Apply(c, RetryStep(results), legacyId), id)
  {
    hide S.Inv, Listing;
  }

  lemma AckedIsNotStaged(c: Core, id: Id)
    requires CoreInv(c) && Acked(c, id)
    ensures id !in c.store.outbox.vals
  {
    hide S.Inv, Spaced, Fresh;
  }

  /** No step, a recovery after a restart included, sends an answer whose acknowledgement is kept. */
  lemma AcknowledgedIsNotSent(c: Core, step: Step, legacyId: Message -> Id, id: Id)
    requires CoreInv(c) && WellFormed(step) && Acked(c, id)
    ensures !Sends(c, Apply(c, step, legacyId), id)
  {
    hide CoreInv, LiveAnswer, RecoverLoop, RetryAll, Listing, S.ApplyRouting, S.Reload, S.Inv, DiscardWatch,
         R.Recent, HasPending, Acked, Known, Raises, IsDurable, BoundTo;
    InvIsStored(c);
    match step
    case AnswerStep(t, shown) =>
      LiveSendsNew(c, t, shown, id);
    case TurnEndsStep(t, shown) =>
      LiveSendsNew(c, t, shown, id);
    case RecoverStep(t, tries) =>
      RecoverLoopSendsNew(c, t, tries, id);
    case RetryStep(results) =>
      RetrySendsNew(c, legacyId, results, id);
    case FoundStep(_, _) =>
    case StoreStep(_) =>
    case WriteStep =>
    case RestartStep =>
  }
}
