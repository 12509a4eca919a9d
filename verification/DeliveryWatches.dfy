/**
 The watch of a turn: while an answer of it is staged in this process only, the state file keeps the
 watch, so that a recovery after a restart finds the turn and delivers the answer again.
 */
module DeliveryWatches {
  import opened Prelude
  import opened OrderedDict
  import opened StoreModel
  import opened Delivery
  import opened DeliveryRuns
  import opened DeliveryLosses
  import R = Recency
  import S = StoreRuns

  /** The answer is held or its turn is watched and has not ended, here and, across a restart, in the
      state file. */
  ghost predicate Recoverable(c: Core, t: Turn, id: Id) {
    && (id in Held(c) || (t in c.store.watches.vals && t !in c.ended))
    && (id in Secured(c) || t in c.saved.watches.vals)
  }

  // What gives the turn up while the answer is not held: its end, a recovery of it that does not list
  // the answer, or an operation on the store that drops its watch.
  predicate GivesUp(c: Core, step: Step, t: Turn, id: Id) {
    match step
    case TurnEndsStep(ended, _) => ended == t
    case RecoverStep(recovered, tries) => recovered == t && !Tries(tries, id)
    case StoreStep(op) => !S.DeliveryOp(op) && t !in S.ApplyRouting(c.store, op).watches.vals
    case _ => false
  }

  // ---- One step ----

  lemma DeliverRecoverable(c: Core, t': Turn, try: Try, t: Turn, id: Id)
    requires CoreInv(c) && !Known(c, try.id) && NamedTurn(t') && Recoverable(c, t, id)
    ensures Recoverable(Deliver(c, t', try), t, id)
    ensures Deliver(c, t', try).ended == c.ended && Deliver(c, t', try).store.watches == c.store.watches
    ensures Held(c) <= Held(Deliver(c, t', try))
  {
    hide CoreInv, Known, Held, Secured, Deliver, Lands, Refuses;
    DeliverHolds(c, t', try);
    WrittenKeepsInv(c);
  }

  lemma LiveRecoverable(c: Core, t': Turn, shown: Option<Try>, t: Turn, id: Id)
    requires CoreInv(c) && NamedTurn(t') && Recoverable(c, t, id)
    ensures var c' := LiveAnswer(c, t', shown);
            Recoverable(c', t, id) && c'.ended == c.ended && c'.store.watches == c.store.watches && Held(c) <= Held(c')
  {
    hide CoreInv, Known, Held, Secured, Deliver, Recoverable;
    if shown.Some? && !Known(c, shown.value.id) {
      DeliverRecoverable(c, t', shown.value, t, id);
    } else {
      assert Held(c) <= Held(c);
    }
  }

  // Only watches and ended turns change, and not those of t while it needs them.
  lemma StateRecoverable(c: Core, c': Core, t: Turn, id: Id)
    requires Recoverable(c, t, id) && Held(c') == Held(c) && Secured(c') == Secured(c) && c'.saved == c.saved
    requires id in Held(c)
             || ((t in c.store.watches.vals ==> t in c'.store.watches.vals) && (t in c'.ended ==> t in c.ended))
    ensures Recoverable(c', t, id)
  {
    hide Held, Secured;
  }

  lemma DiscardKeepsOthers(s: State, t': Turn, t: Turn)
    requires t' != t
    ensures t in DiscardWatch(s, t').watches.vals <==> t in s.watches.vals
  {
    hide Only;
  }

  lemma DiscardRecoverable(c: Core, t': Turn, t: Turn, id: Id)
    requires CoreInv(c) && Recoverable(c, t, id) && (t' == t ==> id in Held(c))
    ensures Recoverable(c.(store := DiscardWatch(c.store, t')), t, id)
  {
    hide CoreInv, Held, Secured, DiscardWatch, Recoverable;
    DiscardKeepsInv(c, t');
    if t' != t { DiscardKeepsOthers(c.store, t', t); }
    StateRecoverable(c, c.(store := DiscardWatch(c.store, t')), t, id);
  }

  lemma EndRecoverable(c: Core, t': Turn, shown: Option<Try>, t: Turn, id: Id)
    requires CoreInv(c) && NamedTurn(t') && Recoverable(c, t, id) && (t' == t ==> id in Held(c))
    ensures Recoverable(TurnEnds(c, t', shown), t, id)
  {
    hide CoreInv, Known, Held, Secured, LiveAnswer, DiscardWatch, R.Recent, HasPending, Raises, IsDurable, Recoverable;
    var after := LiveAnswer(c, t', shown);
    var ended := after.(ended := after.ended + [t']);
    LiveAnswerKeepsInv(c, t', shown);
    LiveRecoverable(c, t', shown, t, id);
    SameKeepsInv(after, ended);
    StateRecoverable(after, ended, t, id);
    DiscardRecoverable(ended, t', t, id);
  }

  lemma {:induction false} LoopRecoverable(c: Core, t': Turn, tries: seq<Try>, t: Turn, id: Id)
    requires CoreInv(c) && NamedTurn(t') && Recoverable(c, t, id)
    ensures var loop := RecoverLoop(c, t', tries).core;
            && Recoverable(loop, t, id) && loop.ended == c.ended && loop.store.watches == c.store.watches
            && Held(c) <= Held(loop)
  {
    hide CoreInv, Known, Held, Secured, Deliver, Raises, IsDurable, Recoverable;
    if tries == [] {
      assert Held(c) <= Held(c);
    } else {
      var front, try := tries[..|tries| - 1], tries[|tries| - 1];
      var before := RecoverLoop(c, t', front);
      LoopRecoverable(c, t', front, t, id);
      RecoverLoopKeepsInv(c, t', front);
      if !before.raised && !Known(before.core, try.id) {
        DeliverRecoverable(before.core, t', try, t, id);
      }
    }
  }

  // A recovery that ends without an error holds everything it listed.
  lemma {:induction false} LoopHolds(c: Core, t: Turn, tries: seq<Try>)
    requires CoreInv(c) && NamedTurn(t)
    ensures var loop := RecoverLoop(c, t, tries);
            !loop.raised ==> forall k :: 0 <= k < |tries| ==> tries[k].id in Held(loop.core)
  {
    hide CoreInv, Known, Held, Secured, Deliver, IsDurable, Refuses;
    if tries != [] {
      var n := |tries| - 1;
      var front, try := tries[..n], tries[n];
      var before := RecoverLoop(c, t, front);
      LoopHolds(c, t, front);
      RecoverLoopKeepsInv(c, t, front);
      if !before.raised {
        if Known(before.core, try.id) { KnownIsHeld(before.core, try.id); }
        else { DeliverHolds(before.core, t, try); }
      }
    }
  }

  lemma RecoveryRecoverable(c: Core, t': Turn, tries: seq<Try>, t: Turn, id: Id)
    requires CoreInv(c) && NamedTurn(t') && Recoverable(c, t, id)
    requires id in Held(c) || (t' == t ==> Tries(tries, id))
    ensures Recoverable(RecoverTurn(c, t', tries), t, id)
  {
    hide CoreInv, Held, Secured, RecoverLoop, BoundTo, DiscardWatch, Recoverable;
    var loop := RecoverLoop(c, t', tries);
    if BoundTo(c.store, t'.thread).None? {
      SameKeepsInv(c, RecoverTurn(c, t', tries));
      StateRecoverable(c, RecoverTurn(c, t', tries), t, id);
    } else {
      LoopRecoverable(c, t', tries, t, id);
      RecoverLoopKeepsInv(c, t', tries);
      if !loop.raised && loop.accounted {
        LoopHolds(c, t', tries);
        var settled := loop.core.(store := DiscardWatch(loop.core.store, t'));
        DiscardRecoverable(loop.core, t', t, id);
        DiscardKeepsInv(loop.core, t');
        SameKeepsInv(settled, settled.(recovered := loop.core.recovered - {t'}));
        StateRecoverable(settled, settled.(recovered := loop.core.recovered - {t'}), t, id);
      }
    }
  }

  lemma WriteRecoverable(c: Core, t: Turn, id: Id)
    requires CoreInv(c) && Recoverable(c, t, id)
    ensures Recoverable(Written(c), t, id)
  {
    hide CoreInv, Held, Secured;
    WrittenKeepsInv(c);
  }

  lemma ReleaseRecoverable(c: Core, t': Turn, t: Turn, id: Id)
    requires CoreInv(c) && Recoverable(c, t, id)
    ensures Recoverable(Release(c, t'), t, id)
  {
    hide CoreInv, Held, Secured, DiscardWatch, R.Recent, HasPending;
    R.RecentMeans(c.ended, t', LIMIT);
    if t' in R.Recent(c.ended, LIMIT) {
      DiscardRecoverable(c, t', t, id);
    }
  }

  lemma RetryRecoverable(c: Core, listed: Id, t': Turn, r: Retry, t: Turn, id: Id)
    requires CoreInv(c) && listed in c.store.outbox.vals && Recoverable(c, t, id)
    ensures Recoverable(RetryOne(c, listed, t', r), t, id)
  {
    hide CoreInv, Held, Secured, Release, Complete, UpdateMessage;
    var retried := Retried(c, listed, t', r);
    RetriedKeepsInv(c, listed, t', r);
    ReleaseRecoverable(retried, t', t, id);
  }

  lemma {:induction false} RetriesRecoverable(c: Core, listed: seq<Listed>, results: seq<Retry>, t: Turn, id: Id)
    requires CoreInv(c) && |results| == |listed| && StagedIn(c, listed) && Recoverable(c, t, id)
    ensures Recoverable(RetryAll(c, listed, results), t, id)
  {
    hide CoreInv, RetryOne, Held, Secured, Recoverable;
    if listed != [] {
      var n := |listed| - 1;
      assert StagedIn(c, listed[..n]);
      RetryAllKeepsInv(c, listed[..n], results[..n]);
      RetriesRecoverable(c, listed[..n], results[..n], t, id);
      RetryRecoverable(RetryAll(c, listed[..n], results[..n]), listed[n].id, listed[n].pending.turn, results[n], t, id);
    }
  }

  lemma PassRecoverable(c: Core, results: seq<Retry>, t: Turn, id: Id)
    requires CoreInv(c) && Recoverable(c, t, id)
    ensures c.store.outbox.Valid()
    ensures |results| == |Listing(c.store)| ==> Recoverable(RetryAll(Written(c), Listing(c.store), results), t, id)
  {
    hide CoreInv, RetryAll, Held, Secured, Recoverable, Listing;
    ListingIsStaged(c);
    if |results| == |Listing(c.store)| {
      WrittenKeepsInv(c);
      WriteRecoverable(c, t, id);
      assert StagedIn(Written(c), Listing(c.store));
      RetriesRecoverable(Written(c), Listing(c.store), results, t, id);
    }
  }

  lemma StoreRecoverable(c: Core, op: S.Op, legacyId: Message -> Id, t: Turn, id: Id)
    requires CoreInv(c) && S.WellFormed(op) && !S.DeliveryOp(op) && Recoverable(c, t, id)
    requires id in Held(c) || t in S.ApplyRouting(c.store, op).watches.vals
    ensures Recoverable(c.(store := S.ApplyRouting(c.store, op)), t, id)
  {
    hide CoreInv, Held, Secured, S.ApplyRouting, S.WellFormed, Recoverable;
    StoreStepKeepsInv(c, op, legacyId);
    StateRecoverable(c, c.(store := S.ApplyRouting(c.store, op)), t, id);
  }

  lemma RestartRecoverable(c: Core, legacyId: Message -> Id, t: Turn, id: Id)
    requires CoreInv(c) && Recoverable(c, t, id)
    ensures S.Inv(c.saved) && Recoverable(Restarted(c, S.Reload(c.saved, legacyId)), t, id)
  {
    InvIsStored(c);
    hide CoreInv, Held, Secured, S.Inv, S.Reload;
    RestartKeepsInv(c, legacyId);
  }

  lemma StepRecoverable(c: Core, step: Step, legacyId: Message -> Id, t: Turn, id: Id)
    requires CoreInv(c) && WellFormed(step) && Recoverable(c, t, id)
    requires id in Held(c) || !GivesUp(c, step, t, id)
    ensures S.Inv(c.store) && S.Inv(c.saved) && Recoverable(Apply(c, step, legacyId), t, id)
  {
    InvIsStored(c);
    hide CoreInv, S.Inv, Held, Secured, LiveAnswer, TurnEnds, RecoverTurn, RetryAll, Listing, S.ApplyRouting,
         Written, Recoverable, Tries;
    match step
    case AnswerStep(t', shown) => LiveRecoverable(c, t', shown, t, id);
    case TurnEndsStep(t', shown) => EndRecoverable(c, t', shown, t, id);
    case FoundStep(t', ids) =>
      SameKeepsInv(c, Apply(c, step, legacyId));
      StateRecoverable(c, Apply(c, step, legacyId), t, id);
    case RecoverStep(t', tries) => RecoveryRecoverable(c, t', tries, t, id);
    case RetryStep(results) => PassRecoverable(c, results, t, id);
    case StoreStep(op) => StoreRecoverable(c, op, legacyId, t, id);
    case WriteStep => WriteRecoverable(c, t, id);
    case RestartStep =>
      RestartIs(c, legacyId);
      RestartRecoverable(c, legacyId, t, id);
  }

  // ---- Runs ----

  /** An answer that is held here and, in the state file, held or watched is never lost for good: through
      any number of restarts it is held or its turn is watched, unless the turn is given up at a moment
      when the answer is not held. */
  lemma {:induction false} WatchedIsNeverLost(
      steps: seq<Step>, more: seq<Step>, legacyId: Message -> Id, t: Turn, id: Id)
    requires AllWellFormed(steps) && AllWellFormed(more) && Recoverable(Run(steps, legacyId), t, id)
    requires forall k :: 0 <= k < |more| ==>
      AllWellFormed(steps + more[..k]) &&
      var c := Run(steps + more[..k], legacyId); id in Held(c) || !GivesUp(c, more[k], t, id)
    ensures AllWellFormed(steps + more) && Recoverable(Run(steps + more, legacyId), t, id)
    decreases |more|
  {
    hide CoreInv, Apply, Run, WellFormed, S.Inv, Held, Recoverable, GivesUp;
    if more == [] {
      assert steps + more == steps;
    } else {
      var front, last := more[..|more| - 1], more[|more| - 1];
      RunMore(steps, more, legacyId);
      forall k | 0 <= k < |front| ensures front[..k] == more[..k] && front[k] == more[k] {
      }
      WatchedIsNeverLost(steps, front, legacyId, t, id);
      StepRecoverable(Run(steps + front, legacyId), last, legacyId, t, id);
    }
  }

  /** In particular: when the file has the watch of a turn at the time an answer of it is attempted and
      not refused, the next process has the answer or the watch, whatever came between, be it the end
      of the turn, and whether or not anything was written. */
  lemma AnswerOrWatchSurvives(
      steps: seq<Step>, more: seq<Step>, legacyId: Message -> Id, t: Turn, try: Try)
    requires AllWellFormed(steps) && AllWellFormed(more) && NoRestart(more) && NamedTurn(t) && !Refuses(try)
    requires t in Run(steps, legacyId).saved.watches.vals
    ensures var tried := steps + [AnswerStep(t, Some(try))];
            && AllWellFormed(tried) && AllWellFormed(tried + more) && AllWellFormed(tried + more + [RestartStep])
            && var c := Run(tried + more + [RestartStep], legacyId);
               try.id in Held(c) || t in c.store.watches.vals
  {
    hide CoreInv, Run, WellFormed, Held, Secured, Recoverable, Refuses;
    var tried := steps + [AnswerStep(t, Some(try))];
    AnswerIsRecoverable(steps, legacyId, t, try);
    StaysHeld(tried, more, legacyId, t, try.id);
    RestartedHasOne(tried + more, legacyId, t, try.id);
  }

  lemma AnswerIsRecoverable(steps: seq<Step>, legacyId: Message -> Id, t: Turn, try: Try)
    requires AllWellFormed(steps) && NamedTurn(t) && !Refuses(try) && t in Run(steps, legacyId).saved.watches.vals
    ensures var tried := steps + [AnswerStep(t, Some(try))];
            && AllWellFormed(tried)
            && Recoverable(Run(tried, legacyId), t, try.id) && try.id in Held(Run(tried, legacyId))
  {
    hide CoreInv, Run, S.Inv, Held, Secured, LiveAnswer, Refuses, Recoverable;
    RunStep(steps, AnswerStep(t, Some(try)), legacyId);
    LiveIsRecoverable(Run(steps, legacyId), t, try);
  }

  lemma LiveIsRecoverable(c: Core, t: Turn, try: Try)
    requires CoreInv(c) && NamedTurn(t) && !Refuses(try) && t in c.saved.watches.vals
    ensures var c' := LiveAnswer(c, t, Some(try)); Recoverable(c', t, try.id) && try.id in Held(c')
  {
    hide CoreInv, Held, Secured, Known, Deliver, Refuses, Lands;
    if Known(c, try.id) { KnownIsHeld(c, try.id); }
    else { DeliverHolds(c, t, try); }
  }

  lemma {:induction false} StaysHeld(steps: seq<Step>, more: seq<Step>, legacyId: Message -> Id, t: Turn, id: Id)
    requires AllWellFormed(steps) && AllWellFormed(more) && NoRestart(more)
    requires Recoverable(Run(steps, legacyId), t, id) && id in Held(Run(steps, legacyId))
    ensures AllWellFormed(steps + more)
    ensures Recoverable(Run(steps + more, legacyId), t, id) && id in Held(Run(steps + more, legacyId))
    decreases |more|
  {
    hide CoreInv, Apply, Run, WellFormed, S.Inv, Held, Recoverable, GivesUp;
    if more == [] {
      assert steps + more == steps;
    } else {
      var front, last := more[..|more| - 1], more[|more| - 1];
      RunMore(steps, more, legacyId);
      assert NoRestart(front) && last != RestartStep;
      StaysHeld(steps, front, legacyId, t, id);
      StepEvolves(Run(steps + front, legacyId), last, legacyId, id);
      StepRecoverable(Run(steps + front, legacyId), last, legacyId, t, id);
    }
  }

  lemma RestartedHasOne(steps: seq<Step>, legacyId: Message -> Id, t: Turn, id: Id)
    requires AllWellFormed(steps) && Recoverable(Run(steps, legacyId), t, id)
    ensures AllWellFormed(steps + [RestartStep])
    ensures var c := Run(steps + [RestartStep], legacyId); id in Held(c) || t in c.store.watches.vals
  {
    hide CoreInv, Run, Held, Secured;
    RestartKeepsExactly(steps, legacyId);
  }

  // ---- The end of a turn and its recovery ----

  /** The end of a turn that shows nothing keeps its watch exactly while something of it is staged. */
  lemma EndKeepsWatchExactly(c: Core, t: Turn)
    requires CoreInv(c) && t !in R.Recent(c.ended, LIMIT)
    ensures t in TurnEnds(c, t, None).store.watches.vals <==> t in c.store.watches.vals && HasPending(c.store, t)
  {
    InvIsStored(c);
    hide CoreInv, S.Inv, R.Recent, HasPending, DiscardWatch, Known;
    DiscardView(c.store, t);
  }

  lemma {:induction false} LoopAccounts(c: Core, t: Turn, tries: seq<Try>)
    ensures var loop := RecoverLoop(c, t, tries);
            loop.raised || !loop.accounted <==>
              exists k :: 0 <= k < |tries| && Attempted(c, t, tries, k) && !IsDurable(tries[k])
  {
    hide Deliver, Known, Raises, IsDurable;
    if tries != [] {
      var n := |tries| - 1;
      var front := tries[..n];
      LoopAccounts(c, t, front);
      RaisingIsNotDurable(tries[n]);
      SameAttempts(c, t, tries, front);
      if Attempted(c, t, tries, n) && !IsDurable(tries[n]) {
        assert !RecoverLoop(c, t, tries).accounted;
      }
    }
  }

  lemma RaisingIsNotDurable(try: Try)
    ensures Raises(try) ==> !IsDurable(try)
  {
  }

  // What happened to the earlier deliveries does not depend on the last one.
  lemma SameAttempts(c: Core, t: Turn, tries: seq<Try>, front: seq<Try>)
    requires tries != [] && front == tries[..|tries| - 1]
    ensures Attempted(c, t, tries, |front|) <==>
      !RecoverLoop(c, t, front).raised && !Known(RecoverLoop(c, t, front).core, tries[|front|].id)
    ensures forall k :: 0 <= k < |front| ==>
      front[k] == tries[k] && (Attempted(c, t, tries, k) <==> Attempted(c, t, front, k))
  {
    hide RecoverLoop, Known;
    forall k | 0 <= k < |front| ensures tries[..k] == front[..k] {
    }
    assert tries[..|front|] == front;
  }

  /** A turn recovered without an error has every delivery staged, accepted or found unusable. It stays
      pending, with its watch, exactly when some attempt it made was not durable. */
  lemma RecoveryAccountsForAll(c: Core, t: Turn, tries: seq<Try>)
    requires CoreInv(c) && NamedTurn(t) && BoundTo(c.store, t.thread).Some? && t in c.recovered
    ensures var c' := RecoverTurn(c, t, tries);
            && (!RecoverLoop(c, t, tries).raised ==> forall k :: 0 <= k < |tries| ==> tries[k].id in Held(c'))
            && (t in c'.recovered <==>
                  exists k :: 0 <= k < |tries| && Attempted(c, t, tries, k) && !IsDurable(tries[k]))
            && (t !in c'.recovered ==> t !in c'.store.watches.vals)
  {
    hide CoreInv, RecoverLoop, IsDurable, Attempted, BoundTo, DiscardWatch, Held, Secured, S.Inv;
    var loop := RecoverLoop(c, t, tries).core;
    LoopHolds(c, t, tries);
    LoopAccounts(c, t, tries);
    LoopKeepsRecovered(c, t, tries);
    RecoverLoopKeepsInv(c, t, tries);
    InvIsStored(loop);
    DiscardView(loop.store, t);
    var settled := loop.(store := DiscardWatch(loop.store, t));
    DiscardKeepsInv(loop, t);
    SameKeepsInv(settled, settled.(recovered := loop.recovered - {t}));
  }

  lemma {:induction false} LoopKeepsRecovered(c: Core, t: Turn, tries: seq<Try>)
    ensures RecoverLoop(c, t, tries).core.recovered == c.recovered
  {
    hide Known, Stage, Complete, IsDurable, Raises, Refuses;
    if tries != [] {
      LoopKeepsRecovered(c, t, tries[..|tries| - 1]);
    }
  }
}
