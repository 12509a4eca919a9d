/**
 What is lost and what is not: a delivery is held by the process that staged it, and by the next one
 exactly when a write of the state file came in between; until then its turn stays watched.
 */
module DeliveryLosses {
  import opened Prelude
  import opened OrderedDict
  import opened StoreModel
  import opened Delivery
  import opened DeliveryRuns
  import R = Recency
  import S = StoreRuns

  // ---- Between two states of one process ----

  /** Nothing held or secured goes. Unless the id was tried, it does not come either, and it is secured
      by the next write of the state file and by nothing before. */
  ghost predicate Evolves(c: Core, c': Core, id: Id, tried: bool) {
    && Held(c) <= Held(c') && Secured(c) <= Secured(c') && c.history.writes <= c'.history.writes
    && (!tried ==> (id in Held(c') ==> id in Held(c)))
    && (!tried ==> if c'.history.writes > c.history.writes then id in Held(c) ==> id in Secured(c')
                   else id in Secured(c') ==> id in Secured(c))
  }

  lemma EvolvesNot(c: Core, c': Core, id: Id)
    requires Held(c') == Held(c) && Secured(c') == Secured(c) && c'.history.writes == c.history.writes
    ensures Evolves(c, c', id, false)
  {
    hide Held, Secured;
  }

  lemma EvolvesTwice(c: Core, middle: Core, c': Core, id: Id, first: bool, second: bool)
    requires Evolves(c, middle, id, first) && Evolves(middle, c', id, second)
    ensures Evolves(c, c', id, first || second)
  {
    hide Held, Secured;
  }

  lemma DeliverEvolves(c: Core, t: Turn, try: Try, id: Id)
    requires CoreInv(c) && !Known(c, try.id) && NamedTurn(t)
    ensures Evolves(c, Deliver(c, t, try), id, try.id == id)
  {
    hide CoreInv, Known, Held, Secured, Deliver, Lands;
    DeliverHolds(c, t, try);
    WrittenKeepsInv(c);
  }

  predicate Shows(shown: Option<Try>, id: Id) {
    shown.Some? && shown.value.id == id
  }

  lemma LiveEvolves(c: Core, t: Turn, shown: Option<Try>, id: Id)
    requires CoreInv(c) && NamedTurn(t)
    ensures Evolves(c, LiveAnswer(c, t, shown), id, Shows(shown, id))
  {
    hide CoreInv, Known, Held, Secured, Deliver;
    if shown.Some? && !Known(c, shown.value.id) {
      DeliverEvolves(c, t, shown.value, id);
    }
  }

  lemma EndEvolves(c: Core, t: Turn, shown: Option<Try>, id: Id)
    requires CoreInv(c) && NamedTurn(t)
    ensures Evolves(c, TurnEnds(c, t, shown), id, Shows(shown, id))
  {
    hide CoreInv, Known, Held, Secured, LiveAnswer, DiscardWatch, R.Recent, HasPending, Raises, IsDurable, Evolves;
    var after := LiveAnswer(c, t, shown);
    var ended := after.(ended := after.ended + [t]);
    LiveAnswerKeepsInv(c, t, shown);
    LiveEvolves(c, t, shown, id);
    EvolvesNot(c, c, id);
    EvolvesTwice(c, c, after, id, false, Shows(shown, id));
    SameKeepsInv(after, ended);
    DiscardKeepsInv(ended, t);
    EvolvesNot(after, ended, id);
    EvolvesNot(after, ended.(store := DiscardWatch(ended.store, t)), id);
    EvolvesTwice(c, after, ended, id, Shows(shown, id), false);
    EvolvesTwice(c, after, ended.(store := DiscardWatch(ended.store, t)), id, Shows(shown, id), false);
    EvolvesLoosely(c, c, id, Shows(shown, id));
  }

  lemma EvolvesLoosely(c: Core, c': Core, id: Id, tried: bool)
    requires Evolves(c, c', id, false)
    ensures Evolves(c, c', id, tried)
  {
    hide Held, Secured;
  }

  predicate Tries(tries: seq<Try>, id: Id) {
    exists k :: 0 <= k < |tries| && tries[k].id == id
  }

  lemma TriesLast(tries: seq<Try>, id: Id)
    requires tries != []
    ensures Tries(tries, id) <==> Tries(tries[..|tries| - 1], id) || tries[|tries| - 1].id == id
  {
    var front := tries[..|tries| - 1];
    if Tries(tries, id) && tries[|front|].id != id {
      var k :| 0 <= k < |tries| && tries[k].id == id;
      assert front[k].id == id;
    }
  }

  lemma {:induction false} LoopEvolves(c: Core, t: Turn, tries: seq<Try>, id: Id)
    requires CoreInv(c) && NamedTurn(t)
    ensures Evolves(c, RecoverLoop(c, t, tries).core, id, Tries(tries, id))
  {
    hide CoreInv, Known, Held, Secured, Deliver, Raises, IsDurable, Evolves, Tries;
    if tries == [] {
      EvolvesNot(c, c, id);
      EvolvesLoosely(c, c, id, Tries(tries, id));
    } else {
      var front, try := tries[..|tries| - 1], tries[|tries| - 1];
      var before := RecoverLoop(c, t, front);
      TriesLast(tries, id);
      LoopEvolves(c, t, front, id);
      RecoverLoopKeepsInv(c, t, front);
      if before.raised || Known(before.core, try.id) {
        EvolvesNot(before.core, before.core, id);
        EvolvesLoosely(before.core, before.core, id, try.id == id);
        EvolvesTwice(c, before.core, before.core, id, Tries(front, id), try.id == id);
      } else {
        DeliverEvolves(before.core, t, try, id);
        EvolvesTwice(c, before.core, Deliver(before.core, t, try), id, Tries(front, id), try.id == id);
      }
    }
  }

  lemma RecoveryEvolves(c: Core, t: Turn, tries: seq<Try>, id: Id)
    requires CoreInv(c) && NamedTurn(t)
    ensures Evolves(c, RecoverTurn(c, t, tries), id, Tries(tries, id))
  {
    hide CoreInv, Held, Secured, RecoverLoop, BoundTo, DiscardWatch, Evolves, Tries;
    var loop := RecoverLoop(c, t, tries).core;
    if BoundTo(c.store, t.thread).None? {
      SameKeepsInv(c, RecoverTurn(c, t, tries));
      EvolvesNot(c, RecoverTurn(c, t, tries), id);
      EvolvesLoosely(c, RecoverTurn(c, t, tries), id, Tries(tries, id));
    } else {
      LoopEvolves(c, t, tries, id);
      RecoverLoopKeepsInv(c, t, tries);
      var settled := loop.(store := DiscardWatch(loop.store, t));
      DiscardKeepsInv(loop, t);
      SameKeepsInv(settled, settled.(recovered := loop.recovered - {t}));
      EvolvesNot(loop, settled.(recovered := loop.recovered - {t}), id);
      EvolvesTwice(c, loop, settled.(recovered := loop.recovered - {t}), id, Tries(tries, id), false);
    }
  }

  lemma RetryEvolves(c: Core, results: seq<Retry>, id: Id)
    requires CoreInv(c) && c.store.outbox.Valid() && |results| == |Listing(c.store)|
    ensures Evolves(c, RetryAll(Written(c), Listing(c.store), results), id, false)
  {
    hide CoreInv, Held, Secured, RetryAll, Listing;
    RetryStepKeepsInv(c, results);
    WrittenKeepsInv(c);
  }

  // The step tries to deliver this id.
  predicate Attempts(step: Step, id: Id) {
    match step
    case AnswerStep(_, shown) => Shows(shown, id)
    case TurnEndsStep(_, shown) => Shows(shown, id)
    case RecoverStep(_, tries) => Tries(tries, id)
    case _ => false
  }

  lemma StepEvolves(c: Core, step: Step, legacyId: Message -> Id, id: Id)
    requires CoreInv(c) && WellFormed(step) && step != RestartStep
    ensures S.Inv(c.store) && S.Inv(c.saved) && Evolves(c, Apply(c, step, legacyId), id, Attempts(step, id))
  {
    InvIsStored(c);
    hide CoreInv, S.Inv, Held, Secured, LiveAnswer, TurnEnds, RecoverTurn, RetryAll, Listing, S.ApplyRouting,
         Written, Evolves, Shows, Tries;
    EvolvesNot(c, c, id);
    match step
    case AnswerStep(t, shown) => LiveEvolves(c, t, shown, id);
    case TurnEndsStep(t, shown) => EndEvolves(c, t, shown, id);
    case FoundStep(t, ids) =>
      SameKeepsInv(c, Apply(c, step, legacyId));
      EvolvesNot(c, Apply(c, step, legacyId), id);
    case RecoverStep(t, tries) =>
      RecoveryEvolves(c, t, tries, id);
      EvolvesLoosely(c, c, id, Tries(tries, id));
    case RetryStep(results) =>
      ListingIsStaged(c);
      if |results| == |Listing(c.store)| { RetryEvolves(c, results, id); }
    case StoreStep(op) =>
      StoreStepKeepsInv(c, op, legacyId);
      EvolvesNot(c, Apply(c, step, legacyId), id);
    case WriteStep => WriteEvolves(c, id);
  }

  lemma WriteEvolves(c: Core, id: Id)
    requires CoreInv(c)
    ensures Evolves(c, Written(c), id, false)
  {
    hide CoreInv, Held, Secured;
    WrittenKeepsInv(c);
  }

  // ---- Runs ----

  ghost predicate Untried(steps: seq<Step>, id: Id) {
    forall k :: 0 <= k < |steps| ==> !Attempts(steps[k], id)
  }

  ghost predicate NoRestart(steps: seq<Step>) {
    forall k :: 0 <= k < |steps| ==> steps[k] != RestartStep
  }

  // The runs of `more` behind `steps`, one step after another.
  lemma RunMore(steps: seq<Step>, more: seq<Step>, legacyId: Message -> Id)
    requires AllWellFormed(steps) && AllWellFormed(more) && more != []
    ensures var front, last := more[..|more| - 1], more[|more| - 1];
            && AllWellFormed(front) && WellFormed(last) && AllWellFormed(steps + front) && AllWellFormed(steps + more)
            && CoreInv(Run(steps + front, legacyId)) && CoreInv(Run(steps + more, legacyId))
            && S.Inv(Run(steps + front, legacyId).store) && S.Inv(Run(steps + front, legacyId).saved)
            && Run(steps + more, legacyId) == Apply(Run(steps + front, legacyId), last, legacyId)
  {
    hide CoreInv, Apply, Run, WellFormed, S.Inv;
    var front, last := more[..|more| - 1], more[|more| - 1];
    RunStep(steps + front, last, legacyId);
    assert steps + front + [last] == steps + more;
  }

  lemma {:induction false} RunEvolves(steps: seq<Step>, more: seq<Step>, legacyId: Message -> Id, id: Id)
    requires AllWellFormed(steps) && AllWellFormed(more) && NoRestart(more)
    ensures AllWellFormed(steps + more)
    ensures Evolves(Run(steps, legacyId), Run(steps + more, legacyId), id, !Untried(more, id))
    decreases |more|
  {
    hide CoreInv, Apply, Run, WellFormed, S.Inv, Attempts, Evolves;
    if more == [] {
      assert steps + more == steps;
      EvolvesNot(Run(steps, legacyId), Run(steps, legacyId), id);
      EvolvesLoosely(Run(steps, legacyId), Run(steps, legacyId), id, !Untried(more, id));
    } else {
      var front, last := more[..|more| - 1], more[|more| - 1];
      RunMore(steps, more, legacyId);
      RunEvolves(steps, front, legacyId, id);
      StepEvolves(Run(steps + front, legacyId), last, legacyId, id);
      assert Untried(more, id) <==> Untried(front, id) && !Attempts(last, id);
      EvolvesTwice(Run(steps, legacyId), Run(steps + front, legacyId), Run(steps + more, legacyId), id,
                   !Untried(front, id), Attempts(last, id));
    }
  }

  /** A restart keeps exactly what the state file has or what is done: a staged delivery is gone after it
      if and only if the file does not have it. */
  lemma RestartKeepsExactly(steps: seq<Step>, legacyId: Message -> Id)
    requires AllWellFormed(steps)
    ensures AllWellFormed(steps + [RestartStep])
    ensures var c, c' := Run(steps, legacyId), Run(steps + [RestartStep], legacyId);
            && Held(c') == Secured(c') == Secured(c) && Secured(c) <= Held(c)
            && c'.store.outbox == c.saved.outbox && c'.store.watches == c.saved.watches
  {
    hide CoreInv, Apply, Run, S.Inv, Held, Secured, S.Reload, Restarted;
    RunStep(steps, RestartStep, legacyId);
    RestartKeepsInv(Run(steps, legacyId), legacyId);
    RestartIs(Run(steps, legacyId), legacyId);
    WrittenKeepsInv(Run(steps, legacyId));
  }

  /** What is secured stays secured, and so held, whatever follows. */
  lemma {:induction false} SecuredIsNeverLost(steps: seq<Step>, more: seq<Step>, legacyId: Message -> Id, id: Id)
    requires AllWellFormed(steps) && AllWellFormed(more) && id in Secured(Run(steps, legacyId))
    ensures AllWellFormed(steps + more)
    ensures id in Secured(Run(steps + more, legacyId)) && id in Held(Run(steps + more, legacyId))
    decreases |more|
  {
    hide CoreInv, Apply, Run, WellFormed, S.Inv, Held, Secured;
    if more == [] {
      assert steps + more == steps;
      InvAfter(steps, legacyId);
      WrittenKeepsInv(Run(steps, legacyId));
    } else {
      var front, last := more[..|more| - 1], more[|more| - 1];
      RunMore(steps, more, legacyId);
      SecuredIsNeverLost(steps, front, legacyId, id);
      if last == RestartStep {
        RestartKeepsExactly(steps + front, legacyId);
        assert steps + front + [last] == steps + more;
      } else {
        StepEvolves(Run(steps + front, legacyId), last, legacyId, id);
      }
      WrittenKeepsInv(Run(steps + more, legacyId));
    }
  }

  // ---- Attempts that reach the state file ----

  // Recovery got to delivery k and did not know it.
  predicate Attempted(c: Core, t: Turn, tries: seq<Try>, k: nat)
    requires k < |tries|
  {
    var before := RecoverLoop(c, t, tries[..k]);
    !before.raised && !Known(before.core, tries[k].id)
  }

  // The step attempts the id, which was not known, and its staging reaches the state file.
  ghost predicate LandsIn(c: Core, step: Step, id: Id) {
    match step
    case AnswerStep(_, shown) => Shows(shown, id) && !Known(c, id) && Lands(shown.value)
    case TurnEndsStep(t, shown) =>
      Shows(shown, id) && !Known(c, id) && Lands(shown.value) && t !in R.Recent(c.ended, LIMIT)
    case RecoverStep(t, tries) =>
      && t in c.recovered && c.recovered[t] == TryIds(tries) && BoundTo(c.store, t.thread).Some?
      && exists k :: 0 <= k < |tries| && tries[k].id == id && Attempted(c, t, tries, k) && Lands(tries[k])
    case _ => false
  }

  lemma LandingSecures(c: Core, t: Turn, try: Try)
    requires CoreInv(c) && !Known(c, try.id) && NamedTurn(t) && Lands(try)
    ensures try.id in Secured(Deliver(c, t, try))
  {
    hide CoreInv, Known, Held, Secured, Deliver;
    DeliverHolds(c, t, try);
  }

  lemma {:induction false} LoopSecures(c: Core, t: Turn, tries: seq<Try>, k: nat)
    requires CoreInv(c) && NamedTurn(t) && k < |tries| && Attempted(c, t, tries, k) && Lands(tries[k])
    ensures tries[k].id in Secured(RecoverLoop(c, t, tries).core)
  {
    hide CoreInv, Known, Held, Secured, Deliver, Raises, IsDurable, Lands;
    var n := |tries| - 1;
    var front, try := tries[..n], tries[n];
    var before := RecoverLoop(c, t, front);
    RecoverLoopKeepsInv(c, t, front);
    if k == n {
      LandingSecures(before.core, t, try);
    } else {
      assert front[..k] == tries[..k];
      LoopSecures(c, t, front, k);
      if !before.raised && !Known(before.core, try.id) {
        DeliverEvolves(before.core, t, try, tries[k].id);
      }
    }
  }

  lemma StepSecures(c: Core, step: Step, legacyId: Message -> Id, id: Id)
    requires CoreInv(c) && WellFormed(step) && LandsIn(c, step, id)
    ensures S.Inv(c.store) && S.Inv(c.saved) && id in Secured(Apply(c, step, legacyId))
  {
    InvIsStored(c);
    hide CoreInv, S.Inv, Held, Secured, LiveAnswer, RecoverLoop, Known, Lands, R.Recent, DiscardWatch, BoundTo,
         HasPending, IsDurable, Raises, Attempted;
    match step
    case AnswerStep(t, shown) =>
      LiveSecures(c, t, shown);
    case TurnEndsStep(t, shown) =>
      LiveSecures(c, t, shown);
      EndSecures(c, t, shown, id);
    case RecoverStep(t, tries) =>
      var k :| 0 <= k < |tries| && tries[k].id == id && Attempted(c, t, tries, k) && Lands(tries[k]);
      LoopSecures(c, t, tries, k);
      RecoveryKeepsSecured(c, t, tries, id);
  }

  lemma LiveSecures(c: Core, t: Turn, shown: Option<Try>)
    requires CoreInv(c) && NamedTurn(t) && shown.Some? && !Known(c, shown.value.id) && Lands(shown.value)
    ensures shown.value.id in Secured(LiveAnswer(c, t, shown))
  {
    hide CoreInv, Known, Lands, Secured, Deliver;
    LandingSecures(c, t, shown.value);
  }

  lemma EndSecures(c: Core, t: Turn, shown: Option<Try>, id: Id)
    requires CoreInv(c) && NamedTurn(t) && id in Secured(LiveAnswer(c, t, shown)) && t !in R.Recent(c.ended, LIMIT)
    ensures id in Secured(TurnEnds(c, t, shown))
  {
    hide CoreInv, Known, Held, Secured, LiveAnswer, DiscardWatch, R.Recent, HasPending, Raises, IsDurable;
    var after := LiveAnswer(c, t, shown);
    LiveAnswerKeepsInv(c, t, shown);
    SameKeepsInv(after, after.(ended := after.ended + [t]));
    DiscardKeepsInv(after.(ended := after.ended + [t]), t);
  }

  lemma RecoveryKeepsSecured(c: Core, t: Turn, tries: seq<Try>, id: Id)
    requires CoreInv(c) && NamedTurn(t) && BoundTo(c.store, t.thread).Some?
    requires id in Secured(RecoverLoop(c, t, tries).core)
    ensures id in Secured(RecoverTurn(c, t, tries))
  {
    hide CoreInv, Held, Secured, RecoverLoop, BoundTo, DiscardWatch;
    var loop := RecoverLoop(c, t, tries).core;
    RecoverLoopKeepsInv(c, t, tries);
    var settled := loop.(store := DiscardWatch(loop.store, t));
    DiscardKeepsInv(loop, t);
    SameKeepsInv(settled, settled.(recovered := loop.recovered - {t}));
  }

  /** A delivery whose staging reached the state file, on the live path or by a recovery, is never lost:
      whatever follows, restarts included, it is staged, was accepted by a channel, or was completed by
      a retry that could not use its payload. Every durable attempt is one. */
  lemma LandedIsNeverLost(steps: seq<Step>, step: Step, more: seq<Step>, legacyId: Message -> Id, id: Id)
    requires AllWellFormed(steps) && WellFormed(step) && AllWellFormed(more)
    requires LandsIn(Run(steps, legacyId), step, id)
    ensures AllWellFormed(steps + [step] + more) && id in Held(Run(steps + [step] + more, legacyId))
  {
    hide CoreInv, Apply, Run, WellFormed, S.Inv, Held, Secured, LandsIn;
    RunStep(steps, step, legacyId);
    StepSecures(Run(steps, legacyId), step, legacyId, id);
    SecuredIsNeverLost(steps + [step], more, legacyId, id);
  }

  lemma DurableLands(try: Try)
    ensures IsDurable(try) ==> Lands(try)
  {
  }

  // ---- Exactly when an answer is kept ----

  function FirstRestart(steps: seq<Step>): (k: nat)
    ensures k <= |steps| && (k < |steps| ==> steps[k] == RestartStep) && NoRestart(steps[..k])
  {
    if steps == [] || steps[0] == RestartStep then 0
    else
      var k := 1 + FirstRestart(steps[1..]);
      assert forall j :: 1 <= j < k ==> steps[j] == steps[1..][j - 1];
      k
  }

  // The state file is written between two states of a run.
  predicate FileWritten(c: Core, c': Core) {
    c'.history.writes > c.history.writes
  }

  /** A new answer of the live path is kept if and only if its attempt is not refused (its metadata names
      no other delivery, preparing it does not fail and its id is not blank) and, when a restart follows,
      its staging reached the state file or the file was written before that restart. */
  lemma AnswerIsKeptExactly(steps: seq<Step>, more: seq<Step>, legacyId: Message -> Id, t: Turn, try: Try)
    requires AllWellFormed(steps) && AllWellFormed(more) && NamedTurn(t)
    requires try.id !in Held(Run(steps, legacyId)) && Untried(more, try.id)
    ensures var tried, k := steps + [AnswerStep(t, Some(try))], FirstRestart(more);
            && AllWellFormed(tried) && AllWellFormed(more[..k]) && AllWellFormed(tried + more[..k])
            && AllWellFormed(tried + more)
            && (try.id in Held(Run(tried + more, legacyId)) <==>
                  && !Refuses(try)
                  && (k == |more| || Lands(try)
                      || FileWritten(Run(tried, legacyId), Run(tried + more[..k], legacyId))))
  {
    hide CoreInv, Apply, Run, WellFormed, S.Inv, Held, Secured, Refuses, FirstRestart, Attempts, Untried;
    var id, tried, k := try.id, steps + [AnswerStep(t, Some(try))], FirstRestart(more);
    AnswerAttempted(steps, legacyId, t, try);
    SplitRun(tried, more, k, id);
    UntilRestart(tried, more[..k], legacyId, id);
    if k < |more| {
      AcrossRestart(tried + more[..k], more[k + 1..], legacyId, id);
      assert tried + more[..k] + [RestartStep] + more[k + 1..] == tried + more;
    } else {
      assert more[..k] == more;
    }
  }

  lemma SplitRun(tried: seq<Step>, more: seq<Step>, k: nat, id: Id)
    requires AllWellFormed(tried) && AllWellFormed(more) && Untried(more, id) && k <= |more|
    ensures AllWellFormed(more[..k]) && Untried(more[..k], id) && AllWellFormed(tried + more[..k])
    ensures AllWellFormed(tried + more)
    ensures k < |more| ==> AllWellFormed(more[k + 1..]) && Untried(more[k + 1..], id)
    ensures k < |more| && more[k] == RestartStep ==>
      tried + more[..k] + [RestartStep] + more[k + 1..] == tried + more
  {
    hide WellFormed, Attempts;
  }

  lemma AnswerAttempted(steps: seq<Step>, legacyId: Message -> Id, t: Turn, try: Try)
    requires AllWellFormed(steps) && NamedTurn(t) && try.id !in Held(Run(steps, legacyId))
    ensures var tried := steps + [AnswerStep(t, Some(try))];
            && AllWellFormed(tried)
            && (try.id in Held(Run(tried, legacyId)) <==> !Refuses(try))
            && (try.id in Secured(Run(tried, legacyId)) <==> Lands(try))
  {
    hide CoreInv, Run, S.Inv, Held, Secured, LiveAnswer, Refuses, Lands;
    RunStep(steps, AnswerStep(t, Some(try)), legacyId);
    LiveAttempted(Run(steps, legacyId), t, try);
  }

  lemma LiveAttempted(c: Core, t: Turn, try: Try)
    requires CoreInv(c) && NamedTurn(t) && try.id !in Held(c)
    ensures var c' := LiveAnswer(c, t, Some(try));
            (try.id in Held(c') <==> !Refuses(try)) && (try.id in Secured(c') <==> Lands(try))
  {
    hide CoreInv, Held, Secured, Known, Deliver, Refuses;
    if Known(c, try.id) { KnownIsHeld(c, try.id); }
    DeliverHolds(c, t, try);
    WrittenKeepsInv(c);
  }

  lemma KnownIsHeld(c: Core, id: Id)
    requires CoreInv(c) && Known(c, id)
    ensures id in Held(c)
  {
    hide S.Inv, Fresh, Spaced, R.Recent, Unacked;
    if id in c.store.outbox.vals { assert id in c.store.outbox.vals.Keys; }
    if id in c.store.acks.vals { assert id in c.store.acks.vals.Keys; }
    if id in R.Recent(Remembered(c.log), LIMIT) {
      R.RecentMeans(Remembered(c.log), id, LIMIT);
      var i := LastRemembered(c.log, id);
      assert c.log[i] in c.log;
    }
  }

  // While the process runs, an id that is not tried again is as it was but for what a write secures.
  lemma UntilRestart(steps: seq<Step>, more: seq<Step>, legacyId: Message -> Id, id: Id)
    requires AllWellFormed(steps) && AllWellFormed(more) && NoRestart(more) && Untried(more, id)
    ensures AllWellFormed(steps + more)
    ensures var c, c' := Run(steps, legacyId), Run(steps + more, legacyId);
            && (id in Held(c') <==> id in Held(c))
            && (id in Secured(c') <==> id in Secured(c) || (id in Held(c) && FileWritten(c, c')))
  {
    hide Run, Held, Secured, NoRestart, Untried, WellFormed, CoreInv;
    RunEvolves(steps, more, legacyId, id);
    InvAfter(steps + more, legacyId);
    WrittenKeepsInv(Run(steps + more, legacyId));
  }

  // Behind a restart an id that is not tried again is held exactly when it was secured.
  lemma AcrossRestart(steps: seq<Step>, more: seq<Step>, legacyId: Message -> Id, id: Id)
    requires AllWellFormed(steps) && AllWellFormed(more) && Untried(more, id)
    ensures AllWellFormed(steps + [RestartStep] + more)
    ensures id in Held(Run(steps + [RestartStep] + more, legacyId)) <==> id in Secured(Run(steps, legacyId))
  {
    hide Run, Held, Secured, Untried, WellFormed, CoreInv;
    RestartKeepsExactly(steps, legacyId);
    if id in Secured(Run(steps, legacyId)) {
      SecuredIsNeverLost(steps + [RestartStep], more, legacyId, id);
    } else {
      NeverHeld(steps + [RestartStep], more, legacyId, id);
    }
  }

  lemma {:induction false} NeverHeld(steps: seq<Step>, more: seq<Step>, legacyId: Message -> Id, id: Id)
    requires AllWellFormed(steps) && AllWellFormed(more) && Untried(more, id) && id !in Held(Run(steps, legacyId))
    ensures AllWellFormed(steps + more) && id !in Held(Run(steps + more, legacyId))
    decreases |more|
  {
    hide CoreInv, Apply, Run, WellFormed, S.Inv, Held, Secured, Attempts;
    if more == [] {
      assert steps + more == steps;
    } else {
      var front, last := more[..|more| - 1], more[|more| - 1];
      RunMore(steps, more, legacyId);
      NeverHeld(steps, front, legacyId, id);
      if last == RestartStep {
        RestartKeepsExactly(steps + front, legacyId);
        assert steps + front + [last] == steps + more;
      } else {
        StepEvolves(Run(steps + front, legacyId), last, legacyId, id);
      }
    }
  }
}
