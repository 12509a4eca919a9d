/** Runs that show where deliveries are lost or repeated, and where they are not. */
module DeliveryExamples {
  import opened Prelude
  import opened OrderedDict
  import opened StoreModel
  import opened Delivery
  import opened DeliveryRuns
  import opened DeliveryLosses
  import opened DeliveryWatches
  import opened DeliveryRepeats
  import R = Recency
  import S = StoreRuns

  // ---- A refused answer ----

  // The end of the turn then drops its watch unless something else of the turn is still staged.
  lemma EndForgetsRefused(c: Core, t: Turn, try: Try)
    requires CoreInv(c) && NamedTurn(t) && Refuses(try) && t !in R.Recent(c.ended, LIMIT)
    ensures var c' := TurnEnds(LiveAnswer(c, t, Some(try)), t, None);
            && Held(c') == Held(c)
            && (t in c'.store.watches.vals <==> t in c.store.watches.vals && HasPending(c.store, t))
  {
    hide CoreInv, R.Recent, HasPending, Held, Secured, Refuses;
    var ended := c.(ended := c.ended + [t]);
    assert LiveAnswer(c, t, Some(try)) == c;
    EndKeepsWatchExactly(c, t);
    SameKeepsInv(c, ended);
    DiscardKeepsInv(ended, t);
  }

  // A watched turn whose only answer cannot be prepared, and its end.
  function RefusedRun(): seq<Step> {
    var t := Turn("t", "u");
    [StoreStep(S.BindOp(Route("c", "d"), "t")),
     StoreStep(S.NoteActiveTurnOp(t, "inProgress", 0)),
     AnswerStep(t, Some(RefusedTry())),
     TurnEndsStep(t, None)]
  }

  function RefusedTry(): Try {
    Try("x", Message("answer", map[]), true, 0, false, Sent(true))
  }

  /** A concrete loss: the answer is not staged, not known and not sent, and no watch of its turn is
      left for a recovery to find. */
  lemma RefusedAnswerIsLost(legacyId: Message -> Id)
    ensures AllWellFormed(RefusedRun())
    ensures Turn("t", "u") in Run(RefusedRun()[..2], legacyId).store.watches.vals
    ensures var c := Run(RefusedRun(), legacyId);
            && Turn("t", "u") !in c.store.watches.vals && c.recovered == map[]
            && "x" !in Held(c) && !Known(c, "x")
  {
    hide *;
    RefusedRunIs();
    var run, t := RefusedRun(), Turn("t", "u");
    var watched := WatchedRun(legacyId);
    RunAnswer(run[..2], legacyId, t, Some(RefusedTry()));
    RunEnd(run[..3], legacyId, t, None);
    RefusedIsForgotten(watched, t);
    if Known(Run(run, legacyId), "x") { KnownIsHeld(Run(run, legacyId), "x"); }
  }

  lemma RefusedIsForgotten(c: Core, t: Turn)
    requires CoreInv(c) && NamedTurn(t) && c.ended == [] && c.store.outbox.vals == map[]
    ensures var c' := TurnEnds(LiveAnswer(c, t, Some(RefusedTry())), t, None);
            && CoreInv(LiveAnswer(c, t, Some(RefusedTry()))) && CoreInv(c')
            && Held(c') == Held(c) && t !in c'.store.watches.vals && c'.recovered == c.recovered
  {
    hide CoreInv, R.Recent, HasPending, DiscardWatch, Held, Secured;
    NothingEnded(t);
    NothingPending(c.store, t);
    EndForgetsRefused(c, t, RefusedTry());
    TurnEndsKeepsInv(c, t, None);
  }

  // ---- The steps of a run ----

  lemma RunAnswer(steps: seq<Step>, legacyId: Message -> Id, t: Turn, shown: Option<Try>)
    requires AllWellFormed(steps) && NamedTurn(t)
    ensures AllWellFormed(steps + [AnswerStep(t, shown)]) && CoreInv(Run(steps + [AnswerStep(t, shown)], legacyId))
    ensures Run(steps + [AnswerStep(t, shown)], legacyId) == LiveAnswer(Run(steps, legacyId), t, shown)
  {
    hide CoreInv, Run, S.Inv, LiveAnswer;
    RunStep(steps, AnswerStep(t, shown), legacyId);
  }

  lemma RunEnd(steps: seq<Step>, legacyId: Message -> Id, t: Turn, shown: Option<Try>)
    requires AllWellFormed(steps) && NamedTurn(t)
    ensures AllWellFormed(steps + [TurnEndsStep(t, shown)])
    ensures CoreInv(Run(steps + [TurnEndsStep(t, shown)], legacyId))
    ensures Run(steps + [TurnEndsStep(t, shown)], legacyId) == TurnEnds(Run(steps, legacyId), t, shown)
  {
    hide CoreInv, Run, S.Inv, TurnEnds;
    RunStep(steps, TurnEndsStep(t, shown), legacyId);
  }

  lemma RunStore(steps: seq<Step>, legacyId: Message -> Id, op: S.Op)
    requires AllWellFormed(steps) && S.WellFormed(op) && !S.DeliveryOp(op)
    ensures AllWellFormed(steps + [StoreStep(op)]) && CoreInv(Run(steps + [StoreStep(op)], legacyId))
    ensures var c := Run(steps, legacyId);
            Run(steps + [StoreStep(op)], legacyId) == c.(store := S.ApplyRouting(c.store, op))
  {
    hide CoreInv, Run, S.Inv, S.ApplyRouting, S.WellFormed, S.DeliveryOp;
    RunStep(steps, StoreStep(op), legacyId);
  }

  lemma RunWrite(steps: seq<Step>, legacyId: Message -> Id)
    requires AllWellFormed(steps)
    ensures AllWellFormed(steps + [WriteStep]) && CoreInv(Run(steps + [WriteStep], legacyId))
    ensures Run(steps + [WriteStep], legacyId) == Written(Run(steps, legacyId))
  {
    hide CoreInv, Run, S.Inv;
    RunStep(steps, WriteStep, legacyId);
  }

  lemma RunRestart(steps: seq<Step>, legacyId: Message -> Id)
    requires AllWellFormed(steps)
    ensures AllWellFormed(steps + [RestartStep]) && CoreInv(Run(steps + [RestartStep], legacyId))
    ensures var c := Run(steps, legacyId);
            S.Inv(c.saved) && Run(steps + [RestartStep], legacyId) == Restarted(c, S.Reload(c.saved, legacyId))
  {
    hide CoreInv, Run, S.Inv, Restarted, S.Reload, Apply;
    RunStep(steps, RestartStep, legacyId);
    RestartIs(Run(steps, legacyId), legacyId);
  }

  lemma RunRetry(steps: seq<Step>, legacyId: Message -> Id, results: seq<Retry>)
    requires AllWellFormed(steps)
    ensures AllWellFormed(steps + [RetryStep(results)])
    ensures var c := Run(steps, legacyId);
            && CoreInv(c) && c.store.outbox.Valid()
            && (|results| == |Listing(c.store)| ==>
                  Run(steps + [RetryStep(results)], legacyId) == RetryAll(Written(c), Listing(c.store), results))
  {
    hide CoreInv, Run, S.Inv, RetryAll, Listing;
    RunStep(steps, RetryStep(results), legacyId);
    ListingIsStaged(Run(steps, legacyId));
  }

  // ---- The turn is watched ----

  lemma RefusedRunIs()
    ensures var run, t := RefusedRun(), Turn("t", "u");
            && AllWellFormed(run) && |run| == 4 && NamedTurn(t)
            && AllWellFormed([]) && AllWellFormed(run[..1]) && AllWellFormed(run[..2]) && AllWellFormed(run[..3])
            && run[0] == StoreStep(S.BindOp(Route("c", "d"), "t"))
            && run[1] == StoreStep(S.NoteActiveTurnOp(t, "inProgress", 0))
            && run[2] == AnswerStep(t, Some(RefusedTry())) && run[3] == TurnEndsStep(t, None)
            && run[..0] == [] && run[..0] + [run[0]] == run[..1] && run[..1] + [run[1]] == run[..2]
            && run[..2] + [run[2]] == run[..3] && run[..3] + [run[3]] == run
  {
    assert forall k :: 0 <= k < |RefusedRun()| ==> WellFormed(RefusedRun()[k]);
  }

  lemma WatchedRun(legacyId: Message -> Id) returns (c: Core)
    ensures AllWellFormed(RefusedRun()) && c == Run(RefusedRun()[..2], legacyId) && CoreInv(c)
    ensures Turn("t", "u") in c.store.watches.vals && c.ended == [] && c.recovered == map[] && Held(c) == {}
    ensures c.store.outbox.vals == map[]
  {
    hide *;
    RefusedRunIs();
    var run, t := RefusedRun(), Turn("t", "u");
    var first := Bound(legacyId);
    Noting(t);
    RunStore(run[..1], legacyId, S.NoteActiveTurnOp(t, "inProgress", 0));
    c := Run(run[..2], legacyId);
    Noted(first.store, t);
    Watched(first, c, t);
  }

  lemma Noting(t: Turn)
    ensures var op := S.NoteActiveTurnOp(t, "inProgress", 0); S.WellFormed(op) && !S.DeliveryOp(op)
    ensures var op := S.BindOp(Route("c", "d"), "t"); S.WellFormed(op) && !S.DeliveryOp(op)
  {
  }

  lemma Noted(s: State, t: Turn)
    ensures S.ApplyRouting(s, S.NoteActiveTurnOp(t, "inProgress", 0)) == NoteActiveTurn(s, t, "inProgress", 0)
    ensures S.ApplyRouting(s, S.BindOp(Route("c", "d"), "t")) == BindThread(s, Route("c", "d"), "t")
  {
    hide NoteActiveTurn, BindThread;
  }

  lemma Bound(legacyId: Message -> Id) returns (c: Core)
    ensures AllWellFormed(RefusedRun()) && c == Run(RefusedRun()[..1], legacyId)
    ensures c == NewCore().(store := BindThread(StoreModel.Init(), Route("c", "d"), "t"))
  {
    StartsEmpty(legacyId);
    hide *;
    RefusedRunIs();
    Noting(Turn("t", "u"));
    RunStore([], legacyId, S.BindOp(Route("c", "d"), "t"));
    Noted(NewCore().store, Turn("t", "u"));
    NewStore();
    c := Run(RefusedRun()[..1], legacyId);
  }

  lemma NewStore()
    ensures NewCore().store == StoreModel.Init()
  {
  }

  lemma Watched(c: Core, c': Core, t: Turn)
    requires c == NewCore().(store := BindThread(StoreModel.Init(), Route("c", "d"), "t")) && t == Turn("t", "u")
    requires c' == c.(store := NoteActiveTurn(c.store, t, "inProgress", 0))
    ensures t in c'.store.watches.vals && c'.ended == [] && c'.recovered == map[] && Held(c') == {}
    ensures c'.store.outbox.vals == map[]
  {
    var s := StoreModel.Init();
    var r := Route("c", "d");
    assert AcceptedIds([]) == {};
    assert Stolen(s.bindings, r, "t").vals == map[];
    assert c.store.bindings.keys == [r] && c.store.bindings.vals[r].thread == Some("t");
    assert BoundTo(c.store, "t") == Some(r);
  }

  lemma NothingEnded(t: Turn)
    ensures t !in R.Recent([], LIMIT)
  {
  }

  lemma NothingPending(s: State, t: Turn)
    requires s.outbox.vals == map[]
    ensures !HasPending(s, t)
  {
  }

  // ---- An answer that did not reach the state file ----

  // A watched turn in the file, an answer whose flushes fail, the end of the turn, and a restart.
  function UnsavedRun(): seq<Step> {
    RefusedRun()[..2] + [WriteStep] + [AnswerStep(Turn("t", "u"), Some(Answer(Queued(false))))] + UnsavedEnd()
  }

  function UnsavedEnd(): seq<Step> {
    [TurnEndsStep(Turn("t", "u"), None)] + [RestartStep]
  }

  function Answer(ending: Ending): Try {
    Try("x", Message("answer", map[]), false, 0, false, ending)
  }

  /** The answer is not refused, yet the restart loses it; what is left is the watch of its turn. */
  lemma UnsavedAnswerIsFoundAgain(legacyId: Message -> Id)
    ensures AllWellFormed(UnsavedRun())
    ensures var c := Run(UnsavedRun(), legacyId);
            !Refuses(Answer(Queued(false))) && "x" !in Held(c) && Turn("t", "u") in c.store.watches.vals
  {
    hide *;
    RefusedRunIs();
    var steps, t, try := RefusedRun()[..2] + [WriteStep], Turn("t", "u"), Answer(Queued(false));
    WatchWritten(legacyId);
    var tried := steps + [AnswerStep(t, Some(try))];
    EndIs();
    AnswerIsKeptExactly(steps, UnsavedEnd(), legacyId, t, try);
    AnswerOrWatchSurvives(steps, UnsavedEnd()[..1], legacyId, t, try);
    RunEnd(tried, legacyId, t, None);
    EndWritesNothing(Run(tried, legacyId), t);
    UnsavedIs();
  }

  lemma UnsavedIs()
    ensures var tried := RefusedRun()[..2] + [WriteStep] + [AnswerStep(Turn("t", "u"), Some(Answer(Queued(false))))];
      tried + UnsavedEnd()[..1] + [RestartStep] == UnsavedRun() == tried + UnsavedEnd()
  {
    hide RefusedRun, Answer;
  }

  // The watch of the turn is in the file, and of the answer there is nothing yet.
  lemma WatchWritten(legacyId: Message -> Id)
    ensures var steps, t := RefusedRun()[..2] + [WriteStep], Turn("t", "u");
      && AllWellFormed(steps) && NamedTurn(t) && !Refuses(Answer(Queued(false))) && !Lands(Answer(Queued(false)))
      && Answer(Queued(false)).id == "x" && "x" !in Held(Run(steps, legacyId))
      && t in Run(steps, legacyId).saved.watches.vals
  {
    hide CoreInv, Run, Held, Secured, RefusedRun;
    RefusedRunIs();
    var watched := WatchedRun(legacyId);
    RunWrite(RefusedRun()[..2], legacyId);
    WrittenKeepsInv(watched);
  }

  lemma EndIs()
    ensures UnsavedEnd()[..1] == [TurnEndsStep(Turn("t", "u"), None)] && FirstRestart(UnsavedEnd()) == 1
    ensures AllWellFormed(UnsavedEnd()) && AllWellFormed(UnsavedEnd()[..1])
    ensures NoRestart(UnsavedEnd()[..1]) && Untried(UnsavedEnd(), "x")
  {
    assert UnsavedEnd()[1..] == [RestartStep];
    assert FirstRestart([RestartStep]) == 0;
  }

  lemma EndWritesNothing(c: Core, t: Turn)
    ensures !FileWritten(c, TurnEnds(c, t, None))
  {
    hide R.Recent, HasPending, DiscardWatch;
  }

  // ---- An answer sent twice in a row ----

  // An answer accepted by the channel whose bookkeeping is cut off, the end of its turn, a replay.
  function CutOffRun(): seq<Step> {
    var t := Turn("t", "u");
    [AnswerStep(t, Some(Answer(CutOff))), TurnEndsStep(t, None), AnswerStep(t, Some(Answer(Sent(true))))]
  }

  /** The exception is real: an answer accepted without being remembered is sent again at once, with no
      other delivery in between, when the end of its turn has dropped its acknowledgement. */
  lemma SentTwiceInARow(legacyId: Message -> Id)
    ensures AllWellFormed(CutOffRun())
    ensures Run(CutOffRun(), legacyId).log == [Acceptance("x", false), Acceptance("x", true)]
  {
    CutOffRunIs();
    StartsEmpty(legacyId);
    hide *;
    var run, t := CutOffRun(), Turn("t", "u");
    RunAnswer([], legacyId, t, Some(Answer(CutOff)));
    RunEnd(run[..1], legacyId, t, None);
    RunAnswer(run[..2], legacyId, t, Some(Answer(Sent(true))));
    CutOffAnswer();
    CutOffIsForgotten(NewCore(), t, "x", Message("answer", map[]), 0);
    SentWhenUnknown(Run(run[..2], legacyId), t);
  }

  lemma CutOffAnswer()
    ensures Answer(CutOff) == Try("x", Message("answer", map[]), false, 0, false, CutOff)
    ensures MetadataId(Message("answer", map[])) == "" && NewCore().log == [] && NewCore().ended == []
    ensures NamedTurn(Turn("t", "u"))
    ensures [] + [Acceptance("x", false)] + [Acceptance("x", true)] == [Acceptance("x", false), Acceptance("x", true)]
  {
  }

  lemma CutOffRunIs()
    ensures var run, t := CutOffRun(), Turn("t", "u");
            && AllWellFormed(run) && |run| == 3 && NamedTurn(t)
            && AllWellFormed([]) && AllWellFormed(run[..1]) && AllWellFormed(run[..2])
            && run[0] == AnswerStep(t, Some(Answer(CutOff))) && run[1] == TurnEndsStep(t, None)
            && run[2] == AnswerStep(t, Some(Answer(Sent(true))))
            && [] + [run[0]] == run[..1] && run[..1] + [run[1]] == run[..2] && run[..2] + [run[2]] == run
  {
    assert forall k :: 0 <= k < |CutOffRun()| ==> WellFormed(CutOffRun()[k]);
  }

  lemma SentWhenUnknown(c: Core, t: Turn)
    requires !Known(c, "x")
    ensures LiveAnswer(c, t, Some(Answer(Sent(true)))).log == c.log + [Acceptance("x", true)]
  {
    hide R.Recent, Stage, Complete, Remembered;
  }

  lemma StartsEmpty(legacyId: Message -> Id)
    ensures Run([], legacyId) == NewCore() && CoreInv(NewCore()) && !Known(NewCore(), "x")
    ensures Turn("t", "u") !in R.Recent([], LIMIT) && !HasPending(NewCore().store, Turn("t", "u"))
  {
    hide CoreInv;
  }

  // After a cut-off delivery and the end of its turn nothing remembers its id.
  lemma CutOffIsForgotten(c: Core, t: Turn, id: Id, m: Message, now: int)
    requires CoreInv(c) && NamedTurn(t) && id != "" && MetadataId(m) == "" && !Known(c, id)
    requires t !in R.Recent(c.ended, LIMIT) && !HasPending(c.store, t)
    ensures var c' := TurnEnds(LiveAnswer(c, t, Some(Try(id, m, false, now, false, CutOff))), t, None);
            && c'.log == c.log + [Acceptance(id, false)]
            && !Known(c', id)
  {
    hide S.Inv, R.Recent, HasPending, Spaced, DiscardWatch, Held, Secured, Unacked, Complete, Stage;
    var try := Try(id, m, false, now, false, CutOff);
    var staged := Stage(c.store, id, t, Identified(try), now);
    StageView(c.store, id, t, Identified(try), now);
    CompleteView(staged, id);
    var done := Complete(staged, id);
    ListingIsStaged(c);
    CompletedAck(c.store, id, t, Identified(try), now);
    DiscardView(done, t);
    SamePending(c.store, done, t);
    DiscardDropsAck(done, t, id);
    RememberedAppend(c.log, Acceptance(id, false));
    assert id !in done.outbox.vals.Keys;
    assert Remembered(c.log) + [] == Remembered(c.log);
  }

  lemma CompletedAck(s: State, id: Id, t: Turn, m: Message, now: int)
    requires id != "" && id !in s.outbox.vals && s.outbox.Valid()
    ensures var done := Complete(Stage(s, id, t, m, now), id);
            && done.outbox.vals == s.outbox.vals
            && (id in done.acks.vals ==> done.acks.vals[id] == t)
  {
    hide Excess;
  }

  lemma SamePending(s: State, s': State, t: Turn)
    requires s'.outbox.vals == s.outbox.vals
    ensures HasPending(s', t) == HasPending(s, t)
  {
  }

  lemma DiscardDropsAck(s: State, t: Turn, id: Id)
    requires id in s.acks.vals ==> s.acks.vals[id] == t
    ensures id !in DiscardWatch(s, t).acks.vals
  {
  }

  // ---- An answer sent again after a crash ----

  // An answer sent and remembered whose completion was not flushed, a restart, and the retry pass.
  function CrashRun(): seq<Step> {
    [AnswerStep(Turn("t", "u"), Some(Answer(Sent(false))))] + [RestartStep]
    + [RetryStep([Accepted(Message("", map[]))])]
  }

  /** The file still has the answer staged, so the next process sends it again. */
  lemma SentAgainAfterCrash(legacyId: Message -> Id)
    ensures AllWellFormed(CrashRun())
    ensures Run(CrashRun(), legacyId).history.earlier == {"x"}
    ensures Run(CrashRun(), legacyId).log == [Acceptance("x", true)]
  {
    hide *;
    var before := CrashBegins(legacyId);
    var results := [Accepted(Message("", map[]))];
    RunRetry(before, legacyId, results);
    var next := Run(before, legacyId);
    RetryStepKeepsInv(next, results);
    SentByOne(Listing(next.store), results);
    PassKeepsEarlier(Written(next), Listing(next.store), results);
    CrashRunIs();
  }

  lemma CrashRunIs()
    ensures var answer := AnswerStep(Turn("t", "u"), Some(Answer(Sent(false))));
      CrashRun() == [] + [answer] + [RestartStep] + [RetryStep([Accepted(Message("", map[]))])]
    ensures forall c :: Written(c).history.earlier == c.history.earlier
    ensures [] + [Acceptance("x", true)] == [Acceptance("x", true)]
  {
  }

  // Behind the restart the answer is listed again.
  lemma CrashBegins(legacyId: Message -> Id) returns (before: seq<Step>)
    ensures before == [] + [AnswerStep(Turn("t", "u"), Some(Answer(Sent(false))))] + [RestartStep]
    ensures AllWellFormed(before) && CoreInv(Run(before, legacyId))
    ensures var next := Run(before, legacyId);
      && next.log == [] && next.history.earlier == {"x"}
      && next.store.outbox.Valid() && |Listing(next.store)| == 1 && Listing(next.store)[0].id == "x"
  {
    CutOffRunIs();
    StartsEmpty(legacyId);
    hide *;
    var t, answered := Turn("t", "u"), [] + [AnswerStep(Turn("t", "u"), Some(Answer(Sent(false))))];
    RunAnswer([], legacyId, t, Some(Answer(Sent(false))));
    RunRestart(answered, legacyId);
    before := answered + [RestartStep];
    SentButStaged(t);
    RestartedCrash(Run(answered, legacyId), legacyId);
  }

  lemma RestartedCrash(c: Core, legacyId: Message -> Id)
    requires CoreInv(c) && c.log == [Acceptance("x", true)] && c.saved.outbox.keys == ["x"] && c.history.earlier == {}
    ensures S.Inv(c.saved)
    ensures var next := Restarted(c, S.Reload(c.saved, legacyId));
      && CoreInv(next) && next.log == [] && next.history.earlier == {"x"}
      && next.store.outbox.Valid() && |Listing(next.store)| == 1 && Listing(next.store)[0].id == "x"
  {
    RestartKeepsInv(c, legacyId);
    hide CoreInv, Held, Secured, Listing, S.Reload, S.Inv;
    var next := Restarted(c, S.Reload(c.saved, legacyId));
    InvIsStored(next);
    OneListed(next.store);
    assert AcceptedIds([Acceptance("x", true)]) == {"x"};
  }

  lemma SentButStaged(t: Turn)
    requires t == Turn("t", "u")
    ensures var c := LiveAnswer(NewCore(), t, Some(Answer(Sent(false))));
            c.log == [Acceptance("x", true)] && c.saved.outbox.keys == ["x"] && c.history.earlier == {}
  {
    hide Complete;
    assert !Known(NewCore(), "x");
  }

  lemma OneListed(s: State)
    requires S.Inv(s) && s.outbox.keys == ["x"]
    ensures s.outbox.Valid() && |Listing(s)| == 1 && Listing(s)[0].id == "x"
  {
    S.ListingIsEntries(s);
  }

  lemma SentByOne(listed: seq<Listed>, results: seq<Retry>)
    requires |listed| == |results| == 1 && listed[0].id == "x" && results[0].Accepted?
    ensures AllSent(listed, results) == [Acceptance("x", true)]
  {
    assert AllSent(listed[..0], results[..0]) == [];
  }

  lemma {:induction false} PassKeepsEarlier(c: Core, listed: seq<Listed>, results: seq<Retry>)
    requires |results| == |listed|
    ensures RetryAll(c, listed, results).history.earlier == c.history.earlier
  {
    hide Complete, UpdateMessage, DiscardWatch, R.Recent, HasPending;
    if listed != [] {
      var n := |listed| - 1;
      PassKeepsEarlier(c, listed[..n], results[..n]);
    }
  }
}
