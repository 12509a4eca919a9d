/**
 What the persistence protocol gets done: what is saved or committed is written, a flush or an awaited
 commit always ends once no further save comes, and a write that meets no failure returns.
 */
module PersistenceProgress {
  import opened Prelude
  import opened Persistence

  // ---- What a save, a commit and a retry start ----

  // The revision stands for everything recorded up to now.
  ghost predicate Covers(s: State, r: nat) {
    r < |s.mem.taken| && s.mem.taken[r] == |s.mem.log|
  }

  /** A queued save saves a new revision that stands for everything recorded so far, and a background
      writer is there to write it. */
  lemma SaveIsQueued(steps: seq<Step>, s: State)
    requires Execute(steps) == Some(s)
    ensures var s', r := Next(s, SaveQueued), s.mem.nextRevision + 1;
      && r !in s.queue.saved && s'.queue.saved == s.queue.saved + {r} && Covers(s', r)
      && !s'.queue.background.Idle? && !s'.queue.background.CancelledUnstarted?
      && s'.store == s.store && s'.queue.failures == s.queue.failures && s'.inbound == s.inbound
  {
    SavedAreOld(steps, s);
    hide Execute;
  }

  lemma SavedAreOld(steps: seq<Step>, s: State)
    requires Execute(steps) == Some(s)
    ensures |s.mem.taken| == s.mem.nextRevision + 1 && s.mem.nextRevision + 1 !in s.queue.saved
  {
    ReachableInv(steps);
  }

  // A new snapshot of everything in memory is being written.
  predicate Starts(s: State, s': State, r: nat) {
    && r !in s.store.writers
    && s'.store == s.store.(writers := s.store.writers[r := Writer(Snapshot(r, s'.mem.log), Preparing)])
    && s'.queue == s.queue
  }

  /** A commit and a retry wait for the write of a new snapshot of everything recorded so far, the
      marker of the message included. */
  lemma CommitIsWritten(steps: seq<Step>, s: State, step: Step)
    requires Execute(steps) == Some(s) && Enabled(s, step)
    requires step.CommitBegins? || step.EnsureBegins?
    ensures var s', r := Next(s, step), s.mem.nextRevision + 1;
      && Starts(s, s', r)
      && s'.inbound.critical == Some(Durable(step.key, r, false)) && step.key in s'.inbound.dirty
      && step.key in s'.inbound.committedAt && Holds(s'.mem.log, step.key, s'.inbound.committedAt[step.key])
  {
    FreshAfter(steps, s);
    hide Starts, Holds;
    if step.CommitBegins? {
      MarkIsHeld(s, step.key);
      hide Mark;
      DurableWriteStarts(Mark(s, step.key), step.key);
    } else {
      DirtyIsHeld(steps, s, step.key);
      DurableWriteStarts(s, step.key);
    }
    StartsSame(s, Mark(s, step.key), Next(s, step), s.mem.nextRevision + 1);
  }

  lemma StartsSame(s: State, marked: State, s': State, r: nat)
    requires Starts(marked, s', r) || Starts(s, s', r)
    requires marked.store == s.store && marked.queue == s.queue
    ensures Starts(s, s', r)
  {
  }

  lemma FreshAfter(steps: seq<Step>, s: State)
    requires Execute(steps) == Some(s)
    ensures s.mem.nextRevision + 1 !in s.store.writers
  {
    ReachableInv(steps);
    RevisionIsFresh(s);
  }

  lemma DurableWriteStarts(s: State, key: Key)
    requires s.mem.nextRevision + 1 !in s.store.writers
    ensures var s', r := DurableWrite(s, key), s.mem.nextRevision + 1;
      && Starts(s, s', r) && s'.inbound == s.inbound.(critical := Some(Durable(key, r, false)))
      && s'.mem.log == s.mem.log
  {
  }

  lemma MarkIsHeld(s: State, key: Key)
    ensures var s' := Mark(s, key);
      && key in s'.inbound.dirty && key in s'.inbound.committedAt
      && Holds(s'.mem.log, key, s'.inbound.committedAt[key])
      && s'.store == s.store && s'.queue == s.queue && s'.mem.nextRevision == s.mem.nextRevision
  {
  }

  lemma DirtyIsHeld(steps: seq<Step>, s: State, key: Key)
    requires Execute(steps) == Some(s) && key in s.inbound.dirty
    ensures key in s.inbound.committedAt && Holds(s.mem.log, key, s.inbound.committedAt[key])
  {
    ReachableInv(steps);
  }

  /** A synchronous save starts such a write, too. */
  lemma SaveIsWritten(steps: seq<Step>, s: State)
    requires Execute(steps) == Some(s)
    ensures var s', r := Next(s, SaveNow), s.mem.nextRevision + 1;
      Starts(s, s', r) && s'.mem.log == s.mem.log && s'.inbound == s.inbound
  {
    FreshAfter(steps, s);
  }

  // ---- One write ----

  /** A write that fails is not over: it goes on to find out whether a newer one has persisted, and
      returns exactly then, unless its own clean-up fails. */
  lemma FailedWriteReturnsExactly(s: State, r: nat, unlinkFails: bool)
    requires InPhase(s.store, r, Failing)
    ensures Enabled(s, Recover(r, unlinkFails))
    ensures var f := Next(s, Recover(r, unlinkFails)).store;
      && (InPhase(f, r, Returned) <==> r <= s.store.persisted && !unlinkFails)
      && (InPhase(f, r, Raised) <==> r > s.store.persisted || unlinkFails)
      && f == s.store.(writers := f.writers) && f.writers == s.store.writers[r := f.writers[r]]
  {
  }

  /** Writing the temporary file and replacing the state file may fail. The file stays as it is, the lock is
      left, and the write finds out what it is worth. */
  lemma FailureIsRecovered(s: State, r: nat)
    requires InPhase(s.store, r, Preparing) || InPhase(s.store, r, Locked)
    ensures var step := if InPhase(s.store, r, Preparing) then PrepareFails(r) else ReplaceFails(r);
      && Enabled(s, step)
      && var s' := Next(s, step);
      && Enabled(s', Recover(r, false))
      && s'.store.lockHolder == (if step.ReplaceFails? then None else s.store.lockHolder)
      && s'.store == s.store.(writers := s'.store.writers, lockHolder := s'.store.lockHolder)
      && s'.store.writers == s.store.writers[r := s'.store.writers[r]]
  {
  }

  /** Behind the save lock a write goes on exactly when nothing newer has persisted; a superseded one changes
      nothing, and returns unless its clean-up fails. */
  lemma LockDecides(s: State, r: nat, unlinkFails: bool)
    requires InPhase(s.store, r, Preparing) && s.store.lockHolder == None && (unlinkFails ==> r <= s.store.persisted)
    ensures Enabled(s, EnterLock(r, unlinkFails))
    ensures var s' := Next(s, EnterLock(r, unlinkFails));
      && s'.store == s.store.(writers := s'.store.writers, lockHolder := s'.store.lockHolder)
      && s'.store.writers == s.store.writers[r := s'.store.writers[r]]
      && (s'.store.lockHolder == Some(r) <==> r > s.store.persisted)
      && (r > s.store.persisted ==> Enabled(s', Replace(r)))
      && (r <= s.store.persisted ==> s'.store.lockHolder == None)
      && (InPhase(s'.store, r, Returned) <==> r <= s.store.persisted && !unlinkFails)
      && (unlinkFails ==> Enabled(s', Recover(r, false)))
  {
  }

  // Only the state file, the lock and the writes differ.
  predicate OnlyWrites(s: State, s': State) {
    s' == s.(store := s'.store) && s'.store.writers.Keys == s.store.writers.Keys
  }

  lemma HolderIsWriting(run: seq<Step>, s: State)
    requires Execute(run) == Some(s)
    ensures s.store.lockHolder.Some? ==>
      var r := s.store.lockHolder.value;
      r in s.store.writers && (s.store.writers[r].phase == Locked || s.store.writers[r].phase == Replaced)
  {
    ReachableInv(run);
    if s.store.lockHolder.Some? { assert WriterOk(s.mem, s.store, s.store.lockHolder.value); }
  }

  /** Whoever holds the save lock leaves it, and nobody else moves. */
  lemma LockIsLeft(run: seq<Step>, s: State) returns (run': seq<Step>, s': State)
    requires Execute(run) == Some(s)
    ensures Execute(run') == Some(s') && OnlyWrites(s, s') && s'.store.lockHolder == None
    ensures run <= run' && WriterSteps(run'[|run|..])
    ensures forall r :: r in s.store.writers && s.store.lockHolder != Some(r) ==>
      s'.store.writers[r] == s.store.writers[r]
    ensures s.store.lockHolder.Some? ==> InPhase(s'.store, s.store.lockHolder.value, Returned)
  {
    HolderIsWriting(run, s);
    hide Execute;
    run', s' := run, s;
    if s.store.lockHolder.Some? {
      var r := s.store.lockHolder.value;
      if s.store.writers[r].phase == Locked {
        s' := Extend(run', Replace(r), s');
        run' := run' + [Replace(r)];
      }
      s' := Extend(run', LeaveLock(r), s');
      StepAdded(run, run', LeaveLock(r));
      run' := run' + [LeaveLock(r)];
    }
  }

  lemma StepAdded(run: seq<Step>, run': seq<Step>, step: Step)
    requires run <= run' && WriterSteps(run'[|run|..]) && WriterStep(step) && Smooth(step)
    ensures run <= run' + [step] && WriterSteps((run' + [step])[|run|..])
  {
    assert (run' + [step])[|run|..] == run'[|run|..] + [step];
  }

  // Steps of writes that meet no failure.
  predicate Smooth(step: Step) {
    match step
    case EnterLock(_, unlinkFails) => !unlinkFails
    case Replace(_) => true
    case LeaveLock(_) => true
    case Recover(_, unlinkFails) => !unlinkFails
    case BackgroundTakes => true
    case BackgroundExits => true
    case BackgroundResumes => true
    case CancelLands => true
    case _ => false
  }

  ghost predicate WriterSteps(steps: seq<Step>) {
    forall i :: 0 <= i < |steps| ==> WriterStep(steps[i]) && Smooth(steps[i])
  }

  lemma StepsJoin(run: seq<Step>, run': seq<Step>, run'': seq<Step>)
    requires run <= run' <= run'' && WriterSteps(run'[|run|..]) && WriterSteps(run''[|run'|..])
    ensures run <= run'' && WriterSteps(run''[|run|..])
  {
    assert run''[|run|..] == run'[|run|..] + run''[|run'|..];
  }

  lemma PhasesOk(run: seq<Step>, s: State, r: nat)
    requires Execute(run) == Some(s) && r in s.store.writers
    ensures var phase := s.store.writers[r].phase;
      && (s.store.lockHolder == Some(r) <==> phase == Locked || phase == Replaced)
      && (InPhase(s.store, r, phase) && forall other :: InPhase(s.store, r, other) ==> other == phase)
      && (phase == Returned || phase == Raised <==> Finished(s.store, r))
  {
    ReachableInv(run);
    assert WriterOk(s.mem, s.store, r);
  }

  /** Every write ends, whatever other writes are under way; one that meets no failure returns. */
  lemma WriteEnds(run: seq<Step>, s: State, r: nat) returns (run': seq<Step>, s': State)
    requires Execute(run) == Some(s) && r in s.store.writers
    ensures Execute(run') == Some(s') && OnlyWrites(s, s') && s'.store.lockHolder == None && Finished(s'.store, r)
    ensures run <= run' && WriterSteps(run'[|run|..])
    ensures InPhase(s.store, r, Preparing) || s.store.lockHolder == Some(r) ==> InPhase(s'.store, r, Returned)
    ensures InPhase(s.store, r, Raised) ==> InPhase(s'.store, r, Raised)
  {
    PhasesOk(run, s, r);
    var free, f := LockIsLeft(run, s);
    PhasesOk(free, f, r);
    hide Inv, Execute, InPhase;
    run', s' := free, f;
    if f.store.writers[r].phase == Preparing {
      s' := Extend(free, EnterLock(r, false), f);
      run' := free + [EnterLock(r, false)];
      var locked := run';
      run', s' := LockIsLeft(run', s');
      StepsJoin(free, locked, run');
      StepsJoin(run, free, run');
    } else if f.store.writers[r].phase == Failing {
      s' := Extend(free, Recover(r, false), f);
      run' := free + [Recover(r, false)];
      StepsJoin(run, free, run');
    }
  }

  // ---- The background writer ----

  /** The background writer empties the slot; the snapshot is written exactly when it is newer than what has
      persisted, and with nothing to write the writer looks at the slot again. */
  lemma SlotIsTaken(s: State)
    requires (s.queue.background.Scheduled? || s.queue.background.Looping?) && s.queue.slot.Some?
    requires s.store.lockHolder == None
    ensures Enabled(s, BackgroundTakes)
    ensures var s', snapshot := Next(s, BackgroundTakes), s.queue.slot.value;
      && s'.queue.slot == None && s'.queue.failures == s.queue.failures && s'.queue.saved == s.queue.saved
      && (snapshot.revision > s.store.persisted ==>
            && s'.store == s.store.(writers := s.store.writers[snapshot.revision := Writer(snapshot, Preparing)])
            && s'.queue.background == Writing(snapshot.revision, false))
      && (snapshot.revision <= s.store.persisted ==> s'.store == s.store && Enabled(s', BackgroundExits))
  {
  }

  /** When the write it awaited has ended, the background writer goes on, unless it was cancelled and
      the write has not failed. A failed revision is kept until a newer one has persisted. */
  lemma WriterGoesOn(run: seq<Step>, s: State)
    requires Execute(run) == Some(s) && s.store.lockHolder == None
    requires s.queue.background.Writing? && Finished(s.store, s.queue.background.revision)
    ensures Enabled(s, BackgroundResumes)
    ensures var s', w := Next(s, BackgroundResumes), s.queue.background;
      var failed := InPhase(s.store, w.revision, Raised);
      && s' == s.(queue := s.queue.(background := s'.queue.background, failures := s'.queue.failures))
      && s'.queue.background == (if w.cancelled && !failed then Idle else Looping)
      && (s'.queue.background.Looping? ==> forall f :: f in s'.queue.failures <==>
            f > s.store.persisted && (f in s.queue.failures || (failed && f == w.revision)))
      && (s'.queue.background.Idle? ==> s'.queue.failures == s.queue.failures)
  {
    ReachableInv(run);
    assert WriterOk(s.mem, s.store, s.queue.background.revision);
  }

  /** Cancelling the background writer is noted, and that is all until it runs again: the slot, the failures
      and the write it awaits stay, and a flush still waits. */
  lemma CancellationIsNoted(s: State)
    requires s.queue.background.Scheduled? || (s.queue.background.Writing? && !s.queue.background.cancelled)
    ensures Enabled(s, CancelBackground)
    ensures var s' := Next(s, CancelBackground);
      && s' == s.(queue := s.queue.(background := s'.queue.background, everCancelled := true))
      && (s.queue.background.Writing? ==> s'.queue.background == Writing(s.queue.background.revision, true))
      && (s.queue.background.Scheduled? ==> Enabled(s', CancelLands) && !Enabled(s', BackgroundTakes))
      && Flush(s').Waits?
  {
  }

  /** A writer cancelled before its first step leaves the slot as it is, and a flush is told so until the
      next save starts a new writer. */
  lemma CancellationLands(s: State)
    requires s.queue.background.CancelPending?
    ensures Enabled(s, CancelLands)
    ensures var s' := Next(s, CancelLands);
      && s' == s.(queue := s.queue.(background := s'.queue.background))
      && Flush(s').RaisesCancelled? && Next(s', SaveQueued).queue.background.Scheduled?
  {
  }

  // ---- A flush ends ----

  /** A flush is told of a cancellation exactly by a writer that never started, and waits exactly while a
      writer has steps to take or, without one, some write holds the save lock. */
  lemma FlushWaitsExactly(s: State)
    ensures Flush(s).RaisesCancelled? <==> s.queue.background.CancelledUnstarted?
    ensures Flush(s).Waits? <==>
      !s.queue.background.CancelledUnstarted? && (s.queue.background.Idle? ==> s.store.lockHolder.Some?)
  {
  }

  ghost predicate SmoothSteps(steps: seq<Step>) {
    forall i :: 0 <= i < |steps| ==> Smooth(steps[i])
  }

  // What `_save` queued and what is in memory stay as they were.
  predicate SameSaves(s: State, s': State) {
    s'.mem == s.mem && s'.inbound == s.inbound
    && s'.queue.saved == s.queue.saved && s'.queue.everCancelled == s.queue.everCancelled
  }

  lemma SmoothJoin(run: seq<Step>, run': seq<Step>, run'': seq<Step>)
    requires run <= run' <= run'' && SmoothSteps(run'[|run|..])
    requires SmoothSteps(run''[|run'|..]) || WriterSteps(run''[|run'|..])
    ensures run <= run'' && SmoothSteps(run''[|run|..])
  {
    assert run''[|run|..] == run'[|run|..] + run''[|run'|..];
  }

  /** A flush waits only while the background writer or a write under way can go on, and it does not
      wait for ever: once no further save comes, they end, whether a failure came before or not, and
      the flush is done. */
  lemma FlushEnds(run: seq<Step>, s: State) returns (run': seq<Step>, s': State)
    requires Execute(run) == Some(s)
    ensures Execute(run') == Some(s') && SameSaves(s, s') && !Flush(s').Waits?
    ensures run <= run' && SmoothSteps(run'[|run|..])
    ensures Flush(s).Waits? ==> |run'| > |run| && Enabled(s, run'[|run|])
  {
    run', s' := WritingEnds(run, s);
    var written, w := run', s';
    if w.queue.background.CancelPending? {
      s' := Extend(run', CancelLands, w);
      run' := run' + [CancelLands];
    } else if w.queue.background.Scheduled? || w.queue.background.Looping? {
      run', s' := SlotEnds(run', w);
    }
    SmoothJoin(run, written, run');
    if Flush(s).Waits? {
      assert run' != run;
      FirstIsEnabled(run, run', s);
    }
  }

  lemma FirstIsEnabled(run: seq<Step>, run': seq<Step>, s: State)
    requires Execute(run) == Some(s) && run <= run' && run' != run && Execute(run').Some?
    ensures Enabled(s, run'[|run|])
    decreases |run'|
  {
    var front := run'[..|run'| - 1];
    if |run'| == |run| + 1 {
      assert front == run;
    } else {
      FirstIsEnabled(run, front, s);
    }
  }

  // The write the background writer awaits ends, and the lock is free.
  lemma WritingEnds(run: seq<Step>, s: State) returns (run': seq<Step>, s': State)
    requires Execute(run) == Some(s)
    ensures Execute(run') == Some(s') && SameSaves(s, s') && s'.store.lockHolder == None
    ensures !s'.queue.background.Writing? && run <= run' && SmoothSteps(run'[|run|..])
    ensures s'.queue.slot == s.queue.slot
    ensures if s.queue.background.Writing? then s'.queue.background.Idle? || s'.queue.background.Looping?
            else s'.queue == s.queue
  {
    ReachableInv(run);
    var free, f;
    if s.queue.background.Writing? {
      free, f := WriteEnds(run, s, s.queue.background.revision);
      s' := Extend(free, BackgroundResumes, f);
      run' := free + [BackgroundResumes];
      SmoothJoin(run, run, free);
      SmoothJoin(run, free, run');
    } else {
      run', s' := LockIsLeft(run, s);
      SmoothJoin(run, run, run');
    }
  }

  // The background writer empties the slot and leaves.
  lemma SlotEnds(run: seq<Step>, s: State) returns (run': seq<Step>, s': State)
    requires Execute(run) == Some(s) && s.store.lockHolder == None
    requires s.queue.background.Scheduled? || s.queue.background.Looping?
    ensures Execute(run') == Some(s') && SameSaves(s, s') && !Flush(s').Waits?
    ensures |run| < |run'| && run <= run' && SmoothSteps(run'[|run|..])
  {
    run', s' := run, s;
    if s.queue.slot.Some? {
      s' := Extend(run', BackgroundTakes, s');
      run' := run' + [BackgroundTakes];
      var taken := run';
      run', s' := WritingEnds(run', s');
      SmoothJoin(run, taken, run');
    }
    if !s'.queue.background.Idle? {
      var before := run';
      s' := Extend(run', BackgroundExits, s');
      run' := run' + [BackgroundExits];
      SmoothJoin(run, before, run');
    }
  }

  // ---- What was saved is on disk ----

  lemma {:induction false} SavesStay(steps: seq<Step>, more: seq<Step>, s: State, s': State, r: nat)
    requires Execute(steps) == Some(s) && Execute(steps + more) == Some(s') && r in s.queue.saved
    ensures r in s'.queue.saved && s.mem.taken <= s'.mem.taken && s.mem.log <= s'.mem.log
    decreases |more|
  {
    if more == [] {
      assert steps + more == steps;
    } else {
      var front, last := more[..|more| - 1], more[|more| - 1];
      assert (steps + more)[..|steps + more| - 1] == steps + front;
      SavesStay(steps, front, s, Execute(steps + front).value, r);
      StepKeepsSaves(Execute(steps + front).value, last);
    }
  }

  lemma StepKeepsSaves(s: State, step: Step)
    requires Enabled(s, step)
    ensures s.queue.saved <= Next(s, step).queue.saved
    ensures s.mem.taken <= Next(s, step).mem.taken && s.mem.log <= Next(s, step).mem.log
  {
  }

  /** A flush that returns after a save has put everything recorded up to that save into the file, unless
      the background writer was cancelled. */
  lemma SavedIsOnDisk(steps: seq<Step>, more: seq<Step>, s: State, s': State)
    requires Execute(steps) == Some(s) && Execute(steps + [SaveQueued] + more) == Some(s')
    requires !s'.queue.everCancelled && Flush(s').Returns?
    ensures s.mem.log <= s'.store.disk.log
  {
    var r := s.mem.nextRevision + 1;
    SaveIsQueued(steps, s);
    var saved := Extend(steps, SaveQueued, s);
    SavesStay(steps + [SaveQueued], more, saved, s', r);
    ReachableInv(steps + [SaveQueued] + more);
    FlushIsExact(steps + [SaveQueued] + more, s');
    hide Next, Flush, Execute, Enabled;
    assert Genuine(s'.mem, s'.store.disk);
    assert s'.mem.taken[r] == |s.mem.log|;
    assert s'.mem.taken[r] <= s'.mem.taken[s'.store.disk.revision];
    assert s'.mem.log[..|s.mem.log|] == s.mem.log;
  }

  // ---- A commit ends ----

  /** An awaited commit or retry never hangs: its write ends, and then it goes on. When the write meets no
      failure the message is clean and its marker in the file. */
  lemma CommitEnds(run: seq<Step>, s: State) returns (run': seq<Step>, s': State)
    requires Execute(run) == Some(s) && s.inbound.critical.Some?
    ensures Execute(run') == Some(s') && s'.inbound.critical == None && run <= run'
    ensures var d := s.inbound.critical.value;
      InPhase(s.store, d.revision, Preparing) ==>
        d.key !in s'.inbound.dirty && d.key in s'.inbound.committedAt
        && Holds(s'.store.disk.log, d.key, s'.inbound.committedAt[d.key])
  {
    ReachableInv(run);
    var d := s.inbound.critical.value;
    var ended, e := WriteEnds(run, s, d.revision);
    CommitOutcome(ended, e);
    s' := Extend(ended, DurableResumes, e);
    run' := ended + [DurableResumes];
  }

  // ---- The end of an awaited write ----

  /** Unless one is under way, a message can be committed at any time, also one that was committed before, and
      a dirty one retried. */
  lemma CommitMayBegin(s: State, key: Key)
    requires s.inbound.critical == None
    ensures key != "" ==> Enabled(s, CommitBegins(key))
    ensures key in s.inbound.dirty ==> Enabled(s, EnsureBegins(key))
  {
  }

  /** Cancelling a commit neither ends nor changes its write; it is noted once. */
  lemma CancelledCommitGoesOn(s: State)
    requires s.inbound.critical.Some? && !s.inbound.critical.value.cancelled
    ensures Enabled(s, CancelDurable)
    ensures var s', d := Next(s, CancelDurable), s.inbound.critical.value;
      && s' == s.(inbound := s.inbound.(critical := Some(Durable(d.key, d.revision, true))))
      && !Enabled(s', CancelDurable) && (Enabled(s', DurableResumes) <==> Enabled(s, DurableResumes))
  {
  }

  /** A commit that goes on leaves every other message as it was. */
  lemma CommitTouchesOne(s: State, other: Key)
    requires s.inbound.critical.Some? && Finished(s.store, s.inbound.critical.value.revision)
    requires other != s.inbound.critical.value.key
    ensures Enabled(s, DurableResumes)
    ensures var s' := Next(s, DurableResumes);
      && (other in s'.inbound.dirty <==> other in s.inbound.dirty)
      && s'.inbound.committedAt == s.inbound.committedAt
      && s' == s.(inbound := s'.inbound) && s'.inbound.critical == None
  {
  }
}
