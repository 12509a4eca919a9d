/**
 The revisioned persistence protocol of the bridge store (src/imcodex/store.py).

 Everything that touches the state file runs concurrently: any number of
 `_write_serialized_state` calls on worker threads, the background writer that
 drains a one-entry slot, and the awaited inbound commits. The protocol is a state
 machine whose steps are the stretches of code between two points where another
 task or thread may run: an `await`, file I/O, or the edge of a lock section.
 A run is an arbitrary sequence of enabled steps.

 A snapshot is the in-memory state when it was taken. The in-memory state is
 represented by the log of mutations applied since start-up, so a later snapshot
 extends an earlier one; what was on disk at start-up is the empty log.
 */
module Persistence {
  import opened Prelude

  type Key = string

  datatype Mutation = Processed(key: Key) | Other(what: string)

  datatype Snapshot = Snapshot(revision: nat, log: seq<Mutation>)

  // Where one call of `_write_serialized_state` stands.
  datatype Phase =
    | Preparing   // writing the temporary file, before the save lock
    | Locked      // holds the save lock and is newer than the persisted revision
    | Replaced    // still holds the lock; the state file is replaced, the revision not yet stored
    | Failing     // an exception was raised; the lock is not held
    | Returned
    | Raised

  datatype Writer = Writer(snapshot: Snapshot, phase: Phase)

  // The task behind `_background_writer_task`.
  datatype Background =
    | Idle                                   // the field is None
    | Scheduled                              // created, not yet started
    | Looping                                // about to look at the slot again
    | Writing(revision: nat, cancelled: bool)
    | CancelPending                          // cancelled before its first step, not yet done
    | CancelledUnstarted                     // done without ever running, so the field was never cleared

  // The holder of `_async_persistence_lock`, waiting for its own write.
  datatype Durable = Durable(key: Key, revision: nat, cancelled: bool)

  // In-memory state; `taken` is history: the log length when each revision was assigned.
  datatype Memory = Memory(log: seq<Mutation>, nextRevision: nat, taken: seq<nat>)

  // The state file, the save lock and the writes in flight.
  datatype Store = Store(persisted: nat, disk: Snapshot, lockHolder: Option<nat>, writers: map<nat, Writer>)

  // The background writer; `saved` and `everCancelled` are history.
  datatype Queue = Queue(
    slot: Option<Snapshot>, background: Background, failures: set<nat>, saved: set<nat>, everCancelled: bool)

  // The awaited commits; `committedAt` is history: the log position of a key's latest commit.
  datatype Inbound = Inbound(dirty: set<Key>, critical: Option<Durable>, committedAt: map<Key, nat>)

  datatype State = State(mem: Memory, store: Store, queue: Queue, inbound: Inbound)

  datatype Step =
    | Mutate(mutation: Mutation)
    | SaveQueued
    | SaveNow
    | PrepareFails(r: nat)
    | EnterLock(r: nat, unlinkFails: bool)
    | Replace(r: nat)
    | ReplaceFails(r: nat)
    | LeaveLock(r: nat)
    | Recover(r: nat, unlinkFails: bool)
    | BackgroundTakes
    | BackgroundExits
    | BackgroundResumes
    | CancelBackground
    | CancelLands
    | CommitBegins(key: Key)
    | EnsureBegins(key: Key)
    | CancelDurable
    | DurableResumes

  function Init(): State {
    State(Memory([], 0, [0]), Store(0, Snapshot(0, []), None, map[]),
          Queue(None, Idle, {}, {}, false), Inbound({}, None, map[]))
  }

  predicate InPhase(f: Store, r: nat, phase: Phase) {
    r in f.writers && f.writers[r].phase == phase
  }

  predicate Finished(f: Store, r: nat) {
    InPhase(f, r, Returned) || InPhase(f, r, Raised)
  }

  predicate WriterStep(step: Step) {
    step.PrepareFails? || step.EnterLock? || step.Replace? || step.ReplaceFails? || step.LeaveLock? || step.Recover?
  }

  predicate WriterEnabled(f: Store, step: Step)
    requires WriterStep(step)
  {
    match step
    case PrepareFails(r) => InPhase(f, r, Preparing)
    case EnterLock(r, unlinkFails) =>
      InPhase(f, r, Preparing) && f.lockHolder == None && (unlinkFails ==> r <= f.persisted)
    case Replace(r) => InPhase(f, r, Locked)
    case ReplaceFails(r) => InPhase(f, r, Locked)
    case LeaveLock(r) => InPhase(f, r, Replaced)
    case Recover(r, _) => InPhase(f, r, Failing)
  }

  predicate Enabled(s: State, step: Step) {
    var starting := s.queue.background.Scheduled? || s.queue.background.Looping?;
    match step
    case Mutate(_) => true
    case SaveQueued => true
    case SaveNow => true
    case BackgroundTakes => starting && s.queue.slot.Some? && s.store.lockHolder == None
    case BackgroundExits => starting && s.queue.slot == None
    case BackgroundResumes =>
      && s.queue.background.Writing? && Finished(s.store, s.queue.background.revision)
      && s.store.lockHolder == None
    case CancelBackground =>
      s.queue.background.Scheduled? || (s.queue.background.Writing? && !s.queue.background.cancelled)
    case CancelLands => s.queue.background.CancelPending?
    case CommitBegins(key) => s.inbound.critical == None && key != ""
    case EnsureBegins(key) => s.inbound.critical == None && key in s.inbound.dirty
    case CancelDurable => s.inbound.critical.Some? && !s.inbound.critical.value.cancelled
    case DurableResumes => s.inbound.critical.Some? && Finished(s.store, s.inbound.critical.value.revision)
    case _ => WriterEnabled(s.store, step)
  }

  // `_snapshot_state` numbers the current in-memory state.
  function Numbered(m: Memory): Memory {
    m.(nextRevision := m.nextRevision + 1, taken := m.taken + [|m.log|])
  }

  function Current(m: Memory): Snapshot {
    Snapshot(m.nextRevision + 1, m.log)
  }

  function Spawn(f: Store, snapshot: Snapshot): Store {
    f.(writers := f.writers[snapshot.revision := Writer(snapshot, Preparing)])
  }

  function Move(f: Store, r: nat, phase: Phase): Store
    requires r in f.writers
  {
    f.(writers := f.writers[r := f.writers[r].(phase := phase)])
  }

  // `_write_serialized_state`
  function WriterNext(f: Store, step: Step): Store
    requires WriterStep(step) && WriterEnabled(f, step)
  {
    match step
    case PrepareFails(r) => Move(f, r, Failing)
    case EnterLock(r, unlinkFails) =>
      if r <= f.persisted then Move(f, r, if unlinkFails then Failing else Returned)
      else Move(f, r, Locked).(lockHolder := Some(r))
    case Replace(r) => Move(f, r, Replaced).(disk := f.writers[r].snapshot)
    case ReplaceFails(r) => Move(f, r, Failing).(lockHolder := None)
    case LeaveLock(r) => Move(f, r, Returned).(persisted := r, lockHolder := None)
    case Recover(r, unlinkFails) =>
      // The persisted revision is read here without the save lock.
      Move(f, r, if r <= f.persisted && !unlinkFails then Returned else Raised)
  }

  // `_discard_superseded_write_failures`
  function Superseded(failures: set<nat>, persisted: nat): set<nat> {
    set r | r in failures && r > persisted
  }

  // The background writer continues after the write it awaited has finished.
  function Resumed(q: Queue, f: Store): Queue
    requires q.background.Writing?
  {
    var r := q.background.revision;
    if InPhase(f, r, Raised) then
      q.(failures := Superseded(q.failures + {r}, f.persisted), background := Looping)
    else if q.background.cancelled then
      q.(failures := q.failures + (if r > f.persisted then {r} else {}), background := Idle)
    else
      q.(failures := Superseded(q.failures, f.persisted), background := Looping)
  }

  // `_record_inbound_message_processed` inside `commit_inbound_message_processed`.
  function Mark(s: State, key: Key): State {
    s.(mem := s.mem.(log := s.mem.log + [Processed(key)]),
       inbound := s.inbound.(dirty := s.inbound.dirty + {key},
                             committedAt := s.inbound.committedAt[key := |s.mem.log|]))
  }

  // Snapshot and start the write that the holder of the persistence lock awaits.
  function DurableWrite(s: State, key: Key): State {
    s.(mem := Numbered(s.mem),
       store := Spawn(s.store, Current(s.mem)),
       inbound := s.inbound.(critical := Some(Durable(key, s.mem.nextRevision + 1, false))))
  }

  function Next(s: State, step: Step): State
    requires Enabled(s, step)
  {
    match step
    case Mutate(mutation) => s.(mem := s.mem.(log := s.mem.log + [mutation]))
    case SaveQueued =>
      var idle := s.queue.background.Idle? || s.queue.background.CancelledUnstarted?;
      s.(mem := Numbered(s.mem),
         queue := s.queue.(
           slot := Some(Current(s.mem)),
           saved := s.queue.saved + {s.mem.nextRevision + 1},
           background := if idle then Scheduled else s.queue.background))
    case SaveNow => s.(mem := Numbered(s.mem), store := Spawn(s.store, Current(s.mem)))
    case BackgroundTakes =>
      var snapshot := s.queue.slot.value;
      if snapshot.revision <= s.store.persisted then
        s.(queue := s.queue.(slot := None, background := Looping))
      else
        s.(queue := s.queue.(slot := None, background := Writing(snapshot.revision, false)),
           store := Spawn(s.store, snapshot))
    case BackgroundExits => s.(queue := s.queue.(background := Idle))
    case BackgroundResumes => s.(queue := Resumed(s.queue, s.store))
    case CancelBackground =>
      s.(queue := s.queue.(
           everCancelled := true,
           background := if s.queue.background.Scheduled? then CancelPending
                         else s.queue.background.(cancelled := true)))
    case CancelLands => s.(queue := s.queue.(background := CancelledUnstarted))
    case CommitBegins(key) => DurableWrite(Mark(s, key), key)
    case EnsureBegins(key) => DurableWrite(s, key)
    case CancelDurable =>
      s.(inbound := s.inbound.(critical := Some(s.inbound.critical.value.(cancelled := true))))
    case DurableResumes =>
      // A raised write keeps the dirty key; a finished one clears it, cancelled or not.
      var d := s.inbound.critical.value;
      s.(inbound := s.inbound.(
           critical := None,
           dirty := if InPhase(s.store, d.revision, Raised) then s.inbound.dirty else s.inbound.dirty - {d.key}))
    case _ => s.(store := WriterNext(s.store, step))
  }

  // The state after a sequence of steps from start-up; None when some step was not enabled.
  function Execute(steps: seq<Step>): (end: Option<State>) {
    if steps == [] then Some(Init())
    else
      var before := Execute(steps[..|steps| - 1]);
      var last := steps[|steps| - 1];
      if before.Some? && Enabled(before.value, last) then Some(Next(before.value, last)) else None
  }

  datatype FlushOutcome = Waits | Returns | RaisesFor(revision: nat) | RaisesCancelled

  // What `flush_pending_writes` does when it is resumed in this state.
  function Flush(s: State): (outcome: FlushOutcome) {
    if s.queue.background.CancelledUnstarted? then RaisesCancelled
    else if !s.queue.background.Idle? || s.store.lockHolder.Some? then Waits
    else
      var outstanding := Superseded(s.queue.failures, s.store.persisted);
      if outstanding == {} then Returns else RaisesFor(Maximum(outstanding))
  }

  function Maximum(revisions: set<nat>): (max: nat)
    requires revisions != {}
    ensures max in revisions
    ensures forall r :: r in revisions ==> r <= max
  {
    MaximumExists(revisions);
    var max :| max in revisions && forall r :: r in revisions ==> r <= max;
    max
  }

  lemma {:induction false} MaximumExists(revisions: set<nat>)
    requires revisions != {}
    ensures exists max :: max in revisions && forall r :: r in revisions ==> r <= max
  {
    var some :| some in revisions;
    var rest := revisions - {some};
    if rest == {} {
      assert revisions == {some};
    } else {
      MaximumExists(rest);
      var best :| best in rest && forall r :: r in rest ==> r <= best;
      assert forall r :: r in revisions ==> r == some || r in rest;
      assert (if some < best then best else some) in revisions;
    }
  }

  // ---- The invariant ----

  ghost predicate MemoryOk(m: Memory) {
    && |m.taken| == m.nextRevision + 1
    && (forall i, j :: 0 <= i <= j < |m.taken| ==> m.taken[i] <= m.taken[j])
    && (forall i :: 0 <= i < |m.taken| ==> m.taken[i] <= |m.log|)
  }

  // The snapshot is the in-memory state as it was when its revision was assigned.
  ghost predicate Genuine(m: Memory, snapshot: Snapshot)
    requires MemoryOk(m)
  {
    snapshot.revision <= m.nextRevision && snapshot.log == m.log[..m.taken[snapshot.revision]]
  }

  ghost predicate WriterOk(m: Memory, f: Store, r: nat)
    requires MemoryOk(m) && r in f.writers
  {
    var w := f.writers[r];
    && w.snapshot.revision == r
    && Genuine(m, w.snapshot)
    && (w.phase == Locked || w.phase == Replaced <==> f.lockHolder == Some(r))
    && (w.phase == Locked || w.phase == Replaced ==> r > f.persisted)
    && (w.phase == Returned ==> r <= f.persisted)
  }

  ghost predicate StoreOk(m: Memory, f: Store)
    requires MemoryOk(m)
  {
    && (forall r :: r in f.writers ==> WriterOk(m, f, r))
    && Genuine(m, f.disk)
    && f.persisted <= f.disk.revision
    && match f.lockHolder {
         case None => f.disk.revision == f.persisted
         case Some(r) =>
           r in f.writers && f.disk.revision == if f.writers[r].phase == Replaced then r else f.persisted
       }
  }

  ghost predicate Recorded(failures: set<nat>, r: nat) {
    exists f :: f in failures && r <= f
  }

  // A queued revision is persisted, still on its way, or remembered as a failure.
  ghost predicate Accounted(persisted: nat, q: Queue, r: nat) {
    || r <= persisted
    || (q.slot.Some? && r <= q.slot.value.revision)
    || (q.background.Writing? && r <= q.background.revision)
    || Recorded(q.failures, r)
  }

  ghost predicate QueueOk(m: Memory, f: Store, q: Queue)
    requires MemoryOk(m)
  {
    && (q.slot.Some? ==>
          && Genuine(m, q.slot.value)
          && q.slot.value.revision in q.saved
          && q.slot.value.revision !in f.writers)
    && (q.background.Writing? ==> q.background.revision in f.writers && q.background.revision in q.saved)
    && (q.background.Writing? && q.background.cancelled ==> q.everCancelled)
    && (q.background.CancelPending? || q.background.CancelledUnstarted? ==> q.everCancelled)
    && (q.background.Idle? && q.slot.Some? ==> q.everCancelled)
    && q.failures <= q.saved
    && (forall r :: r in q.saved ==> r <= m.nextRevision && Accounted(f.persisted, q, r))
  }

  // The marker recorded by the latest awaited commit of `key` is in the snapshot.
  predicate Holds(log: seq<Mutation>, key: Key, position: nat) {
    position < |log| && log[position] == Processed(key)
  }

  ghost predicate InboundOk(m: Memory, f: Store, b: Inbound)
    requires MemoryOk(m)
  {
    && (forall k :: k in b.dirty ==> k in b.committedAt)
    && (forall k :: k in b.committedAt ==> Holds(m.log, k, b.committedAt[k]))
    && (forall k :: k in b.committedAt && k !in b.dirty ==> b.committedAt[k] < |f.disk.log|)
    && (b.critical.Some? ==>
          var d := b.critical.value;
          && d.revision in f.writers
          && d.key in b.dirty
          && d.revision <= m.nextRevision
          && b.committedAt[d.key] < m.taken[d.revision])
  }

  ghost predicate Inv(s: State) {
    && MemoryOk(s.mem)
    && StoreOk(s.mem, s.store)
    && QueueOk(s.mem, s.store, s.queue)
    && InboundOk(s.mem, s.store, s.inbound)
  }

  // ---- Every step keeps the invariant ----

  // The in-memory log and the revision history only grow.
  ghost predicate Grows(m: Memory, m': Memory) {
    MemoryOk(m) && MemoryOk(m') && m.log <= m'.log && m.taken <= m'.taken
  }

  lemma GenuineGrows(m: Memory, m': Memory, snapshot: Snapshot)
    requires Grows(m, m') && Genuine(m, snapshot)
    ensures Genuine(m', snapshot)
  {
    var n := m.taken[snapshot.revision];
    assert m'.taken[snapshot.revision] == n;
    assert m.log[..n] == m'.log[..n];
  }

  // A newer genuine snapshot contains an older one.
  lemma NewerContainsOlder(m: Memory, older: Snapshot, newer: Snapshot)
    requires MemoryOk(m) && Genuine(m, older) && Genuine(m, newer) && older.revision <= newer.revision
    ensures older.log <= newer.log
  {
    var i, j := m.taken[older.revision], m.taken[newer.revision];
    assert i <= j;
    assert m.log[..i] == m.log[..j][..i];
  }

  lemma NumberedGrows(m: Memory)
    requires MemoryOk(m)
    ensures Grows(m, Numbered(m)) && Genuine(Numbered(m), Current(m))
  {
    assert m.log[..|m.log|] == m.log;
  }

  lemma MemoryGrowsKeepsInv(s: State, m': Memory)
    requires Inv(s) && Grows(s.mem, m')
    ensures Inv(s.(mem := m'))
  {
    GenuineGrows(s.mem, m', s.store.disk);
    if s.queue.slot.Some? { GenuineGrows(s.mem, m', s.queue.slot.value); }
    forall r | r in s.store.writers ensures WriterOk(m', s.store, r) {
      assert WriterOk(s.mem, s.store, r);
      GenuineGrows(s.mem, m', s.store.writers[r].snapshot);
    }
  }

  // Starting a write of a revision no other write uses.
  lemma SpawnKeepsStore(m: Memory, f: Store, snapshot: Snapshot)
    requires MemoryOk(m) && StoreOk(m, f) && Genuine(m, snapshot) && snapshot.revision !in f.writers
    ensures StoreOk(m, Spawn(f, snapshot))
  {
    var f' := Spawn(f, snapshot);
    forall r | r in f'.writers ensures WriterOk(m, f', r) {
      if r != snapshot.revision { assert WriterOk(m, f, r); }
    }
  }

  lemma RevisionIsFresh(s: State)
    requires Inv(s)
    ensures s.mem.nextRevision + 1 !in s.store.writers
  {
    forall r | r in s.store.writers ensures r != s.mem.nextRevision + 1 {
      assert WriterOk(s.mem, s.store, r);
    }
  }

  // `_snapshot_state` followed by the start of its write.
  lemma SpawnKeepsInv(s: State)
    requires Inv(s)
    ensures Inv(s.(mem := Numbered(s.mem), store := Spawn(s.store, Current(s.mem))))
  {
    RevisionIsFresh(s);
    NumberedGrows(s.mem);
    MemoryGrowsKeepsInv(s, Numbered(s.mem));
    SpawnKeepsStore(Numbered(s.mem), s.store, Current(s.mem));
  }

  // A phase change outside the lock section.
  lemma MoveKeepsStore(m: Memory, f: Store, r: nat, phase: Phase)
    requires MemoryOk(m) && StoreOk(m, f) && r in f.writers
    requires f.lockHolder != Some(r) && phase in {Failing, Returned, Raised}
    requires phase == Returned ==> r <= f.persisted
    ensures StoreOk(m, Move(f, r, phase))
  {
    assert WriterOk(m, f, r);
    forall q | q in f.writers ensures WriterOk(m, Move(f, r, phase), q) {
      assert WriterOk(m, f, q);
    }
  }

  lemma LockKeepsStore(m: Memory, f: Store, step: Step)
    requires MemoryOk(m) && StoreOk(m, f)
    requires (step.EnterLock? && step.r > f.persisted) || step.Replace? || step.ReplaceFails? || step.LeaveLock?
    requires WriterEnabled(f, step)
    ensures StoreOk(m, WriterNext(f, step))
  {
    assert WriterOk(m, f, step.r);
    forall q | q in f.writers ensures WriterOk(m, WriterNext(f, step), q) {
      assert WriterOk(m, f, q);
    }
  }

  lemma WriterKeepsStore(m: Memory, f: Store, step: Step)
    requires MemoryOk(m) && StoreOk(m, f) && WriterStep(step) && WriterEnabled(f, step)
    ensures StoreOk(m, WriterNext(f, step))
  {
    match step
    case PrepareFails(r) => assert WriterOk(m, f, r); MoveKeepsStore(m, f, r, Failing);
    case Recover(r, unlinkFails) =>
      assert WriterOk(m, f, r);
      MoveKeepsStore(m, f, r, if r <= f.persisted && !unlinkFails then Returned else Raised);
    case EnterLock(r, unlinkFails) =>
      if r <= f.persisted { MoveKeepsStore(m, f, r, if unlinkFails then Failing else Returned); }
      else { LockKeepsStore(m, f, step); }
    case Replace(r) => LockKeepsStore(m, f, step);
    case ReplaceFails(r) => LockKeepsStore(m, f, step);
    case LeaveLock(r) => LockKeepsStore(m, f, step);
  }

  // The file moves forward: only `Replace` and `LeaveLock` change it, and only to something newer.
  ghost predicate Forward(f: Store, f': Store) {
    && f.persisted <= f'.persisted
    && f.disk.revision <= f'.disk.revision
    && f.disk.log <= f'.disk.log
    && f.writers.Keys <= f'.writers.Keys
  }

  lemma WriterMovesForward(m: Memory, f: Store, step: Step)
    requires MemoryOk(m) && StoreOk(m, f) && WriterStep(step) && WriterEnabled(f, step)
    ensures Forward(f, WriterNext(f, step)) && WriterNext(f, step).writers.Keys == f.writers.Keys
  {
    assert WriterOk(m, f, step.r);
    if step.Replace? { NewerContainsOlder(m, f.disk, f.writers[step.r].snapshot); }
  }

  // What is accounted for stays so when nothing it may rest on is taken away.
  lemma AccountedStays(p: nat, q: Queue, p': nat, q': Queue, r: nat)
    requires Accounted(p, q, r)
    requires p <= p' && q.failures <= q'.failures
    requires q.background.Writing? ==> q'.background.Writing? && q'.background.revision == q.background.revision
    requires q.slot.Some? ==>
      || (q'.slot.Some? && q.slot.value.revision <= q'.slot.value.revision)
      || (q'.background.Writing? && q.slot.value.revision <= q'.background.revision)
      || q.slot.value.revision <= p'
    ensures Accounted(p', q', r)
  {
    if Recorded(q.failures, r) {
      var f :| f in q.failures && r <= f;
      assert f in q'.failures;
    }
  }

  lemma WriterKeepsInv(s: State, step: Step)
    requires Inv(s) && WriterStep(step) && Enabled(s, step)
    ensures Inv(Next(s, step))
  {
    WriterKeepsStore(s.mem, s.store, step);
    WriterMovesForward(s.mem, s.store, step);
    forall r | r in s.queue.saved ensures Accounted(Next(s, step).store.persisted, s.queue, r) {
      AccountedStays(s.store.persisted, s.queue, Next(s, step).store.persisted, s.queue, r);
    }
  }

  // A later save may overwrite the slot: its revision covers the one it replaces.
  lemma SlotKeepsQueue(m: Memory, f: Store, q: Queue, q': Queue, snapshot: Snapshot)
    requires MemoryOk(m) && QueueOk(m, f, q) && Genuine(m, snapshot)
    requires snapshot.revision == m.nextRevision && snapshot.revision !in f.writers
    requires q' == q.(slot := Some(snapshot), saved := q.saved + {snapshot.revision}, background := q'.background)
    requires q'.background ==
      if q.background.Idle? || q.background.CancelledUnstarted? then Scheduled else q.background
    ensures QueueOk(m, f, q')
  {
    forall r | r in q'.saved ensures Accounted(f.persisted, q', r) {
      if r in q.saved { AccountedStays(f.persisted, q, f.persisted, q', r); }
    }
    assert Accounted(f.persisted, q', snapshot.revision);
  }

  lemma SaveKeepsInv(s: State)
    requires Inv(s)
    ensures Inv(Next(s, SaveQueued))
  {
    RevisionIsFresh(s);
    NumberedGrows(s.mem);
    MemoryGrowsKeepsInv(s, Numbered(s.mem));
    SlotKeepsQueue(Numbered(s.mem), s.store, s.queue, Next(s, SaveQueued).queue, Current(s.mem));
  }

  lemma TakeKeepsInv(s: State)
    requires Inv(s) && Enabled(s, BackgroundTakes)
    ensures Inv(Next(s, BackgroundTakes))
  {
    var s' := Next(s, BackgroundTakes);
    forall r | r in s.queue.saved ensures Accounted(s.store.persisted, s'.queue, r) {
      AccountedStays(s.store.persisted, s.queue, s.store.persisted, s'.queue, r);
    }
    SpawnKeepsStore(s.mem, s.store, s.queue.slot.value);
  }

  lemma ResumeKeepsInv(s: State)
    requires Inv(s) && Enabled(s, BackgroundResumes)
    ensures Inv(Next(s, BackgroundResumes))
  {
    hide StoreOk, InboundOk;
    assert s.queue.background.revision in s.store.writers;
    ResumeKeepsQueue(s.mem, s.store, s.queue);
  }

  lemma ResumeKeepsQueue(m: Memory, f: Store, q: Queue)
    requires MemoryOk(m) && StoreOk(m, f) && QueueOk(m, f, q)
    requires q.background.Writing? && Finished(f, q.background.revision)
    ensures QueueOk(m, f, Resumed(q, f))
  {
    hide Genuine, Accounted;
    var q' := Resumed(q, f);
    assert WriterOk(m, f, q.background.revision);
    forall r | r in q.saved ensures Accounted(f.persisted, q', r) {
      ResumeAccounts(f, q, r);
    }
  }

  lemma ResumeAccounts(f: Store, q: Queue, r: nat)
    requires q.background.Writing? && Accounted(f.persisted, q, r)
    requires var w := q.background.revision;
      InPhase(f, w, Raised) || (InPhase(f, w, Returned) && w <= f.persisted)
    ensures Accounted(f.persisted, Resumed(q, f), r)
  {
    var w, q' := q.background.revision, Resumed(q, f);
    if Recorded(q.failures, r) {
      var failed :| failed in q.failures && r <= failed;
      assert r <= f.persisted || failed in q'.failures;
    } else if r <= w {
      assert r <= f.persisted || w in q'.failures;
    }
  }

  lemma BackgroundKeepsInv(s: State, step: Step)
    requires Inv(s) && Enabled(s, step)
    requires step.BackgroundExits? || step.CancelBackground? || step.CancelLands?
    ensures Inv(Next(s, step))
  {
    var s' := Next(s, step);
    forall r | r in s.queue.saved ensures Accounted(s.store.persisted, s'.queue, r) {
      AccountedStays(s.store.persisted, s.queue, s.store.persisted, s'.queue, r);
    }
  }

  lemma DurableWriteKeepsInv(s: State, key: Key)
    requires Inv(s) && s.inbound.critical == None && key in s.inbound.dirty
    ensures Inv(DurableWrite(s, key))
  {
    SpawnKeepsInv(s);
  }

  lemma CommitKeepsInv(s: State, key: Key)
    requires Inv(s) && s.inbound.critical == None
    ensures Inv(DurableWrite(Mark(s, key), key))
  {
    MemoryGrowsKeepsInv(s, Mark(s, key).mem);
    DurableWriteKeepsInv(Mark(s, key), key);
  }

  // A finished write left a file that contains the marker it was started for.
  lemma DurableKeepsInv(s: State)
    requires Inv(s) && Enabled(s, DurableResumes)
    ensures Inv(Next(s, DurableResumes))
  {
    var r := s.inbound.critical.value.revision;
    assert WriterOk(s.mem, s.store, r);
    if !InPhase(s.store, r, Raised) {
      NewerContainsOlder(s.mem, s.store.writers[r].snapshot, s.store.disk);
    }
  }

  lemma StepKeepsInv(s: State, step: Step)
    requires Inv(s) && Enabled(s, step)
    ensures Inv(Next(s, step))
  {
    match step
    case Mutate(mutation) => MemoryGrowsKeepsInv(s, Next(s, step).mem);
    case SaveQueued => SaveKeepsInv(s);
    case SaveNow => SpawnKeepsInv(s);
    case BackgroundTakes => TakeKeepsInv(s);
    case BackgroundResumes => ResumeKeepsInv(s);
    case BackgroundExits => BackgroundKeepsInv(s, step);
    case CancelBackground => BackgroundKeepsInv(s, step);
    case CancelLands => BackgroundKeepsInv(s, step);
    case CommitBegins(key) => CommitKeepsInv(s, key);
    case EnsureBegins(key) => DurableWriteKeepsInv(s, key);
    case CancelDurable =>
    case DurableResumes => DurableKeepsInv(s);
    case _ => WriterKeepsInv(s, step);
  }

  // ---- Results over all runs ----

  lemma {:induction false} ReachableInv(steps: seq<Step>)
    ensures Execute(steps).Some? ==> Inv(Execute(steps).value)
  {
    if steps != [] {
      var front, last := steps[..|steps| - 1], steps[|steps| - 1];
      ReachableInv(front);
      if Execute(steps).Some? {
        StepKeepsInv(Execute(front).value, last);
      }
    }
  }

  // The snapshot `_snapshot_state` returned together with the revision.
  function SnapshotAt(m: Memory, revision: nat): Snapshot
    requires revision < |m.taken| && m.taken[revision] <= |m.log|
  {
    Snapshot(revision, m.log[..m.taken[revision]])
  }

  /** Outside the save lock the file is the snapshot of the persisted revision; inside it, it is
      still some complete snapshot, never older. */
  lemma FileIsThePersistedSnapshot(steps: seq<Step>, s: State)
    requires Execute(steps) == Some(s)
    ensures s.store.persisted < |s.mem.taken| && s.mem.taken[s.store.persisted] <= |s.mem.log|
    ensures s.store.lockHolder == None ==> s.store.disk == SnapshotAt(s.mem, s.store.persisted)
    ensures SnapshotAt(s.mem, s.store.persisted).log <= s.store.disk.log <= s.mem.log
  {
    ReachableInv(steps);
    NewerContainsOlder(s.mem, SnapshotAt(s.mem, s.store.persisted), s.store.disk);
  }

  /** A write that returned normally, by whatever path, left its revision covered. */
  lemma ReturnedWriteIsCovered(steps: seq<Step>, s: State, r: nat)
    requires Execute(steps) == Some(s) && InPhase(s.store, r, Returned)
    ensures r <= s.store.persisted
    ensures s.store.writers[r].snapshot.log <= s.store.disk.log
  {
    ReachableInv(steps);
    assert WriterOk(s.mem, s.store, r);
    NewerContainsOlder(s.mem, s.store.writers[r].snapshot, s.store.disk);
  }

  lemma StepMovesForward(s: State, step: Step)
    requires Inv(s) && Enabled(s, step)
    ensures Forward(s.store, Next(s, step).store)
  {
    if WriterStep(step) { WriterMovesForward(s.mem, s.store, step); }
  }

  /** Neither the persisted revision nor the content of the file ever goes back. */
  lemma {:induction false} FileNeverGoesBack(steps: seq<Step>, more: seq<Step>, s: State, s': State)
    requires Execute(steps) == Some(s) && Execute(steps + more) == Some(s')
    ensures s.store.persisted <= s'.store.persisted
    ensures s.store.disk.revision <= s'.store.disk.revision
    ensures s.store.disk.log <= s'.store.disk.log
    decreases |more|
  {
    if more == [] {
      assert steps + more == steps;
    } else {
      var front, last := more[..|more| - 1], more[|more| - 1];
      assert (steps + more)[..|steps + more| - 1] == steps + front;
      var before := Execute(steps + front).value;
      FileNeverGoesBack(steps, front, s, before);
      ReachableInv(steps + front);
      StepMovesForward(before, last);
    }
  }

  ghost predicate AllSavedCovered(s: State) {
    forall r :: r in s.queue.saved ==> r <= s.store.persisted
  }

  /** When the background writer is idle and no write holds the save lock, a flush is done: it returns
      if every revision `_save` queued is persisted, and only then while the writer was never cancelled;
      otherwise it raises, for the newest failed revision that is not persisted. */
  lemma FlushIsExact(steps: seq<Step>, s: State)
    requires Execute(steps) == Some(s) && s.queue.background.Idle? && s.store.lockHolder == None
    ensures Flush(s).Returns? || Flush(s).RaisesFor?
    ensures AllSavedCovered(s) ==> Flush(s).Returns?
    ensures !s.queue.everCancelled ==> (Flush(s).Returns? <==> AllSavedCovered(s))
    ensures Flush(s).RaisesFor? ==>
      var r := Flush(s).revision;
      && r in s.queue.saved && r in s.queue.failures && r > s.store.persisted
      && forall f :: f in s.queue.failures ==> f <= r
  {
    ReachableInv(steps);
    if Flush(s).Returns? { FlushReturns(s); }
    if Flush(s).RaisesFor? {
      forall f | f in s.queue.failures ensures f <= Flush(s).revision {
        if f > s.store.persisted { assert f in Superseded(s.queue.failures, s.store.persisted); }
      }
    }
  }

  /** With cancellation allowed, a normal return covers every queued revision if and only if the
      slot does not still hold an uncovered one. */
  lemma FlushReturnCovers(steps: seq<Step>, s: State)
    requires Execute(steps) == Some(s) && Flush(s).Returns?
    ensures AllSavedCovered(s) <==> s.queue.slot == None || s.queue.slot.value.revision <= s.store.persisted
  {
    ReachableInv(steps);
    FlushReturns(s);
  }

  lemma FlushReturns(s: State)
    requires Inv(s) && Flush(s).Returns?
    ensures AllSavedCovered(s) <==> s.queue.slot == None || s.queue.slot.value.revision <= s.store.persisted
  {
    forall r | r in s.queue.saved
      ensures r <= s.store.persisted || (s.queue.slot.Some? && r <= s.queue.slot.value.revision)
    {
      assert Accounted(s.store.persisted, s.queue, r);
      if Recorded(s.queue.failures, r) {
        var f :| f in s.queue.failures && r <= f;
        assert f !in Superseded(s.queue.failures, s.store.persisted);
      }
    }
  }

  function CancelledRun(): seq<Step> {
    [SaveQueued, BackgroundTakes, SaveQueued, CancelBackground,
     EnterLock(1, false), Replace(1), LeaveLock(1), BackgroundResumes]
  }

  lemma Extend(run: seq<Step>, step: Step, s: State) returns (s': State)
    requires Execute(run) == Some(s) && Enabled(s, step)
    ensures s' == Next(s, step) && Execute(run + [step]) == Some(s')
  {
    assert (run + [step])[..|run|] == run;
    s' := Next(s, step);
  }

  lemma Prefixes()
    ensures var run := CancelledRun();
      && run[..3] == [SaveQueued] + [BackgroundTakes] + [SaveQueued]
      && run[..4] == run[..3] + [CancelBackground] && run[..5] == run[..4] + [EnterLock(1, false)]
      && run[..6] == run[..5] + [Replace(1)] && run[..7] == run[..6] + [LeaveLock(1)]
      && run == run[..7] + [BackgroundResumes]
  {
  }

  // The queue of the run from the cancellation on.
  ghost predicate Cancelled(s: State) {
    s.queue == Queue(Some(Snapshot(2, [])), Writing(1, true), {}, {1, 2}, true)
  }

  /** Cancelling the background writer can strand a queued revision behind a flush that returns. */
  lemma CancelledWriterStrandsASave() returns (s: State)
    ensures Execute(CancelledRun()) == Some(s)
    ensures Flush(s) == Returns && 2 in s.queue.saved && s.store.persisted == 1
  {
    hide Next, Enabled, Execute, Flush, CancelledRun;
    s := SaveTwice();
    s := CancelWriter(s);
    s := FinishWrite(s);
    s := RaiseCancellation(s);
  }

  // The first save is being written when the second one is queued ...
  lemma SaveTwice() returns (s: State)
    ensures Execute(CancelledRun()[..3]) == Some(s)
    ensures s.store == Store(0, Snapshot(0, []), None, map[1 := Writer(Snapshot(1, []), Preparing)])
    ensures s.queue == Queue(Some(Snapshot(2, [])), Writing(1, false), {}, {1, 2}, false)
  {
    Prefixes();
    hide CancelledRun;
    s := Extend([], SaveQueued, Init());
    s := Extend([SaveQueued], BackgroundTakes, s);
    assert s.queue == Queue(None, Writing(1, false), {}, {1}, false) && s.mem == Memory([], 1, [0, 0]);
    s := Extend([SaveQueued] + [BackgroundTakes], SaveQueued, s);
  }

  // ... and the writer is cancelled ...
  lemma CancelWriter(before: State) returns (s: State)
    requires Execute(CancelledRun()[..3]) == Some(before)
    requires before.queue == Queue(Some(Snapshot(2, [])), Writing(1, false), {}, {1, 2}, false)
    ensures Execute(CancelledRun()[..4]) == Some(s) && Cancelled(s) && s.store == before.store
  {
    Prefixes();
    hide CancelledRun, Execute;
    s := Extend(CancelledRun()[..3], CancelBackground, before);
  }

  // ... but its write succeeds ...
  lemma FinishWrite(before: State) returns (s: State)
    requires Execute(CancelledRun()[..4]) == Some(before) && Cancelled(before)
    requires before.store == Store(0, Snapshot(0, []), None, map[1 := Writer(Snapshot(1, []), Preparing)])
    ensures Execute(CancelledRun()[..7]) == Some(s) && Cancelled(s)
    ensures s.store == Store(1, Snapshot(1, []), None, map[1 := Writer(Snapshot(1, []), Returned)])
  {
    Prefixes();
    hide CancelledRun, Execute;
    var first := Snapshot(1, []);
    s := Extend(CancelledRun()[..4], EnterLock(1, false), before);
    assert s == before.(store := Store(0, Snapshot(0, []), Some(1), map[1 := Writer(first, Locked)]));
    s := Extend(CancelledRun()[..5], Replace(1), s);
    assert s == before.(store := Store(0, first, Some(1), map[1 := Writer(first, Replaced)]));
    s := Extend(CancelledRun()[..6], LeaveLock(1), s);
  }

  // ... before the cancellation is raised.
  lemma RaiseCancellation(before: State) returns (s: State)
    requires Execute(CancelledRun()[..7]) == Some(before) && Cancelled(before)
    requires before.store == Store(1, Snapshot(1, []), None, map[1 := Writer(Snapshot(1, []), Returned)])
    ensures Execute(CancelledRun()) == Some(s)
    ensures Flush(s) == Returns && 2 in s.queue.saved && s.store.persisted == 1
  {
    Prefixes();
    hide CancelledRun, Execute;
    assert InPhase(before.store, 1, Returned);
    s := Extend(CancelledRun()[..7], BackgroundResumes, before);
    assert s.queue.failures == {};
  }

  /** Whatever step a crash interrupts, every awaited commit that is no longer dirty has its marker
      in the file. This is what `ensure_inbound_message_durable` relies on when it returns at once. */
  lemma CrashKeepsCommittedMarkers(steps: seq<Step>, s: State, key: Key)
    requires Execute(steps) == Some(s) && key in s.inbound.committedAt && key !in s.inbound.dirty
    ensures Holds(s.store.disk.log, key, s.inbound.committedAt[key])
  {
    ReachableInv(steps);
    assert s.store.disk.log == s.mem.log[..s.mem.taken[s.store.disk.revision]];
  }

  /** When a commit or a retry gets past its write, cancelled or not, the marker is in the file;
      when the write failed, the marker stays in memory and the key stays dirty. */
  lemma CommitOutcome(steps: seq<Step>, s: State)
    requires Execute(steps) == Some(s) && Enabled(s, DurableResumes)
    ensures var d := s.inbound.critical.value;
      var s' := Next(s, DurableResumes);
      && d.key in s'.inbound.committedAt
      && Holds(s'.mem.log, d.key, s'.inbound.committedAt[d.key])
      && if InPhase(s.store, d.revision, Raised)
         then d.key in s'.inbound.dirty && Enabled(s', EnsureBegins(d.key))
         else d.key !in s'.inbound.dirty && Holds(s'.store.disk.log, d.key, s'.inbound.committedAt[d.key])
  {
    ReachableInv(steps);
    StepKeepsInv(s, DurableResumes);
    var s' := Next(s, DurableResumes);
    assert s'.store.disk.log == s'.mem.log[..s'.mem.taken[s'.store.disk.revision]];
  }

  // What a run records: its mutations and one marker for each commit.
  function MutationsOf(steps: seq<Step>): seq<Mutation> {
    if steps == [] then []
    else
      MutationsOf(steps[..|steps| - 1]) +
      match steps[|steps| - 1]
      case Mutate(mutation) => [mutation]
      case CommitBegins(key) => [Processed(key)]
      case _ => []
  }

  /** However often a commit is cancelled, fails and is retried, and whatever else is written
      meanwhile, it records its marker once: only its beginning adds to the in-memory state. */
  lemma {:induction false} RetriesRecordNothing(steps: seq<Step>, s: State)
    requires Execute(steps) == Some(s)
    ensures s.mem.log == MutationsOf(steps)
  {
    if steps != [] {
      var front, last := steps[..|steps| - 1], steps[|steps| - 1];
      var before := Execute(front).value;
      RetriesRecordNothing(front, before);
      if !last.Mutate? && !last.CommitBegins? { StepRecordsNothing(before, last); }
    }
  }

  lemma StepRecordsNothing(s: State, step: Step)
    requires Enabled(s, step) && !step.Mutate? && !step.CommitBegins?
    ensures Next(s, step).mem.log == s.mem.log
  {
  }
}
