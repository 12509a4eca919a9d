/**
 What the connection protocol gets done: replies settle their requests, faults and resets fail exactly
 the requests of their connection, lanes dispatch what they hold, and a reset ends.
 */
module ClientProgress {
  import opened Prelude
  import opened Client

  // ---- Requests ----

  /** A request is registered for the connection it is sent on, with a future of its own that nothing has
      settled, and no other request is touched. */
  lemma RequestIsRegistered(config: Config, steps: seq<Step>, s: State)
    requires Execute(config, steps) == Some(s) && s.link.transport.Some?
    ensures Enabled(s, RequestStart)
    ensures var r, r', id := s.requests, Next(s, RequestStart).requests, s.requests.nextId;
      && id !in r.futures && r'.futures == r.futures[id := Future(s.link.epoch, [])]
      && id !in r.pending && r'.pending == r.pending[id := s.link.epoch]
  {
    ReachableInv(config, steps);
    assert forall id :: id in s.requests.futures ==> FutureOk(s.link, s.requests, id);
  }

  // How many messages the lane of a connection holds.
  function Room(config: Config, lane: Lane): nat {
    match lane
    case Notifications => config.notificationLimit
    case ServerRequests => config.requestLimit
  }

  // The future is registered for the connection and nothing has settled it.
  predicate Open(r: Requests, id: nat, e: nat) {
    id in r.futures && id in r.pending && r.pending[id] == e && Unresolved(r.futures[id])
  }

  /** A reply settles the request it names if and only if that request is still open and was sent on the
      connection the reply arrived on; it touches no other request, and none that is settled. */
  lemma ReplySettlesExactly(config: Config, steps: seq<Step>, s: State, e: nat, id: nat)
    requires Execute(config, steps) == Some(s) && ListenerIs(s, e, Awaiting)
    ensures var r, r' := s.requests, Next(s, Receive(e, Reply(id))).requests;
      && r'.futures.Keys == r.futures.Keys && r'.pending == r.pending
      && (id in r.futures ==>
            (r'.futures[id].outcomes == [Replied(e)] <==>
               r.futures[id].outcomes == [Replied(e)] || (Open(r, id, e) && r.futures[id].epoch == e)))
      && (forall other :: other in r.futures && (other != id || !Open(r, id, e)) ==>
            r'.futures[other] == r.futures[other])
  {
    ReachableInv(config, steps);
    assert id in s.requests.futures ==> FutureOk(s.link, s.requests, id);
  }

  // Exactly the open requests of the connection fail.
  ghost predicate FailsAll(r: Requests, r': Requests, e: nat) {
    && r'.pending == r.pending && r'.nextId == r.nextId && r'.futures.Keys == r.futures.Keys
    && forall id :: id in r.futures ==>
         r'.futures[id] == if Open(r, id, e) then Future(r.futures[id].epoch, [Failed]) else r.futures[id]
  }

  lemma FailPendingFailsAll(r: Requests, e: nat)
    ensures FailsAll(r, FailPending(r, e), e)
  {
  }

  /** A connection that stops being readable, or whose lane is full, fails exactly its open requests. */
  lemma FaultFailsExactly(s: State, e: nat, lane: Lane, body: string)
    requires ListenerIs(s, e, Awaiting)
    ensures FailsAll(s.requests, Next(s, ReceiveFails(e)).requests, e)
    ensures var r' := Next(s, Receive(e, Inbound(lane, body))).requests;
      if |LaneOf(s.conns[e], lane).queue| < Room(s.config, lane) then r' == s.requests
      else FailsAll(s.requests, r', e)
  {
    hide FailPending, FailsAll;
    FailPendingFailsAll(s.requests, e);
  }

  /** The listener of a connection that is in use resets it, or joins the reset that is already running; any
      other listener just ends. */
  lemma FaultedListener(s: State, e: nat)
    requires ListenerIs(s, e, Awaiting)
    ensures var s', reset := Next(s, ReceiveFails(e)), s.link.reset;
      var current := s.link.transport == Some(e) && s.link.epoch == e;
      && s'.conns == s.conns[e := s'.conns[e]]
      && (!current ==> ListenerIs(s', e, Ended) && s'.link == s.link)
      && (current && reset == None ==>
            ListenerIs(s', e, Tearing) && s'.link == s.link.(reset := Some(Reset(e, ListenerTask, CancelListener))))
      && (current && reset.Some? ==> ListenerIs(s', e, Joining(reset.value.epoch)) && s'.link == s.link)
      && (s'.conns[e].joinedOther <==>
            if current && reset.Some? then reset.value.epoch != e else s.conns[e].joinedOther)
      && LaneOf(s'.conns[e], Notifications) == LaneOf(s.conns[e], Notifications)
      && LaneOf(s'.conns[e], ServerRequests) == LaneOf(s.conns[e], ServerRequests)
  {
    hide FailPending;
  }

  /** It ends exactly when the reset it waits for has finished. */
  lemma FaultedListenerEnds(s: State, e: nat)
    ensures Enabled(s, ListenerResumes(e)) <==>
      || (e in s.conns && s.conns[e].listener == Tearing && e in s.link.finished)
      || (e in s.conns && s.conns[e].listener.Joining? && s.link.reset == None)
    ensures Enabled(s, ListenerResumes(e)) ==>
      Next(s, ListenerResumes(e)) == s.(conns := s.conns[e := s.conns[e].(listener := Ended)])
  {
  }

  /** A timeout or a cancelled caller settles its own request only, and once it is settled the caller
      takes it out of the table. */
  lemma CancelSettlesOne(s: State, id: nat)
    requires id in s.requests.pending && id in s.requests.futures && Unresolved(s.requests.futures[id])
    ensures Enabled(s, FutureCancel(id))
    ensures var s' := Next(s, FutureCancel(id));
      && s'.requests.futures == s.requests.futures[id := Future(s.requests.futures[id].epoch, [Cancelled])]
      && s'.requests == s.requests.(futures := s'.requests.futures)
      && s' == s.(requests := s'.requests) && Enabled(s', RequestEnd(id))
      && id !in Next(s', RequestEnd(id)).requests.pending
      && Next(s', RequestEnd(id)).requests.futures == s'.requests.futures
  {
    assert s.requests.futures[id].outcomes + [Cancelled] == [Cancelled];
  }

  // ---- Receiving ----

  /** A listener reads on exactly while its connection is the one in use. */
  lemma ListensExactly(s: State, e: nat)
    requires ListenerIs(s, e, AtHead)
    ensures var s' := Next(s, ListenerTest(e));
      && (ListenerIs(s', e, Awaiting) <==> s.link.transport == Some(e) && s.link.epoch == e)
      && (!ListenerIs(s', e, Awaiting) ==> ListenerIs(s', e, Ended))
      && s'.requests == s.requests && s'.link == s.link && s'.stream == s.stream
  {
  }

  /** A message that is not a reply is queued in its lane, behind those already there, exactly when the
      lane has room; the other lane and all other connections stay as they are, and the listener reads on
      behind it, as behind every reply. */
  lemma QueuedExactly(s: State, e: nat, lane: Lane, body: string)
    requires ListenerIs(s, e, Awaiting)
    ensures var s' := Next(s, Receive(e, Inbound(lane, body)));
      var m := Stamped(e, lane, s.stream.last + 1, body);
      var l, l' := LaneOf(s.conns[e], lane), LaneOf(s'.conns[e], lane);
      && (l'.queue == l.queue + [m] <==> |l.queue| < Room(s.config, lane))
      && (l'.queue != l.queue + [m] ==> l'.queue == l.queue && l'.dropped == l.dropped + [m])
      && (l'.queue == l.queue + [m] ==> l'.dropped == l.dropped && ListenerIs(s', e, AtHead) && s'.link == s.link)
      && l'.dispatched == l.dispatched && l'.dispatcher == l.dispatcher
      && forall e', lane' :: e' in s.conns && (e' != e || lane' != lane) ==>
           e' in s'.conns && LaneOf(s'.conns[e'], lane') == LaneOf(s.conns[e'], lane')
  {
    hide FailPending;
  }

  lemma ReplyIsConsumed(s: State, e: nat, id: nat)
    requires ListenerIs(s, e, Awaiting)
    ensures var s' := Next(s, Receive(e, Reply(id)));
      && s'.conns == s.conns[e := s.conns[e].(listener := AtHead)] && s'.link == s.link && s'.stream == s.stream
  {
    hide Answer;
  }

  // ---- Dispatching ----

  // The lane of this connection is the one being dispatched.
  predicate Serves(s: State, e: nat, lane: Lane) {
    s.link.epoch == e && match lane {
      case Notifications => s.link.dispatchQueue == Some(e)
      case ServerRequests => s.link.requestQueue == Some(e)
    }
  }

  /** A dispatcher goes on exactly while its lane is the one in use. */
  lemma DispatchesExactly(s: State, e: nat, lane: Lane)
    requires DispatcherIs(s, e, lane, Testing)
    ensures var s' := Next(s, DispatchTest(e, lane));
      && (DispatcherIs(s', e, lane, Waiting) <==> Serves(s, e, lane))
      && (!Serves(s, e, lane) ==> DispatcherIs(s', e, lane, Stopped))
  {
  }

  /** A dispatcher of any connection takes the oldest message as soon as there is one, and looks for the next
      one when its handler is done. */
  lemma HandlersGoOn(s: State, e: nat, lane: Lane)
    ensures DispatcherIs(s, e, lane, Waiting) && LaneOf(s.conns[e], lane).queue != [] ==>
      Enabled(s, DispatchGet(e, lane)) && DispatcherIs(Next(s, DispatchGet(e, lane)), e, lane, Handling)
    ensures DispatcherIs(s, e, lane, Handling) ==>
      Enabled(s, DispatchDone(e, lane)) && DispatcherIs(Next(s, DispatchDone(e, lane)), e, lane, Testing)
  {
  }

  predicate DispatchStep(step: Step) {
    step.DispatchTest? || step.DispatchGet? || step.DispatchDone?
  }

  /** While its lane is in use, a dispatcher that has not stopped handles the oldest queued message next. */
  lemma LaneDispatches(config: Config, run: seq<Step>, s: State, e: nat, lane: Lane)
    returns (run': seq<Step>, s': State)
    requires Execute(config, run) == Some(s) && e in s.conns && Serves(s, e, lane)
    requires !DispatcherIs(s, e, lane, Stopped) && LaneOf(s.conns[e], lane).queue != []
    ensures Execute(config, run') == Some(s') && run <= run'
    ensures forall i :: |run| <= i < |run'| ==> DispatchStep(run'[i])
    ensures e in s'.conns && Serves(s', e, lane) && DispatcherIs(s', e, lane, Handling)
    ensures var l, l' := LaneOf(s.conns[e], lane), LaneOf(s'.conns[e], lane);
      l'.queue == l.queue[1..] && l'.dispatched == l.dispatched + [l.queue[0]]
  {
    hide Execute;
    run', s' := run, s;
    if DispatcherIs(s', e, lane, Handling) {
      s' := Extend(config, run', DispatchDone(e, lane), s');
      run' := run' + [DispatchDone(e, lane)];
    }
    if DispatcherIs(s', e, lane, Testing) {
      s' := Extend(config, run', DispatchTest(e, lane), s');
      run' := run' + [DispatchTest(e, lane)];
    }
    s' := Extend(config, run', DispatchGet(e, lane), s');
    run' := run' + [DispatchGet(e, lane)];
  }

  /** And so a lane in use dispatches everything it holds, in order. */
  lemma LaneDrains(config: Config, run: seq<Step>, s: State, e: nat, lane: Lane)
    returns (run': seq<Step>, s': State)
    requires Execute(config, run) == Some(s) && e in s.conns && Serves(s, e, lane)
    requires !DispatcherIs(s, e, lane, Stopped)
    ensures Execute(config, run') == Some(s') && run <= run'
    ensures forall i :: |run| <= i < |run'| ==> DispatchStep(run'[i])
    ensures e in s'.conns && LaneOf(s'.conns[e], lane).queue == []
    ensures LaneOf(s'.conns[e], lane).dispatched == LaneOf(s.conns[e], lane).dispatched + LaneOf(s.conns[e], lane).queue
    decreases |LaneOf(s.conns[e], lane).queue|
  {
    hide Execute, Next, Enabled;
    var l := LaneOf(s.conns[e], lane);
    run', s' := run, s;
    if l.queue != [] {
      var one, o := LaneDispatches(config, run, s, e, lane);
      run', s' := LaneDrains(config, one, o, e, lane);
      assert l.queue == [l.queue[0]] + l.queue[1..];
    }
  }

  // ---- Resets ----

  /** A reset always ends. Then the connection it was started for is not in use, its requests are settled
      and a new connection can be opened unless the client is closed. */
  lemma ResetEnds(config: Config, run: seq<Step>, s: State) returns (run': seq<Step>, s': State)
    requires Execute(config, run) == Some(s) && s.link.reset.Some?
    ensures Execute(config, run') == Some(s') && run <= run'
    ensures forall i :: |run| <= i < |run'| ==> run'[i] == ResetNext
    ensures s'.link.reset == None && s'.link.finished == s.link.finished + {s.link.reset.value.epoch}
    ensures s'.link.transport != Some(s.link.reset.value.epoch)
    ensures forall id, e :: e == s.link.reset.value.epoch ==> !Open(s'.requests, id, e)
    ensures s'.link.closing == s.link.closing
    ensures s'.link.transport == None && !s'.link.opening && !s'.link.closing ==> Enabled(s', OpenStart)
  {
    run', s' := PhasesEnd(config, run, s);
    ReachableInv(config, run');
    hide Execute;
    var e := s.link.reset.value.epoch;
    assert Gone(s'.link, s'.requests, e);
    forall id | id in s'.requests.pending ensures s'.requests.pending[id] == s'.requests.futures[id].epoch {
    }
  }

  function Left(phase: ResetPhase): nat {
    match phase
    case CancelListener => 6
    case CancelNotifications => 5
    case CancelRequests => 4
    case DropTransport => 3
    case FailFutures => 2
    case Tail => 1
  }

  lemma PhasesEnd(config: Config, run: seq<Step>, s: State) returns (run': seq<Step>, s': State)
    requires Execute(config, run) == Some(s) && s.link.reset.Some?
    ensures Execute(config, run') == Some(s') && run <= run'
    ensures forall i :: |run| <= i < |run'| ==> run'[i] == ResetNext
    ensures s'.link.reset == None && s'.link.finished == s.link.finished + {s.link.reset.value.epoch}
    ensures s'.link.closing == s.link.closing
    decreases Left(s.link.reset.value.phase)
  {
    hide Execute;
    var next := Extend(config, run, ResetNext, s);
    PhaseIsNext(s);
    hide Next, Enabled;
    if next.link.reset.Some? {
      run', s' := PhasesEnd(config, run + [ResetNext], next);
    } else {
      run', s' := run + [ResetNext], next;
    }
  }

  lemma PhaseIsNext(s: State)
    requires s.link.reset.Some?
    ensures var s' := ResetPhaseNext(s);
      && s'.link.closing == s.link.closing
      && (s'.link.reset.Some? ==>
            && s'.link.reset.value.epoch == s.link.reset.value.epoch && s'.link.finished == s.link.finished
            && Left(s'.link.reset.value.phase) == Left(s.link.reset.value.phase) - 1)
      && (s'.link.reset == None ==> s'.link.finished == s.link.finished + {s.link.reset.value.epoch})
  {
    hide FailPending;
  }

  // Of all connections, only the dispatcher of this lane was stopped.
  predicate StopsOnly(s: State, s': State, e: nat, lane: Lane)
    requires e in s.conns
  {
    && e in s'.conns && s'.conns == s.conns[e := s'.conns[e]] && s'.conns[e].listener == s.conns[e].listener
    && LaneOf(s'.conns[e], lane) == LaneOf(s.conns[e], lane).(dispatcher := Stopped)
    && forall other :: other != lane ==> LaneOf(s'.conns[e], other) == LaneOf(s.conns[e], other)
  }

  /** The tasks of the connection do not outlive its reset, but for the one that started it: its listener is
      cancelled, and so are its dispatchers; nothing else is. */
  lemma ResetCancels(s: State)
    requires s.link.reset.Some?
    ensures var s', reset, link := ResetPhaseNext(s), s.link.reset.value, s.link;
      match reset.phase
      case CancelListener =>
        if link.listenerTask.Some? && link.listenerTask.value in s.conns && !reset.initiator.ListenerTask?
        then var e := link.listenerTask.value; s'.conns == s.conns[e := s.conns[e].(listener := Ended)]
        else s'.conns == s.conns
      case CancelNotifications =>
        if link.dispatchQueue.Some? && link.dispatchQueue.value in s.conns
           && reset.initiator != DispatcherTask(Notifications)
        then StopsOnly(s, s', link.dispatchQueue.value, Notifications) else s'.conns == s.conns
      case CancelRequests =>
        if link.requestQueue.Some? && link.requestQueue.value in s.conns
           && reset.initiator != DispatcherTask(ServerRequests)
        then StopsOnly(s, s', link.requestQueue.value, ServerRequests) else s'.conns == s.conns
      case DropTransport => s'.link.transport == None && s'.requests == s.requests && s'.conns == s.conns
      case FailFutures => FailsAll(s.requests, s'.requests, reset.epoch) && s'.conns == s.conns
      case Tail => s'.requests == s.requests && s'.conns == s.conns
  {
    hide FailPending, FailsAll;
    FailPendingFailsAll(s.requests, s.link.reset.value.epoch);
  }

  /** A connection in use can be reset by any task but its listener, which resets it only when it faults; a
      dispatcher does so from within a handler. It starts with the listener. */
  lemma ResetMayStart(s: State, task: Task)
    requires s.link.transport.Some? && s.link.reset == None && !task.ListenerTask?
    requires task.DispatcherTask? ==> DispatcherIs(s, s.link.epoch, task.lane, Handling)
    ensures Enabled(s, ResetStart(task))
    ensures Next(s, ResetStart(task))
         == s.(link := s.link.(reset := Some(Reset(s.link.epoch, task, CancelListener))))
  {
  }

  // ---- Opening and closing ----

  /** Opening makes a connection of a new epoch, with empty lanes that are in use and a listener that will
      read, and leaves every earlier one alone. */
  lemma OpeningServes(config: Config, steps: seq<Step>, s: State, lane: Lane)
    requires Execute(config, steps) == Some(s) && Enabled(s, OpenCommit)
    ensures var s', e := Next(s, OpenCommit), s.link.epoch + 1;
      && e !in s.conns && Current(s'.link, e) && Serves(s', e, lane)
      && s'.conns == s.conns[e := s'.conns[e]] && LaneOf(s'.conns[e], lane) == LaneState([], Testing, [], [])
      && ListenerIs(s', e, AtHead) && s'.requests == s.requests && !s'.link.opening
  {
    ReachableInv(config, steps);
  }

  /** A client that is not closed and has no connection can open one, also from the handlers of a reset that
      is past failing the requests. */
  lemma MayOpen(s: State)
    requires s.link.transport == None && !s.link.opening && !s.link.closing
    requires s.link.reset.Some? ==> s.link.reset.value.phase.Tail?
    ensures Enabled(s, OpenStart) && Enabled(Next(s, OpenStart), OpenCommit)
    ensures Next(s, OpenStart) == s.(link := s.link.(opening := true))
  {
  }

  /** An attempt to open that fails leaves everything as it was before, also when the client was closed
      meanwhile. */
  lemma FailedOpening(s: State)
    ensures s.link.opening ==>
      Enabled(s, OpenFails) && Next(s, OpenFails) == s.(link := s.link.(opening := false))
    ensures Enabled(s, OpenStart) ==> Next(Next(s, OpenStart), OpenFails) == s
  {
  }

  lemma {:induction false} ClosedOpensNothing(
      config: Config, steps: seq<Step>, more: seq<Step>, s: State, s': State)
    requires Execute(config, steps) == Some(s) && Execute(config, steps + [Close] + more) == Some(s')
    ensures s'.link.closing && s'.link.epoch == s.link.epoch && s'.conns.Keys == s.conns.Keys
    decreases |more|
  {
    ReachableInv(config, steps);
    hide Inv;
    if more == [] {
      assert steps + [Close] + more == steps + [Close];
      assert (steps + [Close])[..|steps|] == steps;
    } else {
      var front, last := more[..|more| - 1], more[|more| - 1];
      var all := steps + [Close] + more;
      assert all[..|all| - 1] == steps + [Close] + front;
      var before := Execute(config, steps + [Close] + front).value;
      ClosedOpensNothing(config, steps, front, s, before);
      StaysClosed(before, last);
    }
  }

  /** A closed client never opens a connection again. */
  lemma StaysClosed(s: State, step: Step)
    requires Enabled(s, step) && s.link.closing
    ensures var s' := Next(s, step);
      s'.link.closing && s'.link.epoch == s.link.epoch && s'.conns.Keys == s.conns.Keys
  {
    hide FailPending, Answer;
  }
}
