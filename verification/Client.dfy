/**
 The App Server client's connection protocol (src/imcodex/appserver/client.py).

 One client owns a succession of connections, each identified by its epoch. Requests
 wait on futures, a listener task resolves them and feeds two bounded dispatch lanes,
 and a reset tears a connection down while any of those tasks may be running. The
 protocol is a state machine whose steps are the stretches of code between two
 awaits; a run is an arbitrary sequence of enabled steps.
 */
module Client {
  import opened Prelude

  datatype Lane = Notifications | ServerRequests

  // A message as it comes off the transport.
  datatype Message =
    | Reply(id: nat)                       // has an id and a result or an error
    | Inbound(lane: Lane, body: string)    // everything else

  // A non-reply with its `_imcodex_dispatch_sequence`.
  datatype Stamped = Stamped(epoch: nat, lane: Lane, sequence: nat, body: string)

  datatype Outcome = Replied(arrivedOn: nat) | Failed | Cancelled

  // `outcomes` lists every time the future was given a result, an exception or a cancellation.
  datatype Future = Future(epoch: nat, outcomes: seq<Outcome>)

  datatype Listener =
    | AtHead                 // about to test the loop condition
    | Awaiting               // in receive_json
    | Faulting               // the loop has raised; never seen between two steps
    | Tearing                // faulted, owns the reset it is waiting for
    | Joining(reset: nat)    // faulted while another reset was running, waits for that one
    | Ended

  datatype Dispatcher = Testing | Waiting | Handling | Stopped

  // `dispatched` and `dropped` are history: the queue object itself only has `queue`.
  datatype LaneState = LaneState(
    queue: seq<Stamped>, dispatcher: Dispatcher, dispatched: seq<Stamped>, dropped: seq<Stamped>)

  // The tasks and queues created by one `_open_connection`.
  datatype Connection = Connection(
    listener: Listener, notifications: LaneState, serverRequests: LaneState, joinedOther: bool)

  datatype Task = ListenerTask | DispatcherTask(lane: Lane) | OtherTask

  datatype ResetPhase =
    | CancelListener | CancelNotifications | CancelRequests | DropTransport | FailFutures
    | Tail   // supervisor stop and reset handlers, which may already reconnect

  datatype Reset = Reset(epoch: nat, initiator: Task, phase: ResetPhase)

  // The client's connection fields. A transport is named by the epoch it was opened for.
  datatype Link = Link(
    epoch: nat,
    transport: Option<nat>,
    listenerTask: Option<nat>,
    dispatchQueue: Option<nat>,
    requestQueue: Option<nat>,
    opening: bool,
    closing: bool,
    reset: Option<Reset>,
    finished: set<nat>)      // history: epochs whose reset has finished

  datatype Requests = Requests(nextId: nat, pending: map<nat, nat>, futures: map<nat, Future>)

  datatype Stream = Stream(last: nat, history: seq<Stamped>)

  datatype Config = Config(notificationLimit: nat, requestLimit: nat)

  datatype State = State(
    config: Config, link: Link, requests: Requests, conns: map<nat, Connection>, stream: Stream)

  datatype Step =
    | OpenStart
    | OpenFails
    | OpenCommit
    | Close
    | RequestStart
    | FutureCancel(id: nat)     // timeout, failed send or cancelled caller
    | RequestEnd(id: nat)
    | ListenerTest(e: nat)
    | Receive(e: nat, message: Message)
    | ReceiveFails(e: nat)
    | ListenerResumes(e: nat)
    | DispatchTest(e: nat, lane: Lane)
    | DispatchGet(e: nat, lane: Lane)
    | DispatchDone(e: nat, lane: Lane)
    | ResetStart(task: Task)
    | ResetNext

  function Init(config: Config): State {
    State(config, Link(0, None, None, None, None, false, false, None, {}),
          Requests(1, map[], map[]), map[], Stream(0, []))
  }

  function Opened(): Connection {
    Connection(AtHead, LaneState([], Testing, [], []), LaneState([], Testing, [], []), false)
  }

  function LaneOf(c: Connection, lane: Lane): LaneState {
    if lane == Notifications then c.notifications else c.serverRequests
  }

  function WithLane(c: Connection, lane: Lane, l: LaneState): Connection {
    if lane == Notifications then c.(notifications := l) else c.(serverRequests := l)
  }

  function LimitOf(config: Config, lane: Lane): nat {
    if lane == Notifications then config.notificationLimit else config.requestLimit
  }

  function QueueField(link: Link, lane: Lane): Option<nat> {
    if lane == Notifications then link.dispatchQueue else link.requestQueue
  }

  predicate Current(link: Link, e: nat) {
    link.epoch == e && link.transport == Some(e)
  }

  predicate ListenerIs(s: State, e: nat, l: Listener) {
    e in s.conns && s.conns[e].listener == l
  }

  predicate DispatcherIs(s: State, e: nat, lane: Lane, d: Dispatcher) {
    e in s.conns && LaneOf(s.conns[e], lane).dispatcher == d
  }

  predicate Unresolved(f: Future) {
    f.outcomes == []
  }

  predicate Enabled(s: State, step: Step) {
    match step
    case OpenStart =>
      // Under the connect lock, after waiting for a reset; the reset task itself does not wait.
      && !s.link.opening && s.link.transport == None && !s.link.closing
      && (s.link.reset.Some? ==> s.link.reset.value.phase == Tail)
    case OpenFails => s.link.opening
    case OpenCommit => s.link.opening && !s.link.closing
    case Close => true
    case RequestStart => s.link.transport.Some?
    case FutureCancel(id) => id in s.requests.pending && id in s.requests.futures && Unresolved(s.requests.futures[id])
    case RequestEnd(id) => id in s.requests.pending && id in s.requests.futures && !Unresolved(s.requests.futures[id])
    case ListenerTest(e) => ListenerIs(s, e, AtHead)
    case Receive(e, _) => ListenerIs(s, e, Awaiting)
    case ReceiveFails(e) => ListenerIs(s, e, Awaiting)
    case ListenerResumes(e) =>
      || (ListenerIs(s, e, Tearing) && e in s.link.finished)
      || (e in s.conns && s.conns[e].listener.Joining? && s.link.reset == None)
    case DispatchTest(e, lane) => DispatcherIs(s, e, lane, Testing)
    case DispatchGet(e, lane) => DispatcherIs(s, e, lane, Waiting) && LaneOf(s.conns[e], lane).queue != []
    case DispatchDone(e, lane) => DispatcherIs(s, e, lane, Handling)
    case ResetStart(task) =>
      && s.link.reset == None && !task.ListenerTask?
      && (s.link.transport.Some? || (s.link.closing && !s.link.opening))
      && (task.DispatcherTask? ==> DispatcherIs(s, s.link.epoch, task.lane, Handling))
    case ResetNext => s.link.reset.Some?
  }

  // set_result, set_exception and cancel, each behind a `done()` check.
  function Resolve(f: Future, outcome: Outcome): Future {
    if Unresolved(f) then f.(outcomes := f.outcomes + [outcome]) else f
  }

  // `_fail_pending_futures`
  function FailPending(r: Requests, e: nat): Requests {
    r.(futures := map id | id in r.futures ::
         if id in r.pending && r.pending[id] == e then Resolve(r.futures[id], Failed) else r.futures[id])
  }

  // `_dispatch_response`: a reply for an unknown request is consumed without effect.
  function Answer(r: Requests, id: nat, e: nat): Requests {
    if id in r.pending && id in r.futures && r.pending[id] == e then
      r.(futures := r.futures[id := Resolve(r.futures[id], Replied(e))])
    else r
  }

  // The end of `_receive_loop` after an error: fail the futures, then reset or join a reset.
  function Fault(s: State, e: nat): State
    requires e in s.conns
  {
    var failed := s.(requests := FailPending(s.requests, e));
    if !Current(s.link, e) then
      failed.(conns := s.conns[e := s.conns[e].(listener := Ended)])
    else if s.link.reset == None then
      failed.(conns := s.conns[e := s.conns[e].(listener := Tearing)],
              link := s.link.(reset := Some(Reset(e, ListenerTask, CancelListener))))
    else
      var running := s.link.reset.value.epoch;
      failed.(conns := s.conns[e := s.conns[e].(listener := Joining(running), joinedOther := running != e)])
  }

  // The connection after one more message: queued when there is room, dropped when there is none.
  function Extended(c: Connection, lane: Lane, m: Stamped, room: bool): Connection {
    var l := LaneOf(c, lane);
    if room then WithLane(c, lane, l.(queue := l.queue + [m])).(listener := AtHead)
    else WithLane(c, lane, l.(dropped := l.dropped + [m])).(listener := Faulting)
  }

  // One iteration of `_receive_loop` for a message that is not a reply.
  function Deliver(s: State, e: nat, lane: Lane, body: string): State
    requires e in s.conns
  {
    var message := Stamped(e, lane, s.stream.last + 1, body);
    var room := |LaneOf(s.conns[e], lane).queue| < LimitOf(s.config, lane);
    var stored := Stored(s, message, Extended(s.conns[e], lane, message, room));
    if room then stored else Fault(stored, e)
  }

  function Stored(s: State, m: Stamped, c: Connection): State {
    s.(stream := Stream(m.sequence, s.stream.history + [m]), conns := s.conns[m.epoch := c])
  }

  function SetDispatcher(s: State, e: nat, lane: Lane, d: Dispatcher): State
    requires e in s.conns
  {
    s.(conns := s.conns[e := WithLane(s.conns[e], lane, LaneOf(s.conns[e], lane).(dispatcher := d))])
  }

  // `_reset_connection_impl`, one phase at a time.
  function ResetPhaseNext(s: State): State
    requires s.link.reset.Some?
  {
    var reset := s.link.reset.value;
    match reset.phase
    case CancelListener =>
      var next := s.(link := s.link.(listenerTask := None, reset := Some(reset.(phase := CancelNotifications))));
      if s.link.listenerTask.Some? && s.link.listenerTask.value in s.conns && !reset.initiator.ListenerTask? then
        var e := s.link.listenerTask.value;
        next.(conns := s.conns[e := s.conns[e].(listener := Ended)])
      else next
    case CancelNotifications =>
      var next := s.(link := s.link.(dispatchQueue := None, reset := Some(reset.(phase := CancelRequests))));
      if s.link.dispatchQueue.Some? && s.link.dispatchQueue.value in s.conns
         && reset.initiator != DispatcherTask(Notifications) then
        SetDispatcher(next, s.link.dispatchQueue.value, Notifications, Stopped)
      else next
    case CancelRequests =>
      var next := s.(link := s.link.(requestQueue := None, reset := Some(reset.(phase := DropTransport))));
      if s.link.requestQueue.Some? && s.link.requestQueue.value in s.conns
         && reset.initiator != DispatcherTask(ServerRequests) then
        SetDispatcher(next, s.link.requestQueue.value, ServerRequests, Stopped)
      else next
    case DropTransport => s.(link := s.link.(transport := None, reset := Some(reset.(phase := FailFutures))))
    case FailFutures =>
      s.(link := s.link.(reset := Some(reset.(phase := Tail))), requests := FailPending(s.requests, reset.epoch))
    case Tail => s.(link := s.link.(reset := None, finished := s.link.finished + {reset.epoch}))
  }

  function Next(s: State, step: Step): State
    requires Enabled(s, step)
  {
    match step
    case OpenStart => s.(link := s.link.(opening := true))
    case OpenFails => s.(link := s.link.(opening := false))
    case OpenCommit =>
      var e := s.link.epoch + 1;
      s.(link := s.link.(epoch := e, transport := Some(e), listenerTask := Some(e), dispatchQueue := Some(e),
                         requestQueue := Some(e), opening := false),
         conns := s.conns[e := Opened()])
    case Close => s.(link := s.link.(closing := true))
    case RequestStart =>
      var id := s.requests.nextId;
      s.(requests := Requests(id + 1, s.requests.pending[id := s.link.epoch],
                              s.requests.futures[id := Future(s.link.epoch, [])]))
    case FutureCancel(id) =>
      s.(requests := s.requests.(futures := s.requests.futures[id := Resolve(s.requests.futures[id], Cancelled)]))
    case RequestEnd(id) => s.(requests := s.requests.(pending := s.requests.pending - {id}))
    case ListenerTest(e) =>
      s.(conns := s.conns[e := s.conns[e].(listener := if Current(s.link, e) then Awaiting else Ended)])
    case Receive(e, message) =>
      (match message
       case Reply(id) =>
         s.(requests := Answer(s.requests, id, e), conns := s.conns[e := s.conns[e].(listener := AtHead)])
       case Inbound(lane, body) => Deliver(s, e, lane, body))
    case ReceiveFails(e) => Fault(s, e)
    case ListenerResumes(e) => s.(conns := s.conns[e := s.conns[e].(listener := Ended)])
    case DispatchTest(e, lane) =>
      SetDispatcher(s, e, lane,
                    if QueueField(s.link, lane) == Some(e) && s.link.epoch == e then Waiting else Stopped)
    case DispatchGet(e, lane) =>
      var l := LaneOf(s.conns[e], lane);
      s.(conns := s.conns[e := WithLane(s.conns[e], lane,
           l.(queue := l.queue[1..], dispatched := l.dispatched + [l.queue[0]], dispatcher := Handling))])
    case DispatchDone(e, lane) => SetDispatcher(s, e, lane, Testing)
    case ResetStart(task) => s.(link := s.link.(reset := Some(Reset(s.link.epoch, task, CancelListener))))
    case ResetNext => ResetPhaseNext(s)
  }

  // The state after a sequence of steps from start-up; None when some step was not enabled.
  function Execute(config: Config, steps: seq<Step>): (end: Option<State>) {
    if steps == [] then Some(Init(config))
    else
      var before := Execute(config, steps[..|steps| - 1]);
      var last := steps[|steps| - 1];
      if before.Some? && Enabled(before.value, last) then Some(Next(before.value, last)) else None
  }

  // ---- The invariant ----

  // The reset of this epoch is past the point where it fails the futures.
  ghost predicate Gone(link: Link, r: Requests, e: nat) {
    && e <= link.epoch
    && link.transport != Some(e)
    && (forall id :: id in r.futures && r.futures[id].epoch == e ==> !Unresolved(r.futures[id]))
  }

  ghost predicate LinkOk(link: Link, r: Requests) {
    && (link.transport.Some? ==> link.transport.value == link.epoch >= 1)
    && (link.opening ==> link.transport == None)
    && (link.reset.Some? ==>
          var reset := link.reset.value;
          && reset.epoch <= link.epoch
          && (reset.phase != Tail ==> reset.epoch == link.epoch && !link.opening)
          && (reset.phase == FailFutures ==> link.transport == None)
          && (reset.phase == Tail ==> Gone(link, r, reset.epoch)))
    && (forall e :: e in link.finished ==> Gone(link, r, e))
  }

  // Every reply arrived on the connection the request was sent on.
  ghost predicate RepliesMatch(f: Future) {
    forall i :: 0 <= i < |f.outcomes| && f.outcomes[i].Replied? ==> f.outcomes[i].arrivedOn == f.epoch
  }

  ghost predicate FutureOk(link: Link, r: Requests, id: nat)
    requires id in r.futures
  {
    var f := r.futures[id];
    && id < r.nextId
    && 1 <= f.epoch <= link.epoch
    && |f.outcomes| <= 1
    && RepliesMatch(f)
    && (Unresolved(f) ==> id in r.pending)
  }

  ghost predicate RequestsOk(link: Link, r: Requests) {
    && (forall id :: id in r.futures ==> FutureOk(link, r, id))
    && (forall id :: id in r.pending ==> id in r.futures && r.pending[id] == r.futures[id].epoch)
  }

  // The messages received for one lane of one connection, in order of arrival.
  function Of(history: seq<Stamped>, e: nat, lane: Lane): seq<Stamped> {
    if history == [] then []
    else
      var front, last := history[..|history| - 1], history[|history| - 1];
      Of(front, e, lane) + (if last.epoch == e && last.lane == lane then [last] else [])
  }

  ghost predicate LaneOk(config: Config, stream: Stream, e: nat, c: Connection, lane: Lane) {
    var l := LaneOf(c, lane);
    && Of(stream.history, e, lane) == l.dispatched + l.queue + l.dropped
    && |l.queue| <= LimitOf(config, lane)
    && (l.dropped != [] ==> |l.dropped| == 1 && c.listener != AtHead && c.listener != Awaiting)
  }

  ghost predicate ListenerOk(link: Link, e: nat, c: Connection) {
    var resetting := link.reset.Some? && link.reset.value.epoch == e;
    match c.listener
    case Tearing => resetting || e in link.finished
    case Joining(r) => (r != e ==> c.joinedOther) && (r == e ==> resetting || e in link.finished)
    case Ended => link.transport == Some(e) ==> resetting || c.joinedOther
    case _ => true
  }

  ghost predicate ConnsOk(s: State) {
    && (forall e :: e in s.conns <==> 1 <= e <= s.link.epoch)
    && (forall e :: e in s.conns ==> ConnOk(s.config, s.stream, e, s.conns[e]))
    && (forall e :: e in s.conns ==> ListenerOk(s.link, e, s.conns[e]))
  }

  ghost predicate ConnOk(config: Config, stream: Stream, e: nat, c: Connection) {
    LaneOk(config, stream, e, c, Notifications) && LaneOk(config, stream, e, c, ServerRequests)
  }

  ghost predicate StreamOk(link: Link, stream: Stream) {
    && (forall i, j :: 0 <= i < j < |stream.history| ==> stream.history[i].sequence < stream.history[j].sequence)
    && (forall i :: 0 <= i < |stream.history| ==>
          stream.history[i].sequence <= stream.last && stream.history[i].epoch <= link.epoch)
  }

  ghost predicate Inv(s: State) {
    && LinkOk(s.link, s.requests)
    && RequestsOk(s.link, s.requests)
    && ConnsOk(s)
    && StreamOk(s.link, s.stream)
  }

  // ---- Every step keeps the invariant ----

  lemma FlagsKeepInv(s: State, opening: bool, closing: bool)
    requires Inv(s)
    requires opening ==> s.link.opening || Enabled(s, OpenStart)
    ensures Inv(s.(link := s.link.(opening := opening, closing := closing)))
  {
    var link' := s.link.(opening := opening, closing := closing);
    forall e | e in s.conns ensures ListenerOk(link', e, s.conns[e]) {
      assert ListenerOk(s.link, e, s.conns[e]);
    }
    forall id | id in s.requests.futures ensures FutureOk(link', s.requests, id) {
      assert FutureOk(s.link, s.requests, id);
    }
    forall e | Gone(s.link, s.requests, e) ensures Gone(link', s.requests, e) { }
  }

  lemma OpenKeepsInv(s: State)
    requires Inv(s) && Enabled(s, OpenCommit)
    ensures Inv(Next(s, OpenCommit))
  {
    var s' := Next(s, OpenCommit);
    var e := s'.link.epoch;
    NothingYet(s.stream.history, e, Notifications);
    NothingYet(s.stream.history, e, ServerRequests);
  }

  lemma {:induction false} NothingYet(history: seq<Stamped>, e: nat, lane: Lane)
    requires forall i :: 0 <= i < |history| ==> history[i].epoch < e
    ensures Of(history, e, lane) == []
  {
    if history != [] { NothingYet(history[..|history| - 1], e, lane); }
  }

  lemma RequestStartKeepsInv(s: State)
    requires Inv(s) && Enabled(s, RequestStart)
    ensures Inv(Next(s, RequestStart))
  {
    var s' := Next(s, RequestStart);
    forall id | id in s'.requests.futures ensures FutureOk(s'.link, s'.requests, id) {
      if id in s.requests.futures { assert FutureOk(s.link, s.requests, id); }
    }
    assert LinkOk(s'.link, s'.requests);
  }

  lemma RequestEndKeepsInv(s: State, id: nat)
    requires Inv(s) && Enabled(s, RequestEnd(id))
    ensures Inv(Next(s, RequestEnd(id)))
  {
    var s' := Next(s, RequestEnd(id));
    forall i | i in s'.requests.futures ensures FutureOk(s'.link, s'.requests, i) {
      assert FutureOk(s.link, s.requests, i);
    }
  }

  // A future is settled at most once, and by a reply only when that arrived on its own epoch.
  ghost predicate FutureSettles(f: Future, f': Future) {
    || f' == f
    || (Unresolved(f) && f'.epoch == f.epoch && |f'.outcomes| == 1 && RepliesMatch(f'))
  }

  ghost predicate Settles(r: Requests, r': Requests) {
    && r' == r.(futures := r'.futures)
    && r'.futures.Keys == r.futures.Keys
    && (forall id :: id in r.futures ==> FutureSettles(r.futures[id], r'.futures[id]))
  }

  lemma SettlesKeepsInv(s: State, r': Requests)
    requires Inv(s) && Settles(s.requests, r')
    ensures Inv(s.(requests := r'))
  {
    forall id | id in r'.futures ensures FutureOk(s.link, r', id) {
      assert FutureOk(s.link, s.requests, id) && FutureSettles(s.requests.futures[id], r'.futures[id]);
    }
    forall e | Gone(s.link, s.requests, e) ensures Gone(s.link, r', e) {
      forall id | id in r'.futures && r'.futures[id].epoch == e ensures !Unresolved(r'.futures[id]) {
        assert FutureSettles(s.requests.futures[id], r'.futures[id]);
      }
    }
  }

  lemma FailSettles(link: Link, r: Requests, e: nat)
    requires RequestsOk(link, r)
    ensures Settles(r, FailPending(r, e))
    ensures forall id :: id in r.futures && r.futures[id].epoch == e ==> !Unresolved(FailPending(r, e).futures[id])
  {
    var r' := FailPending(r, e);
    forall id | id in r.futures
      ensures FutureSettles(r.futures[id], r'.futures[id])
      ensures r.futures[id].epoch == e ==> !Unresolved(r'.futures[id])
    {
      assert FutureOk(link, r, id);
    }
  }

  lemma AnswerSettles(link: Link, r: Requests, id: nat, e: nat)
    requires RequestsOk(link, r)
    ensures Settles(r, Answer(r, id, e))
  {
    forall i | i in r.futures ensures FutureSettles(r.futures[i], Answer(r, id, e).futures[i]) {
    }
  }

  lemma CancelKeepsInv(s: State, id: nat)
    requires Inv(s) && Enabled(s, FutureCancel(id))
    ensures Inv(Next(s, FutureCancel(id)))
  {
    SettlesKeepsInv(s, Next(s, FutureCancel(id)).requests);
  }

  // One connection changes; the others and everything else stay.
  lemma ConnKeepsInv(s: State, e: nat, c: Connection)
    requires Inv(s) && e in s.conns
    requires ConnOk(s.config, s.stream, e, c) && ListenerOk(s.link, e, c)
    ensures Inv(s.(conns := s.conns[e := c]))
  {
    var s' := s.(conns := s.conns[e := c]);
    forall i | i in s'.conns ensures ConnOk(s.config, s.stream, i, s'.conns[i]) && ListenerOk(s.link, i, s'.conns[i]) {
      if i != e { assert ConnOk(s.config, s.stream, i, s.conns[i]) && ListenerOk(s.link, i, s.conns[i]); }
    }
  }

  predicate Receiving(l: Listener) {
    l.AtHead? || l.Awaiting?
  }

  lemma ListenerChangeKeepsInv(s: State, e: nat, l: Listener)
    requires Inv(s) && e in s.conns
    requires Receiving(l) ==> Receiving(s.conns[e].listener)
    requires ListenerOk(s.link, e, s.conns[e].(listener := l))
    ensures Inv(s.(conns := s.conns[e := s.conns[e].(listener := l)]))
  {
    assert ConnOk(s.config, s.stream, e, s.conns[e]);
    ConnKeepsInv(s, e, s.conns[e].(listener := l));
  }

  lemma ListenerKeepsInv(s: State, step: Step)
    requires Inv(s) && Enabled(s, step)
    requires step.ListenerTest? || step.ListenerResumes?
    ensures Inv(Next(s, step))
  {
    assert ListenerOk(s.link, step.e, s.conns[step.e]);
    var l := Next(s, step).conns[step.e].listener;
    ListenerChangeKeepsInv(s, step.e, l);
  }

  lemma ReplyKeepsInv(s: State, e: nat, id: nat)
    requires Inv(s) && Enabled(s, Receive(e, Reply(id)))
    ensures Inv(Next(s, Receive(e, Reply(id))))
  {
    AnswerSettles(s.link, s.requests, id, e);
    SettlesKeepsInv(s, Answer(s.requests, id, e));
    ListenerChangeKeepsInv(s.(requests := Answer(s.requests, id, e)), e, AtHead);
  }

  lemma ResetBeginsKeepsInv(s: State, task: Task)
    requires Inv(s) && s.link.reset == None && !s.link.opening
    ensures Inv(s.(link := s.link.(reset := Some(Reset(s.link.epoch, task, CancelListener)))))
  {
    var s' := s.(link := s.link.(reset := Some(Reset(s.link.epoch, task, CancelListener))));
    forall e | e in s.conns ensures ListenerOk(s'.link, e, s.conns[e]) {
      assert ListenerOk(s.link, e, s.conns[e]);
    }
  }

  lemma FaultKeepsInv(s: State, e: nat)
    requires Inv(s) && e in s.conns
    ensures Inv(Fault(s, e))
  {
    FailSettles(s.link, s.requests, e);
    var failed := s.(requests := FailPending(s.requests, e));
    SettlesKeepsInv(s, failed.requests);
    if !Current(s.link, e) {
      ListenerChangeKeepsInv(failed, e, Ended);
    } else if s.link.reset == None {
      var resetting := failed.(link := s.link.(reset := Some(Reset(e, ListenerTask, CancelListener))));
      ResetBeginsKeepsInv(failed, ListenerTask);
      ListenerChangeKeepsInv(resetting, e, Tearing);
    } else {
      var running := s.link.reset.value.epoch;
      assert ConnOk(s.config, s.stream, e, s.conns[e]);
      ConnKeepsInv(failed, e, s.conns[e].(listener := Joining(running), joinedOther := running != e));
    }
  }

  lemma OfAppend(history: seq<Stamped>, m: Stamped, e: nat, lane: Lane)
    ensures Of(history + [m], e, lane)
         == Of(history, e, lane) + (if m.epoch == e && m.lane == lane then [m] else [])
  {
    assert (history + [m])[..|history|] == history;
  }

  // A stamped message goes to the end of its own lane and touches no other.
  lemma StampKeepsConn(config: Config, stream: Stream, m: Stamped, e: nat, c: Connection)
    requires ConnOk(config, stream, e, c) && m.epoch != e
    ensures ConnOk(config, Stream(m.sequence, stream.history + [m]), e, c)
  {
    OfAppend(stream.history, m, e, Notifications);
    OfAppend(stream.history, m, e, ServerRequests);
  }

  lemma ExtendedIsOk(config: Config, stream: Stream, link: Link, e: nat, c: Connection, lane: Lane, m: Stamped)
    requires ConnOk(config, stream, e, c) && c.listener == Awaiting
    requires m.epoch == e && m.lane == lane
    ensures ConnOk(config, Stream(m.sequence, stream.history + [m]), e,
                   Extended(c, lane, m, |LaneOf(c, lane).queue| < LimitOf(config, lane)))
    ensures ListenerOk(link, e, Extended(c, lane, m, |LaneOf(c, lane).queue| < LimitOf(config, lane)))
  {
    OfAppend(stream.history, m, e, Notifications);
    OfAppend(stream.history, m, e, ServerRequests);
    var l := LaneOf(c, lane);
    assert LaneOk(config, stream, e, c, lane);
    assert l.dropped == [];
    assert l.dispatched + l.queue + [] + [m] == l.dispatched + (l.queue + [m]) + [];
    assert l.dispatched + l.queue + [] + [m] == l.dispatched + l.queue + [m];
  }

  lemma StampKeepsInv(s: State, m: Stamped, c: Connection)
    requires Inv(s) && m.epoch in s.conns && m.sequence == s.stream.last + 1
    requires ConnOk(s.config, Stream(m.sequence, s.stream.history + [m]), m.epoch, c)
    requires ListenerOk(s.link, m.epoch, c)
    ensures Inv(Stored(s, m, c))
  {
    var s' := Stored(s, m, c);
    forall i | i in s'.conns
      ensures ConnOk(s'.config, s'.stream, i, s'.conns[i]) && ListenerOk(s'.link, i, s'.conns[i])
    {
      if i != m.epoch {
        assert ConnOk(s.config, s.stream, i, s.conns[i]) && ListenerOk(s.link, i, s.conns[i]);
        StampKeepsConn(s.config, s.stream, m, i, s.conns[i]);
      }
    }
  }

  lemma StoredKeepsInv(s: State, e: nat, lane: Lane, m: Stamped, room: bool)
    requires Inv(s) && ListenerIs(s, e, Awaiting)
    requires m.epoch == e && m.lane == lane && m.sequence == s.stream.last + 1
    requires room == (|LaneOf(s.conns[e], lane).queue| < LimitOf(s.config, lane))
    ensures Inv(Stored(s, m, Extended(s.conns[e], lane, m, room)))
  {
    hide WithLane, LinkOk, RequestsOk, StreamOk, LaneOk;
    assert ConnOk(s.config, s.stream, e, s.conns[e]);
    ExtendedIsOk(s.config, s.stream, s.link, e, s.conns[e], lane, m);
    StampKeepsInv(s, m, Extended(s.conns[e], lane, m, room));
  }

  lemma DeliverKeepsInv(s: State, e: nat, lane: Lane, body: string)
    requires Inv(s) && Enabled(s, Receive(e, Inbound(lane, body)))
    ensures Inv(Deliver(s, e, lane, body))
  {
    hide Inv, Extended, Fault;
    var m := Stamped(e, lane, s.stream.last + 1, body);
    var room := |LaneOf(s.conns[e], lane).queue| < LimitOf(s.config, lane);
    StoredKeepsInv(s, e, lane, m, room);
    if !room { FaultKeepsInv(Stored(s, m, Extended(s.conns[e], lane, m, room)), e); }
  }

  // Taking the front of the queue, or only changing the dispatcher, leaves the lane consistent.
  lemma LaneChangeKeepsInv(s: State, e: nat, lane: Lane, l: LaneState)
    requires Inv(s) && e in s.conns
    requires l.dropped == LaneOf(s.conns[e], lane).dropped
    requires l.dispatched + l.queue == LaneOf(s.conns[e], lane).dispatched + LaneOf(s.conns[e], lane).queue
    requires |l.queue| <= |LaneOf(s.conns[e], lane).queue|
    ensures Inv(s.(conns := s.conns[e := WithLane(s.conns[e], lane, l)]))
  {
    var c := s.conns[e];
    assert ConnOk(s.config, s.stream, e, c) && ListenerOk(s.link, e, c);
    assert LaneOk(s.config, s.stream, e, c, lane);
    assert LaneOk(s.config, s.stream, e, WithLane(c, lane, l), lane);
    ConnKeepsInv(s, e, WithLane(c, lane, l));
  }

  lemma DispatcherKeepsInv(s: State, e: nat, lane: Lane, d: Dispatcher)
    requires Inv(s) && e in s.conns
    ensures Inv(SetDispatcher(s, e, lane, d))
  {
    LaneChangeKeepsInv(s, e, lane, LaneOf(s.conns[e], lane).(dispatcher := d));
  }

  lemma GetKeepsInv(s: State, e: nat, lane: Lane)
    requires Inv(s) && Enabled(s, DispatchGet(e, lane))
    ensures Inv(Next(s, DispatchGet(e, lane)))
  {
    var l := LaneOf(s.conns[e], lane);
    assert l.dispatched + [l.queue[0]] + l.queue[1..] == l.dispatched + l.queue;
    LaneChangeKeepsInv(s, e, lane,
      l.(queue := l.queue[1..], dispatched := l.dispatched + [l.queue[0]], dispatcher := Handling));
  }

  // Moving the reset to a phase before its tail changes nothing the other tasks rely on.
  lemma PhaseKeepsInv(s: State, link': Link)
    requires Inv(s) && s.link.reset.Some? && s.link.reset.value.phase != Tail
    requires link' == s.link.(listenerTask := link'.listenerTask, dispatchQueue := link'.dispatchQueue,
                              requestQueue := link'.requestQueue, transport := link'.transport,
                              reset := link'.reset)
    requires link'.reset.Some? && link'.reset.value.epoch == s.link.reset.value.epoch
    requires link'.transport == s.link.transport || link'.transport == None
    requires link'.reset.value.phase == FailFutures ==> link'.transport == None
    requires link'.reset.value.phase == Tail ==> Gone(link', s.requests, s.link.reset.value.epoch)
    ensures Inv(s.(link := link'))
  {
    forall e | e in s.conns ensures ListenerOk(link', e, s.conns[e]) {
      assert ListenerOk(s.link, e, s.conns[e]);
    }
    forall id | id in s.requests.futures ensures FutureOk(link', s.requests, id) {
      assert FutureOk(s.link, s.requests, id);
    }
    forall e | Gone(s.link, s.requests, e) ensures Gone(link', s.requests, e) { }
  }

  lemma FailFuturesKeepsInv(s: State)
    requires Inv(s) && s.link.reset.Some? && s.link.reset.value.phase == FailFutures
    ensures Inv(ResetPhaseNext(s))
  {
    var e := s.link.reset.value.epoch;
    FailSettles(s.link, s.requests, e);
    var failed := s.(requests := FailPending(s.requests, e));
    SettlesKeepsInv(s, failed.requests);
    PhaseKeepsInv(failed, ResetPhaseNext(s).link);
  }

  lemma TailKeepsInv(s: State)
    requires Inv(s) && s.link.reset.Some? && s.link.reset.value.phase == Tail
    ensures Inv(ResetPhaseNext(s))
  {
    var s' := ResetPhaseNext(s);
    forall e | e in s.conns ensures ListenerOk(s'.link, e, s.conns[e]) {
      assert ListenerOk(s.link, e, s.conns[e]);
    }
    forall id | id in s.requests.futures ensures FutureOk(s'.link, s.requests, id) {
      assert FutureOk(s.link, s.requests, id);
    }
  }

  lemma ResetKeepsInv(s: State)
    requires Inv(s) && s.link.reset.Some?
    ensures Inv(ResetPhaseNext(s))
  {
    var reset := s.link.reset.value;
    match reset.phase
    case CancelListener =>
      var next := s.(link := s.link.(listenerTask := None, reset := Some(reset.(phase := CancelNotifications))));
      PhaseKeepsInv(s, next.link);
      if s.link.listenerTask.Some? && s.link.listenerTask.value in s.conns {
        ListenerChangeKeepsInv(next, s.link.listenerTask.value, Ended);
      }
    case CancelNotifications =>
      var next := s.(link := s.link.(dispatchQueue := None, reset := Some(reset.(phase := CancelRequests))));
      PhaseKeepsInv(s, next.link);
      if s.link.dispatchQueue.Some? && s.link.dispatchQueue.value in s.conns {
        DispatcherKeepsInv(next, s.link.dispatchQueue.value, Notifications, Stopped);
      }
    case CancelRequests =>
      var next := s.(link := s.link.(requestQueue := None, reset := Some(reset.(phase := DropTransport))));
      PhaseKeepsInv(s, next.link);
      if s.link.requestQueue.Some? && s.link.requestQueue.value in s.conns {
        DispatcherKeepsInv(next, s.link.requestQueue.value, ServerRequests, Stopped);
      }
    case DropTransport => PhaseKeepsInv(s, ResetPhaseNext(s).link);
    case FailFutures => FailFuturesKeepsInv(s);
    case Tail => TailKeepsInv(s);
  }

  lemma StepKeepsInv(s: State, step: Step)
    requires Inv(s) && Enabled(s, step)
    ensures Inv(Next(s, step))
  {
    match step
    case OpenStart => FlagsKeepInv(s, true, s.link.closing);
    case OpenFails => FlagsKeepInv(s, false, s.link.closing);
    case OpenCommit => OpenKeepsInv(s);
    case Close => FlagsKeepInv(s, s.link.opening, true);
    case RequestStart => RequestStartKeepsInv(s);
    case FutureCancel(id) => CancelKeepsInv(s, id);
    case RequestEnd(id) => RequestEndKeepsInv(s, id);
    case ListenerTest(e) => ListenerKeepsInv(s, step);
    case Receive(e, message) =>
      match message {
        case Reply(id) => ReplyKeepsInv(s, e, id);
        case Inbound(lane, body) => DeliverKeepsInv(s, e, lane, body);
      }
    case ReceiveFails(e) => FaultKeepsInv(s, e);
    case ListenerResumes(e) => ListenerKeepsInv(s, step);
    case DispatchTest(e, lane) => DispatcherKeepsInv(s, e, lane, LaneOf(Next(s, step).conns[e], lane).dispatcher);
    case DispatchGet(e, lane) => GetKeepsInv(s, e, lane);
    case DispatchDone(e, lane) => DispatcherKeepsInv(s, e, lane, Testing);
    case ResetStart(task) => ResetBeginsKeepsInv(s, task);
    case ResetNext => ResetKeepsInv(s);
  }

  // ---- Results over all runs ----

  lemma {:induction false} ReachableInv(config: Config, steps: seq<Step>)
    ensures Execute(config, steps).Some? ==> Inv(Execute(config, steps).value)
  {
    if steps != [] {
      var front, last := steps[..|steps| - 1], steps[|steps| - 1];
      ReachableInv(config, front);
      if Execute(config, steps).Some? { StepKeepsInv(Execute(config, front).value, last); }
    }
  }

  /** A future is settled at most once, a reply settles it only when it arrived on the connection
      that sent the request, and a future nobody has settled is still registered under its epoch. */
  lemma FuturesAreSettledOnce(config: Config, steps: seq<Step>, s: State, id: nat)
    requires Execute(config, steps) == Some(s) && id in s.requests.futures
    ensures |s.requests.futures[id].outcomes| <= 1
    ensures s.requests.futures[id].outcomes == [] ==>
      id in s.requests.pending && s.requests.pending[id] == s.requests.futures[id].epoch
    ensures forall a :: s.requests.futures[id].outcomes == [Replied(a)] ==> a == s.requests.futures[id].epoch
  {
    var f := s.requests.futures[id];
    ReachableInv(config, steps);
    assert FutureOk(s.link, s.requests, id);
    forall a | f.outcomes == [Replied(a)] ensures a == f.epoch { assert f.outcomes[0] == Replied(a); }
  }

  // From here on the epoch is over: nothing of it is unresolved and no request can join it.
  ghost predicate Over(s: State, e: nat) {
    && (forall id :: id in s.requests.futures && s.requests.futures[id].epoch == e ==>
          s.requests.futures[id].outcomes != [])
    && (Enabled(s, RequestStart) ==>
          var s' := Next(s, RequestStart);
          s'.requests.futures[s.requests.nextId].epoch != e)
  }

  /** Once the reset of an epoch has finished, the epoch is over, now and in every later state. */
  lemma FinishedEpochIsOver(config: Config, steps: seq<Step>, more: seq<Step>, s: State, s': State, e: nat)
    requires Execute(config, steps) == Some(s) && e in s.link.finished
    requires Execute(config, steps + more) == Some(s')
    ensures Over(s', e)
  {
    FinishedGrows(config, steps, more, s, s');
    ReachableInv(config, steps + more);
    assert Gone(s'.link, s'.requests, e);
  }

  lemma {:induction false} FinishedGrows(config: Config, steps: seq<Step>, more: seq<Step>, s: State, s': State)
    requires Execute(config, steps) == Some(s) && Execute(config, steps + more) == Some(s')
    ensures s.link.finished <= s'.link.finished
    decreases |more|
  {
    hide Next, Enabled;
    if more == [] {
      assert steps + more == steps;
    } else {
      var front, last := more[..|more| - 1], more[|more| - 1];
      assert (steps + more)[..|steps + more| - 1] == steps + front;
      assert (steps + more)[|steps + more| - 1] == last;
      FinishedGrows(config, steps, front, s, Execute(config, steps + front).value);
      StepKeepsFinished(Execute(config, steps + front).value, last);
    }
  }

  lemma StepKeepsFinished(s: State, step: Step)
    requires Enabled(s, step)
    ensures s.link.finished <= Next(s, step).link.finished
  {
  }

  /** Dispatch sequences increase over the life of the client, across connections, and each lane of
      each connection has dispatched exactly a prefix, in order, of what it received. */
  lemma LanesDispatchPrefixes(config: Config, steps: seq<Step>, s: State, e: nat, lane: Lane)
    requires Execute(config, steps) == Some(s) && e in s.conns
    ensures forall i, j :: 0 <= i < j < |s.stream.history| ==>
      s.stream.history[i].sequence < s.stream.history[j].sequence
    ensures LaneOf(s.conns[e], lane).dispatched <= Of(s.stream.history, e, lane)
    ensures |LaneOf(s.conns[e], lane).queue| <= LimitOf(config, lane)
  {
    ReachableInv(config, steps);
    ConfigStays(config, steps);
    assert ConnOk(s.config, s.stream, e, s.conns[e]);
    assert LaneOk(s.config, s.stream, e, s.conns[e], lane);
  }

  lemma {:induction false} ConfigStays(config: Config, steps: seq<Step>)
    ensures Execute(config, steps).Some? ==> Execute(config, steps).value.config == config
  {
    if steps != [] { ConfigStays(config, steps[..|steps| - 1]); }
  }

  ghost predicate NoneFaulting(s: State) {
    forall e :: e in s.conns ==> s.conns[e].listener != Faulting
  }

  lemma {:induction false} FaultsEndWithTheStep(config: Config, steps: seq<Step>)
    ensures Execute(config, steps).Some? ==> NoneFaulting(Execute(config, steps).value)
  {
    if steps != [] {
      var front, last := steps[..|steps| - 1], steps[|steps| - 1];
      FaultsEndWithTheStep(config, front);
      if Execute(config, steps).Some? { StepEndsFaults(Execute(config, front).value, last); }
    }
  }

  lemma StepEndsFaults(s: State, step: Step)
    requires Enabled(s, step) && NoneFaulting(s)
    ensures NoneFaulting(Next(s, step))
  {
    forall e | e in Next(s, step).conns ensures Next(s, step).conns[e].listener != Faulting {
      assert e in s.conns ==> s.conns[e].listener != Faulting;
    }
  }

  /** Every message that is not a reply is stamped with a sequence above all earlier ones, whichever
      connection they came from, whether or not its lane has room. */
  lemma NewSequenceIsAbove(config: Config, steps: seq<Step>, s: State, e: nat, lane: Lane, body: string)
    requires Execute(config, steps) == Some(s) && Enabled(s, Receive(e, Inbound(lane, body)))
    ensures var history := Next(s, Receive(e, Inbound(lane, body))).stream.history;
      && |history| == |s.stream.history| + 1
      && history[..|s.stream.history|] == s.stream.history
      && var m := history[|s.stream.history|];
         m.epoch == e && m.lane == lane && m.body == body
         && forall i :: 0 <= i < |s.stream.history| ==> s.stream.history[i].sequence < m.sequence
  {
    ReachableInv(config, steps);
  }

  /** A message is left out only when its lane's queue was full. It is then the last one the
      connection ever receives, its listener has stopped receiving, and unless that listener was made
      to wait for the reset of another connection, the transport is gone or being torn down. */
  lemma OverflowTearsDown(config: Config, steps: seq<Step>, s: State, e: nat, lane: Lane)
    requires Execute(config, steps) == Some(s) && e in s.conns
    requires LaneOf(s.conns[e], lane).dropped != []
    ensures var l := LaneOf(s.conns[e], lane);
      && |l.dropped| == 1
      && Of(s.stream.history, e, lane) == l.dispatched + l.queue + l.dropped
      && !Receiving(s.conns[e].listener)
    ensures s.link.transport != Some(e)
         || s.conns[e].joinedOther
         || (s.link.reset.Some? && s.link.reset.value.epoch == e)
  {
    ReachableInv(config, steps);
    FaultsEndWithTheStep(config, steps);
    assert ConnOk(s.config, s.stream, e, s.conns[e]);
    assert LaneOk(s.config, s.stream, e, s.conns[e], lane);
    assert ListenerOk(s.link, e, s.conns[e]);
  }

  // ---- Exactly when a full queue tears the connection down ----

  // The transport of the connection is gone, or a reset that drops it is under way.
  predicate TornDown(link: Link, e: nat) {
    link.transport != Some(e) || (link.reset.Some? && link.reset.value.epoch == e)
  }

  // A reset of another connection is still running while this one is in use.
  predicate OtherResetRuns(link: Link, e: nat) {
    Current(link, e) && link.reset.Some? && link.reset.value.epoch != e
  }

  /** A message for a full lane tears its connection down if and only if, when it arrives, no reset of
      another connection is still running. */
  lemma FullLaneTearsDownExactly(config: Config, steps: seq<Step>, s: State, e: nat, lane: Lane, body: string)
    requires Execute(config, steps) == Some(s) && ListenerIs(s, e, Awaiting)
    requires |LaneOf(s.conns[e], lane).queue| >= LimitOf(s.config, lane)
    ensures var s' := Next(s, Receive(e, Inbound(lane, body)));
            && LaneOf(s'.conns[e], lane).dropped != []
            && (TornDown(s'.link, e) <==> !OtherResetRuns(s.link, e))
  {
    hide Execute;
    ReachableInv(config, steps);
  }

  /** Otherwise that reset ends and takes the listener with it: the connection stays in use and nothing
      reads from it any more. */
  lemma FullLaneLeavesTheTransport(config: Config, steps: seq<Step>, s: State, e: nat, lane: Lane, body: string)
    requires Execute(config, steps) == Some(s) && ListenerIs(s, e, Awaiting) && OtherResetRuns(s.link, e)
    requires |LaneOf(s.conns[e], lane).queue| >= LimitOf(s.config, lane)
    ensures var s' := Next(s, Receive(e, Inbound(lane, body)));
            && Enabled(s', ResetNext) && Enabled(Next(s', ResetNext), ListenerResumes(e))
            && Deaf(Next(Next(s', ResetNext), ListenerResumes(e)), e)
  {
    hide Execute;
    ReachableInv(config, steps);
  }

  // In use, with no reset under way and no listener.
  predicate Deaf(s: State, e: nat) {
    s.link.transport == Some(e) && s.link.reset == None && ListenerIs(s, e, Ended)
  }

  // A connection is reset; a handler of that reset opens another one before the reset ends.
  function ReopenRun(): seq<Step> {
    [OpenStart, OpenCommit, ResetStart(OtherTask), ResetNext, ResetNext, ResetNext, ResetNext, ResetNext,
     OpenStart, OpenCommit]
  }

  // The new connection receives n messages for one lane.
  function Filling(lane: Lane, n: nat): seq<Step> {
    if n == 0 then [] else Filling(lane, n - 1) + [ListenerTest(2), Receive(2, Inbound(lane, "m"))]
  }

  // One message more than the lane holds, then the end of the first reset.
  function OverflowRun(config: Config, lane: Lane): seq<Step> {
    ReopenRun() + Filling(lane, LimitOf(config, lane))
    + [ListenerTest(2), Receive(2, Inbound(lane, "one too many")), ResetNext, ListenerResumes(2)]
  }

  lemma Extend(config: Config, run: seq<Step>, step: Step, s: State) returns (s': State)
    requires Execute(config, run) == Some(s) && Enabled(s, step)
    ensures s' == Next(s, step) && Execute(config, run + [step]) == Some(s')
  {
    assert (run + [step])[..|run|] == run;
    s' := Next(s, step);
  }

  lemma ExtendReset(config: Config, run: seq<Step>, s: State) returns (s': State)
    requires Execute(config, run) == Some(s) && s.link.reset.Some?
    ensures s' == ResetPhaseNext(s) && Execute(config, run + [ResetNext]) == Some(s')
  {
    s' := Extend(config, run, ResetNext, s);
  }

  // A state with no requests and no messages, so that only the link and the connections matter.
  function Quiet(config: Config, link: Link, conns: map<nat, Connection>): State {
    State(config, link, Requests(1, map[], map[]), conns, Stream(0, []))
  }

  function ResetOf1(phase: ResetPhase): Option<Reset> {
    Some(Reset(1, OtherTask, phase))
  }

  /** The exception is real for every configuration and either lane: filling the lane of a connection
      that a reset handler opened, and sending one message more, leaves it in use without a listener. */
  lemma FullLaneRun(config: Config, lane: Lane) returns (s: State)
    ensures Execute(config, OverflowRun(config, lane)) == Some(s)
    ensures |LaneOf(s.conns[2], lane).queue| == LimitOf(config, lane) && |LaneOf(s.conns[2], lane).dropped| == 1
    ensures Deaf(s, 2)
  {
    hide Next, Enabled, Execute;
    var run := ReopenRun() + Filling(lane, LimitOf(config, lane));
    s := LaneFilled(config, lane, LimitOf(config, lane));
    s := Overflows(config, lane, run, s);
    assert run + [ListenerTest(2)] + [Receive(2, Inbound(lane, "one too many"))] + [ResetNext] + [ListenerResumes(2)]
        == OverflowRun(config, lane);
  }

  // The state of the second connection once n messages are queued.
  predicate Filled(s: State, lane: Lane, n: nat) {
    && s.link == Link(2, Some(2), Some(2), Some(2), Some(2), false, false, ResetOf1(Tail), {})
    && ListenerIs(s, 2, AtHead)
    && |LaneOf(s.conns[2], lane).queue| == n
    && LaneOf(s.conns[2], lane).dropped == []
  }

  lemma {:induction false} LaneFilled(config: Config, lane: Lane, n: nat) returns (s: State)
    requires n <= LimitOf(config, lane)
    ensures Execute(config, ReopenRun() + Filling(lane, n)) == Some(s) && Filled(s, lane, n) && s.config == config
  {
    hide Execute;
    if n == 0 {
      s := Reopened(config);
      assert ReopenRun() + [] == ReopenRun();
    } else {
      s := LaneFilled(config, lane, n - 1);
      var run := ReopenRun() + Filling(lane, n - 1);
      s := Extend(config, run, ListenerTest(2), s);
      s := Extend(config, run + [ListenerTest(2)], Receive(2, Inbound(lane, "m")), s);
      assert run + [ListenerTest(2)] + [Receive(2, Inbound(lane, "m"))] == ReopenRun() + Filling(lane, n);
    }
  }

  lemma Overflows(config: Config, lane: Lane, run: seq<Step>, before: State) returns (s: State)
    requires Execute(config, run) == Some(before) && before.config == config
    requires Filled(before, lane, LimitOf(config, lane))
    ensures Execute(config, run + [ListenerTest(2)] + [Receive(2, Inbound(lane, "one too many"))] + [ResetNext]
                            + [ListenerResumes(2)]) == Some(s)
    ensures Deaf(s, 2)
    ensures |LaneOf(s.conns[2], lane).queue| == LimitOf(config, lane) && |LaneOf(s.conns[2], lane).dropped| == 1
  {
    hide Execute;
    s := Extend(config, run, ListenerTest(2), before);
    var last := run + [ListenerTest(2)] + [Receive(2, Inbound(lane, "one too many"))];
    s := Extend(config, run + [ListenerTest(2)], Receive(2, Inbound(lane, "one too many")), s);
    assert s.conns[2].listener == Joining(1) && s.link == before.link;
    s := Extend(config, last, ResetNext, s);
    s := Extend(config, last + [ResetNext], ListenerResumes(2), s);
  }

  lemma Reopened(config: Config) returns (s: State)
    ensures Execute(config, ReopenRun()) == Some(s) && s.config == config
    ensures Filled(s, Notifications, 0) && Filled(s, ServerRequests, 0)
  {
    hide Next, Enabled, Execute;
    var run := ReopenRun();
    s := OpenedAndReset(config);
    s := TransportDropped(config, s);
    s := ResetTail(config, s);
    s := OpenedAgain(config, s);
  }

  lemma OpenedAndReset(config: Config) returns (s: State)
    ensures Execute(config, ReopenRun()[..3]) == Some(s)
    ensures s == Quiet(config, Link(1, Some(1), Some(1), Some(1), Some(1), false, false, ResetOf1(CancelListener), {}),
                       map[1 := Opened()])
  {
    Prefixes();
    var run := ReopenRun();
    assert Execute(config, []) == Some(Init(config));
    s := Extend(config, [], OpenStart, Init(config));
    s := Extend(config, run[..1], OpenCommit, s);
    s := Extend(config, run[..2], ResetStart(OtherTask), s);
  }

  // The run one step at a time.
  lemma Prefixes()
    ensures var run := ReopenRun();
            && [] + [OpenStart] == run[..1] && run[..1] + [OpenCommit] == run[..2]
            && run[..2] + [ResetStart(OtherTask)] == run[..3] && run[..3] + [ResetNext] == run[..4]
            && run[..4] + [ResetNext] == run[..5] && run[..5] + [ResetNext] == run[..6]
            && run[..6] + [ResetNext] == run[..7] && run[..7] + [ResetNext] == run[..8]
            && run[..8] + [OpenStart] == run[..9] && run[..9] + [OpenCommit] == run
  {
  }

  lemma TransportDropped(config: Config, before: State) returns (s: State)
    requires Execute(config, ReopenRun()[..3]) == Some(before) && before.conns.Keys == {1}
    requires before == Quiet(config,
      Link(1, Some(1), Some(1), Some(1), Some(1), false, false, ResetOf1(CancelListener), {}),
                             before.conns)
    ensures Execute(config, ReopenRun()[..7]) == Some(s) && s.conns.Keys == {1}
    ensures s == Quiet(config, Link(1, None, None, None, None, false, false, ResetOf1(FailFutures), {}), s.conns)
  {
    hide Next, Enabled, Execute, ReopenRun;
    Prefixes();
    s := ExtendReset(config, ReopenRun()[..3], before);
    assert s == Quiet(config,
      Link(1, Some(1), None, Some(1), Some(1), false, false, ResetOf1(CancelNotifications), {}), s.conns);
    s := LanesStopped(config, s);
    s := ExtendReset(config, ReopenRun()[..6], s);
  }

  lemma LanesStopped(config: Config, before: State) returns (s: State)
    requires Execute(config, ReopenRun()[..4]) == Some(before) && before.conns.Keys == {1}
    requires before == Quiet(config,
      Link(1, Some(1), None, Some(1), Some(1), false, false, ResetOf1(CancelNotifications), {}),
                             before.conns)
    ensures Execute(config, ReopenRun()[..6]) == Some(s) && s.conns.Keys == {1}
    ensures s == Quiet(config, Link(1, Some(1), None, None, None, false, false, ResetOf1(DropTransport), {}), s.conns)
  {
    hide Next, Enabled, Execute, ReopenRun, WithLane, LaneOf;
    Prefixes();
    s := ExtendReset(config, ReopenRun()[..4], before);
    assert s == Quiet(config, Link(1, Some(1), None, None, Some(1), false, false, ResetOf1(CancelRequests), {}),
      s.conns);
    s := ExtendReset(config, ReopenRun()[..5], s);
  }

  lemma ResetTail(config: Config, before: State) returns (s: State)
    requires Execute(config, ReopenRun()[..7]) == Some(before)
    requires before == Quiet(config, Link(1, None, None, None, None, false, false, ResetOf1(FailFutures), {}),
      before.conns)
    ensures Execute(config, ReopenRun()[..8]) == Some(s)
    ensures s == Quiet(config, Link(1, None, None, None, None, false, false, ResetOf1(Tail), {}), s.conns)
  {
    hide Next, Enabled, Execute, ReopenRun;
    Prefixes();
    s := ExtendReset(config, ReopenRun()[..7], before);
    assert s.requests == before.requests;
  }

  lemma OpenedAgain(config: Config, before: State) returns (s: State)
    requires Execute(config, ReopenRun()[..8]) == Some(before)
    requires before == Quiet(config, Link(1, None, None, None, None, false, false, ResetOf1(Tail), {}), before.conns)
    ensures Execute(config, ReopenRun()) == Some(s) && s.config == config
    ensures Filled(s, Notifications, 0) && Filled(s, ServerRequests, 0)
  {
    hide Execute, ReopenRun;
    Prefixes();
    s := Extend(config, ReopenRun()[..8], OpenStart, before);
    s := Extend(config, ReopenRun()[..9], OpenCommit, s);
  }
}
