/**
 Terminal deliveries in the bridge core (src/imcodex/bridge/core.py, handle_connection_ready and the
 terminal branch of _process_notification, and src/imcodex/bridge/terminal_delivery.py): live answers,
 recovered turns and retries deliver through one outbox. What the outside world does to an attempt is
 an input of the step.
 */
module Delivery {
  import opened Prelude
  import opened OrderedDict
  import opened StoreModel
  import R = Recency
  import S = StoreRuns

  // An IM channel accepted a delivery; the core may have been interrupted before remembering it.
  datatype Acceptance = Acceptance(id: Id, remembered: bool)

  /** What happened so far, which no step reads: the ids accepted before the last restart, those a retry
      completed because their payload could not be sent, and how often the state file was written. */
  datatype History = History(earlier: set<Id>, unusable: set<Id>, writes: nat)

  /**
   `log` lists what channels accepted since the last restart. Its remembered ids and `ended`, the turn
   completions, are what the core keeps the newest 512 of. `recovered` is `_pending_recovered_turns`,
   each turn with the ids of its deliveries. `saved` is the store as the state file has it.
   */
  datatype Core = Core(
    store: State,
    saved: State,
    log: seq<Acceptance>,
    ended: seq<Turn>,
    recovered: map<Turn, seq<Id>>,
    history: History)

  /** The state file gets the current store. What a restart finds is always the store of some earlier
      moment, the last one whose snapshot reached the file; a flush that returns makes it this one. */
  function Written(c: Core): Core {
    c.(saved := c.store, history := c.history.(writes := c.history.writes + 1))
  }

  const LIMIT := R.RECENT_TERMINAL_DELIVERY_LIMIT

  function Remembered(log: seq<Acceptance>): seq<Id> {
    if log == [] then []
    else
      var last := log[|log| - 1];
      Remembered(log[..|log| - 1]) + if last.remembered then [last.id] else []
  }

  // ---- One attempt ----

  /** How an attempt that was not refused ends: staged and left to the retry pass, with a flush that
      returned or with none; cancelled while it was flushed; rejected by the channel or cancelled while
      it was sent; cancelled after it was completed; or sent and remembered, with its completion flushed
      or not. A channel may have accepted a message whose sending fails or is cancelled. */
  datatype Ending =
    | Queued(durable: bool)
    | Unflushed
    | Failed(accepted: bool)
    | Interrupted(accepted: bool)
    | CutOff
    | Sent(flushed: bool)

  // `written` says that the staging reached the state file although its flush did not return.
  datatype Try =
    Try(id: Id, message: Message, prepareFails: bool, now: int, written: bool, ending: Ending)

  function MetadataId(message: Message): Id {
    if "delivery_id" in message.metadata then message.metadata["delivery_id"] else ""
  }

  // What makes `_deliver_terminal_message` raise before it stages anything.
  predicate Refuses(try: Try) {
    || (MetadataId(try.message) != "" && MetadataId(try.message) != try.id)
    || try.prepareFails
    || try.id == ""
  }

  predicate Raises(try: Try) {
    Refuses(try) || try.ending.Unflushed? || try.ending.Interrupted? || try.ending.CutOff?
  }

  predicate IsDurable(try: Try) {
    !Refuses(try) && (try.ending.Sent? || try.ending.Failed? || try.ending == Queued(true))
  }

  // The staging reaches the state file, as it does when the flush behind it returns.
  predicate Lands(try: Try) {
    !Refuses(try) && (try.written || (!try.ending.Unflushed? && try.ending != Queued(false)))
  }

  // The channel accepted the message.
  predicate Accepts(try: Try) {
    !Refuses(try) && match try.ending
      case Queued(_) => false
      case Unflushed => false
      case Failed(accepted) => accepted
      case Interrupted(accepted) => accepted
      case CutOff => true
      case Sent(_) => true
  }

  // `_terminal_delivery_is_known`
  predicate Known(c: Core, id: Id) {
    id in R.Recent(Remembered(c.log), LIMIT) || id in c.store.acks.vals || id in c.store.outbox.vals
  }

  function Identified(try: Try): Message {
    try.message.(metadata := try.message.metadata["delivery_id" := try.id])
  }

  // Stage the message and flush.
  function StageAndFlush(c: Core, t: Turn, try: Try): Core {
    var staged := c.(store := Stage(c.store, try.id, t, Identified(try), try.now));
    if Lands(try) then Written(staged) else staged
  }

  // Send what is staged; once it is sent, complete it.
  function Send(c: Core, try: Try): Core {
    c.(log := if Accepts(try) then c.log + [Acceptance(try.id, try.ending.Sent?)] else c.log,
       store := if try.ending.CutOff? || try.ending.Sent? then Complete(c.store, try.id) else c.store)
  }

  // `_deliver_terminal_message` and `_remember_terminal_delivery`
  function Deliver(c: Core, t: Turn, try: Try): Core {
    if Refuses(try) then c
    else
      var sent := Send(StageAndFlush(c, t, try), try);
      if try.ending == Sent(true) then Written(sent) else sent
  }

  // ---- The live path ----

  predicate HasPending(s: State, t: Turn) {
    exists id :: id in s.outbox.vals && s.outbox.vals[id].turn == t
  }

  // An item completion that shows an answer, or none.
  function LiveAnswer(c: Core, t: Turn, shown: Option<Try>): Core {
    if shown.Some? && !Known(c, shown.value.id) then Deliver(c, t, shown.value) else c
  }

  // A turn completion and the message it shows, if any.
  function TurnEnds(c: Core, t: Turn, shown: Option<Try>): Core {
    if t in R.Recent(c.ended, LIMIT) then c
    else
      var attempted := shown.Some? && !Known(c, shown.value.id);
      var after := LiveAnswer(c, t, shown);
      if attempted && Raises(shown.value) then after
      else
        var ended := after.(ended := after.ended + [t]);
        if (attempted && IsDurable(shown.value)) || !HasPending(ended.store, t)
        then ended.(store := DiscardWatch(ended.store, t)) else ended
  }

  // ---- Recovery ----

  datatype Loop = Loop(core: Core, raised: bool, accounted: bool)

  // The deliveries of one recovered turn, in order; an error ends the turn.
  function RecoverLoop(c: Core, t: Turn, tries: seq<Try>): Loop {
    if tries == [] then Loop(c, false, true)
    else
      var before := RecoverLoop(c, t, tries[..|tries| - 1]);
      var try := tries[|tries| - 1];
      if before.raised || Known(before.core, try.id) then before
      else Loop(Deliver(before.core, t, try), Raises(try), before.accounted && IsDurable(try))
  }

  // A turn whose thread lost its conversation is dropped; one whose deliveries are all durable is
  // done, and its watch with it; any other is tried again later.
  function RecoverTurn(c: Core, t: Turn, tries: seq<Try>): Core {
    if BoundTo(c.store, t.thread).None? then c.(recovered := c.recovered - {t})
    else
      var loop := RecoverLoop(c, t, tries);
      if loop.raised || !loop.accounted then loop.core
      else loop.core.(store := DiscardWatch(loop.core.store, t), recovered := loop.core.recovered - {t})
  }

  // ---- Retries ----

  // What a retry of one staged delivery meets: an earlier failure of its conversation, a failure, an
  // unusable payload, or an accepting channel. A cancelled pass fails once and is blocked from there.
  datatype Retry = Blocked | RetryFails(message: Message, accepted: bool) | Invalid | Accepted(message: Message)

  function Release(c: Core, t: Turn): Core {
    if t in R.Recent(c.ended, LIMIT) && !HasPending(c.store, t) then c.(store := DiscardWatch(c.store, t)) else c
  }

  function RetryOne(c: Core, id: Id, t: Turn, r: Retry): Core {
    match r
    case Blocked => c
    case RetryFails(m, accepted) =>
      c.(store := UpdateMessage(c.store, id, m), log := if accepted then c.log + [Acceptance(id, false)] else c.log)
    case Invalid =>
      Release(c.(store := Complete(c.store, id), history := c.history.(unusable := c.history.unusable + {id})), t)
    case Accepted(m) =>
      var updated := if t.thread == "" then UpdateMessage(c.store, id, m) else c.store;
      Release(c.(store := Complete(updated, id), log := c.log + [Acceptance(id, true)]), t)
  }

  // The loop of `_deliver_pending_terminal_once` over what the outbox listed when it began.
  function RetryAll(c: Core, listed: seq<Listed>, results: seq<Retry>): Core
    requires |results| == |listed|
  {
    if listed == [] then c
    else
      var n := |listed| - 1;
      RetryOne(RetryAll(c, listed[..n], results[..n]), listed[n].id, listed[n].pending.turn, results[n])
  }

  // ---- Runs ----

  datatype Step =
    | AnswerStep(t: Turn, shown: Option<Try>)
    | TurnEndsStep(t: Turn, shown: Option<Try>)
    | FoundStep(t: Turn, ids: seq<Id>)
    | RecoverStep(t: Turn, tries: seq<Try>)
    | RetryStep(results: seq<Retry>)
    | StoreStep(op: S.Op)
    | WriteStep     // a snapshot of this moment reaches the state file before the next restart
    | RestartStep   // the process ends, and another one loads the state file

  function TryIds(tries: seq<Try>): (ids: seq<Id>)
    ensures |ids| == |tries| && forall k :: 0 <= k < |ids| ==> ids[k] == tries[k].id
  {
    seq(|tries|, k requires 0 <= k < |tries| => tries[k].id)
  }

  predicate NamedTurn(t: Turn) {
    t.thread != "" && t.turn != ""
  }

  // The ids of native turns are never empty.
  predicate WellFormed(step: Step) {
    match step
    case AnswerStep(t, _) => NamedTurn(t)
    case TurnEndsStep(t, _) => NamedTurn(t)
    case FoundStep(t, _) => NamedTurn(t)
    case RecoverStep(t, _) => NamedTurn(t)
    case RetryStep(_) => true
    case StoreStep(op) => S.WellFormed(op) && !S.DeliveryOp(op)
    case WriteStep => true
    case RestartStep => true
  }

  function AcceptedIds(log: seq<Acceptance>): set<Id> {
    set a | a in log :: a.id
  }

  // A step that is not possible changes nothing. A retry pass goes on only when its flush returned.
  function Apply(c: Core, step: Step, legacyId: Message -> Id): Core
    requires S.Inv(c.store) && S.Inv(c.saved)
  {
    match step
    case AnswerStep(t, shown) => LiveAnswer(c, t, shown)
    case TurnEndsStep(t, shown) => TurnEnds(c, t, shown)
    case FoundStep(t, ids) => c.(recovered := c.recovered[t := ids])
    case RecoverStep(t, tries) =>
      if t in c.recovered && c.recovered[t] == TryIds(tries) then RecoverTurn(c, t, tries) else c
    case RetryStep(results) =>
      if |results| == |Listing(c.store)| then RetryAll(Written(c), Listing(c.store), results) else c
    case StoreStep(op) => if S.DeliveryOp(op) then c else c.(store := S.ApplyRouting(c.store, op))
    case WriteStep => Written(c)
    case RestartStep =>
      Core(S.Reload(c.saved, legacyId), c.saved, [], [], map[],
           c.history.(earlier := c.history.earlier + AcceptedIds(c.log)))
  }

  function NewCore(): Core {
    Core(StoreModel.Init(), StoreModel.Init(), [], [], map[], History({}, {}, 0))
  }
}
