/**
 The state of `ConversationStore` and what each of its operations does to it
 (src/imcodex/store.py, src/imcodex/store_pending_requests.py,
 src/imcodex/store_terminal_deliveries.py and the request branch of
 src/imcodex/bridge/projection.py).
 */
module StoreModel {
  import opened Prelude
  import opened OrderedDict
  import Text

  type Id = string

  // `ConversationBinding` without its key.
  datatype Binding = Binding(
    thread: Option<Id>,
    cwd: Option<string>,
    profile: string,
    commentary: bool,
    toolcalls: bool,
    system: bool,
    context: map<string, string>)

  // `PendingNativeRequestRoute`
  datatype Request = Request(route: Route, thread: Option<Id>, turn: Option<Id>, kind: string, epoch: nat)

  // A native turn; ("", "") marks a standalone delivery.
  datatype Turn = Turn(thread: Id, turn: Id)

  const NO_TURN := Turn("", "")

  datatype Message = Message(text: string, metadata: map<string, string>)

  // `PendingTerminalDelivery` without its key.
  datatype Pending = Pending(turn: Turn, message: Message, createdAt: int, sequence: nat)

  type Outcome = map<string, string>

  datatype State = State(
    bindings: Dict<Route, Binding>,
    routes: Dict<Id, Route>,
    requests: map<Id, Request>,
    watches: Dict<Turn, int>,
    outbox: Dict<Id, Pending>,
    acks: Dict<Id, Turn>,
    outcomes: map<Id, Outcome>,
    sequence: nat,
    active: map<Id, (Id, string)>,
    suppressed: set<Turn>)

  const ACK_LIMIT: nat := 512
  const DEFAULT_BINDING := Binding(None, None, "standard", true, false, false, map[])

  function Init(): State {
    State(Empty(), Empty(), map[], Empty(), Empty(), Empty(), map[], 0, map[], {})
  }

  // ---- Bindings ----

  // What `get_binding` returns.
  function BindingOf(b: Dict<Route, Binding>, r: Route): Binding {
    if r in b.vals then b.vals[r] else DEFAULT_BINDING
  }

  function Put(s: State, r: Route, b: Binding): State {
    s.(bindings := s.bindings.Put(r, b))
  }

  // `find_binding_by_thread_id`: the first binding in insertion order.
  function Find(keys: seq<Route>, vals: map<Route, Binding>, thread: Id): (found: Option<Route>)
    ensures found.Some? ==>
      found.value in keys && found.value in vals && vals[found.value].thread == Some(thread)
    ensures found.None? ==> forall r :: r in keys && r in vals ==> vals[r].thread != Some(thread)
  {
    if keys == [] then None
    else if keys[0] in vals && vals[keys[0]].thread == Some(thread) then Some(keys[0])
    else Find(keys[1..], vals, thread)
  }

  function BoundTo(s: State, thread: Id): Option<Route> {
    Find(s.bindings.keys, s.bindings.vals, thread)
  }

  function Stolen(b: Dict<Route, Binding>, r: Route, thread: Id): Dict<Route, Binding> {
    Dict(b.keys, map k | k in b.vals ::
      if k != r && b.vals[k].thread == Some(thread) then b.vals[k].(thread := None) else b.vals[k])
  }

  function Rerouted(requests: map<Id, Request>, r: Route, thread: Id): map<Id, Request> {
    map id | id in requests ::
      if requests[id].thread == Some(thread) then requests[id].(route := r) else requests[id]
  }

  // `_remove_terminal_deliveries_for_thread` with `preserve_staged`
  function WithoutThread(s: State, thread: Id): State {
    s.(watches := s.watches.Keep(set t | t in s.watches.vals && t.thread != thread),
       acks := s.acks.Keep(set id | id in s.acks.vals && s.acks.vals[id].thread != thread))
  }

  function BindThread(s: State, r: Route, thread: Id): State {
    var stolen := Stolen(s.bindings, r, thread);
    var previous := BindingOf(stolen, r).thread;
    var bound := s.(
      bindings := stolen.Put(r, BindingOf(stolen, r).(thread := Some(thread))),
      requests := Rerouted(s.requests, r, thread),
      routes := s.routes.Put(thread, r));
    if previous.Some? && previous.value != "" && previous.value != thread
    then WithoutThread(bound, previous.value) else bound
  }

  function BindThreadWithCwd(s: State, r: Route, thread: Id, cwd: string): State {
    var bound := BindThread(s, r, thread);
    if cwd == "" then bound else Put(bound, r, BindingOf(bound.bindings, r).(cwd := Some(cwd)))
  }

  // A conversation lets go of its thread: no watches, no active turn, no suppressed turns.
  function ForgetThread(s: State, thread: Id): State {
    WithoutThread(s, thread).(
      active := s.active - {thread},
      suppressed := set t | t in s.suppressed && t.thread != thread)
  }

  function ClearBinding(s: State, r: Route): State {
    var thread := BindingOf(s.bindings, r).thread;
    var cleaned := if thread.None? then s else ForgetThread(s, thread.value);
    Put(cleaned, r, BindingOf(s.bindings, r).(thread := None))
  }

  function SetCwd(s: State, r: Route, cwd: string): State {
    Put(s, r, BindingOf(s.bindings, r).(cwd := Some(cwd), thread := None))
  }

  function SetProfile(s: State, r: Route, profile: string): State {
    var b := BindingOf(s.bindings, r).(profile := profile);
    Put(s, r,
      if profile == "minimal" then b.(commentary := false, toolcalls := false, system := false)
      else if profile == "verbose" then b.(commentary := true, toolcalls := true, system := true)
      else b.(commentary := true, toolcalls := false, system := false))
  }

  datatype Visibility = Commentary | Toolcalls | System

  function SetVisibility(s: State, r: Route, what: Visibility, enabled: bool): State {
    var b := BindingOf(s.bindings, r);
    Put(s, r, match what
              case Commentary => b.(commentary := enabled)
              case Toolcalls => b.(toolcalls := enabled)
              case System => b.(system := enabled))
  }

  function SetContext(s: State, r: Route, context: map<string, string>): State {
    Put(s, r, BindingOf(s.bindings, r).(context := context))
  }

  // ---- Pending native requests ----

  function OrNone(id: Id): Option<Id> {
    if id == "" then None else Some(id)
  }

  // The approval and question branch of `project_notification`.
  function ProjectRequest(s: State, id: Id, thread: Id, turn: Id, kind: string, epoch: nat): State {
    var bound := BoundTo(s, thread);
    if bound.None? then s
    else if thread != "" && turn != "" && Turn(thread, turn) in s.suppressed then s
    else s.(requests := s.requests[id := Request(bound.value, OrNone(thread), OrNone(turn), kind, epoch)])
  }

  function RemoveRequest(s: State, id: Id): State {
    s.(requests := s.requests - {id})
  }

  function RemoveRequestsForTurn(s: State, t: Turn): State {
    s.(requests := map id | id in s.requests
                     && !(s.requests[id].thread == Some(t.thread) && s.requests[id].turn == Some(t.turn))
                     :: s.requests[id])
  }

  function Invalidate(s: State, epoch: nat): State {
    s.(requests := map id | id in s.requests && s.requests[id].epoch != epoch :: s.requests[id])
  }

  // ---- Turns and watches ----

  function Watch(s: State, t: Turn, now: int): State {
    if t.thread == "" || t.turn == "" || BoundTo(s, t.thread).None? || t in s.watches.vals then s
    else s.(watches := s.watches.Put(t, now))
  }

  function NoteActiveTurn(s: State, t: Turn, status: string, now: int): State {
    Watch(s.(active := s.active[t.thread := (t.turn, status)], suppressed := s.suppressed - {t}), t, now)
  }

  function CompleteTurn(s: State, t: Turn): State {
    s.(active := if t.thread in s.active && s.active[t.thread].0 == t.turn then s.active - {t.thread} else s.active,
       suppressed := s.suppressed - {t})
  }

  function Suppress(s: State, t: Turn): State {
    s.(suppressed := s.suppressed + {t})
  }

  function DiscardWatch(s: State, t: Turn): State {
    s.(watches := s.watches.Pop(t),
       acks := s.acks.Keep(set id | id in s.acks.vals && s.acks.vals[id] != t))
  }

  // ---- Outbox ----

  // A blank id is refused; an id already staged keeps its payload.
  function Stage(s: State, id: Id, t: Turn, message: Message, now: int): State {
    if id == "" || id in s.outbox.vals then s
    else s.(sequence := s.sequence + 1,
            outbox := s.outbox.Put(id, Pending(t, message, now, s.sequence + 1)))
  }

  function UpdateMessage(s: State, id: Id, message: Message): State {
    if id in s.outbox.vals then s.(outbox := s.outbox.Put(id, s.outbox.vals[id].(message := message))) else s
  }

  function OutcomeOf(message: Message): Outcome {
    map k | k in message.metadata && k in {"artifact_receipts", "artifact_failures"} :: message.metadata[k]
  }

  function Complete(s: State, id: Id): State {
    if id !in s.outbox.vals then s
    else
      var pending := s.outbox.vals[id];
      Prune(s.(
        outbox := s.outbox.Pop(id),
        outcomes := if pending.turn == NO_TURN then s.outcomes[id := OutcomeOf(pending.message)] else s.outcomes,
        acks := s.acks.Put(id, pending.turn)))
  }

  // The acknowledged standalone deliveries, oldest first.
  function Standalone(acks: Dict<Id, Turn>): seq<Id> {
    Only(acks.keys, set id | id in acks.vals && acks.vals[id] == NO_TURN)
  }

  // The standalone acknowledgements beyond the newest 512.
  function Excess(acks: Dict<Id, Turn>): seq<Id> {
    var ids := Standalone(acks);
    if |ids| > ACK_LIMIT then ids[..|ids| - ACK_LIMIT] else []
  }

  function Prune(s: State): State {
    var excess := set id | id in Excess(s.acks);
    s.(acks := s.acks.Keep(s.acks.vals.Keys - excess), outcomes := s.outcomes - excess)
  }

  // ---- Listing the outbox ----

  datatype Listed = Listed(id: Id, pending: Pending)

  predicate LexLess(a: string, b: string) {
    if b == [] then false
    else if a == [] then true
    else a[0] < b[0] || (a[0] == b[0] && LexLess(a[1..], b[1..]))
  }

  predicate Before(a: Listed, b: Listed) {
    || a.pending.sequence < b.pending.sequence
    || (a.pending.sequence == b.pending.sequence &&
        (a.pending.createdAt < b.pending.createdAt
         || (a.pending.createdAt == b.pending.createdAt && LexLess(a.id, b.id))))
  }

  function Insert(sorted: seq<Listed>, x: Listed): seq<Listed> {
    if sorted == [] || !Before(x, sorted[|sorted| - 1]) then sorted + [x]
    else Insert(sorted[..|sorted| - 1], x) + [sorted[|sorted| - 1]]
  }

  function Sorted(entries: seq<Listed>): seq<Listed> {
    if entries == [] then [] else Insert(Sorted(entries[..|entries| - 1]), entries[|entries| - 1])
  }

  function Entries(d: Dict<Id, Pending>): seq<Listed>
    requires d.Valid()
  {
    seq(|d.keys|, i requires 0 <= i < |d.keys| => Listed(d.keys[i], d.vals[d.keys[i]]))
  }

  // `list_pending_terminal_deliveries`
  function Listing(s: State): seq<Listed>
    requires s.outbox.Valid()
  {
    Sorted(Entries(s.outbox))
  }

  // ---- Save and load ----

  datatype BindingItem = BindingItem(route: Route, binding: Binding)
  datatype RouteItem = RouteItem(thread: Id, route: Route)
  datatype WatchItem = WatchItem(turn: Turn, createdAt: int)
  datatype PendingItem = PendingItem(id: Id, turn: Turn, message: Option<Message>, createdAt: int, sequence: nat)
  datatype AckItem = AckItem(id: Id, turn: Turn, outcome: Option<Outcome>)

  // The payload of `_snapshot_state`.
  datatype Payload = Payload(
    bindings: seq<BindingItem>,
    routes: seq<RouteItem>,
    watches: seq<WatchItem>,
    outbox: seq<PendingItem>,
    acks: seq<AckItem>)

  predicate WorthSaving(b: Binding) {
    || b.thread.Some? || b.cwd.Some? || b.profile != "standard"
    || !b.commentary || b.toolcalls || b.system || b.context != map[]
  }

  ghost predicate Storable(s: State) {
    s.bindings.Valid() && s.routes.Valid() && s.watches.Valid() && s.outbox.Valid() && s.acks.Valid()
  }

  function SaveBindings(keys: seq<Route>, vals: map<Route, Binding>): seq<BindingItem>
    requires forall r :: r in keys ==> r in vals
  {
    if keys == [] then []
    else
      var r := keys[|keys| - 1];
      SaveBindings(keys[..|keys| - 1], vals) + (if WorthSaving(vals[r]) then [BindingItem(r, vals[r])] else [])
  }

  function InsertId(sorted: seq<Id>, x: Id): (r: seq<Id>)
    ensures forall k :: k in r <==> k == x || k in sorted
  {
    if sorted == [] || !LexLess(x, sorted[|sorted| - 1]) then sorted + [x]
    else InsertId(sorted[..|sorted| - 1], x) + [sorted[|sorted| - 1]]
  }

  function SortedIds(ids: seq<Id>): (r: seq<Id>)
    ensures forall k :: k in r <==> k in ids
  {
    if ids == [] then [] else InsertId(SortedIds(ids[..|ids| - 1]), ids[|ids| - 1])
  }

  function SaveRoutes(routes: Dict<Id, Route>): seq<RouteItem>
    requires routes.Valid()
  {
    var ids := SortedIds(routes.keys);
    seq(|ids|, i requires 0 <= i < |ids| => assert ids[i] in routes.keys; RouteItem(ids[i], routes.vals[ids[i]]))
  }

  function SaveAcks(s: State): seq<AckItem>
    requires s.acks.Valid()
  {
    seq(|s.acks.keys|, i requires 0 <= i < |s.acks.keys| =>
      var id := s.acks.keys[i];
      AckItem(id, s.acks.vals[id], if id in s.outcomes then Some(s.outcomes[id]) else None))
  }

  function Save(s: State): Payload
    requires Storable(s)
  {
    Payload(
      SaveBindings(s.bindings.keys, s.bindings.vals),
      SaveRoutes(s.routes),
      seq(|s.watches.keys|, i requires 0 <= i < |s.watches.keys| =>
        WatchItem(s.watches.keys[i], s.watches.vals[s.watches.keys[i]])),
      seq(|s.outbox.keys|, i requires 0 <= i < |s.outbox.keys| =>
        var id := s.outbox.keys[i]; var p := s.outbox.vals[id];
        PendingItem(id, p.turn, Some(p.message), p.createdAt, p.sequence)),
      SaveAcks(s))
  }

  datatype LoadError = InvalidRoute | InvalidWatch | InvalidPending | InvalidAck

  // Each loader handles the last item after the ones before it, as the loops of `_load` do.

  function LoadBinding(b: Dict<Route, Binding>, item: BindingItem): Dict<Route, Binding> {
    b.Put(item.route,
          item.binding.(profile := if item.binding.profile == "" then "standard" else item.binding.profile))
  }

  function LoadBindings(items: seq<BindingItem>): Dict<Route, Binding> {
    if items == [] then Empty() else LoadBinding(LoadBindings(items[..|items| - 1]), items[|items| - 1])
  }

  function LoadRoute(routes: Dict<Id, Route>, item: RouteItem): Result<Dict<Id, Route>, LoadError> {
    var thread := Text.Strip(item.thread);
    var route := Route(Text.Strip(item.route.channel), Text.Strip(item.route.conversation));
    if thread == "" || route.channel == "" || route.conversation == "" then Err(InvalidRoute)
    else Ok(routes.Put(thread, route))
  }

  function LoadRoutes(items: seq<RouteItem>): Result<Dict<Id, Route>, LoadError> {
    if items == [] then Ok(Empty())
    else
      match LoadRoutes(items[..|items| - 1])
      case Err(e) => Err(e)
      case Ok(routes) => LoadRoute(routes, items[|items| - 1])
  }

  // The route every bound thread implies overrides what was saved.
  function BindingRoutes(routes: Dict<Id, Route>, keys: seq<Route>, vals: map<Route, Binding>): Dict<Id, Route> {
    if keys == [] then routes
    else
      var r := keys[|keys| - 1];
      var before := BindingRoutes(routes, keys[..|keys| - 1], vals);
      if r in vals && vals[r].thread.Some? && vals[r].thread.value != "" then before.Put(vals[r].thread.value, r)
      else before
  }

  function LoadWatch(watches: Dict<Turn, int>, item: WatchItem): Result<Dict<Turn, int>, LoadError> {
    if item.turn.thread == "" || item.turn.turn == "" then Err(InvalidWatch)
    else Ok(watches.Put(item.turn, item.createdAt))
  }

  function LoadWatches(items: seq<WatchItem>): Result<Dict<Turn, int>, LoadError> {
    if items == [] then Ok(Empty())
    else
      match LoadWatches(items[..|items| - 1])
      case Err(e) => Err(e)
      case Ok(watches) => LoadWatch(watches, items[|items| - 1])
  }

  datatype Box = Box(watches: Dict<Turn, int>, outbox: Dict<Id, Pending>, sequence: nat)

  function Max(a: nat, b: nat): nat { if a < b then b else a }

  // An entry without a message is a watch saved in the old format; an entry without an id takes
  // the one in its metadata, or one derived from its message.
  function LoadPending(box: Box, item: PendingItem, position: nat, legacyId: Message -> Id): Result<Box, LoadError> {
    if (item.turn.thread == "") != (item.turn.turn == "") then Err(InvalidPending)
    else if item.message.None? then
      if item.turn.thread == "" then Err(InvalidPending)
      else Ok(box.(watches := box.watches.Put(item.turn, item.createdAt)))
    else
      var message := item.message.value;
      var id :=
        if item.id != "" then item.id
        else if "delivery_id" in message.metadata && message.metadata["delivery_id"] != ""
          then message.metadata["delivery_id"]
        else legacyId(message);
      var sequence := if item.sequence != 0 then item.sequence else position;
      Ok(box.(sequence := Max(box.sequence, sequence),
              outbox := box.outbox.Put(id, Pending(item.turn, message, item.createdAt, sequence))))
  }

  function LoadOutbox(watches: Dict<Turn, int>, items: seq<PendingItem>, legacyId: Message -> Id)
    : Result<Box, LoadError>
  {
    if items == [] then Ok(Box(watches, Empty(), 0))
    else
      match LoadOutbox(watches, items[..|items| - 1], legacyId)
      case Err(e) => Err(e)
      case Ok(box) => LoadPending(box, items[|items| - 1], |items|, legacyId)
  }

  datatype Acked = Acked(acks: Dict<Id, Turn>, outcomes: map<Id, Outcome>)

  function LoadAck(acked: Acked, item: AckItem, watches: Dict<Turn, int>): Result<Acked, LoadError> {
    if item.id == "" || (item.turn.thread == "") != (item.turn.turn == "") then Err(InvalidAck)
    else if item.turn.thread != "" && item.turn !in watches.vals then Ok(acked)
    else
      Ok(Acked(acked.acks.Put(item.id, item.turn),
               if item.turn.thread == "" && item.outcome.Some? then acked.outcomes[item.id := item.outcome.value]
               else acked.outcomes))
  }

  function LoadAcks(items: seq<AckItem>, watches: Dict<Turn, int>): Result<Acked, LoadError> {
    if items == [] then Ok(Acked(Empty(), map[]))
    else
      match LoadAcks(items[..|items| - 1], watches)
      case Err(e) => Err(e)
      case Ok(acked) => LoadAck(acked, items[|items| - 1], watches)
  }

  // `_load` into a new store: what is not in the payload starts empty.
  function Load(p: Payload, legacyId: Message -> Id): Result<State, LoadError> {
    var bindings := LoadBindings(p.bindings);
    match LoadRoutes(p.routes)
    case Err(e) => Err(e)
    case Ok(routes) =>
      match LoadWatches(p.watches)
      case Err(e) => Err(e)
      case Ok(watches) =>
        match LoadOutbox(watches, p.outbox, legacyId)
        case Err(e) => Err(e)
        case Ok(box) =>
          match LoadAcks(p.acks, box.watches)
          case Err(e) => Err(e)
          case Ok(acked) =>
            Ok(Prune(State(bindings, BindingRoutes(routes, bindings.keys, bindings.vals), map[],
                           box.watches, box.outbox, acked.acks, acked.outcomes, box.sequence, map[], {})))
  }
}
