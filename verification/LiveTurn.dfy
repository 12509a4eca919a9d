/**
 The live path of a turn: the buffers of the message pump (src/imcodex/bridge/message_pump.py) as the
 projector drives them (src/imcodex/bridge/projection.py), and why a turn seen live and read back
 from a snapshot delivers the same answers.
 */
module LiveTurn {
  import opened Prelude
  import opened OrderedDict
  import opened Identity
  import opened Wording
  import Text

  datatype TurnBuffer = TurnBuffer(
    deltas: seq<string>,
    commands: seq<string>,
    files: seq<string>,
    completed: set<string>,
    finalText: string,
    finalVisible: bool,
    artifacts: seq<Artifact>,
    errors: seq<string>)

  const EMPTY_BUFFER := TurnBuffer([], [], [], {}, "", false, [], [])
  const EMPTY_COMPLETED_TURN_TEXT := "Codex completed the turn without returning a final message."
  const MAX_ARTIFACTS: nat := 4
  const LIMIT_ERROR := "only 4 outbound artifacts can be delivered per turn"

  type Turn = (string, string)

  // What the live path shows for one event.
  datatype Shown =
    | Nothing
    | Progress(text: string)
    | Answer(text: string, artifacts: seq<Artifact>)
    | TurnMessage(text: string, status: string, artifacts: seq<Artifact>)

  // What an item of another kind than a message says, and what its conversation wants to see.
  datatype Details = Details(command: string, paths: seq<string>, commentary: bool, toolcalls: bool)

  datatype Event = ItemStarted | Delta(text: string) | ItemCompleted(item: Item, itemId: string, details: Details)

  function BufferOf(turns: map<Turn, TurnBuffer>, turn: Turn): TurnBuffer {
    if turn in turns then turns[turn] else EMPTY_BUFFER
  }

  // Work that starts after a visible answer re-opens the output of the turn.
  function Resumed(b: TurnBuffer): TurnBuffer {
    if b.finalVisible then EMPTY_BUFFER.(completed := b.completed) else b
  }

  predicate Seen(b: TurnBuffer, id: string) {
    id != "" && id in b.completed
  }

  function Claimed(b: TurnBuffer, id: string): TurnBuffer {
    if id == "" then b else b.(completed := b.completed + {id})
  }

  function Recorded(b: TurnBuffer, phase: Option<string>, text: string): TurnBuffer {
    if phase == Some("final_answer") then
      if Text.Strip(text) == "" then b else b.(finalText := text, finalVisible := true)
    else if phase == None && text != "" then b.(finalText := text)
    else b
  }

  // ---- Files ----

  // The last component of a path and that without its suffix.
  function FileName(path: string): string {
    if path == "" || path[|path| - 1] == '/' then "" else FileName(path[..|path| - 1]) + [path[|path| - 1]]
  }

  function LastDot(name: string): (i: int)
    ensures -1 <= i < |name|
  {
    if name == "" then -1
    else if name[|name| - 1] == '.' then |name| - 1
    else LastDot(name[..|name| - 1])
  }

  function Stem(path: string): string {
    var name := FileName(path);
    var dot := LastDot(name);
    if 0 < dot < |name| - 1 then name[..dot] else name
  }

  // `merged.update({stem: artifact for artifact in artifacts})`
  function Merged(d: Dict<string, Artifact>, artifacts: seq<Artifact>): Dict<string, Artifact> {
    if artifacts == [] then d
    else
      var last := artifacts[|artifacts| - 1];
      Merged(d, artifacts[..|artifacts| - 1]).Put(Stem(last.path), last)
  }

  function FirstFour<T>(s: seq<T>): seq<T> {
    if |s| > MAX_ARTIFACTS then s[..MAX_ARTIFACTS] else s
  }

  function WithArtifacts(b: TurnBuffer, artifacts: seq<Artifact>, error: string): TurnBuffer {
    var merged := Merged(Merged(Empty(), b.artifacts), artifacts);
    var values := Values(merged);
    var problem := if |values| > MAX_ARTIFACTS then LIMIT_ERROR else error;
    b.(artifacts := FirstFour(values),
       errors := if problem == "" || problem in b.errors then b.errors else b.errors + [problem])
  }

  // `merged.values()`
  function Values(d: Dict<string, Artifact>): seq<Artifact> {
    seq(|d.keys|, i requires 0 <= i < |d.keys| => if d.keys[i] in d.vals then d.vals[d.keys[i]] else Artifact("", ""))
  }

  // What staging a completed item gives; any failure releases all of it.
  function Staged(item: Item): Result<seq<Artifact>, string> {
    if item.staged.Err? || item.kind != "agentMessage" || item.phase != Some("final_answer") then item.staged
    else if item.images.Err? then item.images
    else Ok(item.staged.value + item.images.value)
  }

  function Attached(b: TurnBuffer, item: Item): TurnBuffer {
    match Staged(item)
    case Ok(artifacts) => if artifacts == [] then b else WithArtifacts(b, artifacts, "")
    case Err(error) => WithArtifacts(b, [], error)
  }

  // ---- Texts ----

  function ChangedFiles(files: seq<string>): string {
    List("Changed files:", files)
  }

  function AbortText(status: string): string {
    if status == "interrupted" then "Turn interrupted." else "Turn failed."
  }

  // The text of a turn that ends without a visible answer.
  function EndText(b: TurnBuffer, status: string): string {
    var final := if b.finalText != "" then b.finalText else Join("", b.deltas);
    var files := if b.files == [] then "" else ChangedFiles(Unique(b.files));
    var text :=
      if status == "completed" then final
      else Join("\n", NonEmpty([AbortText(status), final, files]));
    var orCommands := if text == "" then Join("\n", b.commands) else text;
    if status == "completed" && Text.Strip(orCommands) == "" then EMPTY_COMPLETED_TURN_TEXT else orCommands
  }

  function Ended(turns: map<Turn, TurnBuffer>, turn: Turn, status: string): Shown {
    if turn !in turns then
      TurnMessage(if status == "completed" then EMPTY_COMPLETED_TURN_TEXT else AbortText(status), status, [])
    else if status == "completed" && turns[turn].finalVisible then Nothing
    else
      var b := turns[turn];
      TurnMessage(WithErrors(EndText(b, status), b.errors), status, b.artifacts)
  }

  class MessagePump {
    var turns: map<Turn, TurnBuffer>

    constructor ()
      ensures turns == map[]
    {
      turns := map[];
    }

    // `resume_turn_output`
    method ResumeTurnOutput(turn: Turn) returns (resumed: bool)
      modifies this
      ensures resumed == (turn in old(turns) && old(turns)[turn].finalVisible)
      ensures turns == if turn in old(turns) then old(turns)[turn := Resumed(old(turns)[turn])] else old(turns)
    {
      if turn !in turns || !turns[turn].finalVisible {
        return false;
      }
      var buffer := turns[turn];
      buffer := buffer.(deltas := [], commands := [], files := [], finalText := "", finalVisible := false,
                        artifacts := [], errors := []);
      turns := turns[turn := buffer];
      resumed := true;
    }

    // `record_delta` with progress off, as the projector calls it
    method RecordDelta(turn: Turn, delta: string)
      modifies this
      ensures turns == old(turns)[turn := var b := BufferOf(old(turns), turn);
                                          if delta == "" then b else b.(deltas := b.deltas + [delta])]
    {
      var buffer := BufferOf(turns, turn);
      if delta != "" {
        buffer := buffer.(deltas := buffer.deltas + [delta]);
      }
      turns := turns[turn := buffer];
    }

    // `claim_completed_item`: an item without an id is never claimed twice.
    method ClaimCompletedItem(turn: Turn, id: string) returns (claimed: bool)
      modifies this
      ensures claimed == !Seen(BufferOf(old(turns), turn), id)
      ensures turns == if id == "" then old(turns) else old(turns)[turn := Claimed(BufferOf(old(turns), turn), id)]
    {
      if id == "" {
        return true;
      }
      var buffer := BufferOf(turns, turn);
      claimed := id !in buffer.completed;
      buffer := buffer.(completed := buffer.completed + {id});
      turns := turns[turn := buffer];
    }

    // `record_artifacts`
    method RecordArtifacts(turn: Turn, artifacts: seq<Artifact>, error: string)
      modifies this
      ensures turns == old(turns)[turn := WithArtifacts(BufferOf(old(turns), turn), artifacts, error)]
    {
      var buffer := BufferOf(turns, turn);
      var merged := Merge(Empty(), buffer.artifacts);
      merged := Merge(merged, artifacts);
      var values := Values(merged);
      var problem := error;
      if |values| > MAX_ARTIFACTS {
        problem := LIMIT_ERROR;
      }
      buffer := buffer.(artifacts := FirstFour(values));
      if problem != "" && problem !in buffer.errors {
        buffer := buffer.(errors := buffer.errors + [problem]);
      }
      turns := turns[turn := buffer];
    }

    // `record_agent_message`
    method RecordAgentMessage(turn: Turn, phase: Option<string>, text: string, emitCommentary: bool)
        returns (shown: Shown)
      modifies this
      ensures turns == old(turns)[turn := Recorded(BufferOf(old(turns), turn), phase, text)]
      ensures shown.Answer? <==> phase == Some("final_answer") && Text.Strip(text) != ""
      ensures shown.Answer? ==>
        var b := BufferOf(old(turns), turn); Reports(shown.text, text, b.errors) && shown.artifacts == b.artifacts
      ensures shown.Progress? <==>
        phase != Some("final_answer") && text != "" && emitCommentary && !BufferOf(old(turns), turn).finalVisible
      ensures shown.Progress? ==> shown.text == text
      ensures !shown.TurnMessage?
    {
      hide Text.Strip, WithErrors, Reports;
      var buffer := BufferOf(turns, turn);
      ErrorsAreReported(text, buffer.errors);
      if phase == Some("final_answer") {
        if Text.Strip(text) == "" {
          turns := turns[turn := buffer];
          return Nothing;
        }
        turns := turns[turn := buffer.(finalText := text, finalVisible := true)];
        return Answer(WithErrors(text, buffer.errors), buffer.artifacts);
      }
      turns := turns[turn := buffer];
      if phase == None && text != "" {
        turns := turns[turn := buffer.(finalText := text)];
      }
      if text == "" || !emitCommentary || buffer.finalVisible {
        return Nothing;
      }
      shown := Progress(text);
    }

    // `record_command`
    method RecordCommand(turn: Turn, command: string, emitProgress: bool) returns (shown: Shown)
      modifies this
      ensures turns == old(turns)[turn := WithCommand(BufferOf(old(turns), turn), command)]
      ensures shown == if emitProgress && !BufferOf(old(turns), turn).finalVisible
                       then Progress(Executed(command)) else Nothing
    {
      var buffer := BufferOf(turns, turn);
      turns := turns[turn := buffer.(commands := buffer.commands + [Executed(command)])];
      shown := if !emitProgress || buffer.finalVisible then Nothing else Progress(Executed(command));
    }

    // `record_file_change`
    method RecordFileChange(turn: Turn, paths: seq<string>, emitProgress: bool) returns (shown: Shown)
      modifies this
      ensures turns == old(turns)[turn := WithFiles(BufferOf(old(turns), turn), paths)]
      ensures shown == if paths != [] && emitProgress && !BufferOf(old(turns), turn).finalVisible
                       then Progress(ChangedFiles(paths)) else Nothing
    {
      var buffer := BufferOf(turns, turn);
      turns := turns[turn := buffer.(files := buffer.files + paths)];
      shown := if paths == [] || !emitProgress || buffer.finalVisible then Nothing else Progress(ChangedFiles(paths));
    }

    // `finalize_turn`
    method FinalizeTurn(turn: Turn, status: string) returns (shown: Shown)
      modifies this
      ensures turns == old(turns) - {turn}
      ensures shown == Ended(old(turns), turn, status)
      ensures forall events :: BufferOf(old(turns), turn) == Run(events) ==> Concludes(shown, events, status)
    {
      forall events | BufferOf(turns, turn) == Run(events)
        ensures Concludes(Ended(turns, turn, status), events, status)
      {
        EndsExactly(turns, turn, events, status);
      }
      if turn !in turns {
        var text := if status == "completed" then EMPTY_COMPLETED_TURN_TEXT else AbortText(status);
        turns := turns - {turn};
        return TurnMessage(text, status, []);
      }
      var buffer := turns[turn];
      turns := turns - {turn};
      if status == "completed" && buffer.finalVisible {
        return Nothing;
      }
      shown := TurnMessage(WithErrors(EndText(buffer, status), buffer.errors), status, buffer.artifacts);
    }

    // One event of a turn that is not suppressed: `item_started`, `agent_delta` and
    // `_capture_item_completed`.
    method Handle(turn: Turn, e: Event) returns (shown: Shown)
      modifies this
      ensures BufferOf(turns, turn) == Next(BufferOf(old(turns), turn), e)
      ensures shown.Answer? <==> ShowsAnswer(BufferOf(old(turns), turn), e)
      ensures shown.Answer? ==>
        var b := BufferOf(turns, turn);
        Reports(shown.text, e.item.text, b.errors) && shown.artifacts == b.artifacts
      ensures shown.Progress? <==> ShowsProgress(BufferOf(old(turns), turn), e)
      ensures shown.Progress? ==> Tells(shown.text, e.item, e.details)
      ensures !shown.TurnMessage?
      ensures forall other :: other != turn ==> BufferOf(turns, other) == BufferOf(old(turns), other)
    {
      hide WithErrors, WithArtifacts, Text.Strip, Recorded, ChangedFiles, Executed, Reports, Tells;
      match e
      case ItemStarted =>
        var _ := ResumeTurnOutput(turn);
        shown := Nothing;
      case Delta(text) =>
        RecordDelta(turn, text);
        shown := Nothing;
      case ItemCompleted(item, itemId, details) =>
        var claimed := ClaimCompletedItem(turn, NativeId(item, itemId));
        if !claimed {
          return Nothing;
        }
        ProgressTells(item, details);
        FilesStayHidden(BufferOf(turns, turn), item);
        RecordFiles(turn, item);
        KeepsFiles(BufferOf(turns, turn), item.phase, item.text);
        shown := Nothing;
        if item.kind == "agentMessage" {
          shown := RecordAgentMessage(turn, item.phase, item.text, details.commentary);
        } else if item.kind == "commandExecution" {
          if details.command != "" {
            shown := RecordCommand(turn, details.command, details.toolcalls);
          }
        } else if item.kind == "fileChange" {
          shown := RecordFileChange(turn, details.paths, details.toolcalls);
        }
    }

    // The staging part of `_capture_item_completed`.
    method RecordFiles(turn: Turn, item: Item)
      modifies this
      ensures turns == old(turns) || turns == old(turns)[turn := Attached(BufferOf(old(turns), turn), item)]
      ensures BufferOf(turns, turn) == Attached(BufferOf(old(turns), turn), item)
    {
      hide WithArtifacts;
      match Staged(item)
      case Ok(artifacts) =>
        if artifacts != [] {
          RecordArtifacts(turn, artifacts, "");
        }
      case Err(error) =>
        RecordArtifacts(turn, [], error);
    }
  }

  method Merge(d: Dict<string, Artifact>, artifacts: seq<Artifact>) returns (merged: Dict<string, Artifact>)
    ensures merged == Merged(d, artifacts)
  {
    merged := d;
    assert artifacts[..0] == [];
    for i := 0 to |artifacts|
      invariant merged == Merged(d, artifacts[..i])
    {
      assert artifacts[..i + 1][..i] == artifacts[..i];
      merged := merged.Put(Stem(artifacts[i].path), artifacts[i]);
    }
    assert artifacts[..|artifacts|] == artifacts;
  }

  lemma FilesStayHidden(b: TurnBuffer, item: Item)
    ensures Attached(b, item) == b.(artifacts := Attached(b, item).artifacts, errors := Attached(b, item).errors)
  {
  }

  lemma KeepsFiles(b: TurnBuffer, phase: Option<string>, text: string)
    ensures Recorded(b, phase, text)
         == b.(finalText := Recorded(b, phase, text).finalText, finalVisible := Recorded(b, phase, text).finalVisible)
  {
  }

  // ---- A whole turn ----

  function Executed(command: string): string {
    "Executed `" + command + "`"
  }

  function WithCommand(b: TurnBuffer, command: string): TurnBuffer {
    b.(commands := b.commands + [Executed(command)])
  }

  function WithFiles(b: TurnBuffer, paths: seq<string>): TurnBuffer {
    b.(files := b.files + paths)
  }

  // What progress says about an item: the commentary itself, the command, or every changed file.
  ghost predicate Tells(text: string, item: Item, details: Details) {
    match item.kind
    case "agentMessage" => text == item.text
    case "commandExecution" => text == "Executed `" + details.command + "`"
    case "fileChange" => text == Lined("Changed files:", details.paths)
    case _ => false
  }

  lemma ProgressTells(item: Item, details: Details)
    ensures item.kind == "agentMessage" ==> Tells(item.text, item, details)
    ensures item.kind == "commandExecution" ==> Tells(Executed(details.command), item, details)
    ensures item.kind == "fileChange" ==> Tells(ChangedFiles(details.paths), item, details)
  {
    ListIsLined("Changed files:", details.paths);
  }

  // A claimed item leaves its files and what its kind says.
  function Captured(b: TurnBuffer, item: Item, details: Details): TurnBuffer {
    var filed := Attached(b, item);
    if item.kind == "agentMessage" then Recorded(filed, item.phase, item.text)
    else if item.kind == "commandExecution" && details.command != "" then WithCommand(filed, details.command)
    else if item.kind == "fileChange" then WithFiles(filed, details.paths)
    else filed
  }

  function Next(b: TurnBuffer, e: Event): TurnBuffer {
    match e
    case ItemStarted => Resumed(b)
    case Delta(text) => if text == "" then b else b.(deltas := b.deltas + [text])
    case ItemCompleted(item, itemId, details) =>
      var id := NativeId(item, itemId);
      if Seen(b, id) then b else Captured(Claimed(b, id), item, details)
  }

  // The event shows an answer.
  predicate ShowsAnswer(b: TurnBuffer, e: Event) {
    e.ItemCompleted? && IsAnswer(e.item) && !Seen(b, NativeId(e.item, e.itemId))
  }

  // The event shows progress; behind a visible answer none does.
  predicate ShowsProgress(b: TurnBuffer, e: Event) {
    && e.ItemCompleted? && !Seen(b, NativeId(e.item, e.itemId)) && !b.finalVisible
    && match e.item.kind {
         case "agentMessage" => e.item.phase != Some("final_answer") && e.item.text != "" && e.details.commentary
         case "commandExecution" => e.details.command != "" && e.details.toolcalls
         case "fileChange" => e.details.paths != [] && e.details.toolcalls
         case _ => false
       }
  }

  function Run(events: seq<Event>): TurnBuffer {
    if events == [] then EMPTY_BUFFER else Next(Run(events[..|events| - 1]), events[|events| - 1])
  }

  // The answers shown live, as identities.
  function Delivered(n: Naming, turn: Turn, events: seq<Event>): seq<Identity> {
    if events == [] then []
    else
      var front, e := events[..|events| - 1], events[|events| - 1];
      Delivered(n, turn, front)
      + if ShowsAnswer(Run(front), e) then [AnswerIdentity(n, turn.0, turn.1, e.item, e.itemId)] else []
  }

  // The items of the turn as a snapshot lists them: each one once, where it first completed.
  function Snapshot(events: seq<Event>): seq<Item> {
    if events == [] then []
    else
      var front, e := events[..|events| - 1], events[|events| - 1];
      Snapshot(front) + if e.ItemCompleted? && !CompletedIn(front, e.item.id) then [e.item] else []
  }

  predicate CompletedIn(events: seq<Event>, id: string) {
    exists k :: 0 <= k < |events| && events[k].ItemCompleted? && events[k].item.id == id
  }

  predicate OwnIds(events: seq<Event>) {
    forall k :: 0 <= k < |events| && events[k].ItemCompleted? ==> events[k].item.id != ""
  }

  lemma {:induction false} ClaimedItems(events: seq<Event>, id: string)
    requires OwnIds(events)
    ensures id in Run(events).completed <==> CompletedIn(events, id)
  {
    hide IsAnswer, Captured;
    if events != [] {
      var front, e := events[..|events| - 1], events[|events| - 1];
      assert OwnIds(front);
      ClaimedItems(front, id);
      if CompletedIn(front, id) {
        var k :| 0 <= k < |front| && front[k].ItemCompleted? && front[k].item.id == id;
        assert events[k] == front[k];
      }
      if e.ItemCompleted? {
        CapturedKeepsCompleted(Claimed(Run(front), e.item.id), e.item, e.details);
      }
      if CompletedIn(events, id) {
        var k :| 0 <= k < |events| && events[k].ItemCompleted? && events[k].item.id == id;
        assert k < |front| ==> front[k] == events[k];
      }
    }
  }

  lemma CapturedKeepsCompleted(b: TurnBuffer, item: Item, details: Details)
    ensures Captured(b, item, details).completed == b.completed
    ensures Captured(b, item, details).deltas == b.deltas
  {
    hide WithArtifacts, Text.Strip;
    FilesStayHidden(b, item);
  }

  // A turn delivers the same answers, in the same order and under the same ids, whether it is seen
  // live, with any replays of its items, or read back from a snapshot.
  lemma {:induction false} LiveDeliversTheSnapshot(n: Naming, turn: Turn, events: seq<Event>)
    requires OwnIds(events)
    ensures Delivered(n, turn, events)
         == AnswerIdentities(n, turn.0, turn.1, Answers(Snapshot(events)))
  {
    hide IsAnswer, ItemDeliveryId, Run;
    if events != [] {
      var front, e := events[..|events| - 1], events[|events| - 1];
      assert OwnIds(front);
      LiveDeliversTheSnapshot(n, turn, front);
      if e.ItemCompleted? {
        ClaimedItems(front, e.item.id);
        assert e.item.id != "";
        var items := Snapshot(front);
        assert (items + [e.item])[..|items|] == items;
        IdentitiesAppend(n, turn, Answers(items), e.item, e.itemId);
        if CompletedIn(front, e.item.id) {
          assert Snapshot(events) == items;
        } else {
          assert Snapshot(events) == items + [e.item];
          assert Answers(items + [e.item]) == Answers(items) + if IsAnswer(e.item) then [e.item] else [];
        }
      } else {
        assert Snapshot(events) == Snapshot(front);
      }
    }
  }

  lemma IdentitiesAppend(n: Naming, turn: Turn, answers: seq<Item>, item: Item, itemId: string)
    requires item.id != ""
    ensures AnswerIdentities(n, turn.0, turn.1, answers + [item])
         == AnswerIdentities(n, turn.0, turn.1, answers) + [AnswerIdentity(n, turn.0, turn.1, item, itemId)]
    ensures answers + [] == answers
  {
    hide ItemDeliveryId;
  }

  // Some answer was shown and no work started after it.
  predicate EndsVisibly(events: seq<Event>) {
    exists k ::
      && 0 <= k < |events| && ShowsAnswer(Run(events[..k]), events[k])
      && forall j :: k < j < |events| ==> !events[j].ItemStarted?
  }

  lemma {:induction false} VisibleIsRemembered(events: seq<Event>)
    ensures Run(events).finalVisible <==> EndsVisibly(events)
  {
    hide Run, ShowsAnswer, Next;
    if events == [] {
      RunNothing();
    } else {
      var front, e := events[..|events| - 1], events[|events| - 1];
      VisibleIsRemembered(front);
      RunLast(events);
      NextVisible(Run(front), e);
      if EndsVisibly(front) && !e.ItemStarted? {
        var k :| 0 <= k < |front| && ShowsAnswer(Run(front[..k]), front[k])
                 && forall j :: k < j < |front| ==> !front[j].ItemStarted?;
        assert events[..k] == front[..k] && events[k] == front[k];
      }
      if EndsVisibly(events) {
        var k :| 0 <= k < |events| && ShowsAnswer(Run(events[..k]), events[k])
                 && forall j :: k < j < |events| ==> !events[j].ItemStarted?;
        if k < |front| {
          assert events[..k] == front[..k] && events[k] == front[k];
          assert EndsVisibly(front);
        }
      }
      if ShowsAnswer(Run(front), e) {
        assert events[..|front|] == front;
      }
    }
  }

  lemma RunNothing()
    ensures !Run([]).finalVisible
  {
  }

  lemma RunLast(events: seq<Event>)
    requires events != []
    ensures Run(events) == Next(Run(events[..|events| - 1]), events[|events| - 1])
  {
  }

  lemma NextVisible(b: TurnBuffer, e: Event)
    ensures Next(b, e).finalVisible <==> ShowsAnswer(b, e) || (b.finalVisible && !e.ItemStarted?)
  {
    hide Text.Strip, WithArtifacts;
    if e.ItemCompleted? { FilesStayHidden(Claimed(b, NativeId(e.item, e.itemId)), e.item); }
  }

  // Where the output of the turn was last re-opened: after work that started behind a shown answer.
  function Reopened(events: seq<Event>): (n: nat)
    ensures n <= |events|
  {
    if events == [] then 0
    else if events[|events| - 1].ItemStarted? && EndsVisibly(events[..|events| - 1]) then |events|
    else Reopened(events[..|events| - 1])
  }

  function Deltas(events: seq<Event>): seq<string> {
    if events == [] then []
    else
      var e := events[|events| - 1];
      Deltas(events[..|events| - 1]) + if e.Delta? && e.text != "" then [e.text] else []
  }

  // The buffer keeps exactly the text streamed since the output was last re-opened.
  lemma {:induction false} DeltasSinceReopening(events: seq<Event>)
    ensures Run(events).deltas == Deltas(events[Reopened(events)..])
  {
    hide Run, EndsVisibly, IsAnswer, Deltas;
    DeltasOfNone();
    if events == [] {
      RunStartsEmpty();
    } else {
      var front, e := events[..|events| - 1], events[|events| - 1];
      DeltasSinceReopening(front);
      RunLast(events);
      VisibleIsRemembered(front);
      NextDeltas(Run(front), e);
      if e.ItemStarted? && EndsVisibly(front) {
        assert events[Reopened(events)..] == [];
      } else {
        assert events[Reopened(events)..] == front[Reopened(front)..] + [e];
        DeltasAppend(front[Reopened(front)..], e);
      }
    }
  }

  lemma DeltasOfNone()
    ensures Deltas([]) == []
  {
  }

  lemma RunStartsEmpty()
    ensures Run([]) == EMPTY_BUFFER
  {
  }

  lemma DeltasAppend(events: seq<Event>, e: Event)
    ensures Deltas(events + [e]) == Deltas(events) + if e.Delta? && e.text != "" then [e.text] else []
  {
    assert (events + [e])[..|events|] == events;
  }

  lemma NextDeltas(b: TurnBuffer, e: Event)
    ensures Next(b, e).deltas
         == if e.ItemStarted? && b.finalVisible then []
            else b.deltas + if e.Delta? && e.text != "" then [e.text] else []
  {
    hide Captured;
    if e.ItemCompleted? {
      var id := NativeId(e.item, e.itemId);
      CapturedKeepsCompleted(Claimed(b, id), e.item, e.details);
    }
  }

  // ---- Files over a whole turn ----

  // The files the completed items offered since the output was last re-opened.
  function Offered(events: seq<Event>): seq<Artifact> {
    if events == [] then []
    else
      var front, e := events[..|events| - 1], events[|events| - 1];
      if e.ItemStarted? && EndsVisibly(front) then []
      else Offered(front) + if e.ItemCompleted? && !Seen(Run(front), NativeId(e.item, e.itemId))
                            then FilesOf(e.item) else []
  }

  function FilesOf(item: Item): seq<Artifact> {
    if Staged(item).Ok? then Staged(item).value else []
  }

  function Part(keys: seq<string>, vals: map<string, Artifact>): Dict<string, Artifact> {
    Dict(keys, map k | k in vals && k in keys :: vals[k])
  }

  // The first four entries.
  function Trimmed(d: Dict<string, Artifact>): Dict<string, Artifact> {
    Part(FirstFour(d.keys), d.vals)
  }

  ghost predicate Stemmed(d: Dict<string, Artifact>) {
    d.Valid() && forall k :: k in d.vals ==> Stem(d.vals[k].path) == k
  }

  lemma TrimmedIsStemmed(d: Dict<string, Artifact>)
    requires Stemmed(d)
    ensures Stemmed(Trimmed(d)) && Values(Trimmed(d)) == FirstFour(Values(d))
  {
    hide Stem;
    forall k | k in FirstFour(d.keys) ensures k in d.vals { assert k in d.keys; }
  }

  // Trimming before an update makes no difference to the first four.
  lemma TrimmedPut(d: Dict<string, Artifact>, k: string, v: Artifact)
    requires Stemmed(d)
    ensures Trimmed(Trimmed(d).Put(k, v)) == Trimmed(d.Put(k, v))
    ensures d.Put(k, v).Valid()
  {
    d.PutValid(k, v);
    var kept := FirstFour(d.keys);
    if |d.keys| > MAX_ARTIFACTS {
      KeptOfPut(d.keys, k, k in d.vals);
      KeptOfPut(kept, k, k in Trimmed(d).vals);
      hide FirstFour, Part;
      PartTwice(d.vals, kept, k, v);
    } else {
      TrimmedTwice(d);
    }
  }

  lemma PartTwice(vals: map<string, Artifact>, keys: seq<string>, k: string, v: Artifact)
    ensures Part(keys, Part(keys, vals).vals[k := v]) == Part(keys, vals[k := v])
  {
    assert Part(keys, Part(keys, vals).vals[k := v]).vals == Part(keys, vals[k := v]).vals;
  }

  lemma KeptOfPut(keys: seq<string>, k: string, present: bool)
    requires |keys| >= MAX_ARTIFACTS
    ensures FirstFour(if present then keys else keys + [k]) == FirstFour(keys) == keys[..MAX_ARTIFACTS]
  {
  }

  lemma {:induction false} TrimmedMerge(d: Dict<string, Artifact>, artifacts: seq<Artifact>)
    requires Stemmed(d) && Stemmed(Trimmed(d))
    ensures Stemmed(Merged(d, artifacts)) && Stemmed(Merged(Trimmed(d), artifacts))
    ensures Trimmed(Merged(Trimmed(d), artifacts)) == Trimmed(Merged(d, artifacts))
    ensures |d.keys| <= MAX_ARTIFACTS ==> Merged(Trimmed(d), artifacts) == Merged(d, artifacts)
  {
    hide Stem, Trimmed, Merged, Stemmed;
    if artifacts == [] {
      TrimmedTwice(d);
      MergedNothing(d);
      MergedNothing(Trimmed(d));
    } else {
      var front, last := artifacts[..|artifacts| - 1], artifacts[|artifacts| - 1];
      TrimmedMerge(d, front);
      MergedLast(d, artifacts);
      MergedLast(Trimmed(d), artifacts);
      StemmedPut(Merged(d, front), last);
      StemmedPut(Merged(Trimmed(d), front), last);
      TrimmedPut(Merged(d, front), Stem(last.path), last);
      TrimmedPut(Merged(Trimmed(d), front), Stem(last.path), last);
    }
  }

  lemma MergedLast(d: Dict<string, Artifact>, artifacts: seq<Artifact>)
    requires artifacts != []
    ensures var last := artifacts[|artifacts| - 1];
      Merged(d, artifacts) == Merged(d, artifacts[..|artifacts| - 1]).Put(Stem(last.path), last)
  {
  }

  lemma MergedNothing(d: Dict<string, Artifact>)
    ensures Merged(d, []) == d
  {
  }

  lemma StemmedPut(d: Dict<string, Artifact>, v: Artifact)
    requires Stemmed(d)
    ensures Stemmed(d.Put(Stem(v.path), v)) && d.Valid()
  {
    hide Stem;
    d.PutValid(Stem(v.path), v);
  }

  lemma TrimmedTwice(d: Dict<string, Artifact>)
    requires Stemmed(d)
    ensures Trimmed(Trimmed(d)) == Trimmed(d)
    ensures |d.keys| <= MAX_ARTIFACTS ==> Trimmed(d) == d
  {
    assert Trimmed(Trimmed(d)).vals == Trimmed(d).vals;
    if |d.keys| <= MAX_ARTIFACTS { assert Trimmed(d).vals == d.vals; }
  }

  // The list of a buffer gives back the dictionary it came from.
  lemma {:induction false} Rebuilt(d: Dict<string, Artifact>, n: nat)
    requires Stemmed(d) && n <= |d.keys|
    ensures Merged(Empty(), Values(d)[..n]) == Part(d.keys[..n], d.vals)
  {
    hide Stem, Merged, Part;
    if n == 0 {
      MergedNothing(Empty());
      PartNone(d.keys, d.vals);
    } else {
      Rebuilt(d, n - 1);
      var k := d.keys[n - 1];
      assert k in d.keys && k !in d.keys[..n - 1];
      assert Values(d)[..n][..n - 1] == Values(d)[..n - 1] && Values(d)[..n][n - 1] == d.vals[k];
      MergedLast(Empty(), Values(d)[..n]);
      assert d.keys[..n] == d.keys[..n - 1] + [k];
      PartPut(d.keys[..n - 1], k, d.vals);
    }
  }

  lemma PartNone(keys: seq<string>, vals: map<string, Artifact>)
    ensures Part(keys[..0], vals) == Empty()
  {
    assert Part(keys[..0], vals).vals == map[];
  }

  lemma PartPut(keys: seq<string>, k: string, vals: map<string, Artifact>)
    requires k in vals && k !in keys
    ensures Part(keys, vals).Put(k, vals[k]) == Part(keys + [k], vals)
  {
    assert Part(keys, vals).Put(k, vals[k]).vals == Part(keys + [k], vals).vals;
  }

  lemma RebuiltAll(d: Dict<string, Artifact>)
    requires Stemmed(d)
    ensures Merged(Empty(), Values(d)) == d
  {
    hide Stem, Merged;
    Rebuilt(d, |d.keys|);
    assert Values(d)[..|d.keys|] == Values(d) && d.keys[..|d.keys|] == d.keys;
    PartAll(d);
  }

  lemma PartAll(d: Dict<string, Artifact>)
    requires d.Valid()
    ensures Part(d.keys, d.vals) == d
  {
    assert Part(d.keys, d.vals).vals == d.vals;
  }

  // The buffer holds the first four of these, and says so when there are more.
  ghost predicate Keeps(b: TurnBuffer, d: Dict<string, Artifact>) {
    && Stemmed(d)
    && b.artifacts == FirstFour(Values(d))
    && (|d.keys| > MAX_ARTIFACTS ==> LIMIT_ERROR in b.errors)
  }

  lemma AttachedKeeps(b: TurnBuffer, d: Dict<string, Artifact>, item: Item)
    requires Keeps(b, d)
    ensures Keeps(Attached(b, item), Merged(d, FilesOf(item)))
  {
    hide Staged, WithArtifacts, Merged, Keeps;
    var files := FilesOf(item);
    if files == [] && Staged(item).Ok? {
      MergedNothing(d);
    } else {
      var error := if Staged(item).Err? then Staged(item).error else "";
      WithArtifactsKeeps(b, d, files, error);
    }
  }

  lemma WithArtifactsKeeps(b: TurnBuffer, d: Dict<string, Artifact>, files: seq<Artifact>, error: string)
    requires Keeps(b, d)
    ensures Keeps(WithArtifacts(b, files, error), Merged(d, files))
  {
    TrimmedIsStemmed(d);
    hide *;
    BufferRebuilt(b, d);
    TrimmedMerge(d, files);
    TrimmedIsStemmed(Merged(d, files));
    TrimmedIsStemmed(Merged(Trimmed(d), files));
    MergedGrows(d, files);
    WithArtifactsIs(b, d, files, error, Merged(Trimmed(d), files), Merged(d, files));
  }

  lemma BufferRebuilt(b: TurnBuffer, d: Dict<string, Artifact>)
    requires Keeps(b, d) && Stemmed(Trimmed(d)) && Values(Trimmed(d)) == FirstFour(Values(d))
    ensures Stemmed(d) && Merged(Empty(), b.artifacts) == Trimmed(d)
  {
    hide Merged, Stemmed, Trimmed, Values, FirstFour;
    RebuiltAll(Trimmed(d));
  }

  lemma WithArtifactsIs(b: TurnBuffer, d: Dict<string, Artifact>, files: seq<Artifact>, error: string,
      merged: Dict<string, Artifact>, d': Dict<string, Artifact>)
    requires Keeps(b, d) && merged == Merged(Merged(Empty(), b.artifacts), files) && d' == Merged(d, files)
    requires Stemmed(d') && |d.keys| <= |d'.keys| && (|d.keys| <= MAX_ARTIFACTS ==> merged == d')
    requires FirstFour(Values(merged)) == FirstFour(Values(d'))
    ensures Keeps(WithArtifacts(b, files, error), d')
  {
    hide Merged, Stemmed, FirstFour;
    assert |Values(merged)| == |merged.keys|;
  }

  lemma {:induction false} MergedGrows(d: Dict<string, Artifact>, artifacts: seq<Artifact>)
    ensures |d.keys| <= |Merged(d, artifacts).keys|
  {
    if artifacts != [] { MergedGrows(d, artifacts[..|artifacts| - 1]); }
  }

  lemma {:induction false} MergedConcat(d: Dict<string, Artifact>, a: seq<Artifact>, b: seq<Artifact>)
    ensures Merged(d, a + b) == Merged(Merged(d, a), b)
  {
    hide Stem;
    if b == [] {
      assert a + b == a;
    } else {
      var front := b[..|b| - 1];
      assert (a + b)[..|a + b| - 1] == a + front;
      MergedConcat(d, a, front);
    }
  }

  /** The files an answer or a turn message carries are, of all files offered since the output was last
      re-opened, those with the first four stems, each as it was offered last; and when there are
      more, the message says so. Trimming after every item loses nothing else. */
  lemma {:induction false} KeepsFirstFour(events: seq<Event>)
    ensures var offered := Merged(Empty(), Offered(events));
            && Stemmed(offered)
            && Run(events).artifacts == FirstFour(Values(offered))
            && (|offered.keys| > MAX_ARTIFACTS ==> LIMIT_ERROR in Run(events).errors)
  {
    hide Run, EndsVisibly, IsAnswer, Next, FilesOf, Attached, Merged, Stem, Captured;
    MergedNothing(Empty());
    if events == [] {
      RunStartsEmpty();
    } else {
      var front, e := events[..|events| - 1], events[|events| - 1];
      KeepsFirstFour(front);
      RunLast(events);
      VisibleIsRemembered(front);
      var b, d := Run(front), Merged(Empty(), Offered(front));
      assert Keeps(b, d);
      assert Offered(front) + [] == Offered(front);
      if e.ItemCompleted? && !Seen(b, NativeId(e.item, e.itemId)) {
        MergedConcat(Empty(), Offered(front), FilesOf(e.item));
        AttachedKeeps(Claimed(b, NativeId(e.item, e.itemId)), d, e.item);
        CapturedFiles(b, e);
      } else {
        OtherFiles(b, e);
      }
    }
  }

  function Stems(artifacts: seq<Artifact>): (r: seq<string>)
    ensures |r| == |artifacts|
  {
    seq(|artifacts|, i requires 0 <= i < |artifacts| => Stem(artifacts[i].path))
  }

  // The last of the files with this stem.
  ghost predicate IsLastOf(a: Artifact, artifacts: seq<Artifact>, stem: string) {
    exists i :: 0 <= i < |artifacts| && artifacts[i] == a && Stems(artifacts)[i] == stem
                && stem !in Stems(artifacts)[i + 1..]
  }

  lemma LastOfGrows(a: Artifact, artifacts: seq<Artifact>, last: Artifact, stem: string)
    ensures Stem(last.path) == stem ==> IsLastOf(last, artifacts + [last], stem)
    ensures IsLastOf(a, artifacts, stem) && Stem(last.path) != stem ==> IsLastOf(a, artifacts + [last], stem)
  {
    hide Stem;
    var all := artifacts + [last];
    assert Stems(all) == Stems(artifacts) + [Stem(last.path)];
    if Stem(last.path) == stem {
      assert all[|artifacts|] == last && Stems(all)[|artifacts| + 1..] == [];
    } else if IsLastOf(a, artifacts, stem) {
      var i :| 0 <= i < |artifacts| && artifacts[i] == a && Stems(artifacts)[i] == stem
               && stem !in Stems(artifacts)[i + 1..];
      assert Stems(all)[i + 1..] == Stems(artifacts)[i + 1..] + [Stem(last.path)];
      assert all[i] == a;
    }
  }

  /** Of all files offered there is one for each stem, the last one, in the order in which the stems first
      came. */
  lemma {:induction false} MergedExactly(artifacts: seq<Artifact>)
    ensures var d := Merged(Empty(), artifacts);
      && d.keys == Unique(Stems(artifacts))
      && (forall k :: k in d.vals <==> k in Stems(artifacts))
      && (forall k :: k in d.vals ==> IsLastOf(d.vals[k], artifacts, k))
  {
    hide Stem, IsLastOf;
    var d := Merged(Empty(), artifacts);
    if artifacts != [] {
      var front, last := artifacts[..|artifacts| - 1], artifacts[|artifacts| - 1];
      MergedExactly(front);
      assert artifacts == front + [last];
      assert Stems(artifacts)[..|front|] == Stems(front);
      assert Stems(artifacts) == Stems(front) + [Stem(last.path)];
      forall k | k in d.vals ensures IsLastOf(d.vals[k], artifacts, k) {
        LastOfGrows(d.vals[k], front, last, k);
      }
    }
  }

  /** No error is told twice. */
  lemma {:induction false} ErrorsOnce(events: seq<Event>)
    ensures Distinct(Run(events).errors)
  {
    hide Run, Next;
    if events == [] {
      RunStartsEmpty();
    } else {
      var front, e := events[..|events| - 1], events[|events| - 1];
      ErrorsOnce(front);
      RunLast(events);
      if e.ItemCompleted? && !Seen(Run(front), NativeId(e.item, e.itemId)) {
        CapturedFiles(Run(front), e);
        AttachedErrorsOnce(Claimed(Run(front), NativeId(e.item, e.itemId)), e.item);
      } else {
        OtherFiles(Run(front), e);
      }
    }
  }

  lemma AttachedErrorsOnce(b: TurnBuffer, item: Item)
    requires Distinct(b.errors)
    ensures Distinct(Attached(b, item).errors)
  {
    hide Merged, Values, FirstFour, Staged;
  }

  lemma CapturedFiles(b: TurnBuffer, e: Event)
    requires e.ItemCompleted? && !Seen(b, NativeId(e.item, e.itemId))
    ensures var filed := Attached(Claimed(b, NativeId(e.item, e.itemId)), e.item);
      Next(b, e).artifacts == filed.artifacts && Next(b, e).errors == filed.errors
  {
    hide Attached, Text.Strip;
  }

  lemma OtherFiles(b: TurnBuffer, e: Event)
    requires !(e.ItemCompleted? && !Seen(b, NativeId(e.item, e.itemId)))
    ensures if e.ItemStarted? && b.finalVisible then Next(b, e).artifacts == [] && Next(b, e).errors == []
            else Next(b, e).artifacts == b.artifacts && Next(b, e).errors == b.errors
  {
  }

  // Staging the files of a claimed item failed with this error since the output was last re-opened.
  predicate FailedSince(events: seq<Event>, error: string) {
    if events == [] then false
    else
      var front, e := events[..|events| - 1], events[|events| - 1];
      if e.ItemStarted? && EndsVisibly(front) then false
      else FailedSince(front, error)
           || (e.ItemCompleted? && !Seen(Run(front), NativeId(e.item, e.itemId)) && FailsWith(e.item, error))
  }

  // The item's own files could not be staged, or those of the images of a final answer.
  predicate FailsWith(item: Item, error: string) {
    || item.staged == Err(error)
    || (item.staged.Ok? && item.kind == "agentMessage" && item.phase == Some("final_answer")
        && item.images == Err(error))
  }

  lemma ErrorsAfter(b: TurnBuffer, d: Dict<string, Artifact>, item: Item, error: string)
    requires Keeps(b, d) && error != ""
    ensures error in Attached(b, item).errors <==>
      || error in b.errors || FailsWith(item, error)
      || (error == LIMIT_ERROR && |Merged(d, FilesOf(item)).keys| > 4)
  {
    var files := FilesOf(item);
    MergedNothing(d);
    StagedExactly(item);
    LimitIsKept(b, d);
    hide WithArtifacts, Merged, Keeps;
    if Staged(item).Err? {
      WithArtifactsErrors(b, d, [], Staged(item).error, error);
    } else if files != [] {
      WithArtifactsErrors(b, d, files, "", error);
    }
  }

  lemma LimitIsKept(b: TurnBuffer, d: Dict<string, Artifact>)
    requires Keeps(b, d)
    ensures |d.keys| > 4 ==> LIMIT_ERROR in b.errors
  {
  }

  lemma WithArtifactsErrors(
      b: TurnBuffer, d: Dict<string, Artifact>, files: seq<Artifact>, failure: string, error: string)
    requires Keeps(b, d) && error != "" && (failure == "" || files == [])
    ensures error in WithArtifacts(b, files, failure).errors <==>
      error in b.errors || error == failure || (error == LIMIT_ERROR && |Merged(d, files).keys| > 4)
  {
    LimitIsKept(b, d);
    MergedSizes(b, d, files);
    MergedNothing(d);
    hide Merged, Keeps;
    var merged := Merged(Merged(Empty(), b.artifacts), files);
    assert |Values(merged)| == |merged.keys|;
    hide Values, FirstFour;
  }

  // What the buffer merges is more than four files only if that is what was offered.
  lemma MergedSizes(b: TurnBuffer, d: Dict<string, Artifact>, files: seq<Artifact>)
    requires Keeps(b, d)
    ensures var merged := Merged(Merged(Empty(), b.artifacts), files);
      && (|d.keys| <= 4 ==> |merged.keys| == |Merged(d, files).keys|)
      && (files == [] ==> |merged.keys| <= 4) && |d.keys| <= |Merged(d, files).keys|
  {
    TrimmedIsStemmed(d);
    TrimmedSize(d);
    MergedNothing(Trimmed(d));
    hide *;
    BufferRebuilt(b, d);
    TrimmedMerge(d, files);
    MergedGrows(d, files);
  }

  lemma TrimmedSize(d: Dict<string, Artifact>)
    ensures |Trimmed(d).keys| <= 4
  {
  }

  /** The errors kept for a turn are exactly those of the items whose files could not be staged since its
      output was last re-opened, and the one about the limit when more than four files were offered. */
  lemma {:induction false} ErrorsExactly(events: seq<Event>, error: string)
    requires error != ""
    ensures error in Run(events).errors <==>
      || FailedSince(events, error)
      || (error == LIMIT_ERROR && |Merged(Empty(), Offered(events)).keys| > 4)
  {
    hide Run, EndsVisibly, Next, FilesOf, Attached, Merged, Captured, FailsWith, Stemmed;
    MergedNothing(Empty());
    if events == [] {
      RunStartsEmpty();
    } else {
      var front, e := events[..|events| - 1], events[|events| - 1];
      ErrorsExactly(front, error);
      KeepsFirstFour(front);
      RunLast(events);
      VisibleIsRemembered(front);
      var b, d := Run(front), Merged(Empty(), Offered(front));
      assert Keeps(b, d);
      assert Offered(front) + [] == Offered(front);
      if e.ItemCompleted? && !Seen(b, NativeId(e.item, e.itemId)) {
        MergedConcat(Empty(), Offered(front), FilesOf(e.item));
        ErrorsAfter(Claimed(b, NativeId(e.item, e.itemId)), d, e.item, error);
        MergedGrows(d, FilesOf(e.item));
        CapturedFiles(b, e);
      } else {
        OtherFiles(b, e);
      }
    }
  }

  /** What an item gives is all or nothing: its files, and those of the images of a final answer, unless one
      of the two cannot be staged. */
  lemma StagedExactly(item: Item)
    ensures Staged(item).Err? <==> exists error :: FailsWith(item, error)
    ensures Staged(item).Err? ==> FailsWith(item, Staged(item).error) && FilesOf(item) == []
    ensures var images := item.kind == "agentMessage" && item.phase == Some("final_answer");
      Staged(item).Ok? ==> FilesOf(item) == if images then item.staged.value + item.images.value else item.staged.value
  {
    if item.staged.Err? { assert FailsWith(item, item.staged.error); }
    else if item.images.Err? { assert Staged(item).Err? ==> FailsWith(item, item.images.error); }
  }

  // ---- Stems ----

  lemma {:induction false} FileNameOf(dir: string, name: string)
    requires '/' !in name
    ensures FileName(dir + "/" + name) == name && FileName(name) == name
  {
    if name != "" {
      var front, last := name[..|name| - 1], name[|name| - 1];
      assert name == front + [last] && last in name;
      FileNameOf(dir, front);
      assert (dir + "/" + name)[..|dir + "/" + name| - 1] == dir + "/" + front;
    }
  }

  lemma {:induction false} LastDotOf(base: string, ext: string)
    requires '.' !in ext
    ensures LastDot(base + "." + ext) == |base| && LastDot(ext) == -1
  {
    if ext != "" {
      var front, last := ext[..|ext| - 1], ext[|ext| - 1];
      assert ext == front + [last] && last in ext;
      LastDotOf(base, front);
      assert (base + "." + ext)[..|base + "." + ext| - 1] == base + "." + front;
    }
  }

  /** The stem of a path is that of its file name, whatever the directories before it. */
  lemma StemOfName(dir: string, name: string)
    requires '/' !in name
    ensures Stem(dir + "/" + name) == Stem(name)
  {
    FileNameOf(dir, name);
  }

  /** The stem of a file name is what is before its last dot; without a dot, and with one only at the front
      or at the end, it is the whole name. */
  lemma StemExactly(base: string, ext: string)
    requires '/' !in base && '/' !in ext && '.' !in ext
    ensures Stem(base + "." + ext) == if base != "" && ext != "" then base else base + "." + ext
    ensures Stem(ext) == ext
  {
    var name := base + "." + ext;
    assert '/' !in name;
    FileNameOf("", name);
    FileNameOf("", ext);
    LastDotOf(base, ext);
    assert name[..|base|] == base;
  }

  // No progress is shown behind an answer until work re-opens the output.
  lemma NoProgressBehindAnswer(events: seq<Event>, e: Event)
    requires EndsVisibly(events)
    ensures !ShowsProgress(Run(events), e)
  {
    VisibleIsRemembered(events);
  }

  // A completed turn sends a message of its own exactly when its output does not end with an answer.
  lemma TurnMessageWhenNoAnswerEnds(turns: map<Turn, TurnBuffer>, turn: Turn, events: seq<Event>, status: string)
    requires BufferOf(turns, turn) == Run(events)
    ensures Ended(turns, turn, status).TurnMessage? <==> !(status == "completed" && EndsVisibly(events))
    ensures Ended(turns, turn, status) == Nothing || Ended(turns, turn, status).TurnMessage?
  {
    VisibleIsRemembered(events);
  }

  // ---- What a turn says at its end ----

  // The event says something that a turn without a visible answer falls back to.
  predicate Says(b: TurnBuffer, e: Event) {
    && e.ItemCompleted? && e.item.kind == "agentMessage" && !Seen(b, NativeId(e.item, e.itemId))
    && ((e.item.phase == None && e.item.text != "")
        || (e.item.phase == Some("final_answer") && !Text.Blank(e.item.text)))
  }

  // What was said last, what was executed and which files changed since the output was last re-opened.
  function SaidLast(events: seq<Event>): string {
    if events == [] then ""
    else
      var front, e := events[..|events| - 1], events[|events| - 1];
      if e.ItemStarted? && EndsVisibly(front) then ""
      else if Says(Run(front), e) then e.item.text
      else SaidLast(front)
  }

  function Commands(events: seq<Event>): seq<string> {
    if events == [] then []
    else
      var front, e := events[..|events| - 1], events[|events| - 1];
      if e.ItemStarted? && EndsVisibly(front) then []
      else Commands(front) + if Claims(Run(front), e, "commandExecution") && e.details.command != ""
                             then ["Executed `" + e.details.command + "`"] else []
  }

  function Changes(events: seq<Event>): seq<string> {
    if events == [] then []
    else
      var front, e := events[..|events| - 1], events[|events| - 1];
      if e.ItemStarted? && EndsVisibly(front) then []
      else Changes(front) + if Claims(Run(front), e, "fileChange") then e.details.paths else []
  }

  predicate Claims(b: TurnBuffer, e: Event, kind: string) {
    e.ItemCompleted? && e.item.kind == kind && !Seen(b, NativeId(e.item, e.itemId))
  }

  // The buffer keeps exactly these.
  lemma {:induction false} KeepsWords(events: seq<Event>)
    ensures var b := Run(events);
      b.finalText == SaidLast(events) && b.commands == Commands(events) && b.files == Changes(events)
  {
    hide Run, EndsVisibly, Next, Says, Claims;
    if events == [] {
      RunStartsEmpty();
    } else {
      var front, e := events[..|events| - 1], events[|events| - 1];
      KeepsWords(front);
      RunLast(events);
      VisibleIsRemembered(front);
      NextWords(Run(front), e);
    }
  }

  lemma NextWords(b: TurnBuffer, e: Event)
    ensures var b', reopened := Next(b, e), e.ItemStarted? && b.finalVisible;
      && b'.finalText == (if reopened then "" else if Says(b, e) then e.item.text else b.finalText)
      && (reopened ==> b'.commands == b'.files == [])
      && (!reopened ==>
            var ran := Claims(b, e, "commandExecution") && e.details.command != "";
            b'.commands == b.commands + if ran then ["Executed `" + e.details.command + "`"] else [])
      && (!reopened ==> b'.files == b.files + if Claims(b, e, "fileChange") then e.details.paths else [])
  {
    hide Attached;
    if e.ItemCompleted? {
      Text.StripBlank(e.item.text);
      FilesStayHidden(Claimed(b, NativeId(e.item, e.itemId)), e.item);
      hide Text.Strip;
    }
  }

  // What the turn falls back to: what was said last, or else what was streamed since the re-opening.
  function Kept(events: seq<Event>): string {
    if SaidLast(events) != "" then SaidLast(events) else Concat(Deltas(events[Reopened(events)..]))
  }

  /** The text of a turn that ends without a visible answer. A completed one says what is kept, or else the
      commands, or else that there is nothing; any other one says first how it ended, and then what is
      kept and every changed file. */
  ghost predicate EndsWith(text: string, events: seq<Event>, status: string) {
    if status == "completed" then
      if Kept(events) != "" then
        text == if Text.Blank(Kept(events)) then EMPTY_COMPLETED_TURN_TEXT else Kept(events)
      else
        text == if Commands(events) == [] then EMPTY_COMPLETED_TURN_TEXT else Join("\n", Commands(events))
    else
      text == (if status == "interrupted" then "Turn interrupted." else "Turn failed.")
            + (if Kept(events) == "" then "" else "\n" + Kept(events))
            + (if Changes(events) == [] then "" else "\n" + Lined("Changed files:", Unique(Changes(events))))
  }

  lemma EndTextSays(b: TurnBuffer, events: seq<Event>, status: string)
    requires b == Run(events)
    ensures EndsWith(EndText(b, status), events, status)
  {
    KeepsWords(events);
    DeltasSinceReopening(events);
    JoinsNothing(b.deltas);
    hide Run, SaidLast, Commands, Changes, Deltas, Reopened;
    if status == "completed" {
      CompletedText(b, events);
    } else {
      AbortedText(b, events, status);
    }
  }

  lemma CompletedText(b: TurnBuffer, events: seq<Event>)
    requires b.finalText == SaidLast(events) && b.commands == Commands(events)
    requires Join("", b.deltas) == Concat(Deltas(events[Reopened(events)..]))
    ensures EndsWith(EndText(b, "completed"), events, "completed")
  {
    var commands := Commands(events);
    hide SaidLast, Commands, Changes, Deltas, Reopened, Text.Strip, Text.Blank, Join;
    Text.StripBlank(Kept(events));
    Text.StripBlank(Join("\n", commands));
    JoinedNone("\n", commands);
    if Kept(events) == "" {
      if commands != [] {
        CommandIsText(events, 0);
        JoinContains("\n", commands, 0);
        BlankHasNone(Join("\n", commands), commands[0]);
      }
    }
  }

  lemma JoinedNone(separator: string, parts: seq<string>)
    ensures parts == [] ==> Join(separator, parts) == "" && Text.Blank(Join(separator, parts))
  {
  }

  lemma {:induction false} CommandIsText(events: seq<Event>, i: nat)
    requires i < |Commands(events)|
    ensures "Executed" <= Commands(events)[i]
  {
    hide EndsVisibly, Run, Claims;
    var front := events[..|events| - 1];
    if i < |Commands(front)| && Commands(events) != [] { CommandIsText(front, i); }
  }

  lemma BlankHasNone(s: string, part: string)
    requires Contains(s, part) && "Executed" <= part
    ensures !Text.Blank(s)
  {
    var a, b :| s == a + (part + b);
    assert s[|a|] == 'E' && !Text.IsSpace('E');
  }

  lemma AbortedText(b: TurnBuffer, events: seq<Event>, status: string)
    requires status != "completed" && b.finalText == SaidLast(events) && b.files == Changes(events)
    requires Join("", b.deltas) == Concat(Deltas(events[Reopened(events)..]))
    ensures EndsWith(EndText(b, status), events, status)
  {
    var how, kept, changes := AbortText(status), Kept(events), Changes(events);
    var files := if changes == [] then "" else ChangedFiles(Unique(changes));
    ListIsLined("Changed files:", Unique(changes));
    LinedIsSome("Changed files:", Unique(changes));
    hide SaidLast, Commands, Changes, Deltas, Reopened, Text.Strip, Unique, List, Lined;
    ThreeParts(how, kept, files);
  }

  lemma ThreeParts(a: string, b: string, c: string)
    requires a != ""
    ensures Join("\n", NonEmpty([a, b, c]))
         == a + (if b == "" then "" else "\n" + b) + (if c == "" then "" else "\n" + c)
  {
    assert [a, b, c][..2] == [a, b] && [a, b][..1] == [a] && [a][..0] == [];
    assert [a, c][..1] == [a];
    assert NonEmpty([a]) == [a];
    assert NonEmpty([a, b]) == if b == "" then [a] else [a, b];
    assert NonEmpty([a, b, c]) == NonEmpty([a, b]) + if c == "" then [] else [c];
    assert Join("\n", [a]) == a && Join("\n", [a, b]) == a + "\n" + b && Join("\n", [a, c]) == a + "\n" + c;
    assert Join("\n", [a, b, c]) == a + "\n" + b + "\n" + c;
    assert a + "\n" + b == a + ("\n" + b) && a + "\n" + c == a + ("\n" + c);
    assert a + "\n" + b + "\n" + c == a + ("\n" + b) + ("\n" + c);
  }

  lemma OnlyHow(how: string)
    requires how != ""
    ensures Join("\n", NonEmpty([how, "", ""])) == how
  {
    ThreeParts(how, "", "");
  }

  // What a turn with these events ends with: nothing more when a completed one ends with an answer,
  // otherwise a message of its status with that text, the errors and the files kept for it.
  ghost predicate Concludes(shown: Shown, events: seq<Event>, status: string) {
    && (shown == Nothing <==> status == "completed" && EndsVisibly(events))
    && (shown != Nothing ==>
          && shown.TurnMessage? && shown.status == status && shown.artifacts == Run(events).artifacts
          && exists text :: EndsWith(text, events, status) && Reports(shown.text, text, Run(events).errors))
  }

  lemma EndsExactly(turns: map<Turn, TurnBuffer>, turn: Turn, events: seq<Event>, status: string)
    requires BufferOf(turns, turn) == Run(events)
    ensures Concludes(Ended(turns, turn, status), events, status)
  {
    hide WithErrors, EndText, EndsVisibly, Run, EndsWith, Reports;
    TurnMessageWhenNoAnswerEnds(turns, turn, events, status);
    var b := BufferOf(turns, turn);
    EndTextSays(b, events, status);
    ErrorsAreReported(EndText(b, status), b.errors);
    if turn !in turns { EmptyTurnText(status); }
  }

  // A turn nothing is known of ends as one with an empty buffer.
  lemma EmptyTurnText(status: string)
    ensures EndText(EMPTY_BUFFER, status)
         == if status == "completed" then EMPTY_COMPLETED_TURN_TEXT else AbortText(status)
    ensures WithErrors(EndText(EMPTY_BUFFER, status), []) == EndText(EMPTY_BUFFER, status)
  {
    assert Join("", []) == "" && Join("\n", []) == "";
    if status != "completed" { OnlyHow(AbortText(status)); }
  }
}
