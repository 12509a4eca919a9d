/**
 `project_recovered_turn` (src/imcodex/bridge/projection.py): the messages of a finished turn that is
 read back from a resume snapshot, one for each answer segment, and how they pair with the delivery
 identities of the same turn.
 */
module Projection {
  import opened Prelude
  import opened OrderedDict
  import opened Identity
  import opened Wording
  import Text

  datatype Kind = AgentMessage | TurnCompleted

  datatype Message = Message(
    kind: Kind,
    text: string,
    status: string,
    nativeItemId: string,
    artifacts: seq<Artifact>,
    route: Option<Route>)

  // ---- What staging an item gives ----

  function Files(r: Result<seq<Artifact>, string>): seq<Artifact> {
    if r.Ok? then r.value else []
  }

  function Errors(r: Result<seq<Artifact>, string>): seq<string> {
    if r.Err? then [r.error] else []
  }

  // The files of some items in order; only an answer has its Markdown images staged.
  function Collected(items: seq<Item>): seq<Artifact> {
    if items == [] then []
    else
      var last := items[|items| - 1];
      Collected(items[..|items| - 1]) + Files(last.staged) + if IsAnswer(last) then Files(last.images) else []
  }

  function Failures(items: seq<Item>): seq<string> {
    if items == [] then []
    else
      var last := items[|items| - 1];
      Failures(items[..|items| - 1]) + Errors(last.staged) + if IsAnswer(last) then Errors(last.images) else []
  }

  // `{artifact.local_path: artifact for artifact in artifacts}`
  function ByPath(artifacts: seq<Artifact>): Dict<string, Artifact> {
    if artifacts == [] then Empty()
    else
      var last := artifacts[|artifacts| - 1];
      ByPath(artifacts[..|artifacts| - 1]).Put(last.path, last)
  }

  function Values(keys: seq<string>, vals: map<string, Artifact>): (r: seq<Artifact>)
    requires forall k :: k in keys ==> k in vals
    ensures |r| == |keys| && forall i :: 0 <= i < |keys| ==> r[i] == vals[keys[i]]
  {
    seq(|keys|, i requires 0 <= i < |keys| => vals[keys[i]])
  }

  lemma {:induction false} ByPathLaws(artifacts: seq<Artifact>)
    ensures ByPath(artifacts).Valid()
    ensures forall p :: p in ByPath(artifacts).vals ==>
              ByPath(artifacts).vals[p] in artifacts && ByPath(artifacts).vals[p].path == p
    ensures forall a :: a in artifacts ==> a.path in ByPath(artifacts).vals
  {
    if artifacts != [] {
      var front, last := artifacts[..|artifacts| - 1], artifacts[|artifacts| - 1];
      assert artifacts == front + [last];
      ByPathLaws(front);
      ByPath(front).PutValid(last.path, last);
    }
  }

  function Deduplicated(artifacts: seq<Artifact>): seq<Artifact> {
    ByPathLaws(artifacts);
    Values(ByPath(artifacts).keys, ByPath(artifacts).vals)
  }

  predicate HasPath(artifacts: seq<Artifact>, path: string) {
    exists i :: 0 <= i < |artifacts| && artifacts[i].path == path
  }

  // Deduplication loses no path, adds no file and repeats no path.
  lemma DeduplicatedPaths(artifacts: seq<Artifact>, path: string)
    ensures HasPath(Deduplicated(artifacts), path) <==> HasPath(artifacts, path)
    ensures forall a :: a in Deduplicated(artifacts) ==> a in artifacts
    ensures forall i, j :: 0 <= i < j < |Deduplicated(artifacts)| ==>
              Deduplicated(artifacts)[i].path != Deduplicated(artifacts)[j].path
  {
    hide ByPath;
    ByPathLaws(artifacts);
    var d, r := ByPath(artifacts), Deduplicated(artifacts);
    forall i | 0 <= i < |r| ensures r[i].path == d.keys[i] && r[i] in artifacts {
      assert d.keys[i] in d.vals;
    }
    if HasPath(artifacts, path) {
      var i :| 0 <= i < |artifacts| && artifacts[i].path == path;
      assert artifacts[i] in artifacts && path in d.keys;
      var k :| 0 <= k < |d.keys| && d.keys[k] == path;
      assert r[k].path == path;
    }
    if HasPath(r, path) {
      var k :| 0 <= k < |r| && r[k].path == path;
      var i :| 0 <= i < |artifacts| && artifacts[i] == r[k];
      assert artifacts[i].path == path;
    }
  }

  // The last of the files with this path.
  ghost predicate IsLastAt(a: Artifact, artifacts: seq<Artifact>, path: string) {
    exists i :: 0 <= i < |artifacts| && artifacts[i] == a && a.path == path
                && forall j :: i < j < |artifacts| ==> artifacts[j].path != path
  }

  lemma LastAtGrows(a: Artifact, artifacts: seq<Artifact>, last: Artifact, path: string)
    ensures last.path == path ==> IsLastAt(last, artifacts + [last], path)
    ensures IsLastAt(a, artifacts, path) && last.path != path ==> IsLastAt(a, artifacts + [last], path)
  {
    var all := artifacts + [last];
    assert all[|artifacts|] == last;
    if last.path != path && IsLastAt(a, artifacts, path) {
      var i :| 0 <= i < |artifacts| && artifacts[i] == a && a.path == path
               && forall j :: i < j < |artifacts| ==> artifacts[j].path != path;
      assert all[i] == a;
    }
  }

  function Paths(artifacts: seq<Artifact>): (r: seq<string>)
    ensures |r| == |artifacts| && forall i :: 0 <= i < |r| ==> r[i] == artifacts[i].path
  {
    seq(|artifacts|, i requires 0 <= i < |artifacts| => artifacts[i].path)
  }

  /** What is kept of some files is for each path the last one, in the order in which the paths first came. */
  lemma DeduplicatedExactly(artifacts: seq<Artifact>)
    ensures Paths(Deduplicated(artifacts)) == Unique(Paths(artifacts))
    ensures forall a :: a in Deduplicated(artifacts) ==> IsLastAt(a, artifacts, a.path)
  {
    hide ByPath, IsLastAt;
    ByPathLaws(artifacts);
    ByPathExactly(artifacts);
    var d, r := ByPath(artifacts), Deduplicated(artifacts);
    forall i | 0 <= i < |r| ensures Paths(r)[i] == d.keys[i] && IsLastAt(r[i], artifacts, r[i].path) {
      assert d.keys[i] in d.vals;
    }
  }

  lemma {:induction false} ByPathExactly(artifacts: seq<Artifact>)
    ensures ByPath(artifacts).keys == Unique(Paths(artifacts))
    ensures forall p :: p in ByPath(artifacts).vals <==> p in Paths(artifacts)
    ensures forall p :: p in ByPath(artifacts).vals ==> IsLastAt(ByPath(artifacts).vals[p], artifacts, p)
  {
    hide IsLastAt;
    if artifacts != [] {
      var front, last := artifacts[..|artifacts| - 1], artifacts[|artifacts| - 1];
      ByPathExactly(front);
      assert artifacts == front + [last] && Paths(artifacts) == Paths(front) + [last.path];
      assert Paths(artifacts)[..|front|] == Paths(front);
      var d := ByPath(artifacts);
      forall p | p in d.vals ensures IsLastAt(d.vals[p], artifacts, p) {
        LastAtGrows(d.vals[p], front, last, p);
      }
    }
  }

  // The text with a notice of the failures, each one once.
  function WithFailures(text: string, failures: seq<string>): string {
    WithErrors(text, Unique(failures))
  }

  lemma FailuresAreReported(text: string, failures: seq<string>)
    ensures Reports(WithFailures(text, failures), text, Unique(failures))
    ensures text <= WithFailures(text, failures) && (failures == [] ==> WithFailures(text, failures) == text)
    ensures forall f :: f in failures ==> Contains(WithFailures(text, failures), f)
  {
    UniqueHasAll(failures);
    ErrorsAreReported(text, Unique(failures));
    ReportsContain(WithFailures(text, failures), text, Unique(failures));
    hide WithErrors, Unique, Contains;
    FirstIsIn(Unique(failures));
    forall f | f in failures ensures Contains(WithFailures(text, failures), f) {
      var u := Unique(failures);
      assert f in u;
      var j :| 0 <= j < |u| && u[j] == f;
    }
  }

  lemma FirstIsIn(s: seq<string>)
    ensures s != [] ==> s[0] in s
  {
  }

  // ---- Answer segments ----

  // Where the items after the last answer begin.
  function Tail(items: seq<Item>): (n: nat)
    ensures n <= |items|
  {
    if items == [] then 0
    else if IsAnswer(items[|items| - 1]) then |items|
    else Tail(items[..|items| - 1])
  }

  lemma {:induction false} TailIsLast(items: seq<Item>)
    ensures Tail(items) > 0 ==> IsAnswer(items[Tail(items) - 1])
    ensures forall i :: Tail(items) <= i < |items| ==> !IsAnswer(items[i])
  {
    hide IsAnswer;
    if items != [] {
      TailIsLast(items[..|items| - 1]);
    }
  }

  // The message of the segment that ends with an answer.
  function AnswerMessage(segment: seq<Item>, status: string): Message
    requires segment != []
  {
    var answer := segment[|segment| - 1];
    Message(AgentMessage, WithFailures(answer.text, Failures(segment)), status, NativeId(answer, ""),
            Deduplicated(Collected(segment)), None)
  }

  function AnswerMessages(items: seq<Item>, status: string): seq<Message> {
    if items == [] then []
    else
      var front := items[..|items| - 1];
      AnswerMessages(front, status)
      + if IsAnswer(items[|items| - 1]) then [AnswerMessage(items[Tail(front)..], status)] else []
  }

  // `status.strip().lower()` is a parameter of the texts below; other modules do not depend on it.
  function TurnText(normalized: string): string {
    if normalized == "completed" then "Codex completed the turn without returning a final message."
    else if normalized == "interrupted" then "Turn interrupted."
    else "Turn failed."
  }

  // Files and failures after the last answer travel in a message of the turn itself.
  function Trailing(items: seq<Item>, status: string, normalized: string): seq<Message> {
    var rest := items[Tail(items)..];
    if Answers(items) != [] && (Collected(rest) != [] || Failures(rest) != [])
    then [Message(TurnCompleted, WithFailures(TurnText(normalized), Failures(rest)), status, "",
                  Deduplicated(Collected(rest)), None)]
    else []
  }

  // `_project_recovered_final_answers`
  method ProjectFinalAnswers(items: seq<Item>, status: string, normalized: string) returns (messages: seq<Message>)
    ensures messages == AnswerMessages(items, status) + Trailing(items, status, normalized)
  {
    hide WithFailures, Deduplicated, IsAnswer, Tail, Collected, Failures, NativeId, TurnText, AnswerMessages, Answers;
    NothingYet(status);
    var pendingArtifacts: seq<Artifact> := [];
    var pendingErrors: seq<string> := [];
    messages := [];
    assert items[..0] == [] && items[0..0] == [];
    for i := 0 to |items|
      invariant messages == AnswerMessages(items[..i], status)
      invariant pendingArtifacts == Collected(items[Tail(items[..i])..i])
      invariant pendingErrors == Failures(items[Tail(items[..i])..i])
    {
      var item := items[i];
      SegmentStep(items, i, status);
      pendingArtifacts := pendingArtifacts + Files(item.staged);
      pendingErrors := pendingErrors + Errors(item.staged);
      if IsAnswer(item) {
        pendingArtifacts := pendingArtifacts + Files(item.images);
        pendingErrors := pendingErrors + Errors(item.images);
        var text := WithFailures(item.text, pendingErrors);
        messages := messages + [
          Message(AgentMessage, text, status, NativeId(item, ""), Deduplicated(pendingArtifacts), None)];
        pendingArtifacts := [];
        pendingErrors := [];
        assert items[i + 1..i + 1] == [];
      }
    }
    assert items[..|items|] == items;
    assert items[Tail(items)..|items|] == items[Tail(items)..];
    MessageForEachAnswer(items, status);
    if messages != [] && (pendingArtifacts != [] || pendingErrors != []) {
      var text := WithFailures(TurnText(normalized), pendingErrors);
      messages := messages + [Message(TurnCompleted, text, status, "", Deduplicated(pendingArtifacts), None)];
    }
  }

  lemma NothingYet(status: string)
    ensures AnswerMessages([], status) == [] && Collected([]) == [] && Failures([]) == [] && Tail([]) == 0
  {
  }

  lemma SegmentStep(items: seq<Item>, i: nat, status: string)
    requires i < |items|
    ensures var from := Tail(items[..i]);
            var item := items[i];
            && Collected(items[from..i + 1])
               == Collected(items[from..i]) + Files(item.staged) + (if IsAnswer(item) then Files(item.images) else [])
            && Failures(items[from..i + 1])
               == Failures(items[from..i]) + Errors(item.staged) + (if IsAnswer(item) then Errors(item.images) else [])
            && Tail(items[..i + 1]) == (if IsAnswer(item) then i + 1 else from)
            && AnswerMessages(items[..i + 1], status)
               == AnswerMessages(items[..i], status)
                  + (if IsAnswer(item) then [AnswerMessage(items[from..i + 1], status)] else [])
  {
    hide IsAnswer, AnswerMessage;
    var from := Tail(items[..i]);
    assert items[from..i + 1][..i - from] == items[from..i];
    assert items[..i + 1][..i] == items[..i];
    assert items[..i + 1][from..] == items[from..i + 1];
  }

  lemma {:induction false} MessageForEachAnswer(items: seq<Item>, status: string)
    ensures |AnswerMessages(items, status)| == |Answers(items)|
  {
    hide IsAnswer, AnswerMessage;
    if items != [] {
      MessageForEachAnswer(items[..|items| - 1], status);
    }
  }

  // ---- Answers stay in order ----

  // Message k is rendered from answer k.
  lemma {:induction false} MessageOfAnswer(items: seq<Item>, status: string, k: nat)
    requires k < |Answers(items)|
    ensures |AnswerMessages(items, status)| == |Answers(items)|
    ensures var message, answer := AnswerMessages(items, status)[k], Answers(items)[k];
            && message.kind == AgentMessage
            && message.status == status
            && message.nativeItemId == NativeId(answer, "")
            && answer.text <= message.text
  {
    hide IsAnswer, Collected, Failures, Deduplicated, NativeId;
    MessageForEachAnswer(items, status);
    var front, last := items[..|items| - 1], items[|items| - 1];
    MessageForEachAnswer(front, status);
    if k < |Answers(front)| {
      MessageOfAnswer(front, status, k);
    } else {
      var segment := items[Tail(front)..];
      assert segment[|segment| - 1] == last;
      assert AnswerMessages(items, status)[k] == AnswerMessage(segment, status);
      FailuresAreReported(last.text, Failures(segment));
      hide WithFailures;
    }
  }

  /** The message of an answer is made of the items behind the answer before it: it carries their files,
      deduplicated, and reports their failures behind the text of the answer. */
  lemma {:induction false} MessageOfSegment(items: seq<Item>, status: string, i: nat)
    requires i < |items| && IsAnswer(items[i])
    ensures var k, segment := |Answers(items[..i])|, items[Tail(items[..i])..i + 1];
      && k < |AnswerMessages(items, status)|
      && var m := AnswerMessages(items, status)[k];
         Reports(m.text, items[i].text, Unique(Failures(segment)))
         && m.artifacts == Deduplicated(Collected(segment))
  {
    hide IsAnswer, Collected, Failures, Deduplicated, NativeId, Reports, WithFailures;
    var front, last := items[..|items| - 1], items[|items| - 1];
    if i < |front| {
      assert front[..i] == items[..i] && front[Tail(items[..i])..i + 1] == items[Tail(items[..i])..i + 1];
      MessageOfSegment(front, status, i);
    } else {
      assert front == items[..i];
      MessageForEachAnswer(front, status);
      var segment := items[Tail(front)..];
      assert segment == items[Tail(items[..i])..i + 1] && segment[|segment| - 1] == last;
      FailuresAreReported(last.text, Failures(segment));
    }
  }

  // ---- No file is lost ----

  // What staging one item of a recovered turn gave.
  function FilesOf(item: Item): seq<Artifact> {
    Files(item.staged) + if IsAnswer(item) then Files(item.images) else []
  }

  // How many answers come before item i: the place of the message its files belong to.
  function Segment(items: seq<Item>, i: nat): nat
    requires i <= |items|
  {
    |Answers(items[..i])|
  }

  /** Files are collected in the order of the items, those of an item itself before those of its images. */
  lemma CollectedInOrder(items: seq<Item>, item: Item)
    ensures Collected([]) == [] && Collected(items + [item]) == Collected(items) + FilesOf(item)
  {
    hide IsAnswer;
    assert (items + [item])[..|items|] == items;
  }

  lemma CollectedLast(items: seq<Item>, from: nat, a: Artifact)
    requires from < |items|
    ensures a in Collected(items[from..]) <==>
            a in Collected(items[..|items| - 1][from..]) || a in FilesOf(items[|items| - 1])
  {
    hide IsAnswer;
    assert items[from..][..|items| - 1 - from] == items[..|items| - 1][from..];
  }

  // An item's files wait in its segment until the answer that ends it takes them.
  lemma {:induction false} FilesInSegment(items: seq<Item>, status: string, i: nat, a: Artifact)
    requires i < |items| && a in FilesOf(items[i])
    ensures var k := Segment(items, i);
            && k <= |AnswerMessages(items, status)|
            && (k < |AnswerMessages(items, status)| ==> HasPath(AnswerMessages(items, status)[k].artifacts, a.path))
            && (k == |AnswerMessages(items, status)| ==> a in Collected(items[Tail(items)..]))
  {
    hide IsAnswer, Failures, Deduplicated, Collected, FilesOf, HasPath;
    var front, last := items[..|items| - 1], items[|items| - 1];
    assert items[..i] == if i < |front| then front[..i] else front;
    var k := Segment(items, i);
    MessageForEachAnswer(front, status);
    if i < |front| {
      FilesInSegment(front, status, i, a);
    }
    CollectedLast(items, Tail(front), a);
    if k == |AnswerMessages(front, status)| && IsAnswer(last) {
      var segment := items[Tail(front)..];
      FileHasPath(Collected(segment), a);
      DeduplicatedPaths(Collected(segment), a.path);
    }
  }

  lemma FileHasPath(artifacts: seq<Artifact>, a: Artifact)
    requires a in artifacts
    ensures HasPath(artifacts, a.path)
  {
    var i :| 0 <= i < |artifacts| && artifacts[i] == a;
    assert artifacts[i].path == a.path;
  }

  // With an answer in the turn, the path of every staged file is in the message of the next answer,
  // or, after the last one, in the trailing message.
  lemma FilesLand(items: seq<Item>, status: string, normalized: string, i: nat, a: Artifact)
    requires Answers(items) != [] && i < |items| && a in FilesOf(items[i])
    ensures var messages := AnswerMessages(items, status) + Trailing(items, status, normalized);
            Segment(items, i) < |messages| && HasPath(messages[Segment(items, i)].artifacts, a.path)
  {
    hide IsAnswer, Failures, Deduplicated, Collected, FilesOf, HasPath, AnswerMessages, Answers, Tail;
    FilesInSegment(items, status, i, a);
    if Segment(items, i) == |AnswerMessages(items, status)| {
      var rest := items[Tail(items)..];
      FileHasPath(Collected(rest), a);
      DeduplicatedPaths(Collected(rest), a.path);
    }
  }

  // ---- No failure goes unreported ----

  // What could not be staged of one item of a recovered turn.
  function FailuresOf(item: Item): seq<string> {
    Errors(item.staged) + if IsAnswer(item) then Errors(item.images) else []
  }

  lemma FailuresLast(items: seq<Item>, from: nat, error: string)
    requires from < |items|
    ensures error in Failures(items[from..]) <==>
            error in Failures(items[..|items| - 1][from..]) || error in FailuresOf(items[|items| - 1])
  {
    hide IsAnswer;
    assert items[from..][..|items| - 1 - from] == items[..|items| - 1][from..];
  }

  lemma {:induction false} FailuresInSegment(items: seq<Item>, status: string, i: nat, error: string)
    requires i < |items| && error in FailuresOf(items[i])
    ensures var k := Segment(items, i);
            && k <= |AnswerMessages(items, status)|
            && (k < |AnswerMessages(items, status)| ==> Contains(AnswerMessages(items, status)[k].text, error))
            && (k == |AnswerMessages(items, status)| ==> error in Failures(items[Tail(items)..]))
  {
    hide IsAnswer, Failures, Deduplicated, Collected, FailuresOf, Contains, WithFailures;
    var front, last := items[..|items| - 1], items[|items| - 1];
    assert items[..i] == if i < |front| then front[..i] else front;
    var k := Segment(items, i);
    MessageForEachAnswer(front, status);
    if i < |front| {
      FailuresInSegment(front, status, i, error);
    }
    FailuresLast(items, Tail(front), error);
    if k == |AnswerMessages(front, status)| && IsAnswer(last) {
      var failures := Failures(items[Tail(front)..]);
      FailuresAreReported(last.text, failures);
    }
  }

  /** With an answer in the turn, whatever could not be staged is reported in the text of the next answer's
      message, or, after the last one, in that of the trailing message. */
  lemma FailuresLand(items: seq<Item>, status: string, normalized: string, i: nat, error: string)
    requires Answers(items) != [] && i < |items| && error in FailuresOf(items[i])
    ensures var messages := AnswerMessages(items, status) + Trailing(items, status, normalized);
            Segment(items, i) < |messages| && Contains(messages[Segment(items, i)].text, error)
  {
    hide IsAnswer, Failures, Deduplicated, Collected, FailuresOf, Contains, WithFailures, AnswerMessages, Answers, Tail,
         TurnText;
    FailuresInSegment(items, status, i, error);
    if Segment(items, i) == |AnswerMessages(items, status)| {
      var failures := Failures(items[Tail(items)..]);
      FailuresAreReported(TurnText(normalized), failures);
    }
  }

  lemma {:induction false} FailuresFrom(items: seq<Item>, from: nat)
    requires from <= |items| && forall i :: from <= i < |items| ==> FailuresOf(items[i]) == []
    ensures Failures(items[from..]) == []
  {
    hide IsAnswer, FailuresOf;
    if from < |items| {
      var front, last := items[..|items| - 1], items[|items| - 1];
      FailuresFrom(front, from);
      assert items[from..][..|items| - 1 - from] == front[from..];
      assert Failures(items[from..]) == Failures(front[from..]) + FailuresOf(last) by { FailuresUnfold(items[from..]); }
    }
  }

  lemma FailuresUnfold(items: seq<Item>)
    requires items != []
    ensures Failures(items) == Failures(items[..|items| - 1]) + FailuresOf(items[|items| - 1])
  {
    hide IsAnswer;
  }

  /** An answer behind which nothing failed is delivered with exactly its text. */
  lemma {:induction false} CleanAnswer(items: seq<Item>, status: string, k: nat)
    requires k < |Answers(items)|
    requires forall i :: 0 <= i < |items| && Segment(items, i) == k ==> FailuresOf(items[i]) == []
    ensures |AnswerMessages(items, status)| == |Answers(items)|
    ensures AnswerMessages(items, status)[k].text == Answers(items)[k].text
  {
    hide IsAnswer, Failures, Deduplicated, Collected, FailuresOf, NativeId;
    var front, last := items[..|items| - 1], items[|items| - 1];
    MessageForEachAnswer(items, status);
    MessageForEachAnswer(front, status);
    forall i | 0 <= i < |front| ensures Segment(front, i) == Segment(items, i) {
      assert items[..i] == front[..i];
    }
    if k < |Answers(front)| {
      CleanAnswer(front, status, k);
    } else {
      var segment := items[Tail(front)..];
      forall i | Tail(front) <= i < |items| ensures FailuresOf(items[i]) == [] {
        NoAnswerAfterTail(front, i);
        assert items[..i] == front[..i];
        assert Segment(items, i) == k;
      }
      FailuresFrom(items, Tail(front));
      assert segment[|segment| - 1] == last;
      assert AnswerMessages(items, status)[k] == AnswerMessage(segment, status);
    }
  }

  /** There is a trailing message exactly when the turn has an answer and behind the last one something was
      staged or could not be; it is one message with just that. */
  lemma TrailingExactly(items: seq<Item>, status: string, normalized: string)
    ensures Trailing(items, status, normalized) != [] <==>
      Answers(items) != [] &&
      exists i :: Tail(items) <= i < |items| && (FilesOf(items[i]) != [] || FailuresOf(items[i]) != [])
    ensures Trailing(items, status, normalized) != [] ==>
      var rest, m := items[Tail(items)..], Trailing(items, status, normalized)[0];
      && Trailing(items, status, normalized) == [m] && m.nativeItemId == ""
      && m.artifacts == Deduplicated(Collected(rest))
      && Reports(m.text, TurnText(normalized), Unique(Failures(rest)))
  {
    hide IsAnswer, Failures, Collected, Deduplicated, Answers, FilesOf, FailuresOf, WithFailures, Tail, Reports, Unique,
         TurnText;
    NothingLeft(items, Tail(items));
    FailuresAreReported(TurnText(normalized), Failures(items[Tail(items)..]));
  }

  lemma {:induction false} NothingLeft(items: seq<Item>, from: nat)
    requires from <= |items|
    ensures Collected(items[from..]) == [] && Failures(items[from..]) == [] <==>
      forall i :: from <= i < |items| ==> FilesOf(items[i]) == [] && FailuresOf(items[i]) == []
  {
    hide IsAnswer, FilesOf, FailuresOf, Collected, Failures;
    if from == |items| {
      NothingYet("");
    } else {
      var front, last := items[..|items| - 1], items[|items| - 1];
      NothingLeft(front, from);
      assert items[from..] == front[from..] + [last] && items[from..][..|items| - 1 - from] == front[from..];
      CollectedInOrder(front[from..], last);
      FailuresUnfold(items[from..]);
    }
  }

  /** The trailing message says how the turn ended. */
  lemma TrailingSays(items: seq<Item>, status: string, normalized: string)
    requires Trailing(items, status, normalized) != []
    ensures var m := Trailing(items, status, normalized)[0];
      && m.kind == TurnCompleted && m.status == status
      && (normalized == "completed" ==> "Codex completed the turn without returning a final message." <= m.text)
      && (normalized == "interrupted" ==> "Turn interrupted." <= m.text)
      && (normalized != "completed" && normalized != "interrupted" ==> "Turn failed." <= m.text)
  {
    hide Failures, Collected, Deduplicated, Answers, Tail, WithFailures;
    FailuresAreReported(TurnText(normalized), Failures(items[Tail(items)..]));
  }

  // And no message carries a file of another segment.
  lemma {:induction false} FilesComeFromSegment(items: seq<Item>, status: string, k: nat, a: Artifact)
    requires k < |AnswerMessages(items, status)| && a in AnswerMessages(items, status)[k].artifacts
    ensures exists i :: 0 <= i < |items| && Segment(items, i) == k && a in FilesOf(items[i])
  {
    hide IsAnswer, Failures, Deduplicated, Collected, FilesOf;
    var front, last := items[..|items| - 1], items[|items| - 1];
    MessageForEachAnswer(front, status);
    if k < |AnswerMessages(front, status)| {
      FilesComeFromSegment(front, status, k, a);
      var i :| 0 <= i < |front| && Segment(front, i) == k && a in FilesOf(front[i]);
      assert items[..i] == front[..i];
      assert Segment(items, i) == k;
    } else {
      var segment := items[Tail(front)..];
      DeduplicatedPaths(Collected(segment), a.path);
      CollectedFrom(items, Tail(front), a);
      var i :| Tail(front) <= i < |items| && a in FilesOf(items[i]);
      NoAnswerAfterTail(front, i);
      assert items[..i] == front[..i];
      assert Segment(items, i) == k;
    }
  }

  lemma {:induction false} CollectedFrom(items: seq<Item>, from: nat, a: Artifact)
    requires from < |items| && a in Collected(items[from..])
    ensures exists i :: from <= i < |items| && a in FilesOf(items[i])
  {
    hide IsAnswer, FilesOf;
    CollectedLast(items, from, a);
    var front := items[..|items| - 1];
    if from == |front| {
      assert front[from..] == [];
      assert a in FilesOf(items[from]);
    } else if a in Collected(front[from..]) {
      CollectedFrom(front, from, a);
      var i :| from <= i < |front| && a in FilesOf(front[i]);
      assert front[i] == items[i];
    }
  }

  lemma {:induction false} NoAnswerAfterTail(items: seq<Item>, i: nat)
    requires Tail(items) <= i <= |items|
    ensures Answers(items[..i]) == Answers(items)
  {
    hide IsAnswer;
    if i < |items| {
      TailIsLast(items);
      var front := items[..|items| - 1];
      NoAnswerAfterTail(front, i);
      assert items[..i] == front[..i];
    } else {
      assert items[..i] == items;
    }
  }

  // ---- The whole turn ----

  // A turn without answers stages its files item by item; a failure keeps what came before it.
  function CollectedTogether(items: seq<Item>): (seq<Artifact>, seq<string>) {
    if items == [] then ([], [])
    else
      var (artifacts, errors) := CollectedTogether(items[..|items| - 1]);
      var last := items[|items| - 1];
      if last.staged.Err? then (artifacts, errors + [last.staged.error])
      else
        var kept := artifacts + last.staged.value;
        if last.kind != "agentMessage" || last.phase != Some("final_answer") then (kept, errors)
        else if last.images.Err? then (kept, errors + [last.images.error])
        else (kept + last.images.value, errors)
  }

  // `_attach_to_thread` over the messages
  function Attached(messages: seq<Message>, route: Option<Route>): (r: seq<Message>)
    ensures route.None? ==> r == []
    ensures route.Some? ==> |r| == |messages| && forall k :: 0 <= k < |r| ==> r[k] == messages[k].(route := route)
  {
    if route.None? then [] else seq(|messages|, k requires 0 <= k < |messages| => messages[k].(route := route))
  }

  // A turn without answers gives one message of the turn; `text` is what the message pump kept of it.
  function TurnMessages(items: seq<Item>, status: string, normalized: string, text: string): seq<Message> {
    var (artifacts, errors) := CollectedTogether(items);
    if Answers(items) != [] then AnswerMessages(items, status) + Trailing(items, status, normalized)
    else [Message(TurnCompleted, WithFailures(text, errors), status, "", Deduplicated(artifacts), None)]
  }

  // `_collect_recovered_artifacts`
  method CollectRecoveredArtifacts(items: seq<Item>) returns (artifacts: seq<Artifact>, errors: seq<string>)
    ensures (artifacts, errors) == CollectedTogether(items)
  {
    artifacts, errors := [], [];
    assert items[..0] == [];
    for i := 0 to |items|
      invariant (artifacts, errors) == CollectedTogether(items[..i])
    {
      var item := items[i];
      assert items[..i + 1][..i] == items[..i];
      if item.staged.Err? {
        errors := errors + [item.staged.error];
      } else {
        artifacts := artifacts + item.staged.value;
        if item.kind == "agentMessage" && item.phase == Some("final_answer") {
          if item.images.Err? {
            errors := errors + [item.images.error];
          } else {
            artifacts := artifacts + item.images.value;
          }
        }
      }
    }
    assert items[..|items|] == items;
  }

  // The files, and the failure, an item of a turn without answers gives. One whose own files fail
  // to be staged has its images left alone.
  function KeptFiles(item: Item): seq<Artifact> {
    if item.staged.Err? then []
    else item.staged.value + if FinalPhase(item) then Files(item.images) else []
  }

  function FailureOf(item: Item): seq<string> {
    if item.staged.Err? then [item.staged.error] else if FinalPhase(item) then Errors(item.images) else []
  }

  predicate FinalPhase(item: Item) {
    item.kind == "agentMessage" && item.phase == Some("final_answer")
  }

  lemma CollectedLastItem(items: seq<Item>)
    requires items != []
    ensures var front, last := items[..|items| - 1], items[|items| - 1];
            CollectedTogether(items)
              == (CollectedTogether(front).0 + KeptFiles(last), CollectedTogether(front).1 + FailureOf(last))
  {
    var (artifacts, errors) := CollectedTogether(items[..|items| - 1]);
    assert artifacts + [] == artifacts && errors + [] == errors;
    var last := items[|items| - 1];
    if last.staged.Ok? {
      assert (artifacts + last.staged.value) + Files(last.images) ==
        artifacts + (last.staged.value + Files(last.images));
      assert last.staged.value + [] == last.staged.value;
    }
  }

  lemma {:induction false} CollectedExactly(items: seq<Item>, path: string, error: string)
    ensures HasPath(CollectedTogether(items).0, path)
       <==> exists i :: 0 <= i < |items| && HasPath(KeptFiles(items[i]), path)
    ensures error in CollectedTogether(items).1 <==> exists i :: 0 <= i < |items| && error in FailureOf(items[i])
  {
    hide CollectedTogether, KeptFiles, FailureOf, HasPath;
    if items == [] {
      CollectedNothing(path);
    } else {
      var front, last := items[..|items| - 1], items[|items| - 1];
      CollectedExactly(front, path, error);
      CollectedLastItem(items);
      HasPathConcat(CollectedTogether(front).0, KeptFiles(last), path);
      assert items == front + [last];
      assert forall i :: 0 <= i < |front| ==> items[i] == front[i];
    }
  }

  lemma CollectedNothing(path: string)
    ensures CollectedTogether([]) == ([], []) && !HasPath([], path)
  {
  }

  lemma HasPathConcat(a: seq<Artifact>, b: seq<Artifact>, path: string)
    ensures HasPath(a + b, path) <==> HasPath(a, path) || HasPath(b, path)
  {
    if HasPath(a, path) {
      var i :| 0 <= i < |a| && a[i].path == path;
      assert (a + b)[i].path == path;
    }
    if HasPath(b, path) {
      var i :| 0 <= i < |b| && b[i].path == path;
      assert (a + b)[|a| + i].path == path;
    }
  }

  /** A turn without answers gives one message, which begins with the text kept of it, carries exactly the
      files its items kept, and reports what could not be staged; without a failure it is just the text. */
  lemma TurnMessageCarriesAll(
      items: seq<Item>, status: string, normalized: string, text: string, path: string, error: string)
    requires Answers(items) == []
    ensures var messages := TurnMessages(items, status, normalized, text);
            && |messages| == 1 && messages[0].kind == TurnCompleted && messages[0].status == status
            && (HasPath(messages[0].artifacts, path)
                <==> exists i :: 0 <= i < |items| && HasPath(KeptFiles(items[i]), path))
            && Distinct(Paths(messages[0].artifacts))
            && text <= messages[0].text
            && ((exists i :: 0 <= i < |items| && error in FailureOf(items[i])) ==> Contains(messages[0].text, error))
            && ((forall i :: 0 <= i < |items| ==> FailureOf(items[i]) == []) ==> messages[0].text == text)
  {
    hide CollectedTogether, KeptFiles, FailureOf, HasPath, Deduplicated, WithFailures, Contains;
    var errors := CollectedTogether(items).1;
    CollectedExactly(items, path, error);
    DeduplicatedPaths(CollectedTogether(items).0, path);
    FailuresAreReported(text, errors);
    if exists i :: 0 <= i < |items| && error in FailureOf(items[i]) {
      assert error in errors;
    }
    FirstIsIn(errors);
    CollectedExactly(items, path, if errors == [] then "" else errors[0]);
  }

  // `project_recovered_turn` for a thread bound to `route`, if it still is.
  method ProjectRecoveredTurn(items: seq<Item>, status: string, normalized: string, text: string, route: Option<Route>)
    returns (messages: seq<Message>)
    ensures messages == Attached(TurnMessages(items, status, normalized, text), route)
  {
    hide AnswerMessages, Trailing, WithFailures, Deduplicated, CollectedTogether, Answers;
    MessageForEachAnswer(items, status);
    NoTrailingAlone(items, status, normalized);
    var answers := ProjectFinalAnswers(items, status, normalized);
    if answers != [] {
      messages := Attached(answers, route);
    } else {
      var artifacts, errors := CollectRecoveredArtifacts(items);
      messages := Attached(
        [Message(TurnCompleted, WithFailures(text, errors), status, "", Deduplicated(artifacts), None)], route);
    }
  }

  lemma NoTrailingAlone(items: seq<Item>, status: string, normalized: string)
    requires |AnswerMessages(items, status)| == |Answers(items)|
    ensures Answers(items) == [] <==> AnswerMessages(items, status) + Trailing(items, status, normalized) == []
  {
  }

  // One message for each answer, then at most one about the turn; never none.
  predicate Shaped(answers: seq<Item>, messages: seq<Message>) {
    && |answers| <= |messages| <= |answers| + 1
    && messages != []
    && (forall k :: 0 <= k < |messages| ==> (messages[k].kind == AgentMessage <==> k < |answers|))
    && (forall k :: 0 <= k < |answers| ==> RendersAnswer(messages[k], answers[k]))
  }

  predicate RendersAnswer(message: Message, answer: Item) {
    message.nativeItemId == NativeId(answer, "") && answer.text <= message.text
  }

  lemma TurnMessagesShaped(items: seq<Item>, status: string, normalized: string, text: string)
    ensures Shaped(Answers(items), TurnMessages(items, status, normalized, text))
  {
    hide AnswerMessages, WithFailures, Deduplicated, CollectedTogether, Answers, TurnText, NativeId, Collected,
      Failures, Tail;
    MessageForEachAnswer(items, status);
    var answers := Answers(items);
    forall k | 0 <= k < |answers|
      ensures AnswerMessages(items, status)[k].kind == AgentMessage
      ensures RendersAnswer(AnswerMessages(items, status)[k], answers[k])
    {
      MessageOfAnswer(items, status, k);
    }
  }

  lemma AttachedShaped(answers: seq<Item>, messages: seq<Message>, route: Option<Route>)
    requires Shaped(answers, messages) && route.Some?
    ensures Shaped(answers, Attached(messages, route))
    ensures HasTurnMessage(Attached(messages, route)) <==> |messages| > |answers|
  {
    hide NativeId;
    var r := Attached(messages, route);
    forall k | 0 <= k < |answers| ensures RendersAnswer(r[k], answers[k]) {
      assert RendersAnswer(messages[k], answers[k]);
    }
    if |messages| > |answers| {
      assert r[|answers|].kind == TurnCompleted;
    }
  }

  // What recovery tells `recovered_turn_identities`: whether a message is about the turn itself.
  predicate HasTurnMessage(messages: seq<Message>) {
    exists k :: 0 <= k < |messages| && messages[k].kind == TurnCompleted
  }

  // Message k delivers identity k.
  predicate Pairs(n: Naming, thread: string, turn: string, answers: seq<Item>,
                  messages: seq<Message>, identities: seq<Identity>)
  {
    && |messages| == |identities|
    && Shaped(answers, messages)
    && (forall k :: 0 <= k < |answers| ==> identities[k] == AnswerIdentity(n, thread, turn, answers[k], ""))
    && (|messages| > |answers| ==> identities[|answers|] == TurnIdentity(n, thread, turn))
  }

  // While the thread stays bound the messages and the identities of a recovered turn pair in order,
  // so the length guard of recovery stops exactly the turns whose thread lost its conversation.
  lemma RecoveredMessagesPair(n: Naming, thread: string, turn: string, items: seq<Item>,
                              status: string, normalized: string, text: string, route: Option<Route>)
    requires thread != "" && turn != ""
    ensures var messages := Attached(TurnMessages(items, status, normalized, text), route);
            match RecoveredIdentities(n, thread, turn, items, HasTurnMessage(messages)) {
              case Err(_) => !DistinctIds(AnswerIdentities(n, thread, turn, Answers(items)))
              case Ok(identities) =>
                && (messages == [] || |messages| != |identities| <==> route.None?)
                && (route.Some? ==> Pairs(n, thread, turn, Answers(items), messages, identities))
            }
  {
    hide TurnMessages, Answers, ItemKey, ItemDeliveryId, TurnDeliveryId, DistinctIds, HasTurnMessage, RendersAnswer;
    TurnMessagesShaped(items, status, normalized, text);
    if route.Some? {
      AttachedShaped(Answers(items), TurnMessages(items, status, normalized, text), route);
    }
  }
}
