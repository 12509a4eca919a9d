/**
 `_mask_markdown_code` (src/imcodex/bridge/outbound_artifacts.py): blank fenced and inline code,
 keeping every source offset. What is hidden is described by searching: a fenced block runs from
 an opening line to the first line that closes it, and an inline span from a backtick run to the
 next run of the same length. The code instead scans once with a few mutable variables.
 */
module MarkdownMask {
  import opened Lines
  import opened Prelude
  import Text

  // `line.rstrip("\r\n")`
  function Body(line: string): string {
    if line != [] && line[|line| - 1] in "\r\n" then Body(line[..|line| - 1]) else line
  }

  // ---- Fenced blocks ----

  datatype Fence = Fence(mark: char, size: nat)

  function Count(s: string, c: char): (n: nat)
    ensures n <= |s| && (n < |s| ==> s[n] != c)
    ensures forall i :: 0 <= i < n ==> s[i] == c
  {
    if s == [] || s[0] != c then 0 else 1 + Count(s[1..], c)
  }

  datatype Marker = Marker(fence: Fence, suffix: string)

  // At most three spaces, then at least three backticks or three tildes, then anything.
  function MarkerOf(line: string): Option<Marker> {
    var body := Body(line);
    var indent := Count(body, ' ');
    if indent > 3 || indent == |body| || body[indent] !in "`~" then None
    else
      var size := Count(body[indent..], body[indent]);
      if size < 3 then None else Some(Marker(Fence(body[indent], size), body[indent + size..]))
  }

  // The fence a line opens when it is not inside a block.
  function Opens(line: string): Option<Fence> {
    match MarkerOf(line)
    case Some(Marker(fence, suffix)) => if fence.mark == '`' && '`' in suffix then None else Some(fence)
    case None => None
  }

  predicate Closes(line: string, fence: Fence) {
    match MarkerOf(line)
    case Some(Marker(f, suffix)) => f.mark == fence.mark && f.size >= fence.size && Text.Strip(suffix) == ""
    case None => false
  }

  // ---- What these lines look like ----

  function Row(c: char, n: nat): (r: string)
    ensures |r| == n && forall i :: 0 <= i < n ==> r[i] == c
  {
    seq(n, _ => c)
  }

  /** The body of a line is the line without the CR and LF characters at its end. */
  lemma {:induction false} BodyExactly(line: string, body: string, ending: string)
    requires line == body + ending
    ensures Body(line) == body <==>
      (forall i :: 0 <= i < |ending| ==> ending[i] == '\r' || ending[i] == '\n')
      && (body == "" || (body[|body| - 1] != '\r' && body[|body| - 1] != '\n'))
    decreases |ending|
  {
    if ending == "" {
      assert line == body;
      BodyIsPrefix(line);
    } else {
      var front, last := ending[..|ending| - 1], ending[|ending| - 1];
      assert line[..|line| - 1] == body + front && ending == front + [last];
      if last == '\r' || last == '\n' {
        BodyExactly(body + front, body, front);
      } else {
        assert Body(line) == line && |line| > |body|;
      }
    }
  }

  lemma {:induction false} BodyIsPrefix(line: string)
    ensures Body(line) <= line && (Body(line) == line <==> line == "" || line[|line| - 1] !in "\r\n")
  {
    if line != "" && line[|line| - 1] in "\r\n" { BodyIsPrefix(line[..|line| - 1]); }
  }

  // The line without its ending reads: up to three spaces, at least three backticks or tildes, and a
  // rest that does not go on with the same mark.
  predicate FenceLine(line: string, indent: nat, fence: Fence, suffix: string) {
    && indent <= 3 && (fence.mark == '`' || fence.mark == '~') && fence.size >= 3
    && Body(line) == Row(' ', indent) + (Row(fence.mark, fence.size) + suffix)
    && (suffix == "" || suffix[0] != fence.mark)
  }

  lemma {:induction false} CountIs(s: string, c: char, n: nat, rest: string)
    requires s == Row(c, n) + rest && (rest == "" || rest[0] != c)
    ensures Count(s, c) == n && s[n..] == rest
  {
    if n > 0 {
      assert s[1..] == Row(c, n - 1) + rest;
      CountIs(s[1..], c, n - 1, rest);
    } else {
      assert s == rest;
    }
  }

  lemma CountSplits(s: string, c: char)
    ensures s == Row(c, Count(s, c)) + s[Count(s, c)..]
  {
  }

  lemma FenceLineIsMarked(line: string, indent: nat, fence: Fence, suffix: string)
    requires FenceLine(line, indent, fence, suffix)
    ensures MarkerOf(line) == Some(Marker(fence, suffix))
  {
    hide Body, Row, Count;
    var body, marks := Body(line), Row(fence.mark, fence.size) + suffix;
    assert marks[0] == fence.mark;
    CountIs(body, ' ', indent, marks);
    CountIs(marks, fence.mark, fence.size, suffix);
    assert body[indent + fence.size..] == body[indent..][fence.size..];
    assert body[indent] == fence.mark && |body| > indent;
  }

  lemma MarkedIsFenceLine(line: string)
    requires MarkerOf(line).Some?
    ensures var m := MarkerOf(line).value; FenceLine(line, Count(Body(line), ' '), m.fence, m.suffix)
  {
    hide Body, Row, Count;
    var body := Body(line);
    var indent := Count(body, ' ');
    var marks := body[indent..];
    CountSplits(body, ' ');
    CountSplits(marks, body[indent]);
    var size := Count(marks, body[indent]);
    assert body[indent + size..] == marks[size..];
  }

  lemma MarkerExactly(line: string, fence: Fence, suffix: string)
    ensures MarkerOf(line) == Some(Marker(fence, suffix))
       <==> exists indent: nat :: FenceLine(line, indent, fence, suffix)
  {
    hide Body, FenceLine, MarkerOf;
    if indent: nat :| FenceLine(line, indent, fence, suffix) {
      FenceLineIsMarked(line, indent, fence, suffix);
    }
    if MarkerOf(line).Some? {
      MarkedIsFenceLine(line);
    }
  }

  /** A line opens a fence when it is marked; behind backticks there may be no other backtick. */
  lemma OpensExactly(line: string, fence: Fence)
    ensures Opens(line) == Some(fence) <==>
      exists indent: nat, suffix :: FenceLine(line, indent, fence, suffix) && (fence.mark == '`' ==> '`' !in suffix)
  {
    hide MarkerOf, FenceLine;
    if Opens(line) == Some(fence) {
      MarkerExactly(line, fence, MarkerOf(line).value.suffix);
    }
    if indent: nat, suffix :| FenceLine(line, indent, fence, suffix) && (fence.mark == '`' ==> '`' !in suffix) {
      MarkerExactly(line, fence, suffix);
    }
  }

  /** A line closes a fence when it is marked with at least as many of the same mark and nothing follows
      but whitespace. */
  lemma ClosesExactly(line: string, fence: Fence)
    ensures Closes(line, fence) <==>
      exists indent: nat, size: nat, suffix ::
        FenceLine(line, indent, Fence(fence.mark, size), suffix) && size >= fence.size && Text.Blank(suffix)
  {
    hide MarkerOf, FenceLine, Text.Strip, Text.Blank;
    forall size: nat, suffix
      ensures MarkerOf(line) == Some(Marker(Fence(fence.mark, size), suffix))
         <==> exists indent: nat :: FenceLine(line, indent, Fence(fence.mark, size), suffix)
      ensures Text.Strip(suffix) == "" <==> Text.Blank(suffix)
    {
      MarkerExactly(line, Fence(fence.mark, size), suffix);
      Text.StripBlank(suffix);
    }
  }

  // How many of the following lines belong to the block: through the first closing line, or all.
  function BlockLength(lines: seq<string>, fence: Fence): (n: nat)
    ensures n <= |lines| && (lines != [] ==> n > 0)
  {
    if lines == [] then 0
    else if Closes(lines[0], fence) then 1
    else 1 + BlockLength(lines[1..], fence)
  }

  function Repeat(b: bool, n: nat): (bits: seq<bool>)
    ensures |bits| == n && forall i :: 0 <= i < n ==> bits[i] == b
  {
    seq(n, _ => b)
  }

  // Which lines lie in a fenced block.
  function FencedLines(lines: seq<string>): (bits: seq<bool>)
    ensures |bits| == |lines|
    decreases |lines|, 0
  {
    if lines == [] then []
    else
      match Opens(lines[0])
      case None => [false] + FencedLines(lines[1..])
      case Some(fence) => [true] + InBlock(lines[1..], fence)
  }

  function InBlock(lines: seq<string>, fence: Fence): (bits: seq<bool>)
    ensures |bits| == |lines|
    decreases |lines|, 1
  {
    var n := BlockLength(lines, fence);
    if n == 0 then Repeat(true, |lines|) else Repeat(true, n) + FencedLines(lines[n..])
  }

  // The per-line bits spread over the characters of the lines.
  function Spread(bits: seq<bool>, lines: seq<string>): (r: seq<bool>)
    requires |bits| == |lines|
    ensures |r| == |Concat(lines)|
  {
    if lines == [] then [] else Repeat(bits[0], |lines[0]|) + Spread(bits[1..], lines[1..])
  }

  // Which characters lie on fenced lines.
  function Fenced(text: string): (bits: seq<bool>)
    ensures |bits| == |text|
  {
    Spread(FencedLines(SplitLines(text)), SplitLines(text))
  }

  // ---- Inline spans ----

  // A maximal stretch [start, end) of unfenced backticks.
  datatype Run = Run(start: nat, end: nat)

  predicate Tick(text: string, fenced: seq<bool>, i: nat)
    requires |fenced| == |text| && i < |text|
  {
    !fenced[i] && text[i] == '`'
  }

  function RunEnd(text: string, fenced: seq<bool>, i: nat): (e: nat)
    requires |fenced| == |text| && i <= |text|
    ensures i <= e <= |text|
    ensures forall j :: i <= j < e ==> Tick(text, fenced, j)
    ensures e < |text| ==> !Tick(text, fenced, e)
    decreases |text| - i
  {
    if i < |text| && Tick(text, fenced, i) then RunEnd(text, fenced, i + 1) else i
  }

  // The runs from position i on, left to right.
  function RunsFrom(text: string, fenced: seq<bool>, i: nat): (runs: seq<Run>)
    requires |fenced| == |text| && i <= |text|
    ensures forall r :: r in runs ==> i <= r.start < r.end <= |text|
    decreases |text| - i
  {
    if i == |text| then []
    else if !Tick(text, fenced, i) then RunsFrom(text, fenced, i + 1)
    else
      var e := RunEnd(text, fenced, i + 1);
      [Run(i, e)] + RunsFrom(text, fenced, e)
  }

  // The first run of the given length, or the number of runs when there is none.
  function FirstOfLength(runs: seq<Run>, size: int): (j: nat)
    ensures j <= |runs|
  {
    if runs == [] || runs[0].end - runs[0].start == size then 0 else 1 + FirstOfLength(runs[1..], size)
  }

  lemma {:induction false} FirstOfLengthIsFirst(runs: seq<Run>, size: int, j: nat)
    requires j <= |runs|
    ensures FirstOfLength(runs, size) == j <==> (
      && (forall k :: 0 <= k < j ==> runs[k].end - runs[k].start != size)
      && (j < |runs| ==> runs[j].end - runs[j].start == size))
  {
    if runs != [] && j > 0 {
      FirstOfLengthIsFirst(runs[1..], size, j - 1);
      assert forall k :: 1 <= k < |runs| ==> runs[1..][k - 1] == runs[k];
    }
  }

  // The first run after run k that is as long as run k, or the number of runs.
  function Match(runs: seq<Run>, k: nat): (j: nat)
    requires k < |runs|
    ensures k < j <= |runs|
  {
    k + 1 + FirstOfLength(runs[k + 1..], runs[k].end - runs[k].start)
  }

  // The spans: the first run is closed by the next one of its length, or stays visible.
  function Spans(runs: seq<Run>): seq<Run> {
    if runs == [] then []
    else
      var j := Match(runs, 0);
      if j == |runs| then Spans(runs[1..]) else [Run(runs[0].start, runs[j].end)] + Spans(runs[j + 1..])
  }

  predicate Within(spans: seq<Run>, i: nat) {
    exists k :: 0 <= k < |spans| && spans[k].start <= i < spans[k].end
  }

  // Which characters `_mask_markdown_code` hides.
  predicate Hidden(text: string, i: nat)
    requires i < |text|
  {
    Fenced(text)[i] || Within(Spans(RunsFrom(text, Fenced(text), 0)), i)
  }

  // ---- The scan ----

  // The bits of the lines still to come, given the fence the scan is inside of.
  function Rest(lines: seq<string>, fence: Option<Fence>): (bits: seq<bool>)
    ensures |bits| == |lines|
  {
    match fence
    case None => FencedLines(lines)
    case Some(f) => InBlock(lines, f)
  }

  // One step of the state machine the code runs over the lines.
  function NextFence(line: string, fence: Option<Fence>): Option<Fence> {
    match fence
    case None => Opens(line)
    case Some(f) => if Closes(line, f) then None else fence
  }

  lemma InBlockStep(lines: seq<string>, fence: Fence)
    requires lines != []
    ensures InBlock(lines, fence)
         == [true] + if Closes(lines[0], fence) then FencedLines(lines[1..]) else InBlock(lines[1..], fence)
  {
    hide Closes, FencedLines;
    if !Closes(lines[0], fence) {
      var n := BlockLength(lines[1..], fence);
      assert lines[1..][n..] == lines[1 + n..];
      assert BlockLength(lines, fence) == 1 + n;
      if n == 0 {
        EmptyFenced();
      }
    }
  }

  lemma EmptyFenced()
    ensures FencedLines([]) == []
  {
  }

  // Remembering one open fence while scanning finds the same blocks as searching for their ends.
  lemma RestStep(lines: seq<string>, fence: Option<Fence>)
    requires lines != []
    ensures Rest(lines, fence)
         == [fence.Some? || Opens(lines[0]).Some?] + Rest(lines[1..], NextFence(lines[0], fence))
  {
    hide Closes, Opens, InBlock;
    if fence.Some? {
      InBlockStep(lines, fence.value);
    }
  }

  // What the scan has still to mark once the lines before it are done.
  ghost predicate Remaining(text: string, all: seq<bool>, lines: seq<string>, fence: Option<Fence>, offset: nat) {
    && |all| == |text|
    && offset <= |text|
    && Concat(lines) == text[offset..]
    && Spread(Rest(lines, fence), lines) == all[offset..]
  }

  lemma RemainingStep(text: string, all: seq<bool>, lines: seq<string>, fence: Option<Fence>, offset: nat)
    requires Remaining(text, all, lines, fence, offset) && lines != []
    ensures offset + |lines[0]| <= |text|
    ensures Remaining(text, all, lines[1..], NextFence(lines[0], fence), offset + |lines[0]|)
    ensures forall i :: offset <= i < offset + |lines[0]| ==> all[i] == (fence.Some? || Opens(lines[0]).Some?)
  {
    hide Opens, NextFence, Rest;
    RestStep(lines, fence);
    var bits := Rest(lines, fence);
    assert bits[1..] == Rest(lines[1..], NextFence(lines[0], fence));
    var n := |lines[0]|;
    assert all[offset..] == Repeat(bits[0], n) + Spread(bits[1..], lines[1..]);
    assert all[offset + n..] == all[offset..][n..];
    assert text[offset + n..] == text[offset..][n..];
    forall i | offset <= i < offset + n ensures all[i] == bits[0] {
      assert all[i] == all[offset..][i - offset];
    }
  }

  // `masked[from:to] = [True] * (to - from)`
  method Mark(masked: array<bool>, from: nat, to: nat)
    requires from <= to <= masked.Length
    modifies masked
    ensures forall i :: 0 <= i < masked.Length ==> masked[i] == (from <= i < to || old(masked[i]))
  {
    forall i | from <= i < to {
      masked[i] := true;
    }
  }

  method MarkFencedLines(text: string, masked: array<bool>)
    requires masked.Length == |text| && forall i :: 0 <= i < |text| ==> !masked[i]
    modifies masked
    ensures masked[..] == Fenced(text)
  {
    hide Remaining, Opens, NextFence, SplitLines;
    var lines := SplitLines(text);
    ghost var all := Fenced(text);
    StartRemaining(text);
    var fence := None;
    var offset := 0;
    var k := 0;
    while k < |lines|
      invariant 0 <= k <= |lines| && 0 <= offset <= |text|
      invariant Remaining(text, all, lines[k..], fence, offset)
      invariant forall i :: 0 <= i < offset ==> masked[i] == all[i]
      invariant forall i :: offset <= i < |text| ==> !masked[i]
    {
      var line := lines[k];
      RemainingStep(text, all, lines[k..], fence, offset);
      assert lines[k..][1..] == lines[k + 1..];
      if fence.Some? || Opens(line).Some? {
        Mark(masked, offset, offset + |line|);
      }
      fence := NextFence(line, fence);
      offset := offset + |line|;
      k := k + 1;
    }
    assert lines[k..] == [];
    EndRemaining(text, all, fence, offset);
  }

  lemma StartRemaining(text: string)
    ensures Remaining(text, Fenced(text), SplitLines(text), None, 0)
  {
  }

  lemma EndRemaining(text: string, all: seq<bool>, fence: Option<Fence>, offset: nat)
    requires Remaining(text, all, [], fence, offset)
    ensures offset == |text|
  {
  }

  lemma SpansUnfold(runs: seq<Run>)
    requires runs != []
    ensures Spans(runs) == (
      var j := Match(runs, 0);
      if j == |runs| then Spans(runs[1..]) else [Run(runs[0].start, runs[j].end)] + Spans(runs[j + 1..]))
  {
    hide Match;
  }

  lemma SpansCons(runs: seq<Run>, first: Run, rest: seq<Run>)
    requires runs == [first] + rest
    ensures Spans(runs) == (
      var j := FirstOfLength(rest, first.end - first.start);
      if j == |rest| then Spans(rest) else [Run(first.start, rest[j].end)] + Spans(rest[j + 1..]))
  {
    hide FirstOfLength, Spans, Match;
    var j := FirstOfLength(rest, first.end - first.start);
    assert runs[0] == first && runs[1..] == rest;
    MatchOfFirst(runs, rest);
    SpansUnfold(runs);
    if j < |rest| {
      DropFirst(runs, rest, j + 1);
    }
  }

  lemma DropFirst(runs: seq<Run>, rest: seq<Run>, n: nat)
    requires runs != [] && runs[1..] == rest && 0 < n <= |rest|
    ensures runs[n + 1..] == rest[n..] && runs[n] == rest[n - 1]
  {
  }

  lemma MatchOfFirst(runs: seq<Run>, rest: seq<Run>)
    requires runs != [] && runs[1..] == rest
    ensures Match(runs, 0) == 1 + FirstOfLength(rest, runs[0].end - runs[0].start)
  {
  }

  lemma RunsStep(text: string, fenced: seq<bool>, i: nat)
    requires |fenced| == |text| && i < |text|
    ensures RunsFrom(text, fenced, i)
         == if !Tick(text, fenced, i) then RunsFrom(text, fenced, i + 1)
            else [Run(i, RunEnd(text, fenced, i + 1))] + RunsFrom(text, fenced, RunEnd(text, fenced, i + 1))
  {
  }

  // `while run_end < len(text) and not masked[run_end] and text[run_end] == "`"`
  method FindRunEnd(text: string, masked: array<bool>, start: nat, ghost fenced: seq<bool>) returns (end: nat)
    requires masked.Length == |text| == |fenced| && start <= |text|
    requires forall i :: start <= i < |text| ==> masked[i] == fenced[i]
    ensures end == RunEnd(text, fenced, start)
  {
    end := start;
    while end < |text| && !masked[end] && text[end] == '`'
      invariant start <= end <= |text|
      invariant RunEnd(text, fenced, end) == RunEnd(text, fenced, start)
    {
      end := end + 1;
    }
  }

  // Run j closes, where `closing` says; the runs after it are those from there on.
  ghost predicate ClosedBy(text: string, fenced: seq<bool>, runs: seq<Run>, j: nat, closing: Option<nat>)
    requires |fenced| == |text|
  {
    match closing
    case None => j == |runs|
    case Some(end) =>
      && j < |runs| && runs[j].end == end <= |text|
      && runs[j + 1..] == RunsFrom(text, fenced, end)
  }

  // The end of the first later run of the given length, if there is one.
  method FindClosing(text: string, masked: array<bool>, start: nat, size: int, ghost fenced: seq<bool>)
    returns (closing: Option<nat>)
    requires masked.Length == |text| == |fenced| && start <= |text|
    requires forall i :: start <= i < |text| ==> masked[i] == fenced[i]
    ensures var rest := RunsFrom(text, fenced, start);
            ClosedBy(text, fenced, rest, FirstOfLength(rest, size), closing)
    ensures closing.Some? ==> start < closing.value <= |text|
  {
    hide RunsFrom, FirstOfLength, RunEnd;
    ghost var rest := RunsFrom(text, fenced, start);
    ghost var skipped := 0;
    var cursor := start;
    while cursor < |text|
      invariant start <= cursor <= |text| && 0 <= skipped <= |rest|
      invariant rest[skipped..] == RunsFrom(text, fenced, cursor)
      invariant forall k :: 0 <= k < skipped ==> rest[k].end - rest[k].start != size
    {
      RunsStep(text, fenced, cursor);
      if masked[cursor] || text[cursor] != '`' {
        cursor := cursor + 1;
      } else {
        var candidateEnd := FindRunEnd(text, masked, cursor + 1, fenced);
        ConsSplit(rest, skipped, Run(cursor, candidateEnd), RunsFrom(text, fenced, candidateEnd));
        if candidateEnd - cursor == size {
          FirstOfLengthIsFirst(rest, size, skipped);
          return Some(candidateEnd);
        }
        cursor := candidateEnd;
        skipped := skipped + 1;
      }
    }
    NoRunsLeft(text, fenced);
    FirstOfLengthIsFirst(rest, size, |rest|);
    closing := None;
  }

  lemma ConsSplit(runs: seq<Run>, k: nat, first: Run, tail: seq<Run>)
    requires k <= |runs| && runs[k..] == [first] + tail
    ensures k < |runs| && runs[k] == first && runs[k + 1..] == tail
  {
    assert runs[k..][0] == first && runs[k..][1..] == tail;
    assert runs[k + 1..] == runs[k..][1..];
  }

  lemma NoRunsLeft(text: string, fenced: seq<bool>)
    requires |fenced| == |text|
    ensures RunsFrom(text, fenced, |text|) == []
  {
  }

  // Before `index` the fenced characters and the spans done are masked, from there on the fenced ones.
  ghost predicate Marked(bits: seq<bool>, fenced: seq<bool>, done: seq<Run>, index: nat) {
    && |bits| == |fenced| && index <= |fenced|
    && (forall i :: 0 <= i < index ==> bits[i] == (fenced[i] || Within(done, i)))
    && (forall i :: index <= i < |fenced| ==> bits[i] == fenced[i])
    && (forall i: nat :: index <= i ==> !Within(done, i))
  }

  lemma MarkedFurther(bits: seq<bool>, fenced: seq<bool>, done: seq<Run>, index: nat, further: nat)
    requires Marked(bits, fenced, done, index) && index <= further <= |fenced|
    ensures Marked(bits, fenced, done, further)
  {
    hide Within;
  }

  lemma MarkedSpan(bits: seq<bool>, marked: seq<bool>, fenced: seq<bool>, done: seq<Run>, span: Run)
    requires Marked(bits, fenced, done, span.start) && span.start <= span.end <= |fenced|
    requires |marked| == |bits|
    requires forall i :: 0 <= i < |bits| ==> marked[i] == (span.start <= i < span.end || bits[i])
    ensures Marked(marked, fenced, done + [span], span.end)
  {
    WithinAppend(done, span);
    hide Within;
  }

  // What is left to mark is what the runs from `index` on make.
  ghost predicate Upcoming(text: string, fenced: seq<bool>, done: seq<Run>, index: nat)
    requires |fenced| == |text|
  {
    && index <= |text|
    && Spans(RunsFrom(text, fenced, 0)) == done + Spans(RunsFrom(text, fenced, index))
  }

  lemma UpcomingSkip(text: string, fenced: seq<bool>, done: seq<Run>, index: nat)
    requires |fenced| == |text| && index < |text| && !Tick(text, fenced, index)
    requires Upcoming(text, fenced, done, index)
    ensures Upcoming(text, fenced, done, index + 1)
  {
    hide Spans;
    RunsStep(text, fenced, index);
  }

  // A run without a later one of its length is passed over; with one it makes a span.
  lemma UpcomingRun(text: string, fenced: seq<bool>, done: seq<Run>, index: nat, closing: Option<nat>)
    requires |fenced| == |text| && index < |text| && Tick(text, fenced, index)
    requires Upcoming(text, fenced, done, index)
    requires var runEnd := RunEnd(text, fenced, index + 1);
             var later := RunsFrom(text, fenced, runEnd);
             ClosedBy(text, fenced, later, FirstOfLength(later, runEnd - index), closing)
    ensures match closing
            case None => Upcoming(text, fenced, done, RunEnd(text, fenced, index + 1))
            case Some(end) => Upcoming(text, fenced, done + [Run(index, end)], end)
  {
    hide RunsFrom, Spans, RunEnd, FirstOfLength;
    var runEnd := RunEnd(text, fenced, index + 1);
    RunsStep(text, fenced, index);
    SpansCons(RunsFrom(text, fenced, index), Run(index, runEnd), RunsFrom(text, fenced, runEnd));
    if closing.Some? {
      MoveFirst(done, Run(index, closing.value), Spans(RunsFrom(text, fenced, closing.value)));
    }
  }

  // `_mask_markdown_code`: exactly the hidden characters become spaces, all others stay in place.
  method MaskMarkdownCode(text: string) returns (r: string)
    ensures |r| == |text|
    ensures forall i :: 0 <= i < |text| ==> r[i] == if Hidden(text, i) then ' ' else text[i]
  {
    hide Fenced, Spans, RunsFrom, FirstOfLength, RunEnd, Within, Marked, Upcoming, ClosedBy;
    var masked := new bool[|text|](_ => false);
    MarkFencedLines(text, masked);
    ghost var fenced := Fenced(text);
    ghost var done: seq<Run> := [];
    StartScan(text, fenced);
    var index := 0;
    while index < |text|
      invariant 0 <= index <= |text|
      invariant Upcoming(text, fenced, done, index)
      invariant Marked(masked[..], fenced, done, index)
    {
      FencedAhead(masked[..], fenced, done, index);
      if masked[index] || text[index] != '`' {
        UpcomingSkip(text, fenced, done, index);
        MarkedFurther(masked[..], fenced, done, index, index + 1);
        index := index + 1;
      } else {
        var runEnd := FindRunEnd(text, masked, index + 1, fenced);
        var closing := FindClosing(text, masked, runEnd, runEnd - index, fenced);
        UpcomingRun(text, fenced, done, index, closing);
        if closing.None? {
          MarkedFurther(masked[..], fenced, done, index, runEnd);
          index := runEnd;
        } else {
          ghost var bits, span := masked[..], Run(index, closing.value);
          Mark(masked, index, closing.value);
          MarkedSpan(bits, masked[..], fenced, done, span);
          done := done + [span];
          index := closing.value;
        }
      }
    }
    EndScan(text, masked[..], fenced, done);
    r := Blanked(text, masked);
  }

  lemma StartScan(text: string, fenced: seq<bool>)
    requires |fenced| == |text|
    ensures Upcoming(text, fenced, [], 0) && Marked(fenced, fenced, [], 0)
  {
  }

  lemma FencedAhead(bits: seq<bool>, fenced: seq<bool>, done: seq<Run>, index: nat)
    requires Marked(bits, fenced, done, index)
    ensures |bits| == |fenced| && forall i :: index <= i < |fenced| ==> bits[i] == fenced[i]
  {
  }

  lemma EndScan(text: string, bits: seq<bool>, fenced: seq<bool>, done: seq<Run>)
    requires fenced == Fenced(text) && |fenced| == |text|
    requires Upcoming(text, fenced, done, |text|) && Marked(bits, fenced, done, |text|)
    ensures |bits| == |text| && forall i :: 0 <= i < |text| ==> bits[i] == Hidden(text, i)
  {
    NoRunsLeft(text, fenced);
    NoSpansLeft();
    assert Spans(RunsFrom(text, fenced, 0)) == done;
  }

  lemma MoveFirst(done: seq<Run>, span: Run, rest: seq<Run>)
    ensures done + ([span] + rest) == (done + [span]) + rest
  {
  }

  // `" " if hidden else char` over the text
  method Blanked(text: string, masked: array<bool>) returns (r: string)
    requires masked.Length == |text|
    ensures |r| == |text|
    ensures forall i :: 0 <= i < |text| ==> r[i] == if masked[i] then ' ' else text[i]
  {
    r := "";
    for i := 0 to |text|
      invariant |r| == i
      invariant forall k :: 0 <= k < i ==> r[k] == if masked[k] then ' ' else text[k]
    {
      r := r + [if masked[i] then ' ' else text[i]];
    }
  }

  lemma NoSpansLeft()
    ensures Spans([]) == []
  {
  }

  lemma WithinAppend(done: seq<Run>, span: Run)
    ensures forall i: nat :: Within(done + [span], i) <==> Within(done, i) || span.start <= i < span.end
  {
    forall i: nat ensures Within(done + [span], i) <==> Within(done, i) || span.start <= i < span.end {
      if Within(done, i) {
        var k :| 0 <= k < |done| && done[k].start <= i < done[k].end;
        assert (done + [span])[k] == done[k];
      }
      if span.start <= i < span.end {
        assert (done + [span])[|done|] == span;
      }
    }
  }

  // ---- What is fenced: the block rule without a scan ----

  // A line that opens a fence and is not itself content of a block.
  ghost predicate OpeningLine(lines: seq<string>, k: nat)
    requires k < |lines|
    decreases k, 1
  {
    Opens(lines[k]).Some? && !InsideBlock(lines, k)
  }

  // Some opening line comes earlier and no line between the two closes its fence.
  ghost predicate InsideBlock(lines: seq<string>, k: nat)
    requires k <= |lines|
    decreases k, 0
  {
    exists o :: 0 <= o < k && OpeningLine(lines, o) && StaysOpen(lines, o, k)
  }

  ghost predicate StaysOpen(lines: seq<string>, o: nat, k: nat)
    requires o < k <= |lines|
  {
    forall i, f :: o < i < k && Opens(lines[o]) == Some(f) ==> !Closes(lines[i], f)
  }

  // The fence the scan is inside of before line k.
  function FenceAt(lines: seq<string>, k: nat): Option<Fence>
    requires k <= |lines|
  {
    if k == 0 then None else NextFence(lines[k - 1], FenceAt(lines, k - 1))
  }

  lemma {:induction false} FenceAtIsOpen(lines: seq<string>, k: nat)
    requires k <= |lines|
    ensures FenceAt(lines, k).Some? <==> InsideBlock(lines, k)
    ensures forall o :: 0 <= o < k && OpeningLine(lines, o) && StaysOpen(lines, o, k)
                        ==> FenceAt(lines, k) == Opens(lines[o])
  {
    hide Opens, Closes;
    if k > 0 {
      FenceAtIsOpen(lines, k - 1);
      var before := FenceAt(lines, k - 1);
      if before.Some? {
        var o :| 0 <= o < k - 1 && OpeningLine(lines, o) && StaysOpen(lines, o, k - 1);
        assert !Closes(lines[k - 1], before.value) ==> StaysOpen(lines, o, k);
      } else if Opens(lines[k - 1]).Some? {
        assert OpeningLine(lines, k - 1) && StaysOpen(lines, k - 1, k);
      }
      forall o | 0 <= o < k && OpeningLine(lines, o) && StaysOpen(lines, o, k)
        ensures FenceAt(lines, k) == Opens(lines[o])
      {
        if o < k - 1 {
          assert StaysOpen(lines, o, k - 1);
        }
      }
    }
  }

  lemma {:induction false} FencedFromScan(lines: seq<string>, k: nat)
    requires k <= |lines|
    ensures FencedLines(lines)[k..] == Rest(lines[k..], FenceAt(lines, k))
  {
    hide Rest, NextFence, Opens, FencedLines, InBlock, Closes;
    if k == 0 {
      RestOfNone(lines);
    } else {
      FencedFromScan(lines, k - 1);
      RestStep(lines[k - 1..], FenceAt(lines, k - 1));
      assert lines[k - 1..][1..] == lines[k..];
      assert FencedLines(lines)[k..] == FencedLines(lines)[k - 1..][1..];
    }
  }

  lemma RestOfNone(lines: seq<string>)
    ensures Rest(lines, None) == FencedLines(lines) && lines[0..] == lines
  {
  }

  // The fenced lines are exactly the opening lines and the lines inside a block.
  lemma FencedLinesAreBlocks(lines: seq<string>, k: nat)
    requires k < |lines|
    ensures FencedLines(lines)[k] <==> OpeningLine(lines, k) || InsideBlock(lines, k)
  {
    hide Rest, Opens, FencedLines;
    FencedFromScan(lines, k);
    FenceAtIsOpen(lines, k);
    RestStep(lines[k..], FenceAt(lines, k));
    assert FencedLines(lines)[k] == FencedLines(lines)[k..][0];
  }

  // ---- What is a span: the matching rule without a scan ----

  predicate MaximalRun(text: string, fenced: seq<bool>, r: Run)
    requires |fenced| == |text|
  {
    && r.start < r.end <= |text|
    && (forall i :: r.start <= i < r.end ==> Tick(text, fenced, i))
    && (r.start > 0 ==> !Tick(text, fenced, r.start - 1))
    && (r.end < |text| ==> !Tick(text, fenced, r.end))
  }

  // Each run ends before the next one starts, and the first starts at `from` or later.
  predicate Ascending(runs: seq<Run>, from: nat) {
    runs != [] ==> from <= runs[0].start < runs[0].end && Ascending(runs[1..], runs[0].end)
  }

  // The runs are exactly the maximal stretches of unfenced backticks, left to right.
  lemma {:induction false} RunsAreMaximal(text: string, fenced: seq<bool>, i: nat)
    requires |fenced| == |text| && i <= |text|
    requires 0 < i < |text| ==> !Tick(text, fenced, i - 1) || !Tick(text, fenced, i)
    ensures Ascending(RunsFrom(text, fenced, i), i)
    ensures forall r :: r in RunsFrom(text, fenced, i) <==> r.start >= i && MaximalRun(text, fenced, r)
    decreases |text| - i
  {
    hide MaximalRun, Tick, RunsFrom;
    if i == |text| {
      NoRunsLeft(text, fenced);
      forall r: Run | MaximalRun(text, fenced, r) ensures r.start < i {
        RunBounds(text, fenced, r);
      }
    } else {
      RunsStep(text, fenced, i);
      if !Tick(text, fenced, i) {
        RunsAreMaximal(text, fenced, i + 1);
        AscendingFrom(RunsFrom(text, fenced, i), i, i + 1);
        forall r: Run | MaximalRun(text, fenced, r) ensures r.start != i {
          RunBounds(text, fenced, r);
        }
      } else {
        var e := RunEnd(text, fenced, i + 1);
        RunsAreMaximal(text, fenced, e);
        assert RunsFrom(text, fenced, i)[1..] == RunsFrom(text, fenced, e);
        forall r: Run | r.start >= i
          ensures MaximalRun(text, fenced, r) <==> r == Run(i, e) || (r.start >= e && MaximalRun(text, fenced, r))
        {
          OneRunInStretch(text, fenced, i, e, r);
        }
      }
    }
  }

  lemma RunBounds(text: string, fenced: seq<bool>, r: Run)
    requires |fenced| == |text| && MaximalRun(text, fenced, r)
    ensures r.start < r.end <= |text| && Tick(text, fenced, r.start)
  {
  }

  lemma AscendingFrom(runs: seq<Run>, from: nat, later: nat)
    requires from <= later && Ascending(runs, later)
    ensures Ascending(runs, from)
  {
  }

  lemma OneRunInStretch(text: string, fenced: seq<bool>, i: nat, e: nat, r: Run)
    requires |fenced| == |text| && i < e <= |text| && r.start >= i
    requires forall j :: i <= j < e ==> Tick(text, fenced, j)
    requires i > 0 ==> !Tick(text, fenced, i - 1)
    requires e < |text| ==> !Tick(text, fenced, e)
    ensures MaximalRun(text, fenced, r) && r.start < e <==> r == Run(i, e)
  {
    hide Tick;
  }

  lemma MatchIsFirst(runs: seq<Run>, k: nat, j: nat)
    requires k < j <= |runs|
    ensures Match(runs, k) == j <==> (
      && (forall i :: k < i < j ==> runs[i].end - runs[i].start != runs[k].end - runs[k].start)
      && (j < |runs| ==> runs[j].end - runs[j].start == runs[k].end - runs[k].start))
  {
    FirstOfLengthIsFirst(runs[k + 1..], runs[k].end - runs[k].start, j - k - 1);
    assert forall i :: k < i < |runs| ==> runs[k + 1..][i - k - 1] == runs[i];
  }

  // A run opens a span when a later run is as long and no earlier span covers it.
  ghost predicate Opener(runs: seq<Run>, k: nat)
    requires k < |runs|
    decreases k, 1
  {
    Match(runs, k) < |runs| && !Covered(runs, k)
  }

  ghost predicate Covered(runs: seq<Run>, k: nat)
    requires k < |runs|
    decreases k, 0
  {
    exists o :: 0 <= o < k && Opener(runs, o) && k <= Match(runs, o)
  }

  ghost predicate SpanFrom(runs: seq<Run>, i: nat, span: Run) {
    exists k :: i <= k < |runs| && Opener(runs, k) && span == Run(runs[k].start, runs[Match(runs, k)].end)
  }

  // The spans hidden are exactly those from an opener to the next run of its length.
  lemma SpansJoinOpeners(runs: seq<Run>, span: Run)
    ensures span in Spans(runs) <==> SpanFrom(runs, 0, span)
  {
    assert runs[0..] == runs;
    SpansFromJoinOpeners(runs, 0, span);
  }

  lemma {:induction false} SpansFromJoinOpeners(runs: seq<Run>, i: nat, span: Run)
    requires i <= |runs|
    requires forall o :: 0 <= o < i && Opener(runs, o) ==> Match(runs, o) < i
    ensures span in Spans(runs[i..]) <==> SpanFrom(runs, i, span)
    decreases |runs| - i
  {
    hide Match, Spans;
    if i == |runs| {
      NoSpansLeft();
      assert runs[i..] == [];
    } else {
      var m := Match(runs, i);
      SpansAt(runs, i);
      assert !Covered(runs, i);
      if m == |runs| {
        SpansFromJoinOpeners(runs, i + 1, span);
        assert SpanFrom(runs, i, span) <==> SpanFrom(runs, i + 1, span);
      } else {
        assert Opener(runs, i);
        forall o | i < o <= m ensures !Opener(runs, o) {
          assert Covered(runs, o);
        }
        SpansFromJoinOpeners(runs, m + 1, span);
        assert SpanFrom(runs, i, span) <==> span == Run(runs[i].start, runs[m].end) || SpanFrom(runs, m + 1, span);
      }
    }
  }

  lemma SpansAt(runs: seq<Run>, i: nat)
    requires i < |runs|
    ensures Spans(runs[i..])
         == if Match(runs, i) == |runs| then Spans(runs[i + 1..])
            else [Run(runs[i].start, runs[Match(runs, i)].end)] + Spans(runs[Match(runs, i) + 1..])
  {
    hide FirstOfLength, Spans;
    assert runs[i..] == [runs[i]] + runs[i + 1..];
    SpansCons(runs[i..], runs[i], runs[i + 1..]);
    if Match(runs, i) < |runs| {
      assert runs[i + 1..][Match(runs, i) - i - 1 + 1..] == runs[Match(runs, i) + 1..];
    }
  }

  // Where line k starts in the text.
  function Offset(lines: seq<string>, k: nat): nat
    requires k <= |lines|
  {
    if k == 0 then 0 else |lines[0]| + Offset(lines[1..], k - 1)
  }

  lemma {:induction false} SpreadByLine(bits: seq<bool>, lines: seq<string>, k: nat, c: nat)
    requires |bits| == |lines| && k < |lines| && c < |lines[k]|
    ensures Offset(lines, k) + c < |Concat(lines)|
    ensures Concat(lines)[Offset(lines, k) + c] == lines[k][c]
    ensures Spread(bits, lines)[Offset(lines, k) + c] == bits[k]
  {
    if k > 0 {
      SpreadByLine(bits[1..], lines[1..], k - 1, c);
    }
  }

  // What the mask hides, said without any scan: a character on an opening line or inside a block,
  // and a character between an opener and the next run as long as it.
  lemma HiddenExactly(text: string, k: nat, c: nat)
    requires k < |SplitLines(text)| && c < |SplitLines(text)[k]|
    ensures var lines := SplitLines(text);
            var i := Offset(lines, k) + c;
            var runs := RunsFrom(text, Fenced(text), 0);
            && i < |text| && text[i] == lines[k][c]
            && (Hidden(text, i) <==> (
                 || OpeningLine(lines, k)
                 || InsideBlock(lines, k)
                 || exists span :: SpanFrom(runs, 0, span) && span.start <= i < span.end))
  {
    hide OpeningLine, InsideBlock, FencedLines, Spans, RunsFrom, Spread, SpanFrom, SplitLines;
    var lines := SplitLines(text);
    var runs := RunsFrom(text, Fenced(text), 0);
    SpreadByLine(FencedLines(lines), lines, k, c);
    FencedLinesAreBlocks(lines, k);
    forall span ensures span in Spans(runs) <==> SpanFrom(runs, 0, span) {
      SpansJoinOpeners(runs, span);
    }
  }

  // ---- Escapes ----

  // A character is escaped when a backslash precedes it that is not itself escaped.
  predicate Escaped(text: string, i: nat)
    requires i <= |text|
  {
    i > 0 && text[i - 1] == '\\' && !Escaped(text, i - 1)
  }

  // `_is_escaped` counts the backslashes before the index and asks whether their number is odd.
  method IsEscaped(text: string, index: nat) returns (escaped: bool)
    requires index <= |text|
    ensures escaped == Escaped(text, index)
  {
    var backslashes := 0;
    var cursor := index - 1;
    while cursor >= 0 && text[cursor] == '\\'
      invariant -1 <= cursor < index
      invariant Escaped(text, index) == (Escaped(text, cursor + 1) == (backslashes % 2 == 0))
    {
      backslashes := backslashes + 1;
      cursor := cursor - 1;
    }
    escaped := backslashes % 2 == 1;
  }
}
