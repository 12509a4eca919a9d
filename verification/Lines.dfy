/** `str.splitlines(keepends=True)`. */
module Lines {

  // The characters `str.splitlines` ends a line at.
  predicate IsBreak(c: char) {
    || '\n' <= c <= '\r' || '\U{1c}' <= c <= '\U{1e}' || c == '\U{85}' || c == '\U{2028}' || c == '\U{2029}'
  }

  lemma BreaksAre(c: char)
    ensures IsBreak(c) <==> c in "\n\U{b}\U{c}\r\U{1c}\U{1d}\U{1e}\U{85}\U{2028}\U{2029}"
  {
  }

  // The length of the first line of s from position i on, its terminator included.
  function LineEnd(s: string, i: nat): (e: nat)
    requires i < |s|
    ensures i < e <= |s|
    decreases |s| - i
  {
    if s[i] == '\r' && i + 1 < |s| && s[i + 1] == '\n' then i + 2
    else if IsBreak(s[i]) || i + 1 == |s| then i + 1
    else LineEnd(s, i + 1)
  }

  // `s.splitlines(keepends=True)`
  function SplitLines(s: string): (lines: seq<string>)
    ensures Concat(lines) == s
  {
    if s == [] then []
    else
      var e := LineEnd(s, 0);
      [s[..e]] + SplitLines(s[e..])
  }

  function Concat(lines: seq<string>): string {
    if lines == [] then [] else lines[0] + Concat(lines[1..])
  }

  predicate Unbroken(s: string) {
    forall i :: 0 <= i < |s| ==> !IsBreak(s[i])
  }

  // "\r\n", "\n" or nothing.
  function EndingOf(line: string): (e: string)
    ensures |e| <= |line| && line[|line| - |e|..] == e
  {
    if |line| >= 2 && line[|line| - 2..] == "\r\n" then "\r\n"
    else if line != [] && line[|line| - 1] == '\n' then "\n"
    else ""
  }

  function BodyOf(line: string): string {
    line[..|line| - |EndingOf(line)|]
  }

  // Lines that end in LF or CRLF and break nowhere else; only the last one may miss its ending.
  predicate WellLined(lines: seq<string>) {
    forall i :: 0 <= i < |lines| ==> WellEnded(lines[i], i == |lines| - 1)
  }

  predicate WellEnded(line: string, last: bool) {
    line != "" && Unbroken(BodyOf(line)) && (EndingOf(line) == "" ==> last)
  }

  // An LF or a CRLF starts here.
  predicate NewlineAt(s: string, i: nat)
    requires i < |s|
  {
    s[i] == '\n' || (s[i] == '\r' && i + 1 < |s| && s[i + 1] == '\n')
  }

  // The only line breaks of the text are LF and CRLF.
  predicate PlainText(s: string) {
    forall i :: 0 <= i < |s| && IsBreak(s[i]) ==> NewlineAt(s, i)
  }

  // The first line runs to its first break.
  lemma {:induction false} LineEndAt(s: string, i: nat, body: nat)
    requires i <= body <= |s| && i < |s|
    requires forall k :: i <= k < body ==> !IsBreak(s[k])
    requires body < |s| ==> NewlineAt(s, body)
    ensures LineEnd(s, i) == if body == |s| then body else if s[body] == '\n' then body + 1 else body + 2
    decreases body - i
  {
    if i < body && i + 1 < |s| {
      LineEndAt(s, i + 1, body);
    }
  }

  // Where the first line of a plain text breaks.
  lemma {:induction false} FirstBreak(s: string, i: nat) returns (body: nat)
    requires i <= |s| && PlainText(s)
    ensures i <= body <= |s| && forall k :: i <= k < body ==> !IsBreak(s[k])
    ensures body < |s| ==> NewlineAt(s, body)
    decreases |s| - i
  {
    hide IsBreak;
    if i == |s| || IsBreak(s[i]) {
      body := i;
    } else {
      body := FirstBreak(s, i + 1);
    }
  }

  lemma {:induction false} PlainIsWellLined(s: string)
    requires PlainText(s)
    ensures WellLined(SplitLines(s))
    decreases |s|
  {
    hide IsBreak, NewlineAt, LineEnd;
    if s != [] {
      var body := FirstBreak(s, 0);
      LineEndAt(s, 0, body);
      var e := LineEnd(s, 0);
      var rest := s[e..];
      RestIsPlain(s, e);
      PlainIsWellLined(rest);
      FirstLine(s, body, e);
      LinesCons(s[..e], SplitLines(rest));
    }
  }

  lemma FirstLine(s: string, body: nat, e: nat)
    requires body <= |s| && s != [] && forall k :: 0 <= k < body ==> !IsBreak(s[k])
    requires body < |s| ==> NewlineAt(s, body)
    requires e == if body == |s| then body else if s[body] == '\n' then body + 1 else body + 2
    ensures BodyOf(s[..e]) == s[..body] && WellEnded(s[..e], e == |s|)
  {
    hide IsBreak;
    NewlineBreaks();
    var line := s[..e];
    if body == |s| {
      UnbrokenEnds(line);
    } else if s[body] == '\n' {
      assert line[|line| - 1] == '\n';
      assert body > 0 ==> s[body - 1] != '\r';
    } else {
      assert line[|line| - 2..] == "\r\n";
    }
  }

  lemma NewlineBreaks()
    ensures IsBreak('\n') && IsBreak('\r')
  {
  }

  lemma UnbrokenEnds(line: string)
    requires Unbroken(line)
    ensures EndingOf(line) == ""
  {
    NewlineBreaks();
    hide IsBreak;
    if |line| >= 2 {
      assert line[|line| - 2..][1] == line[|line| - 1];
    }
  }

  lemma RestIsPlain(s: string, e: nat)
    requires PlainText(s) && e <= |s|
    ensures PlainText(s[e..])
  {
    hide IsBreak;
    var rest := s[e..];
    forall i | 0 <= i < |rest| && IsBreak(rest[i]) ensures NewlineAt(rest, i) {
      assert NewlineAt(s, e + i);
    }
  }

  lemma LinesCons(line: string, rest: seq<string>)
    requires WellLined(rest) && WellEnded(line, rest == [])
    ensures WellLined([line] + rest)
  {
  }

  // Splitting the joined lines gives them back.
  lemma {:induction false} JoinThenSplit(lines: seq<string>)
    requires WellLined(lines)
    ensures SplitLines(Concat(lines)) == lines
  {
    if lines != [] {
      hide IsBreak, LineEnd, Unbroken;
      var line, rest := lines[0], lines[1..];
      assert WellLined(rest);
      JoinThenSplit(rest);
      assert WellEnded(line, |lines| == 1);
      LineEndOfJoined(line, Concat(rest), rest == []);
      var s := line + Concat(rest);
      assert s[..|line|] == line && s[|line|..] == Concat(rest);
    }
  }

  lemma LineEndOfJoined(line: string, rest: string, last: bool)
    requires WellEnded(line, last) && (last ==> rest == "")
    ensures LineEnd(line + rest, 0) == |line|
  {
    hide IsBreak;
    var s := line + rest;
    var body := |BodyOf(line)|;
    assert line == BodyOf(line) + EndingOf(line);
    forall k | 0 <= k < body ensures !IsBreak(s[k]) {
      assert s[k] == BodyOf(line)[k];
    }
    LineEndAt(s, 0, body);
  }
}
