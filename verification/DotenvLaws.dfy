/** What an edit of the dotenv file promises to both of its readers, and to the lines it does not own. */
module DotenvLaws {
  import opened Dotenv
  import opened DotenvEdit
  import opened Lines
  import opened Prelude
  import Text

  predicate IsNewline(s: string) {
    s == "\n" || s == "\r\n"
  }

  // ---- The line that is written ----

  lemma EncodedIsUnbroken(value: string)
    requires Unbroken(value) && Encode(value).Ok?
    ensures Unbroken(Encode(value).value) && Decode(Encode(value).value) == value
  {
    EncodeExactly(value);
    hide Decode, Text.Strip, Bare, Text.Trimmed;
    QuotesDoNotBreak();
    hide IsBreak;
  }

  lemma QuotesDoNotBreak()
    ensures !IsBreak('"') && !IsBreak('\'') && !IsBreak('=')
    ensures forall c :: IsIdentChar(c) ==> !IsBreak(c)
  {
  }

  // An unbroken body and its ending come apart again.
  lemma EndingApart(line: string, body: string, ending: string)
    requires line == body + ending && Unbroken(body) && (ending == "" || IsNewline(ending))
    ensures BodyOf(line) == body && EndingOf(line) == ending
  {
    NewlineBreaks();
    hide IsBreak;
    if ending == "" {
      UnbrokenEnds(line);
    } else if ending == "\n" {
      assert line[|line| - 1] == '\n';
      if body != "" {
        assert line[|line| - 2] == body[|body| - 1] && !IsBreak(body[|body| - 1]);
        assert line[|line| - 2..][0] == line[|line| - 2];
      }
    } else {
      assert line[|line| - 2..] == "\r\n";
    }
  }

  lemma SerializedReads(f: Field, encoded: string, ending: string, line: string)
    requires Identifier(f.key) && Unbroken(encoded) && (ending == "" || IsNewline(ending))
    requires line == Serialized(f, encoded) + ending
    ensures Reading(line) == Some(Setting(f.key, Decode(encoded)))
    ensures Unbroken(Serialized(f, encoded)) && EndingOf(line) == ending && BodyOf(line) == Serialized(f, encoded)
    ensures Sets(line, f) && WellEnded(line, ending == "")
  {
    hide Decode, AssignmentOf, Identifier, Text.Blank, EndingOf, IsBreak, IsIdentChar, BodyOf;
    EmptyStrip();
    var tail := encoded + ending;
    assert line == "" + (f.key + ("" + (['='] + tail)));
    AssignsIsAssignment(line, "", f.key, "", tail);
    EndingApart(tail, encoded, ending);
    SerializedIsUnbroken(f, encoded);
    EndingApart(line, Serialized(f, encoded), ending);
  }

  lemma SerializedIsUnbroken(f: Field, encoded: string)
    requires Identifier(f.key) && Unbroken(encoded)
    ensures Unbroken(Serialized(f, encoded))
  {
    QuotesDoNotBreak();
    hide IsBreak, IsIdentStart, IsIdentChar;
    forall i | 0 <= i < |f.key| ensures !IsBreak(f.key[i]) {
      assert IsIdentChar(f.key[i]);
    }
  }

  // A terminator does not change what a line says.
  lemma TerminatorIsSilent(line: string, newline: string, longer: string)
    requires IsNewline(newline) && longer == line + newline
    ensures Reading(longer) == Reading(line)
  {
    hide AssignmentOf, Decode, Identifier, Text.Blank, BodyOf;
    if AssignmentOf(line).Some? {
      var a, b, tail := AssignmentAssigns(line);
      var key := AssignmentOf(line).value.key;
      assert longer == a + (key + (b + (['='] + (tail + newline))));
      BothRead(line, longer, a, key, b, tail, newline);
    } else if AssignmentOf(longer).Some? {
      var a, b, tail := AssignmentAssigns(longer);
      var key := AssignmentOf(longer).value.key;
      var cut := CutTail(line, newline, longer, a + (key + b), tail);
      assert line == a + (key + (b + (['='] + cut)));
      BothRead(line, longer, a, key, b, cut, newline);
    }
  }

  // Behind an "=" the terminator is part of the tail.
  lemma CutTail(line: string, newline: string, longer: string, front: string, tail: string) returns (cut: string)
    requires IsNewline(newline) && longer == line + newline
    requires longer == front + (['='] + tail)
    ensures tail == cut + newline && line == front + (['='] + cut)
  {
    assert longer[|front|] == '=';
    assert longer[|line|..] == newline;
    assert forall i :: |line| <= i < |longer| ==> longer[i] == newline[i - |line|];
    assert |front| < |line|;
    cut := line[|front| + 1..];
    assert line == longer[..|line|];
    assert tail == longer[|front| + 1..];
  }

  lemma BothRead(line: string, longer: string, a: string, key: string, b: string, tail: string, newline: string)
    requires Identifier(key) && IsNewline(newline)
    requires Assigns(line, a, key, b, tail) && Assigns(longer, a, key, b, tail + newline)
    ensures Reading(longer) == Reading(line)
  {
    hide Decode, Identifier, AssignmentOf, BodyOf, Assigns;
    AssignsIsAssignment(line, a, key, b, tail);
    AssignsIsAssignment(longer, a, key, b, tail + newline);
    BodyDecodes(tail);
    BodyDecodes(tail + newline);
    hide Text.Strip, LUnquote, RUnquote;
    TailDecodes(tail, newline);
  }

  lemma TailDecodes(tail: string, newline: string)
    requires IsNewline(newline)
    ensures Decode(tail + newline) == Decode(tail)
  {
    hide Text.Strip, LUnquote, RUnquote;
    EmptyStrip();
    assert tail + newline == "" + (tail + newline);
    Text.StripAbsorbs(tail + newline, "", tail, newline);
  }

  // ---- One field: what is read back ----

  // The written text sets the field to the value, whatever ending it gets.
  ghost predicate Writes(serialized: string, f: Field, value: string) {
    && Unbroken(serialized)
    && Writing(serialized, f, value, "") && Writing(serialized, f, value, "\n") && Writing(serialized, f, value, "\r\n")
  }

  predicate Writing(serialized: string, f: Field, value: string, ending: string) {
    var line := serialized + ending;
    && Reading(line) == Some(Setting(f.key, value))
    && EndingOf(line) == ending
    && WellEnded(line, ending == "")
  }

  lemma EncodedWrites(f: Field, value: string)
    requires Identifier(f.key) && Unbroken(value) && Encode(value).Ok?
    ensures Writes(Serialized(f, Encode(value).value), f, value)
  {
    hide Decode, Encode, AssignmentOf, Identifier, EndingOf, BodyOf, Serialized, Unbroken, WellEnded, Sets;
    EncodedIsUnbroken(value);
    var encoded := Encode(value).value;
    SerializedReads(f, encoded, "", Serialized(f, encoded) + "");
    SerializedReads(f, encoded, "\n", Serialized(f, encoded) + "\n");
    SerializedReads(f, encoded, "\r\n", Serialized(f, encoded) + "\r\n");
  }

  lemma {:induction false} ValueWithout(lines: seq<string>, f: Field, key: string)
    ensures Value(Reading, Without(lines, f), key) == if Stores(f, key) then None else Value(Reading, lines, key)
  {
    hide Reading;
    if lines != [] {
      var front, last := lines[..|lines| - 1], lines[|lines| - 1];
      ValueWithout(front, f, key);
      ValueAppend(Without(front, f), last, key);
      assert Without(front, f) + [] == Without(front, f);
    }
  }

  lemma ValueAppend(lines: seq<string>, line: string, key: string)
    ensures Value(Reading, lines + [line], key) == if Reading(line).Some? && Reading(line).value.key == key
                                          then Some(Reading(line).value.value) else Value(Reading, lines, key)
  {
    hide Reading;
    assert (lines + [line])[..|lines|] == lines;
  }

  lemma {:induction false} ValueSetLast(lines: seq<string>, f: Field, serialized: string, value: string, key: string)
    requires AnySets(lines, f) && Writes(serialized, f, value)
    ensures Value(Reading, SetLast(lines, f, serialized), key)
         == if key == f.key then Some(value) else if Stores(f, key) then None else Value(Reading, lines, key)
  {
    hide Reading, EndingOf, WellEnded;
    var front, last := lines[..|lines| - 1], lines[|lines| - 1];
    if Sets(last, f) {
      ValueWithout(front, f, key);
      EndingIsKnown(last);
      assert Writing(serialized, f, value, EndingOf(last));
      ValueAppend(Without(front, f), serialized + EndingOf(last), key);
    } else {
      AnySetsBefore(lines, f);
      ValueSetLast(front, f, serialized, value, key);
      ValueAppend(SetLast(front, f, serialized), last, key);
    }
  }

  lemma EndingIsKnown(line: string)
    ensures EndingOf(line) == "" || EndingOf(line) == "\n" || EndingOf(line) == "\r\n"
  {
  }

  lemma AnySetsBefore(lines: seq<string>, f: Field)
    requires lines != []
    ensures AnySets(lines, f) ==> AnySets(lines[..|lines| - 1], f) || Sets(lines[|lines| - 1], f)
  {
    hide Sets;
    if AnySets(lines, f) && !Sets(lines[|lines| - 1], f) {
      var i :| 0 <= i < |lines| && Sets(lines[i], f);
      assert lines[..|lines| - 1][i] == lines[i];
    }
  }

  lemma ValueTerminated(lines: seq<string>, newline: string, key: string)
    requires IsNewline(newline)
    ensures Value(Reading, Terminated(lines, newline), key) == Value(Reading, lines, key)
  {
    hide Reading;
    if lines != [] {
      var front, last := lines[..|lines| - 1], lines[|lines| - 1];
      assert lines == front + [last];
      TerminatorIsSilent(last, newline, last + newline);
      ValueAppend(front, last, key);
      ValueAppend(front, last + newline, key);
    }
  }

  lemma {:induction false} ValueOfUnset(lines: seq<string>, f: Field, key: string)
    requires !AnySets(lines, f) && Stores(f, key)
    ensures Value(Reading, lines, key) == None
  {
    WithoutNone(lines, f);
    ValueWithout(lines, f, key);
  }

  // What one field's edit does to what is read.
  lemma FieldReadsBack(lines: seq<string>, f: Field, replacement: Option<string>, newline: string, key: string)
    requires Identifier(f.key) && IsNewline(newline) && (replacement.Some? ==> Unbroken(replacement.value))
    requires ApplyField(lines, f, replacement, newline).Ok?
    ensures Value(Reading, ApplyField(lines, f, replacement, newline).value, key)
         == if key == f.key then replacement else if key in f.aliases then None else Value(Reading, lines, key)
  {
    hide Reading, Encode, Identifier, Serialized, Unbroken, Writes;
    if replacement.None? {
      ValueWithout(lines, f, key);
    } else {
      EncodedWrites(f, replacement.value);
      var serialized := Serialized(f, Encode(replacement.value).value);
      if AnySets(lines, f) {
        ValueSetLast(lines, f, serialized, replacement.value, key);
      } else {
        ValueTerminated(lines, newline, key);
        WrittenReads(serialized, f, replacement.value, newline);
        ValueAppend(Terminated(lines, newline), serialized + newline, key);
        if Stores(f, key) {
          ValueOfUnset(lines, f, key);
        }
      }
    }
  }

  lemma WrittenReads(serialized: string, f: Field, value: string, newline: string)
    requires Writes(serialized, f, value) && IsNewline(newline)
    ensures Writing(serialized, f, value, newline)
  {
    hide Writing;
  }

  // ---- One field: the lines stay lines ----

  predicate Closed(lines: seq<string>) {
    forall i :: 0 <= i < |lines| ==> WellEnded(lines[i], false)
  }

  lemma WellLinedLast(lines: seq<string>)
    requires lines != []
    ensures WellLined(lines) <==> Closed(lines[..|lines| - 1]) && WellEnded(lines[|lines| - 1], true)
  {
    hide Unbroken, EndingOf, BodyOf;
    var front := lines[..|lines| - 1];
    if WellLined(lines) {
      forall i | 0 <= i < |front| ensures WellEnded(front[i], false) {
        assert WellEnded(lines[i], i == |lines| - 1);
      }
      assert WellEnded(lines[|lines| - 1], |lines| - 1 == |lines| - 1);
    }
    if Closed(front) && WellEnded(lines[|lines| - 1], true) {
      forall i | 0 <= i < |lines| ensures WellEnded(lines[i], i == |lines| - 1) {
        if i < |front| {
          assert front[i] == lines[i];
        }
      }
    }
  }

  lemma {:induction false} WithoutClosed(lines: seq<string>, f: Field)
    requires Closed(lines)
    ensures Closed(Without(lines, f))
  {
    hide WellEnded, Sets;
    if lines != [] {
      WithoutClosed(lines[..|lines| - 1], f);
    }
  }

  lemma ClosedIsWellLined(lines: seq<string>)
    requires Closed(lines)
    ensures WellLined(lines)
  {
    hide Unbroken, EndingOf, BodyOf;
    forall i | 0 <= i < |lines| ensures WellEnded(lines[i], i == |lines| - 1) {
      assert WellEnded(lines[i], false);
    }
  }

  lemma AppendWellLined(lines: seq<string>, last: string)
    requires Closed(lines) && WellEnded(last, true)
    ensures WellLined(lines + [last])
  {
    hide WellEnded;
    assert (lines + [last])[..|lines|] == lines;
    WellLinedLast(lines + [last]);
  }

  lemma WithoutWellLined(lines: seq<string>, f: Field)
    requires WellLined(lines)
    ensures WellLined(Without(lines, f))
  {
    hide WellEnded, Sets, WellLined;
    if lines != [] {
      WellLinedLast(lines);
      var front, last := lines[..|lines| - 1], lines[|lines| - 1];
      WithoutClosed(front, f);
      ClosedIsWellLined(Without(front, f));
      AppendWellLined(Without(front, f), last);
      assert Without(front, f) + [] == Without(front, f);
    } else {
      EmptyIsWellLined();
    }
  }

  lemma EmptyIsWellLined()
    ensures WellLined([]) && Closed([])
  {
  }

  lemma {:induction false} SetLastClosed(lines: seq<string>, f: Field, serialized: string, value: string)
    requires Closed(lines) && Writes(serialized, f, value)
    ensures Closed(SetLast(lines, f, serialized))
  {
    hide Sets, Writes, WellEnded, EndingOf;
    if lines != [] {
      var front, last := lines[..|lines| - 1], lines[|lines| - 1];
      ClosedEnds(last);
      WithoutClosed(front, f);
      SetLastClosed(front, f, serialized, value);
      WrittenEnds(serialized, f, value, last);
    }
  }

  lemma ClosedEnds(line: string)
    requires WellEnded(line, false)
    ensures EndingOf(line) != ""
  {
  }

  lemma WrittenEnds(serialized: string, f: Field, value: string, last: string)
    requires Writes(serialized, f, value)
    ensures WellEnded(serialized + EndingOf(last), EndingOf(last) == "")
    ensures WellEnded(serialized + EndingOf(last), true)
  {
    hide Reading;
    EndingIsKnown(last);
    assert Writing(serialized, f, value, EndingOf(last));
  }

  lemma SetLastWellLined(lines: seq<string>, f: Field, serialized: string, value: string)
    requires WellLined(lines) && Writes(serialized, f, value)
    ensures WellLined(SetLast(lines, f, serialized))
  {
    hide Sets, Reading, WellLined, WellEnded, Writes;
    if lines == [] {
      EmptyIsWellLined();
    } else {
      WellLinedLast(lines);
      var front, last := lines[..|lines| - 1], lines[|lines| - 1];
      WithoutClosed(front, f);
      SetLastClosed(front, f, serialized, value);
      WrittenEnds(serialized, f, value, last);
      AppendWellLined(Without(front, f), serialized + EndingOf(last));
      AppendWellLined(SetLast(front, f, serialized), last);
    }
  }

  lemma TerminatedClosed(lines: seq<string>, newline: string)
    requires WellLined(lines) && IsNewline(newline)
    ensures Closed(Terminated(lines, newline))
  {
    hide WellLined, WellEnded, Unterminated;
    if lines == [] {
      EmptyIsWellLined();
    } else {
      WellLinedLast(lines);
      var front, last := lines[..|lines| - 1], lines[|lines| - 1];
      LastTerminated(last, newline, last + newline);
      assert lines == front + [last];
      ClosedAppend(front, if Unterminated(last) then last + newline else last);
    }
  }

  lemma ClosedAppend(lines: seq<string>, line: string)
    requires Closed(lines) && WellEnded(line, false)
    ensures Closed(lines + [line])
  {
    hide WellEnded;
  }

  lemma LastTerminated(last: string, newline: string, longer: string)
    requires WellEnded(last, true) && IsNewline(newline) && longer == last + newline
    ensures if Unterminated(last)
            then WellEnded(longer, false) && EndingOf(last) == "" && EndingOf(longer) == newline
                 && BodyOf(longer) == last
            else WellEnded(last, false)
  {
    hide IsBreak;
    EndsOpen(last);
    if Unterminated(last) {
      assert EndingOf(last) == "";
      assert BodyOf(last) == last;
      EndingApart(longer, last, newline);
    }
  }

  lemma EndsOpen(line: string)
    requires Unbroken(BodyOf(line)) && line != ""
    ensures EndingOf(line) == "" ==> Unterminated(line)
  {
    NewlineBreaks();
    hide IsBreak;
    if EndingOf(line) == "" {
      assert BodyOf(line) == line;
    }
  }

  lemma FieldKeepsLines(lines: seq<string>, f: Field, replacement: Option<string>, newline: string)
    requires WellLined(lines) && Identifier(f.key) && IsNewline(newline)
    requires replacement.Some? ==> Unbroken(replacement.value)
    requires ApplyField(lines, f, replacement, newline).Ok?
    ensures WellLined(ApplyField(lines, f, replacement, newline).value)
  {
    hide Reading, Encode, Identifier, Serialized, Unbroken, Writes, WellLined, WellEnded, AnySets;
    if replacement.None? {
      WithoutWellLined(lines, f);
    } else {
      EncodedWrites(f, replacement.value);
      var serialized := Serialized(f, Encode(replacement.value).value);
      SetLastWellLined(lines, f, serialized, replacement.value);
      TerminatedClosed(lines, newline);
      WrittenReads(serialized, f, replacement.value, newline);
      LooserEnd(serialized + newline);
      AppendWellLined(Terminated(lines, newline), serialized + newline);
    }
  }

  lemma LooserEnd(line: string)
    ensures WellEnded(line, false) ==> WellEnded(line, true)
  {
  }

  // ---- The lines the edit does not own ----

  // A line that sets none of the keys.
  predicate Foreign(line: string, keys: set<string>) {
    Reading(line).Some? ==> Reading(line).value.key !in keys
  }

  function Completed(line: string, newline: string): string {
    if Unterminated(line) then line + newline else line
  }

  // The foreign lines in order, the last one with the terminator it may miss.
  function ForeignLines(lines: seq<string>, keys: set<string>, newline: string): seq<string> {
    if lines == [] then []
    else
      var last := lines[|lines| - 1];
      ForeignLines(lines[..|lines| - 1], keys, newline) + if Foreign(last, keys) then [Completed(last, newline)] else []
  }

  predicate Owns(keys: set<string>, f: Field) {
    f.key in keys && forall k :: 0 <= k < |f.aliases| ==> f.aliases[k] in keys
  }

  lemma SetsIsOwned(line: string, f: Field, keys: set<string>)
    requires Owns(keys, f)
    ensures Sets(line, f) ==> !Foreign(line, keys)
  {
    hide Reading;
  }

  lemma ForeignAppend(lines: seq<string>, line: string, keys: set<string>, newline: string)
    ensures ForeignLines(lines + [line], keys, newline)
         == ForeignLines(lines, keys, newline) + if Foreign(line, keys) then [Completed(line, newline)] else []
  {
    hide Foreign;
    assert (lines + [line])[..|lines|] == lines;
  }

  lemma {:induction false} ForeignWithout(lines: seq<string>, f: Field, keys: set<string>, newline: string)
    requires Owns(keys, f)
    ensures ForeignLines(Without(lines, f), keys, newline) == ForeignLines(lines, keys, newline)
  {
    hide Foreign, Sets, Owns, Completed;
    if lines != [] {
      var front, last := lines[..|lines| - 1], lines[|lines| - 1];
      ForeignWithout(front, f, keys, newline);
      ForeignAppend(Without(front, f), last, keys, newline);
      assert Without(front, f) + [] == Without(front, f);
      if Sets(last, f) {
        SetsIsOwned(last, f, keys);
      }
    }
  }

  lemma {:induction false} ForeignSetLast(lines: seq<string>, f: Field, serialized: string, value: string,
      keys: set<string>, newline: string)
    requires Owns(keys, f) && Writes(serialized, f, value)
    ensures ForeignLines(SetLast(lines, f, serialized), keys, newline) == ForeignLines(lines, keys, newline)
  {
    hide Foreign, Sets, Owns, Completed, Reading, Writes;
    if lines != [] {
      var front, last := lines[..|lines| - 1], lines[|lines| - 1];
      ForeignWithout(front, f, keys, newline);
      ForeignSetLast(front, f, serialized, value, keys, newline);
      WrittenIsOwned(serialized, f, value, last, keys);
      ForeignAppend(Without(front, f), serialized + EndingOf(last), keys, newline);
      ForeignAppend(SetLast(front, f, serialized), last, keys, newline);
      if Sets(last, f) {
        SetsIsOwned(last, f, keys);
      }
    }
  }

  lemma WrittenIsOwned(serialized: string, f: Field, value: string, last: string, keys: set<string>)
    requires Owns(keys, f) && Writes(serialized, f, value)
    ensures !Foreign(serialized + EndingOf(last), keys)
  {
    hide Reading, WellEnded;
    EndingIsKnown(last);
    assert Writing(serialized, f, value, EndingOf(last));
  }

  lemma ForeignTerminated(lines: seq<string>, keys: set<string>, newline: string)
    requires IsNewline(newline)
    ensures ForeignLines(Terminated(lines, newline), keys, newline) == ForeignLines(lines, keys, newline)
  {
    hide Reading;
    if lines != [] {
      var front, last := lines[..|lines| - 1], lines[|lines| - 1];
      assert lines == front + [last];
      TerminatorIsSilent(last, newline, last + newline);
      ForeignAppend(front, last, keys, newline);
      ForeignAppend(front, last + newline, keys, newline);
    }
  }

  // One field's edit keeps every line the field does not own, in order.
  lemma FieldKeepsForeign(lines: seq<string>, f: Field, replacement: Option<string>, newline: string, keys: set<string>)
    requires Identifier(f.key) && IsNewline(newline) && Owns(keys, f)
    requires replacement.Some? ==> Unbroken(replacement.value)
    requires ApplyField(lines, f, replacement, newline).Ok?
    ensures ForeignLines(ApplyField(lines, f, replacement, newline).value, keys, newline)
         == ForeignLines(lines, keys, newline)
  {
    hide Reading, Encode, Identifier, Serialized, Unbroken, Writes, Foreign, Owns, AnySets;
    if replacement.None? {
      ForeignWithout(lines, f, keys, newline);
    } else {
      EncodedWrites(f, replacement.value);
      var serialized := Serialized(f, Encode(replacement.value).value);
      ForeignSetLast(lines, f, serialized, replacement.value, keys, newline);
      ForeignTerminated(lines, keys, newline);
      NewlineEnding(newline);
      WrittenIsOwned(serialized, f, replacement.value, newline, keys);
      ForeignAppend(Terminated(lines, newline), serialized + newline, keys, newline);
    }
  }

  lemma NewlineEnding(newline: string)
    requires IsNewline(newline)
    ensures EndingOf(newline) == newline
  {
  }

  // ---- An edit that changes nothing ----

  function Setters(lines: seq<string>, f: Field): seq<string> {
    if lines == [] then []
    else
      var last := lines[|lines| - 1];
      Setters(lines[..|lines| - 1], f) + if Sets(last, f) then [last] else []
  }

  // The file already says what the replacement says: one line, in the editor's own form, or none.
  predicate Settled(lines: seq<string>, f: Field, replacement: Option<string>) {
    if replacement.None? then Setters(lines, f) == []
    else
      && Encode(replacement.value).Ok?
      && |Setters(lines, f)| == 1
      && InForm(Setters(lines, f)[0], Serialized(f, Encode(replacement.value).value))
  }

  predicate InForm(line: string, serialized: string) {
    line == serialized + EndingOf(line)
  }

  lemma {:induction false} SettersNone(lines: seq<string>, f: Field)
    ensures Setters(lines, f) == [] <==> !AnySets(lines, f)
  {
    hide Sets;
    if lines != [] {
      var front, last := lines[..|lines| - 1], lines[|lines| - 1];
      SettersNone(front, f);
      AnySetsLast(lines, front, last, f);
    }
  }

  lemma AnySetsLast(lines: seq<string>, front: seq<string>, last: string, f: Field)
    requires lines == front + [last]
    ensures AnySets(lines, f) <==> AnySets(front, f) || Sets(last, f)
  {
    hide Sets;
    if i :| 0 <= i < |front| && Sets(front[i], f) {
      assert lines[i] == front[i];
    }
    if Sets(last, f) {
      assert lines[|front|] == last;
    }
  }

  lemma {:induction false} SetLastFixed(lines: seq<string>, f: Field, serialized: string)
    requires |Setters(lines, f)| == 1 && InForm(Setters(lines, f)[0], serialized)
    ensures SetLast(lines, f, serialized) == lines
  {
    hide Sets, InForm;
    var front, last := lines[..|lines| - 1], lines[|lines| - 1];
    assert lines == front + [last];
    if Sets(last, f) {
      SettersNone(front, f);
      WithoutNone(front, f);
      InFormIs(last, serialized);
    } else {
      SetLastFixed(front, f, serialized);
    }
  }

  lemma InFormIs(line: string, serialized: string)
    ensures InForm(line, serialized) <==> line == serialized + EndingOf(line)
  {
  }

  lemma SettledIsFixed(lines: seq<string>, f: Field, replacement: Option<string>, newline: string)
    requires Settled(lines, f, replacement)
    ensures ApplyField(lines, f, replacement, newline) == Ok(lines)
  {
    hide Encode, Serialized, InForm, AnySets, Without, SetLast;
    SettersNone(lines, f);
    if replacement.None? {
      WithoutNone(lines, f);
    } else {
      SetLastFixed(lines, f, Serialized(f, Encode(replacement.value).value));
    }
  }

  lemma SettersAppend(lines: seq<string>, line: string, f: Field)
    ensures Setters(lines + [line], f) == Setters(lines, f) + if Sets(line, f) then [line] else []
  {
    hide Sets;
    assert (lines + [line])[..|lines|] == lines;
  }

  // g is another field: it shares no key with f.
  ghost predicate Apart(f: Field, g: Field) {
    forall key: string :: !(Stores(f, key) && Stores(g, key))
  }

  lemma ApartSets(line: string, f: Field, g: Field)
    requires Apart(f, g)
    ensures Sets(line, g) ==> !Sets(line, f)
  {
    hide Reading;
  }

  lemma {:induction false} SettersWithout(lines: seq<string>, f: Field, g: Field)
    requires f == g || Apart(f, g)
    ensures Setters(Without(lines, g), f) == if f == g then [] else Setters(lines, f)
  {
    hide Sets, Apart;
    if lines != [] {
      var front, last := lines[..|lines| - 1], lines[|lines| - 1];
      SettersWithout(front, f, g);
      SettersAppend(Without(front, g), last, f);
      assert Without(front, g) + [] == Without(front, g);
      if Sets(last, g) && f != g {
        ApartSets(last, f, g);
      }
    }
  }

  lemma WrittenSets(serialized: string, f: Field, value: string, last: string)
    requires Writes(serialized, f, value)
    ensures Sets(serialized + EndingOf(last), f) && InForm(serialized + EndingOf(last), serialized)
  {
    hide Reading, WellEnded;
    EndingIsKnown(last);
    assert Writing(serialized, f, value, EndingOf(last));
  }

  lemma {:induction false} SettersSetLast(lines: seq<string>, f: Field, g: Field, serialized: string, value: string)
    requires f == g || Apart(f, g)
    requires Writes(serialized, g, value)
    ensures f != g ==> Setters(SetLast(lines, g, serialized), f) == Setters(lines, f)
    ensures f == g && AnySets(lines, g) ==>
      var r := Setters(SetLast(lines, g, serialized), f); |r| == 1 && InForm(r[0], serialized)
  {
    hide Sets, Apart, Writes, InForm;
    if lines != [] {
      var front, last := lines[..|lines| - 1], lines[|lines| - 1];
      SettersWithout(front, f, g);
      SettersSetLast(front, f, g, serialized, value);
      WrittenSets(serialized, g, value, last);
      SettersAppend(Without(front, g), serialized + EndingOf(last), f);
      SettersAppend(SetLast(front, g, serialized), last, f);
      if f != g {
        ApartSets(serialized + EndingOf(last), f, g);
        if Sets(last, g) {
          ApartSets(last, f, g);
        }
      }
      if AnySets(lines, g) && !Sets(last, g) {
        AnySetsBefore(lines, g);
      }
    }
  }

  lemma TerminatedInForm(last: string, newline: string, serialized: string)
    requires WellEnded(last, true) && IsNewline(newline) && InForm(last, serialized) && Unterminated(last)
    ensures InForm(last + newline, serialized)
  {
    LastTerminated(last, newline, last + newline);
  }

  lemma SettledTerminated(lines: seq<string>, f: Field, replacement: Option<string>, newline: string)
    requires Settled(lines, f, replacement) && WellLined(lines) && IsNewline(newline)
    ensures Settled(Terminated(lines, newline), f, replacement)
  {
    hide Reading, Encode, Serialized, InForm, WellLined, WellEnded, Unterminated;
    if lines != [] && Unterminated(lines[|lines| - 1]) {
      WellLinedLast(lines);
      var front, last := lines[..|lines| - 1], lines[|lines| - 1];
      assert lines == front + [last];
      TerminatorIsSilent(last, newline, last + newline);
      SettersAppend(front, last, f);
      SettersAppend(front, last + newline, f);
      if Sets(last, f) && replacement.Some? {
        assert Setters(lines, f)[0] == last;
        TerminatedInForm(last, newline, Serialized(f, Encode(replacement.value).value));
      }
    }
  }

  // The edit of a field settles it.
  lemma FieldSettles(lines: seq<string>, f: Field, replacement: Option<string>, newline: string)
    requires Identifier(f.key) && IsNewline(newline)
    requires replacement.Some? ==> Unbroken(replacement.value)
    requires ApplyField(lines, f, replacement, newline).Ok?
    ensures Settled(ApplyField(lines, f, replacement, newline).value, f, replacement)
  {
    hide Reading, Encode, Identifier, Serialized, Unbroken, Writes, InForm, Sets;
    if replacement.None? {
      SettersWithout(lines, f, f);
    } else {
      EncodedWrites(f, replacement.value);
      var serialized := Serialized(f, Encode(replacement.value).value);
      SettersSetLast(lines, f, f, serialized, replacement.value);
      if !AnySets(lines, f) {
        var longer := Terminated(lines, newline);
        TerminatedSetsNone(lines, f, newline);
        NewlineEnding(newline);
        WrittenSets(serialized, f, replacement.value, newline);
        SettersAppend(longer, serialized + newline, f);
      }
    }
  }

  lemma TerminatedSetsNone(lines: seq<string>, f: Field, newline: string)
    requires !AnySets(lines, f) && IsNewline(newline)
    ensures Setters(Terminated(lines, newline), f) == []
  {
    hide Reading, Unterminated, AnySets;
    SettersNone(lines, f);
    if lines != [] && Unterminated(lines[|lines| - 1]) {
      var front, last := lines[..|lines| - 1], lines[|lines| - 1];
      assert lines == front + [last];
      TerminatorIsSilent(last, newline, last + newline);
      SettersAppend(front, last, f);
      SettersAppend(front, last + newline, f);
    }
  }

  // And leaves settled fields settled.
  lemma FieldKeepsSettled(lines: seq<string>, f: Field, wanted: Option<string>, g: Field,
      replacement: Option<string>, newline: string)
    requires Settled(lines, f, wanted) && WellLined(lines) && Apart(f, g) && Identifier(g.key) && IsNewline(newline)
    requires replacement.Some? ==> Unbroken(replacement.value)
    requires ApplyField(lines, g, replacement, newline).Ok?
    ensures Settled(ApplyField(lines, g, replacement, newline).value, f, wanted)
  {
    hide Reading, Encode, Identifier, Serialized, Unbroken, Writes, InForm, Sets, WellLined, AnySets, Stores;
    SettersWithout(lines, f, g);
    if replacement.Some? {
      EncodedWrites(g, replacement.value);
      var serialized := Serialized(g, Encode(replacement.value).value);
      ApartDiffers(f, g);
      SettersSetLast(lines, f, g, serialized, replacement.value);
      SettledTerminated(lines, f, wanted, newline);
      NewlineEnding(newline);
      WrittenSets(serialized, g, replacement.value, newline);
      ApartSets(serialized + newline, f, g);
      SettersAppend(Terminated(lines, newline), serialized + newline, f);
    } else {
      ApartDiffers(f, g);
    }
  }

  lemma ApartDiffers(f: Field, g: Field)
    requires Apart(f, g)
    ensures f != g
  {
    assert Stores(f, f.key);
  }

  // ---- The whole edit ----

  // Keys and aliases are identifiers, and no two fields share one.
  ghost predicate Schema(fields: seq<Field>) {
    && (forall k :: 0 <= k < |fields| ==> Identifier(fields[k].key))
    && (forall j, k :: 0 <= j < k < |fields| ==> Apart(fields[j], fields[k]) && Apart(fields[k], fields[j]))
  }

  predicate Replaces(replacements: map<string, Option<string>>, f: Field) {
    f.key in replacements
  }

  // No value contains a line break.
  ghost predicate Flat(replacements: map<string, Option<string>>) {
    forall key, value :: key in replacements && replacements[key] == Some(value) ==> Unbroken(value)
  }

  lemma {:induction false} EditKeepsLines(lines: seq<string>, fields: seq<Field>,
      replacements: map<string, Option<string>>, newline: string)
    requires WellLined(lines) && Schema(fields) && Flat(replacements) && IsNewline(newline)
    requires ApplyFields(lines, fields, replacements, newline).Ok?
    ensures WellLined(ApplyFields(lines, fields, replacements, newline).value)
  {
    hide WellLined, Identifier, ApplyField, Unbroken, Apart;
    if fields != [] {
      var front, f := fields[..|fields| - 1], fields[|fields| - 1];
      EditKeepsLines(lines, front, replacements, newline);
      if Replaces(replacements, f) {
        FieldKeepsLines(ApplyFields(lines, front, replacements, newline).value, f, replacements[f.key], newline);
      }
    }
  }

  // The owner of a key among the fields being replaced, if any.
  ghost predicate Owned(fields: seq<Field>, replacements: map<string, Option<string>>, key: string) {
    exists k :: 0 <= k < |fields| && Replaces(replacements, fields[k]) && Stores(fields[k], key)
  }

  // Every replaced field reads back, its aliases are gone, and all other keys read as before.
  lemma {:induction false} EditReadsBack(lines: seq<string>, fields: seq<Field>,
      replacements: map<string, Option<string>>,
                                         newline: string, key: string)
    requires Schema(fields) && Flat(replacements) && IsNewline(newline)
    requires ApplyFields(lines, fields, replacements, newline).Ok?
    ensures var r := ApplyFields(lines, fields, replacements, newline).value;
            && (forall k :: 0 <= k < |fields| && Replaces(replacements, fields[k]) ==>
                  && (key == fields[k].key ==> Value(Reading, r, key) == replacements[key])
                  && (key != fields[k].key && key in fields[k].aliases ==> Value(Reading, r, key) == None))
            && (!Owned(fields, replacements, key) ==> Value(Reading, r, key) == Value(Reading, lines, key))
  {
    hide Identifier, ApplyField, Unbroken, Stores, Value;
    if fields != [] {
      var n := |fields| - 1;
      var front, f := fields[..n], fields[n];
      EditReadsBack(lines, front, replacements, newline, key);
      StoredKeys(key);
      if Replaces(replacements, f) {
        FieldReadsBack(ApplyFields(lines, front, replacements, newline).value, f, replacements[f.key], newline, key);
      }
      forall k | 0 <= k < n && Stores(fields[k], key) ensures !Stores(f, key) {
        assert Apart(fields[k], fields[n]);
      }
      if Owned(front, replacements, key) {
        var k :| 0 <= k < |front| && Replaces(replacements, front[k]) && Stores(front[k], key);
        assert Stores(fields[k], key);
      }
    }
  }

  lemma StoredKeys(key: string)
    ensures forall f :: Stores(f, key) <==> key == f.key || key in f.aliases
  {
  }

  lemma {:induction false} EditKeepsForeign(lines: seq<string>, fields: seq<Field>,
      replacements: map<string, Option<string>>,
                                            newline: string, keys: set<string>)
    requires Schema(fields) && Flat(replacements) && IsNewline(newline)
    requires forall k :: 0 <= k < |fields| && Replaces(replacements, fields[k]) ==> Owns(keys, fields[k])
    requires ApplyFields(lines, fields, replacements, newline).Ok?
    ensures ForeignLines(ApplyFields(lines, fields, replacements, newline).value, keys, newline)
         == ForeignLines(lines, keys, newline)
  {
    hide Identifier, ApplyField, Unbroken, Apart, Owns, ForeignLines;
    if fields != [] {
      var front, f := fields[..|fields| - 1], fields[|fields| - 1];
      EditKeepsForeign(lines, front, replacements, newline, keys);
      if Replaces(replacements, f) {
        FieldKeepsForeign(ApplyFields(lines, front, replacements, newline).value, f, replacements[f.key], newline,
          keys);
      }
    }
  }

  lemma {:induction false} EditSettles(lines: seq<string>, fields: seq<Field>,
      replacements: map<string, Option<string>>, newline: string)
    requires WellLined(lines) && Schema(fields) && Flat(replacements) && IsNewline(newline)
    requires ApplyFields(lines, fields, replacements, newline).Ok?
    ensures forall k :: 0 <= k < |fields| && Replaces(replacements, fields[k]) ==>
              Settled(ApplyFields(lines, fields, replacements, newline).value, fields[k], replacements[fields[k].key])
  {
    hide WellLined, Identifier, ApplyField, Unbroken, Apart, Settled;
    if fields != [] {
      var n := |fields| - 1;
      var front, f := fields[..n], fields[n];
      EditSettles(lines, front, replacements, newline);
      EditKeepsLines(lines, front, replacements, newline);
      var before := ApplyFields(lines, front, replacements, newline).value;
      if Replaces(replacements, f) {
        FieldSettles(before, f, replacements[f.key], newline);
        forall k | 0 <= k < n && Replaces(replacements, fields[k])
          ensures Settled(ApplyField(before, f, replacements[f.key], newline).value, fields[k],
            replacements[fields[k].key])
        {
          assert front[k] == fields[k];
          FieldKeepsSettled(before, fields[k], replacements[fields[k].key], f, replacements[f.key], newline);
        }
      }
    }
  }

  lemma {:induction false} SettledEditIsFixed(lines: seq<string>, fields: seq<Field>,
      replacements: map<string, Option<string>>, newline: string)
    requires forall k :: 0 <= k < |fields| && Replaces(replacements, fields[k]) ==>
               Settled(lines, fields[k], replacements[fields[k].key])
    ensures ApplyFields(lines, fields, replacements, newline) == Ok(lines)
  {
    hide Settled, ApplyField;
    if fields != [] {
      var front, f := fields[..|fields| - 1], fields[|fields| - 1];
      forall k | 0 <= k < |front| && Replaces(replacements, front[k])
        ensures Settled(lines, front[k], replacements[front[k].key])
      {
        assert front[k] == fields[k];
      }
      SettledEditIsFixed(lines, front, replacements, newline);
      if Replaces(replacements, f) {
        SettledIsFixed(lines, f, replacements[f.key], newline);
      }
    }
  }

  /** An edit of a file whose only line breaks are LF and CRLF, with values that contain none: both
      readers read every replaced field back; cleared fields and all aliases of replaced ones are gone;
      every other identifier reads as before; the lines that set none of the replaced keys stay, in
      order, up to a final terminator; and editing again changes nothing. */
  lemma EditIsExact(text: string, fields: seq<Field>, replacements: map<string, Option<string>>, key: string,
      keys: set<string>)
    requires PlainText(text) && Schema(fields) && Flat(replacements) && Identifier(key)
    requires forall k :: 0 <= k < |fields| && Replaces(replacements, fields[k]) ==> Owns(keys, fields[k])
    requires Apply(text, fields, replacements).Ok?
    ensures var r := Apply(text, fields, replacements).value;
            var before, after, newline := SplitLines(text), SplitLines(r), Newline(SplitLines(text));
            && Value(Reading, after, key) == Value(SettingOf, after, key)
            && (forall k :: 0 <= k < |fields| && Replaces(replacements, fields[k]) ==>
                  && (key == fields[k].key ==> Value(Reading, after, key) == replacements[key])
                  && (key != fields[k].key && key in fields[k].aliases ==> Value(Reading, after, key) == None))
            && (!Owned(fields, replacements, key) ==> Value(Reading, after, key) == Value(Reading, before, key))
            && ForeignLines(after, keys, newline) == ForeignLines(before, keys, newline)
            && Apply(r, fields, replacements) == Ok(r)
  {
    hide PlainText, Schema, Flat, Identifier, Owns, ApplyFields, SplitLines, WellLined, Value, ForeignLines, Stores,
      Owned, Settled, Concat;
    var lines, newline := SplitLines(text), Newline(SplitLines(text));
    PlainIsWellLined(text);
    EditKeepsLines(lines, fields, replacements, newline);
    var edited := ApplyFields(lines, fields, replacements, newline).value;
    JoinThenSplit(edited);
    ReadersAgree(edited, key);
    EditReadsBack(lines, fields, replacements, newline, key);
    EditKeepsForeign(lines, fields, replacements, newline, keys);
    EditSettles(lines, fields, replacements, newline);
    SettledEditIsFixed(edited, fields, replacements, Newline(edited));
  }

  /** An edit fails exactly when some value to be written cannot be represented. */
  lemma {:induction false} EditFails(lines: seq<string>, fields: seq<Field>,
      replacements: map<string, Option<string>>, newline: string)
    ensures ApplyFields(lines, fields, replacements, newline).Err? <==>
      exists k :: 0 <= k < |fields| && Refused(replacements, fields[k])
  {
    hide Encode, AnySets, Without, SetLast, Serialized, Terminated;
    if fields != [] {
      var n := |fields| - 1;
      var front, f := fields[..n], fields[n];
      EditFails(lines, front, replacements, newline);
      forall k | 0 <= k < n ensures Refused(replacements, front[k]) == Refused(replacements, fields[k]) {
      }
      if k :| 0 <= k < |front| && Refused(replacements, front[k]) {
        assert Refused(replacements, fields[k]);
      }
    }
  }

  predicate Refused(replacements: map<string, Option<string>>, f: Field) {
    f.key in replacements && replacements[f.key].Some? && Encode(replacements[f.key].value).Err?
  }
}
