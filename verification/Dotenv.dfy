/**
 The dotenv editor of the admin console (src/imcodex/admin/config_store.py) and the reader used at
 startup (src/imcodex/config.py), both over the lines of one file.
 */
module Dotenv {
  import opened Lines
  import opened Prelude
  import Text

  // ---- Values ----

  predicate IsQuote(c: char) {
    c == '"' || c == '\''
  }

  function LUnquote(s: string): string {
    if s == "" || !IsQuote(s[0]) then s else LUnquote(s[1..])
  }

  function RUnquote(s: string): string {
    if s == "" || !IsQuote(s[|s| - 1]) then s else RUnquote(s[..|s| - 1])
  }

  // `raw.strip().strip("\"'")`
  function Decode(raw: string): string {
    RUnquote(LUnquote(Text.Strip(raw)))
  }

  datatype Error = CannotRepresent

  // `_encode_value`
  function Encode(value: string): Result<string, Error> {
    if value == "" then Ok("")
    else
      var encoded :=
        if Text.Strip(value) == value && !IsQuote(value[0]) && !IsQuote(value[|value| - 1]) then Some(value)
        else if '\'' !in value then Some("'" + value + "'")
        else if '"' !in value then Some("\"" + value + "\"")
        else None;
      if encoded.None? || Decode(encoded.value) != value then Err(CannotRepresent) else Ok(encoded.value)
  }

  // No quote at either end.
  predicate Bare(value: string) {
    value == "" || (!IsQuote(value[0]) && !IsQuote(value[|value| - 1]))
  }

  lemma {:induction false} LUnquoteStarts(s: string)
    ensures LUnquote(s) != "" ==> !IsQuote(LUnquote(s)[0])
  {
    hide IsQuote;
    if s != "" && IsQuote(s[0]) {
      LUnquoteStarts(s[1..]);
    }
  }

  lemma {:induction false} RUnquoteEnds(s: string)
    ensures RUnquote(s) <= s && (RUnquote(s) != "" ==> !IsQuote(RUnquote(s)[|RUnquote(s)| - 1]))
  {
    hide IsQuote;
    if s != "" && IsQuote(s[|s| - 1]) {
      RUnquoteEnds(s[..|s| - 1]);
    }
  }

  lemma DecodeIsBare(raw: string)
    ensures Bare(Decode(raw))
  {
    hide IsQuote, LUnquote, RUnquote, Text.Strip;
    var l := LUnquote(Text.Strip(raw));
    LUnquoteStarts(Text.Strip(raw));
    RUnquoteEnds(l);
    if Decode(raw) != "" {
      assert Decode(raw)[0] == l[0];
    }
  }

  lemma LUnquoteOf(s: string, rest: string, q: char)
    requires s == [q] + rest && IsQuote(q)
    ensures LUnquote(s) == LUnquote(rest)
  {
    assert s[1..] == rest;
  }

  lemma RUnquoteOf(s: string, front: string, q: char)
    requires s == front + [q] && IsQuote(q)
    ensures RUnquote(s) == RUnquote(front)
  {
    assert s[..|s| - 1] == front;
  }

  lemma UnquoteOf(s: string, value: string, q: char)
    requires s == [q] + (value + [q]) && Bare(value) && IsQuote(q)
    ensures RUnquote(LUnquote(s)) == value
  {
    hide IsQuote;
    var back := value + [q];
    LUnquoteOf(s, back, q);
    if value == "" {
      LUnquoteOf(back, "", q);
    } else {
      assert back[0] == value[0];
      RUnquoteOf(back, value, q);
    }
  }

  lemma QuotedDecodes(s: string, value: string, q: char)
    requires s == [q] + value + [q] && Bare(value) && IsQuote(q)
    ensures Decode(s) == value
  {
    hide LUnquote, RUnquote, Text.Strip;
    assert s == [q] + (value + [q]);
    UnquoteOf(s, value, q);
    QuotesAreNoSpace(q);
    assert s[0] == q && s[|s| - 1] == q;
    Text.StripTrimmed(s);
  }

  lemma QuotesAreNoSpace(q: char)
    requires IsQuote(q)
    ensures !Text.IsSpace(q)
  {
  }

  lemma BareDecodes(value: string)
    requires Bare(value) && Text.Strip(value) == value
    ensures Decode(value) == value
  {
  }

  // A value can be written in some way exactly when it has no quote at either end; the editor refuses
  // a few of those as well: the ones with outer whitespace and both kinds of quotes.
  lemma EncodeExactly(value: string)
    ensures (exists raw :: Decode(raw) == value) <==> Bare(value)
    ensures Encode(value).Ok? <==> Bare(value) && (Text.Trimmed(value) || '\'' !in value || '"' !in value)
    ensures Encode(value).Ok? ==> Decode(Encode(value).value) == value
  {
    hide Decode, Text.Strip, Text.IsSpace;
    Text.StripTrimmed(value);
    EmptyDecodes();
    if Bare(value) {
      QuotedDecodes("'" + value + "'", value, '\'');
      QuotedDecodes("\"" + value + "\"", value, '"');
      if Text.Strip(value) == value {
        BareDecodes(value);
      }
    }
    forall raw | Decode(raw) == value ensures Bare(value) {
      DecodeIsBare(raw);
    }
  }

  /** A value is written as it is when that is read back, otherwise in single quotes, or in double quotes when
      it has a single quote in it. */
  lemma EncodedForm(value: string)
    requires Encode(value).Ok?
    ensures Encode(value).value ==
      if Text.Trimmed(value) then value
      else if '\'' in value then "\"" + value + "\"" else "'" + value + "'"
  {
    EncodeExactly(value);
    Text.StripTrimmed(value);
    hide Decode, Text.Strip, Text.IsSpace;
  }

  lemma EmptyDecodes()
    ensures Decode("") == ""
  {
  }

  // ---- One line ----

  predicate IsIdentStart(c: char) {
    'A' <= c <= 'Z' || 'a' <= c <= 'z' || c == '_'
  }

  predicate IsIdentChar(c: char) {
    IsIdentStart(c) || '0' <= c <= '9'
  }

  lemma IdentifierCharacters(c: char)
    ensures IsIdentStart(c) <==> c in "ABCDEFGHIJKLMNOPQRSTUVWXYZ" || c in "abcdefghijklmnopqrstuvwxyz" || c == '_'
    ensures IsIdentChar(c) <==> IsIdentStart(c) || c in "0123456789"
  {
  }

  predicate Identifier(key: string) {
    key != "" && IsIdentStart(key[0]) && forall i :: 0 <= i < |key| ==> IsIdentChar(key[i])
  }

  // How many identifier characters a string starts with.
  function IdentLength(s: string): (n: nat)
    ensures n <= |s|
  {
    if s == "" || !IsIdentChar(s[0]) then 0 else 1 + IdentLength(s[1..])
  }

  lemma {:induction false} IdentLengthLaw(s: string)
    ensures forall i :: 0 <= i < IdentLength(s) ==> IsIdentChar(s[i])
  {
    hide IsIdentChar;
    if s != "" && IsIdentChar(s[0]) {
      IdentLengthLaw(s[1..]);
    }
  }

  datatype Assignment = Assignment(key: string, raw: string)

  // The pattern `^\s*([A-Za-z_][A-Za-z0-9_]*)\s*=(.*?)(?:\r?\n)?$` on one line.
  function AssignmentOf(line: string): Option<Assignment> {
    var s := Text.LStrip(line);
    if s == "" || !IsIdentStart(s[0]) then None
    else
      var n := IdentLength(s);
      var rest := Text.LStrip(s[n..]);
      if rest == "" || rest[0] != '=' then None else Some(Assignment(s[..n], BodyOf(rest[1..])))
  }

  // `str.find`, with the length for "not found".
  function Find(s: string, c: char): (n: nat)
    ensures n <= |s| && (n < |s| ==> s[n] == c)
  {
    if s == "" || s[0] == c then 0 else 1 + Find(s[1..], c)
  }

  datatype Setting = Setting(key: string, value: string)

  // One line of `_read_dotenv`; stripping it removes its terminator too.
  function SettingOf(rawLine: string): Option<Setting> {
    var line := Text.Strip(rawLine);
    var n := Find(line, '=');
    if line == "" || line[0] == '#' || n == |line| then None
    else Some(Setting(Text.Strip(line[..n]), Decode(line[n + 1..])))
  }

  /** A comment sets nothing. */
  lemma CommentsSetNothing(line: string, a: string, rest: string)
    requires line == a + (['#'] + rest) && Text.Blank(a)
    ensures SettingOf(line) == None && AssignmentOf(line) == None
  {
    hide Text.Strip, Text.LStrip, Decode, Find;
    var s := ['#'] + rest;
    assert !Text.IsSpace('#') && s[0] == '#';
    Text.LStripOf(line, a, s);
    CommentStripped(line, a, s);
  }

  lemma CommentStripped(line: string, a: string, s: string)
    requires line == a + s && Text.Blank(a) && s != "" && s[0] == '#' && Text.LStrip(line) == s
    ensures Text.Strip(line) != "" && Text.Strip(line)[0] == '#'
  {
    hide Text.LStrip, Text.IsSpace;
    assert !Text.IsSpace('#') by { HashIsNoSpace(); }
    var b := Text.RStripPart(s);
  }

  lemma HashIsNoSpace()
    ensures !Text.IsSpace('#')
  {
  }

  // The line reads: whitespace, the key, whitespace, "=", anything.
  predicate Assigns(line: string, a: string, key: string, b: string, tail: string) {
    line == a + (key + (b + (['='] + tail))) && Text.Blank(a) && Text.Blank(b)
  }

  lemma IdentifiersHaveNoSpace(key: string)
    requires Identifier(key)
    ensures !Text.IsSpace(key[0]) && !Text.IsSpace(key[|key| - 1]) && '=' !in key && key[0] != '#'
    ensures !Text.IsSpace('=') && !IsIdentChar('=')
    ensures forall c :: Text.IsSpace(c) ==> !IsIdentChar(c)
  {
    assert IsIdentChar(key[|key| - 1]);
  }

  lemma {:induction false} IdentLengthIs(s: string, key: string, rest: string)
    requires s == key + rest && (forall i :: 0 <= i < |key| ==> IsIdentChar(key[i])) &&
      (rest == "" || !IsIdentChar(rest[0]))
    ensures IdentLength(s) == |key|
  {
    hide IsIdentChar;
    if key != "" {
      assert IsIdentChar(key[0]) && s[0] == key[0];
      assert s[1..] == key[1..] + rest;
      IdentLengthIs(s[1..], key[1..], rest);
    }
  }

  lemma BlankStart(b: string)
    requires Text.Blank(b) && b != ""
    ensures Text.IsSpace(b[0])
  {
  }

  lemma AssignsIsAssignment(line: string, a: string, key: string, b: string, tail: string)
    requires Assigns(line, a, key, b, tail) && Identifier(key)
    ensures AssignmentOf(line) == Some(Assignment(key, BodyOf(tail)))
  {
    hide Text.IsSpace, Text.LStrip, IsIdentChar, IdentLength, Text.Blank, BodyOf;
    IdentifiersHaveNoSpace(key);
    var rest := ['='] + tail;
    var s := key + (b + rest);
    assert s[0] == key[0];
    Text.LStripOf(line, a, s);
    if b != "" {
      BlankStart(b);
      assert (b + rest)[0] == b[0];
    } else {
      assert b + rest == rest;
    }
    IdentLengthIs(s, key, b + rest);
    assert s[|key|..] == b + rest && s[..|key|] == key;
    Text.LStripOf(b + rest, b, rest);
    assert rest[1..] == tail;
  }

  lemma AssignmentAssigns(line: string) returns (a: string, b: string, tail: string)
    requires AssignmentOf(line).Some?
    ensures Assigns(line, a, AssignmentOf(line).value.key, b, tail) && Identifier(AssignmentOf(line).value.key)
  {
    hide Text.IsSpace, Text.LStrip, Text.Blank, IsIdentStart, IsIdentChar, IdentLength, BodyOf, AssignmentOf,
      Assigns, Identifier;
    var s, key, t, rest := AssignmentParts(line);
    a := Text.LStripPart(line);
    b := Text.LStripPart(t);
    tail := rest[1..];
    Assemble(line, a, s, key, t, b, rest, tail);
  }

  lemma AssignmentParts(line: string) returns (s: string, key: string, t: string, rest: string)
    requires AssignmentOf(line).Some?
    ensures s == Text.LStrip(line) && s == key + t && rest == Text.LStrip(t)
    ensures key == AssignmentOf(line).value.key && Identifier(key)
    ensures rest != "" && rest[0] == '='
  {
    hide Text.IsSpace, Text.LStrip, IsIdentStart, IsIdentChar, IdentLength, BodyOf, Identifier;
    s := Text.LStrip(line);
    key, t := s[..IdentLength(s)], s[IdentLength(s)..];
    rest := Text.LStrip(t);
    PrefixIsIdentifier(s);
  }

  lemma PrefixIsIdentifier(s: string)
    requires s != "" && IsIdentStart(s[0])
    ensures Identifier(s[..IdentLength(s)])
  {
    hide IsIdentStart, IsIdentChar;
    StartIsIdentChar(s[0]);
    IdentLengthLaw(s);
  }

  lemma Assemble(line: string, a: string, s: string, key: string, t: string, b: string, rest: string, tail: string)
    requires line == a + s && s == key + t && t == b + rest && rest != "" && rest[0] == '=' && tail == rest[1..]
    requires Text.Blank(a) && Text.Blank(b)
    ensures Assigns(line, a, key, b, tail)
  {
    assert rest == ['='] + tail;
  }

  lemma StartIsIdentChar(c: char)
    requires IsIdentStart(c)
    ensures IsIdentChar(c)
  {
  }

  lemma {:induction false} FindIs(s: string, front: string, c: char, rest: string)
    requires s == front + ([c] + rest) && c !in front
    ensures Find(s, c) == |front|
  {
    if front != "" {
      assert s[0] == front[0] && front[0] in front;
      assert s[1..] == front[1..] + ([c] + rest);
      FindIs(s[1..], front[1..], c, rest);
    }
  }

  lemma AssignsIsSetting(line: string, a: string, key: string, b: string, tail: string)
    requires Assigns(line, a, key, b, tail) && Identifier(key)
    ensures SettingOf(line) == Some(Setting(key, Decode(tail)))
  {
    hide Text.IsSpace, Text.Strip, Text.Blank, Decode, IsIdentChar, Find;
    IdentifiersHaveNoSpace(key);
    var t, e := StrippedLine(line, a, key, b, tail);
    assert t[0] == key[0];
    BlankHasNo(b, '=');
    assert t == (key + b) + (['='] + e);
    FindIs(t, key + b, '=', e);
    assert t[..|key + b|] == key + b && t[|key + b| + 1..] == e;
    assert key + b == "" + (key + b);
    EmptyStrip();
    Text.StripOf(key + b, "", key, b);
  }

  lemma BlankHasNo(b: string, c: char)
    requires Text.Blank(b) && !Text.IsSpace(c)
    ensures c !in b
  {
  }

  // The stripped line, and the part behind its "=", which decodes like the whole tail.
  lemma StrippedLine(line: string, a: string, key: string, b: string, tail: string) returns (t: string, e: string)
    requires Assigns(line, a, key, b, tail) && Identifier(key)
    ensures t == Text.Strip(line) && t == key + (b + (['='] + e)) && Decode(e) == Decode(tail)
  {
    hide Text.IsSpace, Text.Strip, Text.LStrip, Text.RStrip, Text.Blank, IsIdentChar, LUnquote, RUnquote;
    IdentifiersHaveNoSpace(key);
    var c, d := Text.StripParts(tail);
    var body := Text.Strip(tail);
    var s := key + (b + (['='] + tail));
    if body == "" {
      e := "";
      t := key + (b + (['='] + e));
      Text.BlankConcat(c, d);
      assert tail == c + d;
      assert line == a + (t + (c + d));
      assert t[0] == key[0] && t[|t| - 1] == '=';
      Text.StripOf(line, a, t, c + d);
      EmptyStrip();
    } else {
      e := c + body;
      t := key + (b + (['='] + e));
      assert tail == e + d;
      assert line == a + (t + d);
      assert t[0] == key[0] && t[|t| - 1] == body[|body| - 1];
      Text.StripOf(line, a, t, d);
      EmptyStrip();
      assert e == c + (body + "");
      Text.StripOf(e, c, body, "");
    }
  }

  lemma EmptyStrip()
    ensures Text.Strip("") == "" && Text.Blank("")
  {
  }

  lemma SettingAssigns(line: string) returns (a: string, b: string, tail: string)
    requires SettingOf(line).Some?
    ensures Assigns(line, a, SettingOf(line).value.key, b, tail)
  {
    hide Text.IsSpace, Text.Strip, Text.Blank, Decode, Find, Text.Trimmed;
    var a0, b0 := Text.StripParts(line);
    var t := Text.Strip(line);
    var n := Find(t, '=');
    var a1, b1 := Text.StripParts(t[..n]);
    a, b, tail := a0 + a1, b1, t[n + 1..] + b0;
    Text.BlankConcat(a0, a1);
    Reassemble(line, t, a0, b0, n, a1, Text.Strip(t[..n]), b1);
  }

  lemma Reassemble(line: string, t: string, a0: string, b0: string, n: nat, a1: string, key: string, b1: string)
    requires line == a0 + (t + b0) && n < |t| && t[n] == '=' && t[..n] == a1 + (key + b1)
    ensures line == (a0 + a1) + (key + (b1 + (['='] + (t[n + 1..] + b0))))
  {
    assert t == t[..n] + (['='] + t[n + 1..]);
  }

  lemma BodyDecodes(tail: string)
    ensures Decode(BodyOf(tail)) == Decode(tail)
  {
    hide LUnquote, RUnquote, Text.Strip;
    EmptyStrip();
    assert tail == "" + (BodyOf(tail) + EndingOf(tail));
    Text.StripAbsorbs(tail, "", BodyOf(tail), EndingOf(tail));
  }

  // What the console reads from a line.
  function Reading(line: string): Option<Setting> {
    match AssignmentOf(line)
    case None => None
    case Some(Assignment(key, raw)) => Some(Setting(key, Decode(raw)))
  }

  // Both readers see the same lines set an identifier, to the same value.
  lemma ReadersAgreeOnLine(line: string, key: string)
    requires Identifier(key)
    ensures (SettingOf(line).Some? && SettingOf(line).value.key == key)
       <==> (Reading(line).Some? && Reading(line).value.key == key)
    ensures Reading(line).Some? && Reading(line).value.key == key ==> SettingOf(line) == Reading(line)
  {
    hide SettingOf, AssignmentOf, Identifier, Decode, Assigns;
    if AssignmentOf(line).Some? {
      var a, b, tail := AssignmentAssigns(line);
      AssignsIsAssignment(line, a, AssignmentOf(line).value.key, b, tail);
      AssignsIsSetting(line, a, AssignmentOf(line).value.key, b, tail);
      BodyDecodes(tail);
    }
    if SettingOf(line).Some? && SettingOf(line).value.key == key {
      var a, b, tail := SettingAssigns(line);
      AssignsIsAssignment(line, a, key, b, tail);
    }
  }

  // ---- Whole files ----

  // How a reader reads one line.
  type Reader = string -> Option<Setting>

  // The last line that sets the key wins.
  function Value(read: Reader, lines: seq<string>, key: string): Option<string> {
    if lines == [] then None
    else
      var last := read(lines[|lines| - 1]);
      if last.Some? && last.value.key == key then Some(last.value.value)
      else Value(read, lines[..|lines| - 1], key)
  }

  function Get(m: map<string, string>, key: string): Option<string> {
    if key in m then Some(m[key]) else None
  }

  // `_assignments`
  method Assignments(text: string) returns (values: map<string, string>)
    ensures forall key :: Get(values, key) == Value(Reading, SplitLines(text), key)
  {
    values := ReadLines(Reading, SplitLines(text));
  }

  // `_read_dotenv`
  method ReadDotenv(text: string) returns (values: map<string, string>)
    ensures forall key :: Get(values, key) == Value(SettingOf, SplitLines(text), key)
  {
    values := ReadLines(SettingOf, SplitLines(text));
  }

  // The loop of both readers.
  method ReadLines(read: Reader, lines: seq<string>) returns (values: map<string, string>)
    ensures forall key :: Get(values, key) == Value(read, lines, key)
  {
    values := map[];
    for i := 0 to |lines|
      invariant forall key :: Get(values, key) == Value(read, lines[..i], key)
    {
      assert lines[..i + 1][..i] == lines[..i];
      var setting := read(lines[i]);
      if setting.Some? {
        values := values[setting.value.key := setting.value.value];
      }
    }
    assert lines[..|lines|] == lines;
  }

  // The console and the startup code read every identifier alike.
  lemma {:induction false} ReadersAgree(lines: seq<string>, key: string)
    requires Identifier(key)
    ensures Value(SettingOf, lines, key) == Value(Reading, lines, key)
  {
    hide SettingOf, Reading, Identifier;
    if lines != [] {
      ReadersAgreeOnLine(lines[|lines| - 1], key);
      ReadersAgree(lines[..|lines| - 1], key);
    }
  }
}
