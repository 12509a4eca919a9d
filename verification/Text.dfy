/** Python string primitives: what counts as whitespace, and `strip`. */
module Text {

  // `str.isspace` for one character.
  predicate IsSpace(c: char) {
    || '\t' <= c <= '\r' || '\U{1c}' <= c <= ' '
    || c == '\U{85}' || c == '\U{a0}' || c == '\U{1680}' || '\U{2000}' <= c <= '\U{200a}'
    || c == '\U{2028}' || c == '\U{2029}' || c == '\U{202f}' || c == '\U{205f}' || c == '\U{3000}'
  }

  const SPACES := "\t\n\U{b}\U{c}\r\U{1c}\U{1d}\U{1e}\U{1f} \U{85}\U{a0}\U{1680}\U{2000}\U{2001}\U{2002}\U{2003}"
    + "\U{2004}\U{2005}\U{2006}\U{2007}\U{2008}\U{2009}\U{200a}\U{2028}\U{2029}\U{202f}\U{205f}\U{3000}"

  lemma SpacesAre(c: char)
    ensures IsSpace(c) <==> c in SPACES
  {
    var first, rest := SPACES[..16], SPACES[16..];
    assert SPACES == first + rest;
  }

  function LStrip(s: string): string {
    if s == [] || !IsSpace(s[0]) then s else LStrip(s[1..])
  }

  function RStrip(s: string): string {
    if s == [] || !IsSpace(s[|s| - 1]) then s else RStrip(s[..|s| - 1])
  }

  function Strip(s: string): string {
    RStrip(LStrip(s))
  }

  // Stripping removes nothing.
  predicate Trimmed(s: string) {
    s == [] || (!IsSpace(s[0]) && !IsSpace(s[|s| - 1]))
  }

  predicate Blank(s: string) {
    forall i :: 0 <= i < |s| ==> IsSpace(s[i])
  }

  // What `lstrip` removes.
  lemma {:induction false} LStripPart(s: string) returns (a: string)
    ensures s == a + LStrip(s) && Blank(a) && (LStrip(s) != "" ==> !IsSpace(LStrip(s)[0]))
  {
    hide IsSpace;
    if s == "" || !IsSpace(s[0]) {
      a := "";
    } else {
      a := LStripPart(s[1..]);
      a := [s[0]] + a;
    }
  }

  // What `rstrip` removes.
  lemma {:induction false} RStripPart(s: string) returns (b: string)
    ensures s == RStrip(s) + b && Blank(b) && (RStrip(s) != "" ==> !IsSpace(RStrip(s)[|RStrip(s)| - 1]))
  {
    hide IsSpace;
    if s == "" || !IsSpace(s[|s| - 1]) {
      b := "";
    } else {
      b := RStripPart(s[..|s| - 1]);
      b := b + [s[|s| - 1]];
    }
  }

  lemma StripTrimmed(s: string)
    ensures Trimmed(s) <==> Strip(s) == s
    ensures Trimmed(Strip(s))
  {
    hide IsSpace;
    if Trimmed(s) {
      assert LStrip(s) == s && RStrip(s) == s;
    }
    var a, b := StripParts(s);
  }

  lemma StripBlank(s: string)
    ensures Strip(s) == "" <==> Blank(s)
  {
    hide IsSpace;
    var a, b := StripParts(s);
    if Blank(s) { BlankIsStripped(s); }
  }

  lemma BlankIsStripped(s: string)
    requires Blank(s)
    ensures Strip(s) == ""
  {
    hide IsSpace, Strip;
    assert s == s + ("" + "");
    StripOf(s, s, "", "");
  }

  // What `strip` removes at the two ends.
  lemma StripParts(s: string) returns (a: string, b: string)
    ensures s == a + (Strip(s) + b) && Blank(a) && Blank(b) && Trimmed(Strip(s))
  {
    hide IsSpace, LStrip, RStrip;
    a := LStripPart(s);
    b := RStripPart(LStrip(s));
    if Strip(s) != "" {
      assert LStrip(s)[0] == Strip(s)[0];
    }
  }

  lemma {:induction false} LStripIs(a: string, s: string)
    requires Blank(a) && (s == "" || !IsSpace(s[0]))
    ensures LStrip(a + s) == s
  {
    hide IsSpace;
    if a == "" {
      assert a + s == s;
    } else {
      LStripIs(a[1..], s);
      assert (a + s)[1..] == a[1..] + s;
    }
  }

  lemma {:induction false} RStripIs(s: string, b: string)
    requires Blank(b) && (s == "" || !IsSpace(s[|s| - 1]))
    ensures RStrip(s + b) == s
  {
    hide IsSpace;
    if b == "" {
      assert s + b == s;
    } else {
      RStripIs(s, b[..|b| - 1]);
      assert (s + b)[..|s + b| - 1] == s + b[..|b| - 1];
    }
  }

  lemma LStripOf(s: string, a: string, t: string)
    requires s == a + t && Blank(a) && (t == "" || !IsSpace(t[0]))
    ensures LStrip(s) == t
  {
    LStripIs(a, t);
  }

  lemma RStripOf(s: string, t: string, b: string)
    requires s == t + b && Blank(b) && (t == "" || !IsSpace(t[|t| - 1]))
    ensures RStrip(s) == t
  {
    RStripIs(t, b);
  }

  lemma StripOf(s: string, a: string, t: string, b: string)
    requires s == a + (t + b) && Blank(a) && Blank(b) && Trimmed(t)
    ensures Strip(s) == t
  {
    hide IsSpace, LStrip, RStrip;
    if t == "" {
      assert s == (a + b) + "";
      BlankConcat(a, b);
      LStripOf(s, a + b, "");
      RStripOf("", "", "");
    } else {
      LStripOf(s, a, t + b);
      RStripOf(t + b, t, b);
    }
  }

  lemma BlankConcat(a: string, b: string)
    requires Blank(a) && Blank(b)
    ensures Blank(a + b)
  {
  }

  // Whitespace around a string does not matter to `strip`.
  lemma StripAbsorbs(s: string, a: string, t: string, b: string)
    requires s == a + (t + b) && Blank(a) && Blank(b)
    ensures Strip(s) == Strip(t)
  {
    hide IsSpace, LStrip, RStrip, Strip;
    var c, d := StripParts(t);
    BlankConcat(a, c);
    BlankConcat(d, b);
    assert s == (a + c) + (Strip(t) + (d + b));
    StripOf(s, a + c, Strip(t), d + b);
  }
}
