/** Texts put together from parts, and the notice about files that could not be delivered. */
module Wording {

  function Concat(parts: seq<string>): string {
    if parts == [] then "" else Concat(parts[..|parts| - 1]) + parts[|parts| - 1]
  }

  // `separator.join(parts)`
  function Join(separator: string, parts: seq<string>): string {
    if parts == [] then ""
    else if |parts| == 1 then parts[0]
    else Join(separator, parts[..|parts| - 1]) + separator + parts[|parts| - 1]
  }

  function NonEmpty(parts: seq<string>): seq<string> {
    if parts == [] then []
    else NonEmpty(parts[..|parts| - 1]) + if parts[|parts| - 1] == "" then [] else [parts[|parts| - 1]]
  }

  function Bullets(parts: seq<string>): (r: seq<string>)
    ensures |r| == |parts|
  {
    seq(|parts|, i requires 0 <= i < |parts| => "- " + parts[i])
  }

  // `dict.fromkeys(parts)`
  function Unique(parts: seq<string>): seq<string> {
    if parts == [] then []
    else
      var front, last := parts[..|parts| - 1], parts[|parts| - 1];
      Unique(front) + if last in front then [] else [last]
  }

  // A heading with one line for each part.
  function List(heading: string, parts: seq<string>): string {
    Join("\n", [heading] + Bullets(parts))
  }

  const UNAVAILABLE := "Attachment delivery unavailable:"

  function WithErrors(text: string, errors: seq<string>): string {
    if errors == [] then text else Join("\n\n", NonEmpty([text, List(UNAVAILABLE, errors)]))
  }

  // ---- What such texts contain ----

  ghost predicate Contains(s: string, part: string) {
    exists a, b :: s == a + (part + b)
  }

  // The heading, and then each part on a line of its own.
  function Lined(heading: string, parts: seq<string>): string {
    if parts == [] then heading
    else Lined(heading, parts[..|parts| - 1]) + "\n- " + parts[|parts| - 1]
  }

  // The text comes first; with nothing to report it is all there is, otherwise the errors follow, each one
  // on a line of its own, behind a blank line when there is a text.
  predicate Reports(whole: string, text: string, errors: seq<string>) {
    whole == if errors == [] then text
             else (if text == "" then "" else text + "\n\n") + Lined("Attachment delivery unavailable:", errors)
  }

  lemma ReportsContain(whole: string, text: string, errors: seq<string>)
    requires Reports(whole, text, errors)
    ensures text <= whole && forall i :: 0 <= i < |errors| ==> Contains(whole, errors[i])
  {
    var notice := Lined("Attachment delivery unavailable:", errors);
    var front := if text == "" then "" else text + "\n\n";
    forall i | 0 <= i < |errors| ensures Contains(whole, errors[i]) {
      LinedContains("Attachment delivery unavailable:", errors, i);
      assert whole == front + (notice + "");
      ContainsWithin(whole, front, notice, "", errors[i]);
    }
  }

  lemma {:induction false} LinedContains(heading: string, parts: seq<string>, k: nat)
    requires k < |parts|
    ensures Contains(Lined(heading, parts), parts[k])
  {
    var front, last := parts[..|parts| - 1], parts[|parts| - 1];
    var all, before := Lined(heading, parts), Lined(heading, front);
    if k < |front| {
      LinedContains(heading, front, k);
      assert all == "" + (before + ("\n- " + last));
      ContainsWithin(all, "", before, "\n- " + last, parts[k]);
    } else {
      assert all == (before + "\n- ") + (last + "");
    }
  }

  lemma {:induction false} ListIsLined(heading: string, parts: seq<string>)
    ensures List(heading, parts) == Lined(heading, parts)
  {
    var lines := [heading] + Bullets(parts);
    if parts != [] {
      var front := parts[..|parts| - 1];
      ListIsLined(heading, front);
      assert lines[..|lines| - 1] == [heading] + Bullets(front);
      assert lines[|lines| - 1] == "- " + parts[|parts| - 1];
      assert "\n" + ("- " + parts[|parts| - 1]) == "\n- " + parts[|parts| - 1];
    }
  }

  lemma ContainsWithin(s: string, a: string, middle: string, b: string, part: string)
    requires s == a + (middle + b) && Contains(middle, part)
    ensures Contains(s, part)
  {
    var c, d :| middle == c + (part + d);
    assert s == (a + c) + (part + (d + b));
  }

  lemma ContainsItself(s: string)
    ensures Contains(s, s)
  {
    assert s == "" + (s + "");
  }

  lemma StartsIsContained(s: string, part: string)
    requires part <= s
    ensures Contains(s, part)
  {
    assert s == "" + (part + s[|part|..]);
  }

  lemma {:induction false} JoinContains(separator: string, parts: seq<string>, k: nat)
    requires k < |parts|
    ensures Contains(Join(separator, parts), parts[k])
    decreases |parts|
  {
    if |parts| == 1 {
      ContainsItself(parts[0]);
    } else {
      var front, last := parts[..|parts| - 1], parts[|parts| - 1];
      var all := Join(separator, parts);
      if k < |front| {
        JoinContains(separator, front, k);
        assert all == "" + (Join(separator, front) + (separator + last));
        ContainsWithin(all, "", Join(separator, front), separator + last, parts[k]);
      } else {
        assert all == (Join(separator, front) + separator) + (last + "");
      }
    }
  }

  lemma {:induction false} JoinStarts(separator: string, parts: seq<string>)
    requires parts != []
    ensures parts[0] <= Join(separator, parts)
    decreases |parts|
  {
    if |parts| > 1 { JoinStarts(separator, parts[..|parts| - 1]); }
  }

  lemma {:induction false} JoinsNothing(parts: seq<string>)
    ensures Join("", parts) == Concat(parts)
  {
    if |parts| == 1 {
      assert parts[..0] == [] && Concat([]) == "";
    } else if parts != [] {
      JoinsNothing(parts[..|parts| - 1]);
    }
  }

  lemma {:induction false} NonEmptyOf(parts: seq<string>, k: nat)
    requires k < |parts| && parts[k] != ""
    ensures exists j :: 0 <= j < |NonEmpty(parts)| && NonEmpty(parts)[j] == parts[k]
  {
    var front, last := parts[..|parts| - 1], parts[|parts| - 1];
    if k < |front| {
      NonEmptyOf(front, k);
      var j :| 0 <= j < |NonEmpty(front)| && NonEmpty(front)[j] == front[k];
      assert NonEmpty(parts)[j] == parts[k];
    } else {
      assert NonEmpty(parts)[|NonEmpty(front)|] == last;
    }
  }

  lemma {:induction false} NonEmptyStarts(parts: seq<string>)
    requires parts != [] && parts[0] != ""
    ensures NonEmpty(parts) != [] && NonEmpty(parts)[0] == parts[0]
  {
    if |parts| == 1 {
      assert NonEmpty(parts[..0]) == [];
    } else {
      NonEmptyStarts(parts[..|parts| - 1]);
    }
  }

  // Every part, empty ones too, is in the text that leaves the empty ones out.
  lemma JoinedContains(separator: string, parts: seq<string>, k: nat)
    requires k < |parts|
    ensures Contains(Join(separator, NonEmpty(parts)), parts[k])
  {
    var all := Join(separator, NonEmpty(parts));
    if parts[k] == "" {
      assert all == "" + ("" + all);
    } else {
      NonEmptyOf(parts, k);
      var j :| 0 <= j < |NonEmpty(parts)| && NonEmpty(parts)[j] == parts[k];
      JoinContains(separator, NonEmpty(parts), j);
    }
  }

  lemma {:induction false} UniqueHasAll(parts: seq<string>)
    ensures forall p :: p in Unique(parts) <==> p in parts
  {
    if parts != [] {
      var front, last := parts[..|parts| - 1], parts[|parts| - 1];
      UniqueHasAll(front);
      assert parts == front + [last];
    }
  }

  // The part x is there before the part y is there for the first time.
  ghost predicate Precedes(parts: seq<string>, x: string, y: string) {
    exists n :: 0 <= n < |parts| && parts[n] == x && y !in parts[..n + 1]
  }

  lemma PrecedesLater(parts: seq<string>, last: string, x: string, y: string)
    requires Precedes(parts, x, y) || (x in parts && y == last && y !in parts)
    ensures Precedes(parts + [last], x, y)
  {
    var n :| 0 <= n < |parts| && parts[n] == x && (y !in parts[..n + 1] || y !in parts);
    assert (parts + [last])[..n + 1] == parts[..n + 1];
  }

  /** What `dict.fromkeys` keeps: every part once, in the order in which they first came. */
  lemma {:induction false} UniqueExactly(parts: seq<string>)
    ensures forall p :: p in Unique(parts) <==> p in parts
    ensures forall i, j :: 0 <= i < j < |Unique(parts)| ==> Precedes(parts, Unique(parts)[i], Unique(parts)[j])
  {
    hide Precedes;
    UniqueHasAll(parts);
    if parts != [] {
      var front, last := parts[..|parts| - 1], parts[|parts| - 1];
      assert parts == front + [last];
      UniqueExactly(front);
      var v, u := Unique(front), Unique(parts);
      forall i, j | 0 <= i < j < |u| ensures Precedes(parts, u[i], u[j]) {
        assert u[i] == v[i] && v[i] in v;
        PrecedesLater(front, last, u[i], u[j]);
      }
    }
  }

  /** Joining loses nothing and adds only separators. */
  lemma {:induction false} JoinExactly(separator: string, parts: seq<string>)
    requires parts != []
    ensures separator + Join(separator, parts)
         == Concat(seq(|parts|, i requires 0 <= i < |parts| => separator + parts[i]))
  {
    var all := seq(|parts|, i requires 0 <= i < |parts| => separator + parts[i]);
    if |parts| == 1 {
      assert all == [separator + parts[0]] && all[..0] == [] && Concat(all[..0]) == "";
      assert Concat(all) == "" + (separator + parts[0]);
    } else {
      var front := parts[..|parts| - 1];
      JoinExactly(separator, front);
      assert all[..|all| - 1] == seq(|front|, i requires 0 <= i < |front| => separator + front[i]);
      assert all[|all| - 1] == separator + parts[|parts| - 1];
    }
  }

  /** A text with attachment errors is the text and then the notice with every error. */
  lemma ErrorsAreReported(text: string, errors: seq<string>)
    ensures Reports(WithErrors(text, errors), text, errors)
  {
    if errors != [] {
      var notice := List(UNAVAILABLE, errors);
      var parts := [text, notice];
      assert parts[..1] == [text] && [text][..0] == [] && [notice][..0] == [];
      ListIsLined(UNAVAILABLE, errors);
      LinedIsSome(UNAVAILABLE, errors);
      hide List, Lined;
      assert NonEmpty([text]) == if text == "" then [] else [text];
      assert NonEmpty(parts) == if text == "" then [notice] else [text, notice];
      assert Join("\n\n", [text]) == text;
    }
  }

  lemma {:induction false} LinedIsSome(heading: string, parts: seq<string>)
    requires heading != ""
    ensures Lined(heading, parts) != ""
  {
  }
}
