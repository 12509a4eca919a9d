/**
 `_apply_replacements` (src/imcodex/admin/config_store.py): the edit of a dotenv file that sets and
 clears fields and leaves everything else alone.
 */
module DotenvEdit {
  import opened Dotenv
  import opened Lines
  import opened Prelude
  import Text

  // `ConfigFieldDefinition`: a field is stored under its key, and read from its aliases too.
  datatype Field = Field(key: string, aliases: seq<string>)

  predicate Stores(f: Field, key: string) {
    key == f.key || key in f.aliases
  }

  // The line sets the field, under its key or an alias.
  predicate Sets(line: string, f: Field) {
    Reading(line).Some? && Stores(f, Reading(line).value.key)
  }

  predicate AnySets(lines: seq<string>, f: Field) {
    exists i :: 0 <= i < |lines| && Sets(lines[i], f)
  }

  function Without(lines: seq<string>, f: Field): seq<string> {
    if lines == [] then []
    else
      var last := lines[|lines| - 1];
      Without(lines[..|lines| - 1], f) + if Sets(last, f) then [] else [last]
  }

  // The last line that sets the field becomes the new one, with its old ending; earlier ones go.
  function SetLast(lines: seq<string>, f: Field, serialized: string): seq<string> {
    if lines == [] then []
    else
      var front, last := lines[..|lines| - 1], lines[|lines| - 1];
      if Sets(last, f) then Without(front, f) + [serialized + EndingOf(last)]
      else SetLast(front, f, serialized) + [last]
  }

  predicate Unterminated(line: string) {
    line == "" || line[|line| - 1] !in "\r\n"
  }

  function Terminated(lines: seq<string>, newline: string): seq<string> {
    if lines != [] && Unterminated(lines[|lines| - 1])
    then lines[..|lines| - 1] + [lines[|lines| - 1] + newline] else lines
  }

  function Serialized(f: Field, encoded: string): string {
    f.key + "=" + encoded
  }

  function ApplyField(lines: seq<string>, f: Field, replacement: Option<string>, newline: string)
    : Result<seq<string>, Error>
  {
    if replacement.None? then Ok(Without(lines, f))
    else
      match Encode(replacement.value)
      case Err(e) => Err(e)
      case Ok(encoded) =>
        if AnySets(lines, f) then Ok(SetLast(lines, f, Serialized(f, encoded)))
        else Ok(Terminated(lines, newline) + [Serialized(f, encoded) + newline])
  }

  // The fields in the order of the schema.
  function ApplyFields(lines: seq<string>, fields: seq<Field>, replacements: map<string, Option<string>>,
      newline: string)
    : Result<seq<string>, Error>
  {
    if fields == [] then Ok(lines)
    else
      var f := fields[|fields| - 1];
      match ApplyFields(lines, fields[..|fields| - 1], replacements, newline)
      case Err(e) => Err(e)
      case Ok(edited) =>
        if f.key in replacements then ApplyField(edited, f, replacements[f.key], newline) else Ok(edited)
  }

  function Newline(lines: seq<string>): string {
    if exists i :: 0 <= i < |lines| && EndingOf(lines[i]) == "\r\n" then "\r\n" else "\n"
  }

  /** New lines end like those that are there: with CRLF exactly when some line of the file does. */
  lemma NewlineExactly(lines: seq<string>)
    ensures Newline(lines) == "\r\n" || Newline(lines) == "\n"
    ensures Newline(lines) == "\r\n" <==>
      exists i :: 0 <= i < |lines| && |lines[i]| >= 2 && lines[i][|lines[i]| - 2..] == "\r\n"
  {
    forall i | 0 <= i < |lines|
      ensures EndingOf(lines[i]) == "\r\n" <==> |lines[i]| >= 2 && lines[i][|lines[i]| - 2..] == "\r\n"
    {
    }
  }

  function Apply(text: string, fields: seq<Field>, replacements: map<string, Option<string>>): Result<string, Error> {
    var lines := SplitLines(text);
    match ApplyFields(lines, fields, replacements, Newline(lines))
    case Err(e) => Err(e)
    case Ok(edited) => Ok(Concat(edited))
  }

  // ---- The edit in place ----

  // `indexes` lists the lines before `bound` that set the field, in order.
  ghost predicate Lists(lines: seq<string>, f: Field, indexes: seq<nat>, bound: nat)
    requires bound <= |lines|
  {
    && (forall k :: 0 <= k < |indexes| ==> indexes[k] < bound && Sets(lines[indexes[k]], f))
    && (forall j, k :: 0 <= j < k < |indexes| ==> indexes[j] < indexes[k])
    && (forall i :: 0 <= i < bound && Sets(lines[i], f) ==> i in indexes)
  }

  method FindLines(lines: seq<string>, f: Field) returns (indexes: seq<nat>)
    ensures Lists(lines, f, indexes, |lines|)
  {
    hide Sets;
    indexes := [];
    for i := 0 to |lines|
      invariant Lists(lines, f, indexes, i)
    {
      if Sets(lines[i], f) {
        indexes := indexes + [i];
      }
    }
  }

  lemma {:induction false} WithoutNone(lines: seq<string>, f: Field)
    requires !AnySets(lines, f)
    ensures Without(lines, f) == lines
  {
    hide Sets;
    if lines != [] {
      var front, last := lines[..|lines| - 1], lines[|lines| - 1];
      forall i | 0 <= i < |front| ensures !Sets(front[i], f) {
        assert !Sets(lines[i], f);
      }
      WithoutNone(front, f);
      assert !Sets(lines[|lines| - 1], f);
      assert lines == front + [last];
    }
  }

  lemma {:induction false} WithoutConcat(lines: seq<string>, a: seq<string>, b: seq<string>, f: Field)
    requires lines == a + b
    ensures Without(lines, f) == Without(a, f) + Without(b, f)
  {
    hide Sets;
    if b == [] {
      assert lines == a;
    } else {
      var front := b[..|b| - 1];
      assert lines[..|lines| - 1] == a + front;
      WithoutConcat(a + front, a, front, f);
    }
  }

  // Deleting the line before an already cleaned stretch cleans the longer stretch.
  lemma DeleteOne(lines: seq<string>, f: Field, i: nat, c: nat, bound: nat)
    requires i < c <= bound <= |lines|
    ensures Sets(lines[i], f) && (forall j :: i < j < c ==> !Sets(lines[j], f)) ==>
      Without(lines[i..bound], f) == lines[i + 1..c] + Without(lines[c..bound], f)
  {
    hide Sets;
    var middle := lines[i + 1..c];
    if Sets(lines[i], f) && (forall j :: i < j < c ==> !Sets(lines[j], f)) {
      assert lines[i..bound] == [lines[i]] + lines[i + 1..bound];
      assert lines[i + 1..bound] == middle + lines[c..bound];
      WithoutConcat(lines[i..bound], [lines[i]], lines[i + 1..bound], f);
      WithoutConcat(lines[i + 1..bound], middle, lines[c..bound], f);
      WithoutNone(middle, f);
      assert [lines[i]][..0] == [];
      assert Without([lines[i]], f) == [];
    }
  }

  // The lines before c as they are, the lines from c to `bound` cleaned, and the rest as it is.
  ghost predicate CleanedFrom(lines: seq<string>, r: seq<string>, f: Field, c: nat, bound: nat) {
    c <= bound <= |lines| && r == lines[..c] + (Without(lines[c..bound], f) + lines[bound..])
  }

  lemma CleanedStart(lines: seq<string>, f: Field, bound: nat)
    requires bound <= |lines|
    ensures CleanedFrom(lines, lines, f, bound, bound)
  {
    assert lines[bound..bound] == [];
    assert lines == lines[..bound] + ([] + lines[bound..]);
  }

  lemma CleanedStep(lines: seq<string>, r: seq<string>, f: Field, i: nat, c: nat, bound: nat)
    requires CleanedFrom(lines, r, f, c, bound) && i < c
    ensures i < |r|
    ensures Sets(lines[i], f) && (forall j :: i < j < c ==> !Sets(lines[j], f)) ==>
      CleanedFrom(lines, r[..i] + r[i + 1..], f, i, bound)
  {
    hide Sets, Without;
    DeleteOne(lines, f, i, c, bound);
    assert r[..i] == lines[..i];
    assert r[i + 1..] == lines[i + 1..c] + (Without(lines[c..bound], f) + lines[bound..]);
  }

  lemma CleanedEnd(lines: seq<string>, r: seq<string>, f: Field, c: nat, bound: nat)
    requires CleanedFrom(lines, r, f, c, bound) && forall j :: 0 <= j < c ==> !Sets(lines[j], f)
    ensures r == Without(lines[..bound], f) + lines[bound..]
  {
    hide Sets, Without;
    WithoutNone(lines[..c], f);
    assert lines[..bound] == lines[..c] + lines[c..bound];
    WithoutConcat(lines[..bound], lines[..c], lines[c..bound], f);
  }

  // Between two listed lines none sets the field.
  lemma NoneBetween(lines: seq<string>, f: Field, indexes: seq<nat>, bound: nat, k: nat, c: nat)
    requires bound <= |lines| && Lists(lines, f, indexes, bound) && k <= |indexes|
    requires c == if k == |indexes| then bound else indexes[k]
    ensures c <= bound
    ensures forall j :: (if k == 0 then 0 else indexes[k - 1] + 1) <= j < c ==> !Sets(lines[j], f)
  {
    hide Sets;
  }

  // `for index in reversed(indexes): del lines[index]`
  method DeleteLines(lines: seq<string>, f: Field, indexes: seq<nat>, bound: nat) returns (r: seq<string>)
    requires bound <= |lines| && Lists(lines, f, indexes, bound)
    ensures r == Without(lines[..bound], f) + lines[bound..]
  {
    hide Sets, Without, CleanedFrom;
    r := lines;
    var k := |indexes|;
    ghost var c := bound;
    CleanedStart(lines, f, bound);
    while k > 0
      invariant 0 <= k <= |indexes| && 0 <= c <= bound
      invariant c == if k == |indexes| then bound else indexes[k]
      invariant CleanedFrom(lines, r, f, c, bound)
    {
      NoneBetween(lines, f, indexes, bound, k, c);
      k := k - 1;
      CleanedStep(lines, r, f, indexes[k], c, bound);
      c := indexes[k];
      r := r[..indexes[k]] + r[indexes[k] + 1..];
    }
    NoneBetween(lines, f, indexes, bound, 0, c);
    CleanedEnd(lines, r, f, c, bound);
  }

  lemma {:induction false} SetLastAt(lines: seq<string>, f: Field, serialized: string, target: nat)
    requires target < |lines|
    ensures Sets(lines[target], f) && (forall i :: target < i < |lines| ==> !Sets(lines[i], f)) ==>
      SetLast(lines, f, serialized)
        == Without(lines[..target], f) + ([serialized + EndingOf(lines[target])] + lines[target + 1..])
  {
    hide Sets, Without, EndingOf;
    var front, last := lines[..|lines| - 1], lines[|lines| - 1];
    if target < |front| {
      SetLastAt(front, f, serialized, target);
      assert front[..target] == lines[..target];
      MoveLast(lines, front, last, target, Without(lines[..target], f), serialized + EndingOf(lines[target]));
    } else {
      assert lines[target + 1..] == [];
    }
  }

  lemma MoveLast(lines: seq<string>, front: seq<string>, last: string, target: nat, kept: seq<string>, line: string)
    requires lines == front + [last] && target < |front|
    ensures (kept + ([line] + front[target + 1..])) + [last] == kept + ([line] + lines[target + 1..])
  {
    assert lines[target + 1..] == front[target + 1..] + [last];
  }

  // One field of `_apply_replacements`.
  method EditField(lines: seq<string>, f: Field, replacement: Option<string>, newline: string)
    returns (r: Result<seq<string>, Error>)
    ensures r == ApplyField(lines, f, replacement, newline)
  {
    hide Sets, Without, SetLast, Encode, Serialized, AnySets, Lists, Terminated, Unterminated, EndingOf;
    var indexes := FindLines(lines, f);
    ListsAny(lines, f, indexes);
    if replacement.None? {
      var edited := DeleteLines(lines, f, indexes, |lines|);
      assert lines[..|lines|] == lines && lines[|lines|..] == [];
      assert edited == Without(lines, f);
      return Ok(edited);
    }
    var encoded := Encode(replacement.value);
    if encoded.Err? {
      return Err(encoded.error);
    }
    var serialized := Serialized(f, encoded.value);
    if indexes != [] {
      var target := indexes[|indexes| - 1];
      var replaced := lines[target := serialized + EndingOf(lines[target])];
      EarlierLines(lines, replaced, f, indexes);
      var edited := DeleteLines(replaced, f, indexes[..|indexes| - 1], target);
      ReplacedIs(lines, replaced, f, serialized, target, edited);
      return Ok(edited);
    } else {
      var edited := lines;
      if edited != [] && Unterminated(edited[|edited| - 1]) {
        edited := edited[|edited| - 1 := edited[|edited| - 1] + newline];
      }
      TerminatedIs(lines, newline, edited);
      return Ok(edited + [serialized + newline]);
    }
  }

  lemma ListsAny(lines: seq<string>, f: Field, indexes: seq<nat>)
    requires Lists(lines, f, indexes, |lines|)
    ensures AnySets(lines, f) <==> indexes != []
    ensures indexes != [] ==> indexes[|indexes| - 1] < |lines|
  {
    hide Sets;
    if indexes != [] { assert Sets(lines[indexes[0]], f); }
  }

  lemma ReplacedIs(lines: seq<string>, replaced: seq<string>, f: Field, serialized: string, target: nat,
      edited: seq<string>)
    requires target < |lines| && replaced == lines[target := serialized + EndingOf(lines[target])]
    requires edited == Without(replaced[..target], f) + replaced[target..]
    requires Sets(lines[target], f) && forall i :: target < i < |lines| ==> !Sets(lines[i], f)
    ensures edited == SetLast(lines, f, serialized)
  {
    hide Sets, Without, SetLast, EndingOf;
    assert replaced[..target] == lines[..target];
    assert replaced[target..] == [serialized + EndingOf(lines[target])] + lines[target + 1..];
    SetLastAt(lines, f, serialized, target);
  }

  lemma TerminatedIs(lines: seq<string>, newline: string, edited: seq<string>)
    requires edited == if lines != [] && Unterminated(lines[|lines| - 1])
                       then lines[|lines| - 1 := lines[|lines| - 1] + newline] else lines
    ensures edited == Terminated(lines, newline)
  {
    hide Unterminated;
  }

  lemma EarlierLines(lines: seq<string>, edited: seq<string>, f: Field, indexes: seq<nat>)
    requires Lists(lines, f, indexes, |lines|) && indexes != [] && |edited| == |lines|
    requires forall i :: 0 <= i < |lines| && i != indexes[|indexes| - 1] ==> edited[i] == lines[i]
    ensures Lists(edited, f, indexes[..|indexes| - 1], indexes[|indexes| - 1])
    ensures forall i :: indexes[|indexes| - 1] < i < |lines| ==> !Sets(lines[i], f)
    ensures Sets(lines[indexes[|indexes| - 1]], f)
  {
    hide Sets;
    var earlier, target := indexes[..|indexes| - 1], indexes[|indexes| - 1];
    forall i | target <= i < |lines| && Sets(lines[i], f) ensures i == target {
      var m :| 0 <= m < |indexes| && indexes[m] == i;
    }
    forall i | 0 <= i < target && Sets(edited[i], f) ensures i in earlier {
      assert edited[i] == lines[i];
      var m :| 0 <= m < |indexes| && indexes[m] == i;
      assert earlier[m] == i;
    }
    assert Sets(lines[target], f);
  }

  // `_apply_replacements`
  method ApplyReplacements(text: string, fields: seq<Field>, replacements: map<string, Option<string>>)
    returns (r: Result<string, Error>)
    ensures r == Apply(text, fields, replacements)
  {
    hide SplitLines, Concat, ApplyField;
    var lines := SplitLines(text);
    var newline := Newline(lines);
    ghost var start := lines;
    assert fields[..0] == [];
    for k := 0 to |fields|
      invariant ApplyFields(start, fields[..k], replacements, newline) == Ok(lines)
    {
      assert fields[..k + 1][..k] == fields[..k];
      var f := fields[k];
      if f.key in replacements {
        var edited := EditField(lines, f, replacements[f.key], newline);
        if edited.Err? {
          ErrorStays(start, fields, replacements, newline, k + 1);
          return Err(edited.error);
        }
        lines := edited.value;
      }
    }
    assert fields[..|fields|] == fields;
    return Ok(Concat(lines));
  }

  lemma {:induction false} ErrorStays(lines: seq<string>, fields: seq<Field>, replacements: map<string, Option<string>>,
                                      newline: string, k: nat)
    requires k <= |fields| && ApplyFields(lines, fields[..k], replacements, newline).Err?
    ensures ApplyFields(lines, fields, replacements, newline) == ApplyFields(lines, fields[..k], replacements, newline)
    decreases |fields|
  {
    hide ApplyField;
    if k == |fields| {
      assert fields[..k] == fields;
    } else {
      var front := fields[..|fields| - 1];
      assert front[..k] == fields[..k];
      ErrorStays(lines, front, replacements, newline, k);
    }
  }
}
