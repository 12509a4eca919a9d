/** An insertion-ordered dictionary: assigning an existing key keeps its place, a new key goes last. */
module OrderedDict {

  ghost predicate Distinct<K(!new)>(s: seq<K>) {
    forall i, j :: 0 <= i < j < |s| ==> s[i] != s[j]
  }

  // The elements of s that are in ks, in order.
  function Only<K(==,!new)>(s: seq<K>, ks: set<K>): (r: seq<K>)
    ensures forall k :: k in r <==> k in s && k in ks
    ensures |r| <= |s|
  {
    if s == [] then []
    else
      var last := s[|s| - 1];
      Only(s[..|s| - 1], ks) + (if last in ks then [last] else [])
  }

  lemma OnlyAppend<K(!new)>(s: seq<K>, k: K, ks: set<K>)
    ensures Only(s + [k], ks) == Only(s, ks) + (if k in ks then [k] else [])
  {
    assert (s + [k])[..|s|] == s;
  }

  lemma {:induction false} OnlyDistinct<K(!new)>(s: seq<K>, ks: set<K>)
    requires Distinct(s)
    ensures Distinct(Only(s, ks))
  {
    if s != [] {
      var last := s[|s| - 1];
      var kept := Only(s[..|s| - 1], ks);
      OnlyDistinct(s[..|s| - 1], ks);
      forall i | 0 <= i < |kept| ensures kept[i] != last {
        assert kept[i] in s[..|s| - 1];
      }
    }
  }

  lemma {:induction false} OnlyAll<K(!new)>(s: seq<K>, ks: set<K>)
    requires forall k :: k in s ==> k in ks
    ensures Only(s, ks) == s
  {
    if s != [] {
      OnlyAll(s[..|s| - 1], ks);
      assert s == s[..|s| - 1] + [s[|s| - 1]];
    }
  }

  lemma {:induction false} OnlyOnly<K(!new)>(s: seq<K>, ks: set<K>, ls: set<K>)
    ensures Only(Only(s, ks), ls) == Only(s, ks * ls)
  {
    if s != [] {
      var front, last := s[..|s| - 1], s[|s| - 1];
      OnlyOnly(front, ks, ls);
      OnlyAppend(Only(front, ks), last, ls);
      assert Only(front, ks) + [] == Only(front, ks);
    }
  }

  // Only membership of the elements of s matters.
  lemma {:induction false} OnlySame<K(!new)>(s: seq<K>, ks: set<K>, ls: set<K>)
    requires forall k :: k in s ==> (k in ks <==> k in ls)
    ensures Only(s, ks) == Only(s, ls)
  {
    if s != [] { OnlySame(s[..|s| - 1], ks, ls); }
  }

  datatype Dict<K(==,!new), V> = Dict(keys: seq<K>, vals: map<K, V>) {

    ghost predicate Valid() {
      Distinct(keys) && (forall k :: k in keys <==> k in vals)
    }

    function Put(k: K, v: V): Dict<K, V> {
      if k in vals then Dict(keys, vals[k := v]) else Dict(keys + [k], vals[k := v])
    }

    // Keep the entries whose key is in ks.
    function Keep(ks: set<K>): Dict<K, V> {
      Dict(Only(keys, ks), map k | k in vals && k in ks :: vals[k])
    }

    function Pop(k: K): Dict<K, V> {
      Keep(vals.Keys - {k})
    }

    lemma PutValid(k: K, v: V)
      requires Valid()
      ensures Put(k, v).Valid()
    {
    }

    lemma KeepValid(ks: set<K>)
      requires Valid()
      ensures Keep(ks).Valid()
    {
      OnlyDistinct(keys, ks);
    }

    lemma KeepAll()
      requires Valid()
      ensures Keep(vals.Keys) == this
    {
      OnlyAll(keys, vals.Keys);
      assert Keep(vals.Keys).vals == vals;
    }
  }

  function Empty<K(!new), V>(): (d: Dict<K, V>) {
    Dict([], map[])
  }
}
