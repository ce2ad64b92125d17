/**
 * Python dictionaries: a mapping from string keys to values that also remembers
 * the order in which its keys were first inserted. Iteration, `list(d.keys())`
 * and `{**a, **b}` all depend on that order.
 */
module Dicts {

  /** A sequence in which no element occurs twice. */
  ghost predicate NoDups(s: seq<string>) {
    forall i, j :: 0 <= i < j < |s| ==> s[i] != s[j]
  }

  /** The element at `i` of a sequence without duplicates occurs nowhere else in it. */
  lemma NoDupsAt(ks: seq<string>, i: nat)
    requires NoDups(ks) && i < |ks|
    ensures ks[i] !in ks[..i] && ks[i] !in ks[i + 1..]
  {
  }

  /** The elements of `ks` that belong to `s`, in their original order. */
  function Keep(ks: seq<string>, s: set<string>): (r: seq<string>)
    ensures forall x :: x in r <==> x in ks && x in s
    ensures |r| <= |ks|
    ensures NoDups(ks) ==> NoDups(r)
  {
    if ks == [] then []
    else
      var rest := Keep(ks[1..], s);
      assert forall x :: x in ks[1..] ==> x in ks;
      if ks[0] in s then [ks[0]] + rest else rest
  }

  /** A dictionary: its keys in insertion order and the value under each key. */
  datatype Dict<V> = Dict(keys: seq<string>, vals: map<string, V>) {
    /** What every Python dict satisfies: each key once, and exactly the mapped keys. */
    ghost predicate Valid() {
      NoDups(keys) && forall k :: k in vals <==> k in keys
    }
  }

  /** `{}` */
  function Empty<V>(): (d: Dict<V>)
    ensures d.Valid() && d.keys == [] && d.vals == map[]
  {
    Dict([], map[])
  }

  /**
   * `{**a, **b}`: the keys of `a` in their order followed by the keys of `b`
   * that `a` lacks, in their order; on a key both have, the value of `b` wins.
   */
  function Override<V>(a: Dict<V>, b: Dict<V>): (r: Dict<V>)
    requires a.Valid() && b.Valid()
    ensures r.Valid()
    ensures r.vals.Keys == a.vals.Keys + b.vals.Keys
    ensures forall k :: k in b.vals ==> r.vals[k] == b.vals[k]
    ensures forall k :: k in a.vals && k !in b.vals ==> r.vals[k] == a.vals[k]
    ensures r.keys == a.keys + Keep(b.keys, b.vals.Keys - a.vals.Keys)
  {
    var added := Keep(b.keys, b.vals.Keys - a.vals.Keys);
    var ks := a.keys + added;
    assert forall i, j :: 0 <= i < |a.keys| <= j < |ks| ==> ks[i] != ks[j] by {
      forall i, j | 0 <= i < |a.keys| <= j < |ks| ensures ks[i] != ks[j] {
        assert ks[j] in added;
        assert ks[i] in a.keys;
      }
    }
    Dict(ks, a.vals + b.vals)
  }

  /** The dictionary cut down to the keys in `s`, order kept. */
  function Restrict<V>(d: Dict<V>, s: set<string>): (r: Dict<V>)
    requires d.Valid()
    ensures r.Valid()
    ensures r.keys == Keep(d.keys, s)
    ensures r.vals.Keys == d.vals.Keys * s
    ensures forall k :: k in r.vals ==> r.vals[k] == d.vals[k]
  {
    Dict(Keep(d.keys, s), map k | k in d.vals && k in s :: d.vals[k])
  }

  /** `del d[k]` for a key that is present. */
  function Delete<V>(d: Dict<V>, k: string): (r: Dict<V>)
    requires d.Valid() && k in d.vals
    ensures r.Valid()
    ensures r.keys == Keep(d.keys, d.vals.Keys - {k})
    ensures r.vals == d.vals - {k}
  {
    Dict(Keep(d.keys, d.vals.Keys - {k}), d.vals - {k})
  }

  /** `d[k] = v`: an existing key keeps its place, a new key goes last. */
  function Put<V>(d: Dict<V>, k: string, v: V): (r: Dict<V>)
    requires d.Valid()
    ensures r.Valid()
    ensures r.vals == d.vals[k := v]
    ensures k in d.vals ==> r.keys == d.keys
    ensures k !in d.vals ==> r.keys == d.keys + [k]
  {
    if k in d.vals then Dict(d.keys, d.vals[k := v]) else Dict(d.keys + [k], d.vals[k := v])
  }

  lemma {:induction false} KeepAppend(a: seq<string>, b: seq<string>, s: set<string>)
    ensures Keep(a + b, s) == Keep(a, s) + Keep(b, s)
  {
    if a == [] {
      assert a + b == b;
    } else {
      assert (a + b)[0] == a[0];
      assert (a + b)[1..] == a[1..] + b;
      KeepAppend(a[1..], b, s);
    }
  }

  /** Keeping every element changes nothing. */
  lemma {:induction false} KeepAll(ks: seq<string>, s: set<string>)
    requires forall x :: x in ks ==> x in s
    ensures Keep(ks, s) == ks
  {
    if ks != [] {
      assert forall x :: x in ks[1..] ==> x in ks;
      KeepAll(ks[1..], s);
    }
  }

  /** Only membership of the elements actually in `ks` matters. */
  lemma {:induction false} KeepAgree(ks: seq<string>, s1: set<string>, s2: set<string>)
    requires forall x :: x in ks ==> (x in s1 <==> x in s2)
    ensures Keep(ks, s1) == Keep(ks, s2)
  {
    if ks != [] {
      assert forall x :: x in ks[1..] ==> x in ks;
      KeepAgree(ks[1..], s1, s2);
    }
  }

  lemma {:induction false} KeepKeep(ks: seq<string>, s1: set<string>, s2: set<string>)
    ensures Keep(Keep(ks, s1), s2) == Keep(ks, s1 * s2)
  {
    if ks != [] {
      KeepKeep(ks[1..], s1, s2);
      if ks[0] in s1 {
        assert Keep(ks, s1) == [ks[0]] + Keep(ks[1..], s1);
        assert Keep(ks, s1)[1..] == Keep(ks[1..], s1);
      }
    }
  }

  /** Keeping a prefix one element longer. */
  lemma KeepSnoc(ks: seq<string>, x: string, s: set<string>)
    ensures Keep(ks + [x], s) == Keep(ks, s) + (if x in s then [x] else [])
  {
    KeepAppend(ks, [x], s);
    assert Keep([x], s) == (if x in s then [x] else []) + Keep([], s);
  }

  /**
   * Sharing twice is sharing once with the two updates combined:
   * `{**{**a, **b}, **c} == {**a, **{**b, **c}}`, keys in the same order.
   */
  lemma OverrideAssociative<V>(a: Dict<V>, b: Dict<V>, c: Dict<V>)
    requires a.Valid() && b.Valid() && c.Valid()
    ensures Override(Override(a, b), c) == Override(a, Override(b, c))
  {
    var A, B, C := a.vals.Keys, b.vals.Keys, c.vals.Keys;
    var ab, bc := Override(a, b), Override(b, c);
    assert ab.keys == a.keys + Keep(b.keys, B - A) && ab.vals == a.vals + b.vals;
    assert bc.keys == b.keys + Keep(c.keys, C - B) && bc.vals == b.vals + c.vals;
    var left, right := Override(ab, c), Override(a, bc);
    assert left.keys == ab.keys + Keep(c.keys, C - (A + B));
    assert right.keys == a.keys + Keep(bc.keys, (B + C) - A);
    OverrideAssociativeKeys(a.keys, b.keys, c.keys, A, B, C);
    MapUnionAssociative(a.vals, b.vals, c.vals);
  }

  /** With nothing to override, `{**{}, **b}` is `b`, key order included. */
  lemma OverrideEmpty<V>(b: Dict<V>)
    requires b.Valid()
    ensures Override(Empty(), b) == b
  {
    OverrideEmptyKeys(b);
    OverrideEmptyVals(b);
  }

  lemma OverrideEmptyKeys<V>(b: Dict<V>)
    requires b.Valid()
    ensures Override(Empty(), b).keys == b.keys
  {
    var e: Dict<V> := Empty();
    assert b.vals.Keys - e.vals.Keys == b.vals.Keys;
    KeepAll(b.keys, b.vals.Keys);
    assert [] + b.keys == b.keys;
  }

  lemma OverrideEmptyVals<V>(b: Dict<V>)
    requires b.Valid()
    ensures Override(Empty(), b).vals == b.vals
  {
    var r := Override(Empty(), b);
    assert r.vals.Keys == b.vals.Keys;
  }

  lemma MapUnionAssociative<V>(x: map<string, V>, y: map<string, V>, z: map<string, V>)
    ensures (x + y) + z == x + (y + z)
  {
  }

  /** The key-order half of OverrideAssociative, over the key sequences and key sets alone. */
  lemma OverrideAssociativeKeys(ak: seq<string>, bk: seq<string>, ck: seq<string>, A: set<string>, B: set<string>, C: set<string>)
    requires forall x :: x in bk ==> x in B
    ensures (ak + Keep(bk, B - A)) + Keep(ck, C - (A + B))
         == ak + Keep(bk + Keep(ck, C - B), (B + C) - A)
  {
    var x, y := Keep(bk, B - A), Keep(ck, C - (A + B));
    KeepLater(bk, ck, A, B, C);
    assert (ak + x) + y == ak + (x + y);
  }

  /** What `a` lacks of `{**b, **c}`: what it lacks of `b`, then what neither has of `c`. */
  lemma KeepLater(bk: seq<string>, ck: seq<string>, A: set<string>, B: set<string>, C: set<string>)
    requires forall x :: x in bk ==> x in B
    ensures Keep(bk + Keep(ck, C - B), (B + C) - A) == Keep(bk, B - A) + Keep(ck, C - (A + B))
  {
    var later, newC := (B + C) - A, C - B;
    KeepAppend(bk, Keep(ck, newC), later);
    KeepAgree(bk, later, B - A);
    KeepKeep(ck, newC, later);
    assert newC * later == C - (A + B);
  }
}
