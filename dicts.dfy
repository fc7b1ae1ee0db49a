/** Python's insertion-ordered `dict` with string keys, as the source builds it with `d[k] = v` in a loop. */
module Dicts {

  /** `keys` lists every key once, in insertion order (what `for k in d` visits); `values` maps each key. */
  datatype Dict<V> = Dict(keys: seq<string>, values: map<string, V>) {

    /** Every listed key has a value (what iterating and then indexing needs). */
    predicate Keyed() {
      forall i :: 0 <= i < |keys| ==> keys[i] in values
    }

    /** `keys` lists exactly the keys of `values`, each once. */
    ghost predicate Valid() {
      && Keyed()
      && (forall i, j :: 0 <= i < j < |keys| ==> keys[i] != keys[j])
      && (forall k :: k in values ==> k in keys)
    }

    /** `d[k] = v`: an existing key keeps its place and gets the new value; a new key goes last. */
    function Put(k: string, v: V): (d: Dict<V>)
      ensures Keyed() ==> d.Keyed()
      ensures Valid() ==> d.Valid()
    {
      if k in values then Dict(keys, values[k := v]) else Dict(keys + [k], values[k := v])
    }
  }

  /** The dictionary a loop `for (k, v) in ps: d[k] = v` builds from an empty one. */
  function FromPairs<V>(ps: seq<(string, V)>): (d: Dict<V>)
    ensures d.Keyed()
  {
    if ps == [] then Dict([], map[]) else FromPairs(ps[..|ps| - 1]).Put(ps[|ps| - 1].0, ps[|ps| - 1].1)
  }

  /** The built dictionary is well formed: no key is listed twice and every present key is listed. */
  lemma {:induction false} FromPairsValid<V>(ps: seq<(string, V)>)
    ensures FromPairs(ps).Valid()
  {
    if ps != [] {
      FromPairsValid(ps[..|ps| - 1]);
    }
  }

  /** The keys of the pairs, in order. */
  function Firsts<V>(ps: seq<(string, V)>): seq<string> {
    seq(|ps|, i requires 0 <= i < |ps| => ps[i].0)
  }

  /** The distinct elements of `s`, each kept where it first occurs. */
  function FirstOccurrences(s: seq<string>): seq<string> {
    if s == [] then []
    else
      var p := FirstOccurrences(s[..|s| - 1]);
      if s[|s| - 1] in p then p else p + [s[|s| - 1]]
  }

  /** Position of the first occurrence of `x` in `s`. */
  function FirstIndex(s: seq<string>, x: string): (i: nat)
    requires x in s
    ensures i < |s| && s[i] == x && forall j :: 0 <= j < i ==> s[j] != x
  {
    if s[0] == x then 0 else 1 + FirstIndex(s[1..], x)
  }

  lemma FirstIndexAppend(s: seq<string>, x: string, y: string)
    requires x in s
    ensures FirstIndex(s + [y], x) == FirstIndex(s, x)
  {
    var i, j := FirstIndex(s + [y], x), FirstIndex(s, x);
    assert (s + [y])[j] == x;
  }

  /** `FirstOccurrences(s)` has no repeats, holds exactly the elements of `s`, and orders them by first occurrence. */
  lemma {:induction false} FirstOccurrencesSpec(s: seq<string>)
    ensures var r := FirstOccurrences(s);
      && (forall i, j :: 0 <= i < j < |r| ==> r[i] != r[j])
      && (forall x :: x in r <==> x in s)
      && (forall i, j :: 0 <= i < j < |r| ==> FirstIndex(s, r[i]) < FirstIndex(s, r[j]))
  {
    if s != [] {
      var init, x := s[..|s| - 1], s[|s| - 1];
      assert s == init + [x];
      FirstOccurrencesSpec(init);
      var p, r := FirstOccurrences(init), FirstOccurrences(s);
      forall y | y in init
        ensures FirstIndex(s, y) == FirstIndex(init, y)
      {
        FirstIndexAppend(init, y, x);
      }
      if x !in p {
        assert FirstIndex(s, x) == |init|;
        forall i, j | 0 <= i < j < |r|
          ensures FirstIndex(s, r[i]) < FirstIndex(s, r[j])
        {
          if j == |p| {
            assert r[i] == p[i] && p[i] in init;
          } else {
            assert r[i] == p[i] && r[j] == p[j];
          }
        }
      }
    }
  }

  /** The keys of `FromPairs(ps)` are the keys of `ps` in first-occurrence order. */
  lemma {:induction false} FromPairsKeys<V>(ps: seq<(string, V)>)
    ensures FromPairs(ps).keys == FirstOccurrences(Firsts(ps))
  {
    if ps != [] {
      var init := ps[..|ps| - 1];
      FromPairsKeys(init);
      FromPairsValid(init);
      assert Firsts(ps)[..|ps| - 1] == Firsts(init);
    }
  }

  /** `i` is the last index of `ps` whose key is `k`. */
  ghost predicate LastAt<V>(ps: seq<(string, V)>, k: string, i: int) {
    0 <= i < |ps| && ps[i].0 == k && forall j :: i < j < |ps| ==> ps[j].0 != k
  }

  /** Every key of `ps` is present in `FromPairs(ps)`, and a present key holds the value of the last pair with that key. */
  lemma {:induction false} FromPairsLastWins<V>(ps: seq<(string, V)>)
    ensures forall i :: 0 <= i < |ps| ==> ps[i].0 in FromPairs(ps).values
    ensures forall k :: k in FromPairs(ps).values ==>
      exists i :: LastAt(ps, k, i) && ps[i].1 == FromPairs(ps).values[k]
  {
    if ps != [] {
      var init, n := ps[..|ps| - 1], |ps| - 1;
      FromPairsLastWins(init);
      var d', d := FromPairs(init), FromPairs(ps);
      forall i | 0 <= i < |ps| ensures ps[i].0 in d.values {
        if i < n { assert ps[i] == init[i]; }
      }
      forall k | k in d.values
        ensures exists i :: LastAt(ps, k, i) && ps[i].1 == d.values[k]
      {
        if k == ps[n].0 {
          assert LastAt(ps, k, n);
        } else {
          var i :| LastAt(init, k, i) && init[i].1 == d'.values[k];
          assert ps[i] == init[i];
          forall j | i < j < |ps| ensures ps[j].0 != k {
            if j < n { assert ps[j] == init[j]; }
          }
          assert LastAt(ps, k, i);
        }
      }
    }
  }
}
