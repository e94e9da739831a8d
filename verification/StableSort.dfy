/** What a stable descending sort by a numeric key does, as a ranking of indices. */
module StableSort {
  import opened Prelude

  /** What a stable descending sort does with indices: earlier wins ties. */
  predicate Outranks(keys: seq<real>, i: nat, j: nat)
    requires i < |keys| && j < |keys|
  {
    keys[i] > keys[j] || (keys[i] == keys[j] && i < j)
  }

  predicate Indices(r: seq<nat>, n: nat) {
    forall j :: 0 <= j < |r| ==> r[j] < n
  }

  function PlaceIndex(keys: seq<real>, i: nat, rest: seq<nat>): (r: seq<nat>)
    requires i < |keys| && Indices(rest, |keys|)
    ensures Indices(r, |keys|)
    ensures multiset(r) == multiset(rest) + multiset{i}
    ensures |r| == |rest| + 1
  {
    if rest == [] || keys[i] >= keys[rest[0]] then
      assert multiset([i] + rest) == multiset(rest) + multiset{i};
      [i] + rest
    else
      assert rest == [rest[0]] + rest[1..];
      [rest[0]] + PlaceIndex(keys, i, rest[1..])
  }

  function RankFrom(keys: seq<real>, i: nat): (r: seq<nat>)
    requires i <= |keys|
    ensures |r| == |keys| - i && Indices(r, |keys|)
    decreases |keys| - i
  {
    if i == |keys| then [] else PlaceIndex(keys, i, RankFrom(keys, i + 1))
  }

  /** The indices of `keys` in the order of a stable descending sort. */
  function Ranking(keys: seq<real>): (r: seq<nat>)
    ensures |r| == |keys| && Indices(r, |keys|)
  {
    RankFrom(keys, 0)
  }

  ghost predicate InRankOrder(keys: seq<real>, r: seq<nat>) {
    && Indices(r, |keys|)
    && forall a, b :: 0 <= a < b < |r| ==> Outranks(keys, r[a], r[b])
  }

  lemma PlaceElements(keys: seq<real>, i: nat, rest: seq<nat>)
    requires i < |keys| && Indices(rest, |keys|)
    ensures forall x :: x in PlaceIndex(keys, i, rest) <==> x in rest || x == i
  {
    forall x ensures x in PlaceIndex(keys, i, rest) <==> x in rest || x == i {
      assert x in PlaceIndex(keys, i, rest) <==> x in multiset(PlaceIndex(keys, i, rest));
    }
  }

  lemma HeadOutranks(keys: seq<real>, r: seq<nat>, x: nat)
    requires InRankOrder(keys, r) && r != [] && x in r[1..]
    ensures x < |keys| && Outranks(keys, r[0], x)
  {
    var c :| 0 <= c < |r[1..]| && r[1..][c] == x;
    assert Outranks(keys, r[0], r[c + 1]);
  }

  lemma PrependOrdered(keys: seq<real>, x: nat, r: seq<nat>)
    requires x < |keys| && InRankOrder(keys, r) && forall b :: 0 <= b < |r| ==> Outranks(keys, x, r[b])
    ensures InRankOrder(keys, [x] + r)
  {
  }

  lemma {:induction false} PlaceKeepsOrder(keys: seq<real>, i: nat, rest: seq<nat>)
    requires i < |keys| && InRankOrder(keys, rest) && forall a :: 0 <= a < |rest| ==> i < rest[a]
    ensures InRankOrder(keys, PlaceIndex(keys, i, rest))
    decreases |rest|
  {
    if rest == [] {
    } else if keys[i] >= keys[rest[0]] {
      forall b | 0 <= b < |rest| ensures Outranks(keys, i, rest[b]) {
        if b > 0 { assert Outranks(keys, rest[0], rest[b]); }
      }
      PrependOrdered(keys, i, rest);
    } else {
      PlaceKeepsOrder(keys, i, rest[1..]);
      PlaceElements(keys, i, rest[1..]);
      var r := PlaceIndex(keys, i, rest[1..]);
      forall b | 0 <= b < |r| ensures Outranks(keys, rest[0], r[b]) {
        assert r[b] in r;
        if r[b] != i { HeadOutranks(keys, rest, r[b]); }
      }
      PrependOrdered(keys, rest[0], r);
    }
  }

  lemma {:induction false} RankFromOrdered(keys: seq<real>, i: nat)
    requires i <= |keys|
    ensures InRankOrder(keys, RankFrom(keys, i))
    ensures forall x :: x in RankFrom(keys, i) <==> i <= x < |keys|
    decreases |keys| - i
  {
    if i == |keys| {
    } else {
      RankFromOrdered(keys, i + 1);
      var rest := RankFrom(keys, i + 1);
      forall a | 0 <= a < |rest| ensures i < rest[a] {
        assert rest[a] in rest;
      }
      PlaceKeepsOrder(keys, i, rest);
      PlaceElements(keys, i, rest);
    }
  }

  /** `Ranking` lists every index exactly once, each outranking the ones after it. */
  lemma RankingIsStableSort(keys: seq<real>)
    ensures InRankOrder(keys, Ranking(keys)) && NoDup(Ranking(keys))
    ensures forall x :: x in Ranking(keys) <==> 0 <= x < |keys|
  {
    RankFromOrdered(keys, 0);
    var r := Ranking(keys);
    forall a, b | 0 <= a < b < |r| ensures r[a] != r[b] {
      assert Outranks(keys, r[a], r[b]);
    }
  }
}
