/** Merging the results of two searches, and setting aside those whose artifact is
    still being chunked. */
module Retrieval {
  import opened Prelude
  import opened StableSort

  datatype Result = Result(id: string, text: string, score: real, space: string, pending: bool)

  function Ids(rs: seq<Result>): (ids: seq<string>)
    ensures |ids| == |rs|
  {
    seq(|rs|, i requires 0 <= i < |rs| => rs[i].id)
  }

  function Scores(rs: seq<Result>): (keys: seq<real>)
    ensures |keys| == |rs|
  {
    seq(|rs|, i requires 0 <= i < |rs| => rs[i].score)
  }

  function Scaled(r: Result, weight: real): Result {
    r.(score := r.score * weight)
  }

  // ---- merging ----

  /** Where the last of `rs` for a document is. */
  function LastIndex(rs: seq<Result>, id: string): (i: Option<nat>)
    ensures match i
            case Some(k) => k < |rs| && rs[k].id == id && forall j :: k < j < |rs| ==> rs[j].id != id
            case None => forall j :: 0 <= j < |rs| ==> rs[j].id != id
    decreases |rs|
  {
    if rs == [] then None
    else if rs[|rs| - 1].id == id then Some(|rs| - 1)
    else
      assert forall j :: 0 <= j < |rs| - 1 ==> rs[..|rs| - 1][j] == rs[j];
      LastIndex(rs[..|rs| - 1], id)
  }

  /** The result kept for a document: the last primary one, unless a weighted
      secondary one has a strictly higher score. */
  function Lookup(primary: seq<Result>, secondary: seq<Result>, weight: real, id: string): Option<Result>
    decreases |secondary|
  {
    if secondary == [] then
      var i := LastIndex(primary, id);
      if i.Some? then Some(primary[i.value]) else None
    else
      var n := |secondary| - 1;
      var kept := Lookup(primary, secondary[..n], weight, id);
      if secondary[n].id == id && (kept.None? || Scaled(secondary[n], weight).score > kept.value.score)
      then Some(Scaled(secondary[n], weight))
      else kept
  }

  lemma {:induction false} LookupFinds(primary: seq<Result>, secondary: seq<Result>, weight: real, id: string)
    ensures Lookup(primary, secondary, weight, id).Some? <==> id in Ids(primary) + Ids(secondary)
    ensures var r := Lookup(primary, secondary, weight, id); r.Some? ==> r.value.id == id
    decreases |secondary|
  {
    if secondary != [] {
      var n := |secondary| - 1;
      LookupFinds(primary, secondary[..n], weight, id);
      assert Ids(secondary) == Ids(secondary[..n]) + [secondary[n].id];
    } else {
      var i := LastIndex(primary, id);
      assert i.Some? ==> Ids(primary)[i.value] == id;
    }
  }

  /** The secondary result `j` stands for its document: with its weight it scores
      higher than the last primary one and any secondary one before it. */
  ghost predicate Overtakes(primary: seq<Result>, secondary: seq<Result>, weight: real, j: nat)
    requires j < |secondary|
  {
    var x := secondary[j];
    var last := LastIndex(primary, x.id);
    && (last.Some? ==> primary[last.value].score < x.score * weight)
    && forall i :: 0 <= i < j && secondary[i].id == x.id ==> secondary[i].score * weight < x.score * weight
  }

  ghost predicate IsCandidate(primary: seq<Result>, secondary: seq<Result>, weight: real, r: Result) {
    var last := LastIndex(primary, r.id);
    || (last.Some? && r == primary[last.value])
    || exists j ::
         0 <= j < |secondary| && r == Scaled(secondary[j], weight) && Overtakes(primary, secondary, weight, j)
  }

  /** `r` is the best the two searches have for its document: its last primary
      result, or the first weighted secondary one that scores higher than that and
      no lower than the other secondary ones. */
  ghost predicate Best(primary: seq<Result>, secondary: seq<Result>, weight: real, r: Result) {
    var last := LastIndex(primary, r.id);
    && IsCandidate(primary, secondary, weight, r)
    && (last.Some? ==> primary[last.value].score <= r.score)
    && (forall j :: 0 <= j < |secondary| && secondary[j].id == r.id ==> secondary[j].score * weight <= r.score)
  }

  lemma OvertakesExtends(primary: seq<Result>, init: seq<Result>, x: Result, weight: real, j: nat)
    requires j < |init|
    ensures Overtakes(primary, init + [x], weight, j) <==> Overtakes(primary, init, weight, j)
  {
    hide LastIndex;
    assert forall i :: 0 <= i <= j ==> (init + [x])[i] == init[i];
  }

  lemma OvertakesNow(primary: seq<Result>, init: seq<Result>, x: Result, weight: real)
    requires LastIndex(primary, x.id).Some? ==> primary[LastIndex(primary, x.id).value].score < x.score * weight
    requires forall i :: 0 <= i < |init| && init[i].id == x.id ==> init[i].score * weight < x.score * weight
    ensures Overtakes(primary, init + [x], weight, |init|)
  {
    hide LastIndex;
    assert forall i :: 0 <= i < |init| ==> (init + [x])[i] == init[i];
  }

  /** What holds of all secondary results but the last and of the last holds of all. */
  lemma BestOf(primary: seq<Result>, init: seq<Result>, x: Result, weight: real, r: Result)
    requires LastIndex(primary, r.id).Some? ==> primary[LastIndex(primary, r.id).value].score <= r.score
    requires forall i :: 0 <= i < |init| && init[i].id == r.id ==> init[i].score * weight <= r.score
    requires x.id == r.id ==> x.score * weight <= r.score
    requires IsCandidate(primary, init + [x], weight, r)
    ensures Best(primary, init + [x], weight, r)
  {
    hide LastIndex, IsCandidate;
  }

  lemma BestReplaced(primary: seq<Result>, init: seq<Result>, x: Result, weight: real, r: Result)
    requires Best(primary, init, weight, r) && x.id == r.id && x.score * weight > r.score
    ensures Best(primary, init + [x], weight, Scaled(x, weight))
  {
    hide LastIndex, Overtakes;
    OvertakesNow(primary, init, x, weight);
    assert (init + [x])[|init|] == x;
    assert Scaled(x, weight).score == x.score * weight;
    BestOf(primary, init, x, weight, Scaled(x, weight));
  }

  lemma BestFirst(primary: seq<Result>, init: seq<Result>, x: Result, weight: real)
    requires LastIndex(primary, x.id).None? && forall j :: 0 <= j < |init| ==> init[j].id != x.id
    ensures Best(primary, init + [x], weight, Scaled(x, weight))
  {
    hide LastIndex, Overtakes;
    OvertakesNow(primary, init, x, weight);
    assert (init + [x])[|init|] == x;
    assert Scaled(x, weight).score == x.score * weight;
    BestOf(primary, init, x, weight, Scaled(x, weight));
  }

  lemma CandidateExtends(primary: seq<Result>, init: seq<Result>, x: Result, weight: real, r: Result)
    requires IsCandidate(primary, init, weight, r)
    ensures IsCandidate(primary, init + [x], weight, r)
  {
    hide LastIndex, Overtakes, Scaled;
    if j :| 0 <= j < |init| && r == Scaled(init[j], weight) && Overtakes(primary, init, weight, j) {
      OvertakesExtends(primary, init, x, weight, j);
      assert (init + [x])[j] == init[j];
    }
  }

  lemma BestExtends(primary: seq<Result>, init: seq<Result>, x: Result, weight: real, r: Result)
    requires Best(primary, init, weight, r)
    requires x.id == r.id ==> x.score * weight <= r.score
    ensures Best(primary, init + [x], weight, r)
  {
    hide LastIndex, IsCandidate;
    CandidateExtends(primary, init, x, weight, r);
    BestOf(primary, init, x, weight, r);
  }

  lemma {:induction false} LookupIsBest(primary: seq<Result>, secondary: seq<Result>, weight: real, id: string)
    ensures match Lookup(primary, secondary, weight, id)
            case Some(r) => r.id == id && Best(primary, secondary, weight, r)
            case None => LastIndex(primary, id).None? && forall j :: 0 <= j < |secondary| ==> secondary[j].id != id
    decreases |secondary|
  {
    if secondary == [] {
    } else {
      var init, x := secondary[..|secondary| - 1], secondary[|secondary| - 1];
      hide Best;
      LookupIsBest(primary, init, weight, id);
      assert secondary == init + [x];
      assert forall j :: 0 <= j < |init| ==> secondary[j] == init[j];
      var kept := Lookup(primary, init, weight, id);
      if x.id == id && (kept.None? || Scaled(x, weight).score > kept.value.score) {
        if kept.Some? {
          BestReplaced(primary, init, x, weight, kept.value);
        } else {
          BestFirst(primary, init, x, weight);
        }
      } else if kept.Some? {
        BestExtends(primary, init, x, weight, kept.value);
      }
    }
  }

  /** The documents of both searches in the order first seen. */
  function Documents(primary: seq<Result>, secondary: seq<Result>): seq<string> {
    FirstSeen(Ids(primary) + Ids(secondary))
  }

  ghost predicate SeenBefore(order: seq<string>, x: string, y: string) {
    exists i, j :: 0 <= i < j < |order| && order[i] == x && order[j] == y
  }

  /** The kept result of every document, best score first, ties in the order
      first seen. */
  ghost predicate IsMerge(r: seq<Result>, primary: seq<Result>, secondary: seq<Result>, weight: real) {
    && NoDup(Ids(r))
    && (forall id :: id in Ids(r) <==> id in Ids(primary) || id in Ids(secondary))
    && (forall k :: 0 <= k < |r| ==> Best(primary, secondary, weight, r[k]))
    && (forall a, b :: 0 <= a < b < |r| ==> r[a].score >= r[b].score)
    && (forall a, b :: 0 <= a < b < |r| && r[a].score == r[b].score ==>
          SeenBefore(Documents(primary, secondary), r[a].id, r[b].id))
  }

  /** The dictionary built by the two loops: its values in insertion order. */
  ghost predicate Collected(values: seq<Result>, primary: seq<Result>, secondary: seq<Result>, weight: real) {
    && Ids(values) == Documents(primary, secondary)
    && forall k :: 0 <= k < |values| ==> Lookup(primary, secondary, weight, values[k].id) == Some(values[k])
  }

  /** Sorting keeps exactly the documents. */
  lemma SortedCovers(values: seq<Result>, r: seq<Result>)
    requires |r| == |values| && forall k :: 0 <= k < |r| ==> r[k] == values[Ranking(Scores(values))[k]]
    ensures forall id :: id in Ids(r) <==> id in Ids(values)
  {
    var rank := Ranking(Scores(values));
    RankingIsStableSort(Scores(values));
    forall id ensures id in Ids(r) <==> id in Ids(values) {
      if id in Ids(r) {
        var k :| 0 <= k < |r| && Ids(r)[k] == id;
        assert Ids(values)[rank[k]] == id;
      }
      if id in Ids(values) {
        var i :| 0 <= i < |values| && Ids(values)[i] == id;
        assert i in rank;
        var k :| 0 <= k < |rank| && rank[k] == i;
        assert Ids(r)[k] == id;
      }
    }
  }

  /** Sorting the dictionary's values gives the merge. */
  lemma SortedIsMerge(values: seq<Result>, r: seq<Result>, primary: seq<Result>, secondary: seq<Result>, weight: real)
    requires Collected(values, primary, secondary, weight)
    requires |r| == |values| && forall k :: 0 <= k < |r| ==> r[k] == values[Ranking(Scores(values))[k]]
    ensures IsMerge(r, primary, secondary, weight)
  {
    var order := Documents(primary, secondary);
    FirstSeenElements(Ids(primary) + Ids(secondary));
    RankingIsStableSort(Scores(values));
    SortedCovers(values, r);
    var rank := Ranking(Scores(values));
    forall k | 0 <= k < |r| ensures r[k].id == order[rank[k]] && Best(primary, secondary, weight, r[k]) {
      assert Ids(values)[rank[k]] == order[rank[k]];
      LookupIsBest(primary, secondary, weight, r[k].id);
    }
    hide Best, Collected, Ranking;
    forall a, b | 0 <= a < b < |r|
      ensures Ids(r)[a] != Ids(r)[b] && r[a].score >= r[b].score
      ensures r[a].score == r[b].score ==> SeenBefore(order, r[a].id, r[b].id)
    {
      assert Outranks(Scores(values), rank[a], rank[b]);
    }
  }

  /** The dictionary after its first `keys`. */
  ghost predicate Holds(
      keys: seq<string>, merged: map<string, Result>, primary: seq<Result>, secondary: seq<Result>, weight: real)
  {
    && keys == Documents(primary, secondary)
    && forall id :: Lookup(primary, secondary, weight, id) == if id in merged then Some(merged[id]) else None
  }

  lemma HoldsKeys(
      keys: seq<string>, merged: map<string, Result>, primary: seq<Result>, secondary: seq<Result>, weight: real)
    requires Holds(keys, merged, primary, secondary, weight)
    ensures forall id :: id in keys <==> id in merged
    ensures forall id :: id in merged ==> merged[id].id == id
  {
    FirstSeenElements(Ids(primary) + Ids(secondary));
    forall id ensures (id in keys <==> id in merged) && (id in merged ==> merged[id].id == id) {
      LookupFinds(primary, secondary, weight, id);
    }
  }

  lemma ValuesCollected(
      keys: seq<string>, merged: map<string, Result>, values: seq<Result>,
      primary: seq<Result>, secondary: seq<Result>, weight: real)
    requires Holds(keys, merged, primary, secondary, weight)
    requires |values| == |keys| && forall k :: 0 <= k < |keys| ==> keys[k] in merged && values[k] == merged[keys[k]]
    ensures Collected(values, primary, secondary, weight)
  {
    HoldsKeys(keys, merged, primary, secondary, weight);
    assert Ids(values) == keys;
  }

  lemma PrimaryLookup(primary: seq<Result>, x: Result, weight: real, id: string)
    ensures Lookup(primary + [x], [], weight, id) == if id == x.id then Some(x) else Lookup(primary, [], weight, id)
  {
    assert (primary + [x])[..|primary|] == primary;
  }

  lemma DocumentsGrow(primary: seq<Result>, secondary: seq<Result>, x: Result)
    ensures secondary == [] ==>
              Documents(primary + [x], secondary)
              == Documents(primary, secondary) + if x.id in Documents(primary, secondary) then [] else [x.id]
    ensures Documents(primary, secondary + [x])
            == Documents(primary, secondary) + if x.id in Documents(primary, secondary) then [] else [x.id]
  {
    var ids := Ids(primary) + Ids(secondary);
    FirstSeenAppends(ids, x.id);
    assert secondary == [] ==> Ids(primary + [x]) + Ids(secondary) == ids + [x.id];
    assert Ids(primary) + Ids(secondary + [x]) == ids + [x.id];
  }

  /** One more primary result: overwrite. */
  lemma HoldsPrimary(
      keys: seq<string>, merged: map<string, Result>, primary: seq<Result>, x: Result, weight: real)
    requires Holds(keys, merged, primary, [], weight)
    ensures Holds(if x.id in merged then keys else keys + [x.id], merged[x.id := x], primary + [x], [], weight)
  {
    HoldsKeys(keys, merged, primary, [], weight);
    DocumentsGrow(primary, [], x);
    hide Lookup, Documents;
    forall id
      ensures Lookup(primary + [x], [], weight, id) == if id == x.id then Some(x) else Lookup(primary, [], weight, id)
    {
      PrimaryLookup(primary, x, weight, id);
    }
  }

  lemma SecondaryLookup(primary: seq<Result>, secondary: seq<Result>, x: Result, weight: real, id: string)
    ensures var kept := Lookup(primary, secondary, weight, id);
            Lookup(primary, secondary + [x], weight, id)
            == if x.id == id && (kept.None? || Scaled(x, weight).score > kept.value.score)
               then Some(Scaled(x, weight)) else kept
  {
    assert (secondary + [x])[..|secondary|] == secondary;
  }

  /** One more secondary result: improve or add. */
  lemma HoldsSecondary(
      keys: seq<string>, merged: map<string, Result>, primary: seq<Result>, secondary: seq<Result>,
      x: Result, weight: real)
    requires Holds(keys, merged, primary, secondary, weight)
    ensures Holds(if x.id in merged then keys else keys + [x.id],
                  if x.id in merged && Scaled(x, weight).score <= merged[x.id].score then merged
                  else merged[x.id := Scaled(x, weight)],
                  primary, secondary + [x], weight)
  {
    HoldsKeys(keys, merged, primary, secondary, weight);
    DocumentsGrow(primary, secondary, x);
    hide Lookup, Documents, Scaled;
    var merged' := if x.id in merged && Scaled(x, weight).score <= merged[x.id].score then merged
                   else merged[x.id := Scaled(x, weight)];
    forall id ensures Lookup(primary, secondary + [x], weight, id) == if id in merged' then Some(merged'[id]) else None
    {
      SecondaryLookup(primary, secondary, x, weight, id);
    }
  }

  lemma HoldsNothing(weight: real)
    ensures Holds([], map[], [], [], weight)
  {
  }

  method Collect(primary: seq<Result>, secondary: seq<Result>, weight: real) returns (values: seq<Result>)
    ensures Collected(values, primary, secondary, weight)
  {
    hide Holds;
    var keys: seq<string>, merged: map<string, Result> := [], map[];
    assert Holds(keys, merged, [], [], weight) by { HoldsNothing(weight); }
    for i := 0 to |primary|
      invariant Holds(keys, merged, primary[..i], [], weight)
    {
      HoldsPrimary(keys, merged, primary[..i], primary[i], weight);
      assert primary[..i + 1] == primary[..i] + [primary[i]];
      if primary[i].id !in merged {
        keys := keys + [primary[i].id];
      }
      merged := merged[primary[i].id := primary[i]];
    }
    assert primary[..|primary|] == primary;
    for i := 0 to |secondary|
      invariant Holds(keys, merged, primary, secondary[..i], weight)
    {
      var result := secondary[i];
      HoldsSecondary(keys, merged, primary, secondary[..i], result, weight);
      assert secondary[..i + 1] == secondary[..i] + [result];
      var scaled := Scaled(result, weight);
      if result.id in merged {
        if scaled.score > merged[result.id].score {
          merged := merged[result.id := scaled];
        }
      } else {
        keys := keys + [result.id];
        merged := merged[result.id := scaled];
      }
    }
    assert secondary[..|secondary|] == secondary;
    HoldsKeys(keys, merged, primary, secondary, weight);
    values := seq(|keys|, k requires 0 <= k < |keys| && keys[k] in merged => merged[keys[k]]);
    ValuesCollected(keys, merged, values, primary, secondary, weight);
  }

  method Merge(primary: seq<Result>, secondary: seq<Result>, weight: real) returns (r: seq<Result>)
    ensures IsMerge(r, primary, secondary, weight)
  {
    var values := Collect(primary, secondary, weight);
    var rank := Ranking(Scores(values));
    r := seq(|values|, k requires 0 <= k < |values| => values[rank[k]]);
    SortedIsMerge(values, r, primary, secondary, weight);
  }

  // ---- pending artifacts ----

  function WithPending(rs: seq<Result>, pending: bool): (r: seq<Result>)
    ensures forall k :: 0 <= k < |r| ==> r[k].pending == pending
  {
    if rs == [] then []
    else WithPending(rs[..|rs| - 1], pending) + if rs[|rs| - 1].pending == pending then [rs[|rs| - 1]] else []
  }

  /** `rs` is `a` and `b` woven together, each in its own order. */
  predicate Interleaves(a: seq<Result>, b: seq<Result>, rs: seq<Result>)
    decreases |rs|
  {
    if rs == [] then a == [] && b == []
    else
      var init, x := rs[..|rs| - 1], rs[|rs| - 1];
      || (a != [] && a[|a| - 1] == x && Interleaves(a[..|a| - 1], b, init))
      || (b != [] && b[|b| - 1] == x && Interleaves(a, b[..|b| - 1], init))
  }

  lemma {:induction false} PartitionLosesNothing(rs: seq<Result>)
    ensures Interleaves(WithPending(rs, false), WithPending(rs, true), rs)
  {
    if rs == [] {
    } else {
      var init, x := rs[..|rs| - 1], rs[|rs| - 1];
      PartitionLosesNothing(init);
      var grown := WithPending(init, x.pending) + [x];
      assert WithPending(rs, x.pending) == grown && grown[..|grown| - 1] == WithPending(init, x.pending);
      assert WithPending(rs, !x.pending) == WithPending(init, !x.pending);
    }
  }

  method PartitionPending(results: seq<Result>) returns (ready: seq<Result>, pending: seq<Result>)
    ensures forall k :: 0 <= k < |ready| ==> !ready[k].pending
    ensures forall k :: 0 <= k < |pending| ==> pending[k].pending
    ensures Interleaves(ready, pending, results)
  {
    ready, pending := [], [];
    for i := 0 to |results|
      invariant ready == WithPending(results[..i], false) && pending == WithPending(results[..i], true)
    {
      assert results[..i + 1][..i] == results[..i];
      if results[i].pending {
        pending := pending + [results[i]];
      } else {
        ready := ready + [results[i]];
      }
    }
    assert results[..|results|] == results;
    PartitionLosesNothing(results);
  }
}
