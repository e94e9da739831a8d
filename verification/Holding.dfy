/** The holding store: items kept in insertion order and mirrored in a file, and
    marked surfaced when discharged. */
module Holding {
  import opened Prelude
  import opened Registers

  datatype ItemType = Observation | Connection | Challenge | DaemonCuriosity | OpenLoopFollowUp | ReasonedDisagreement

  datatype RegisterNeeded = Needs(register: Register) | Any

  datatype Item = Item(
    id: string,
    kind: ItemType,
    needed: RegisterNeeded,
    contradiction: Option<string>,
    surfaced: Option<int>)

  datatype Outcome = Done | Duplicate | Missing | AlreadyDischarged | SaveFailed

  // ---- the store as a value ----

  /** The items, in memory and as last written to the file. */
  datatype Contents = Contents(items: seq<Item>, saved: seq<Item>)

  predicate HasId(items: seq<Item>, id: string) {
    exists i :: 0 <= i < |items| && items[i].id == id
  }

  ghost predicate DistinctIds(items: seq<Item>) {
    forall i, j :: 0 <= i < j < |items| ==> items[i].id != items[j].id
  }

  /** `id` is there and marked. */
  predicate Surfaced(items: seq<Item>, id: string) {
    exists i :: 0 <= i < |items| && items[i].id == id && items[i].surfaced.Some?
  }

  function Unsurfaced(items: seq<Item>): seq<Item> {
    if items == [] then []
    else Unsurfaced(items[..|items| - 1])
         + if items[|items| - 1].surfaced.None? then [items[|items| - 1]] else []
  }

  function Marked(items: seq<Item>, id: string, now: int): seq<Item> {
    seq(|items|, i requires 0 <= i < |items| =>
      if items[i].id == id then items[i].(surfaced := Some(now)) else items[i])
  }

  function WriteOutcome(c: Contents, item: Item, saveFails: bool): Outcome {
    if HasId(c.items, item.id) then Duplicate else if saveFails then SaveFailed else Done
  }

  /** A failed save leaves the item in memory only. */
  function Written(c: Contents, item: Item, saveFails: bool): Contents {
    if HasId(c.items, item.id) then c
    else Contents(c.items + [item], if saveFails then c.saved else c.items + [item])
  }

  function DischargeOutcome(c: Contents, id: string, saveFails: bool): Outcome {
    if !HasId(c.items, id) then Missing
    else if Surfaced(c.items, id) then AlreadyDischarged
    else if saveFails then SaveFailed
    else Done
  }

  /** A failed save leaves the mark in memory only. */
  function Discharged(c: Contents, id: string, now: int, saveFails: bool): Contents {
    match DischargeOutcome(c, id, saveFails)
    case Done => Contents(Marked(c.items, id, now), Marked(c.items, id, now))
    case SaveFailed => Contents(Marked(c.items, id, now), c.saved)
    case _ => c
  }

  // ---- facts about values ----

  lemma {:induction false} UnsurfacedOrigin(items: seq<Item>, k: nat) returns (i: nat)
    requires k < |Unsurfaced(items)|
    ensures i < |items| && items[i] == Unsurfaced(items)[k] && items[i].surfaced.None?
    decreases |items|
  {
    if k < |Unsurfaced(items[..|items| - 1])| {
      i := UnsurfacedOrigin(items[..|items| - 1], k);
    } else {
      i := |items| - 1;
    }
  }

  /** The same item, marked or not. */
  predicate SameButMark(x: Item, y: Item) {
    x.(surfaced := None) == y.(surfaced := None)
  }

  /** A discharge changes nothing but marks. */
  lemma DischargeMarksOnly(c: Contents, id: string, now: int, saveFails: bool)
    ensures var r := Discharged(c, id, now, saveFails).items;
            |r| == |c.items| && forall i :: 0 <= i < |r| ==> SameButMark(r[i], c.items[i])
  {
  }

  /** Marking marks that item and keeps every other mark. */
  lemma MarkedSurfaces(items: seq<Item>, id: string, now: int)
    requires DistinctIds(items)
    ensures DistinctIds(Marked(items, id, now)) && |Marked(items, id, now)| == |items|
    ensures forall i :: 0 <= i < |items| ==>
              Marked(items, id, now)[i] == items[i].(surfaced := Marked(items, id, now)[i].surfaced)
    ensures forall i :: 0 <= i < |items| && items[i].id != id ==> Marked(items, id, now)[i] == items[i]
    ensures forall other :: Surfaced(Marked(items, id, now), other)
                            <==> Surfaced(items, other) || (other == id && HasId(items, id))
  {
    var m := Marked(items, id, now);
    forall other ensures Surfaced(m, other) <==> Surfaced(items, other) || (other == id && HasId(items, id)) {
      if Surfaced(m, other) {
        var i :| 0 <= i < |m| && m[i].id == other && m[i].surfaced.Some?;
        assert items[i].id == other;
      }
      if Surfaced(items, other) {
        var i :| 0 <= i < |items| && items[i].id == other && items[i].surfaced.Some?;
        assert m[i].id == other;
      }
      if other == id && HasId(items, id) {
        var i :| 0 <= i < |items| && items[i].id == id;
        assert m[i].id == id;
      }
    }
  }

  lemma AppendedSurfaces(items: seq<Item>, item: Item)
    requires DistinctIds(items) && !HasId(items, item.id)
    ensures DistinctIds(items + [item])
    ensures forall id :: Surfaced(items, id) ==> Surfaced(items + [item], id)
  {
    var r := items + [item];
    forall id | Surfaced(items, id) ensures Surfaced(r, id) {
      var i :| 0 <= i < |items| && items[i].id == id && items[i].surfaced.Some?;
      assert r[i] == items[i];
    }
  }

  /** An accepted item whose save succeeded is in memory and in the file, beside
      everything that was in memory; a refused one changes nothing. */
  lemma WriteLaw(c: Contents, item: Item, saveFails: bool)
    ensures var c' := Written(c, item, saveFails);
            && (WriteOutcome(c, item, saveFails) == Duplicate <==>
                  exists i :: 0 <= i < |c.items| && c.items[i].id == item.id)
            && (WriteOutcome(c, item, saveFails) == Duplicate ==> c' == c)
            && (WriteOutcome(c, item, saveFails) != Duplicate ==>
                  |c'.items| == |c.items| + 1 && c.items < c'.items && c'.items[|c.items|] == item)
            && (WriteOutcome(c, item, saveFails) == Done <==>
                  !saveFails && forall i :: 0 <= i < |c.items| ==> c.items[i].id != item.id)
            && (WriteOutcome(c, item, saveFails) == Done ==> c'.saved == c'.items)
            && (WriteOutcome(c, item, saveFails) == SaveFailed ==> c'.saved == c.saved)
  {
  }

  // ---- the dictionary ----

  ghost predicate Keyed(order: seq<string>, items: map<string, Item>) {
    && NoDup(order)
    && (forall k :: k in order <==> k in items)
    && (forall k :: k in items ==> items[k].id == k)
  }

  /** The values in insertion order. */
  function ValuesOf(order: seq<string>, items: map<string, Item>): (r: seq<Item>)
    requires Keyed(order, items)
    ensures |r| == |order| && DistinctIds(r)
    ensures forall i :: 0 <= i < |r| ==> order[i] in items && r[i] == items[order[i]]
  {
    assert forall i :: 0 <= i < |order| ==> order[i] in order;
    var r := seq(|order|, i requires 0 <= i < |order| => items[order[i]]);
    assert forall i :: 0 <= i < |r| ==> r[i].id == order[i];
    r
  }

  lemma IdsAreKeys(order: seq<string>, items: map<string, Item>, id: string)
    requires Keyed(order, items)
    ensures HasId(ValuesOf(order, items), id) <==> id in items
  {
    var r := ValuesOf(order, items);
    if HasId(r, id) {
      var i :| 0 <= i < |r| && r[i].id == id;
    }
    if id in items {
      var i :| 0 <= i < |order| && order[i] == id;
      assert r[i].id == id;
    }
  }

  lemma AddedValues(order: seq<string>, items: map<string, Item>, item: Item)
    requires Keyed(order, items) && item.id !in items
    ensures Keyed(order + [item.id], items[item.id := item])
    ensures ValuesOf(order + [item.id], items[item.id := item]) == ValuesOf(order, items) + [item]
  {
    assert item.id !in order;
  }

  lemma MarkedValues(order: seq<string>, items: map<string, Item>, id: string, now: int)
    requires Keyed(order, items) && id in items
    ensures var items' := items[id := items[id].(surfaced := Some(now))];
            Keyed(order, items') && ValuesOf(order, items') == Marked(ValuesOf(order, items), id, now)
  {
  }

  /** An item is marked in the values exactly if it is in the dictionary. */
  lemma MarkIsInDictionary(order: seq<string>, items: map<string, Item>, id: string)
    requires Keyed(order, items) && id in items
    ensures Surfaced(ValuesOf(order, items), id) <==> items[id].surfaced.Some?
  {
    var i :| 0 <= i < |order| && order[i] == id;
    assert ValuesOf(order, items)[i].id == id;
  }

  // ---- the object ----

  class HoldingStore {
    var order: seq<string>
    var items: map<string, Item>
    var file: seq<Item>

    ghost predicate Valid()
      reads this
    {
      Keyed(order, items) && DistinctIds(file)
    }

    function Values(): (r: seq<Item>)
      requires Valid()
      reads this
      ensures DistinctIds(r)
    {
      ValuesOf(order, items)
    }

    ghost function Value(): Contents
      requires Valid()
      reads this
    {
      Contents(Values(), file)
    }

    /** Loads the file: what a restart of the process does. */
    constructor (saved: seq<Item>)
      requires DistinctIds(saved)
      ensures Valid() && Value() == Contents(saved, saved)
    {
      order, items, file := [], map[], saved;
      new;
      for i := 0 to |saved|
        invariant file == saved && |order| == i
        invariant forall j :: 0 <= j < i ==> order[j] == saved[j].id
        invariant forall k :: k in order <==> k in items
        invariant forall j :: 0 <= j < i ==> saved[j].id in items && items[saved[j].id] == saved[j]
        invariant forall k :: k in items ==> items[k].id == k
      {
        assert saved[i].id !in items;
        order := order + [saved[i].id];
        items := items[saved[i].id := saved[i]];
      }
    }

    method Save(fails: bool) returns (ok: bool)
      requires Valid()
      modifies this`file
      ensures ok == !fails && Valid()
      ensures Value() == Contents(old(Values()), if fails then old(file) else old(Values()))
    {
      if !fails {
        file := Values();
      }
      ok := !fails;
    }

    method Write(item: Item, saveFails: bool) returns (r: Outcome)
      requires Valid()
      modifies this
      ensures Valid()
      ensures r == WriteOutcome(old(Value()), item, saveFails)
      ensures Value() == Written(old(Value()), item, saveFails)
    {
      IdsAreKeys(order, items, item.id);
      if item.id in items {
        return Duplicate;
      }
      AddedValues(order, items, item);
      order := order + [item.id];
      items := items[item.id := item];
      var ok := Save(saveFails);
      r := if ok then Done else SaveFailed;
    }

    method ListUnsurfaced() returns (r: seq<Item>)
      requires Valid()
      ensures r == Unsurfaced(Values())
    {
      r := [];
      for i := 0 to |order|
        invariant r == Unsurfaced(Values()[..i])
      {
        assert order[i] in order;
        assert Values()[..i + 1][..i] == Values()[..i];
        if items[order[i]].surfaced.None? {
          r := r + [items[order[i]]];
        }
      }
      assert Values()[..|order|] == Values();
    }

    method Discharge(id: string, now: int, saveFails: bool) returns (r: Outcome)
      requires Valid()
      modifies this
      ensures Valid()
      ensures r == DischargeOutcome(old(Value()), id, saveFails)
      ensures Value() == Discharged(old(Value()), id, now, saveFails)
    {
      hide Keyed, ValuesOf, Marked, Surfaced;
      IdsAreKeys(order, items, id);
      if id !in items {
        return Missing;
      }
      MarkIsInDictionary(order, items, id);
      if items[id].surfaced.Some? {
        return AlreadyDischarged;
      }
      MarkedValues(order, items, id, now);
      items := items[id := items[id].(surfaced := Some(now))];
      var ok := Save(saveFails);
      r := if ok then Done else SaveFailed;
    }
  }
}
