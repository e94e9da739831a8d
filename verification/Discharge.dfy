/** Choosing the one holding item to discharge in a turn, and what that
    guarantees over any run of turns with failures and restarts. */
module Discharge {
  import opened Prelude
  import opened Registers
  import opened Holding

  predicate RegisterMatches(needed: RegisterNeeded, register: Register) {
    needed == Any || needed == Needs(register)
  }

  function Score(scores: map<string, real>, item: Item): real {
    if item.id in scores then scores[item.id] else 0.0
  }

  predicate Eligible(item: Item, register: Register, scores: map<string, real>, threshold: real) {
    && item.surfaced.None?
    && !(register == Urgent && item.kind == ReasonedDisagreement)
    && Score(scores, item) > threshold
    && RegisterMatches(item.needed, register)
  }

  /** `k` is the first of the eligible items of greatest score. */
  ghost predicate FirstBest(items: seq<Item>, k: nat, register: Register, scores: map<string, real>, threshold: real) {
    && k < |items|
    && Eligible(items[k], register, scores, threshold)
    && forall j :: 0 <= j < |items| && Eligible(items[j], register, scores, threshold) ==>
         Score(scores, items[j]) <= Score(scores, items[k])
         && (j < k ==> Score(scores, items[j]) < Score(scores, items[k]))
  }

  ghost predicate NoneEligible(items: seq<Item>, register: Register, scores: map<string, real>, threshold: real) {
    forall j :: 0 <= j < |items| ==> !Eligible(items[j], register, scores, threshold)
  }

  function Selected(items: seq<Item>, register: Register, scores: map<string, real>, threshold: real)
    : (best: Option<nat>)
    ensures match best
            case Some(k) => FirstBest(items, k, register, scores, threshold)
            case None => NoneEligible(items, register, scores, threshold)
    decreases |items|
  {
    if items == [] then None
    else
      var n := |items| - 1;
      var init := Selected(items[..n], register, scores, threshold);
      assert forall j :: 0 <= j < n ==> items[..n][j] == items[j];
      if !Eligible(items[n], register, scores, threshold) then init
      else if init.None? || Score(scores, items[n]) > Score(scores, items[init.value]) then Some(n)
      else init
  }

  /** There is only one first-best item. */
  lemma FirstBestUnique(items: seq<Item>, register: Register, scores: map<string, real>, threshold: real, k: nat)
    requires FirstBest(items, k, register, scores, threshold)
    ensures Selected(items, register, scores, threshold) == Some(k)
  {
    var m := Selected(items, register, scores, threshold).value;
    assert Score(scores, items[m]) == Score(scores, items[k]);
  }

  method SelectDischargeCandidate(items: seq<Item>, register: Register, scores: map<string, real>, threshold: real)
    returns (best: Option<Item>)
    ensures var k := Selected(items, register, scores, threshold);
            best == if k.Some? then Some(items[k.value]) else None
  {
    best := None;
    var bestScore := 0.0;
    for i := 0 to |items|
      invariant var k := Selected(items[..i], register, scores, threshold);
                best == if k.Some? then Some(items[..i][k.value]) else None
      invariant best.Some? ==> bestScore == Score(scores, best.value)
    {
      var item := items[i];
      assert items[..i + 1][..i] == items[..i];
      if item.surfaced.Some? {
        continue;
      }
      if register == Urgent && item.kind == ReasonedDisagreement {
        continue;
      }
      var score := Score(scores, item);
      if score <= threshold {
        continue;
      }
      if !RegisterMatches(item.needed, register) {
        continue;
      }
      if best.None? || score > bestScore {
        best := Some(item);
        bestScore := score;
      }
    }
    assert items[..|items|] == items;
  }

  /** The gates, told without the predicates above: what is selected is unsurfaced,
      scores above the threshold, needs this register or any, and is no disagreement
      when the register is urgent; and whenever an item passes them something is
      selected, of no lower score. */
  lemma SelectionGates(items: seq<Item>, register: Register, scores: map<string, real>, threshold: real, i: nat)
    requires i < |items|
    ensures var k := Selected(items, register, scores, threshold);
            && (k == Some(i) ==>
                  && items[i].surfaced == None
                  && (if items[i].id in scores then scores[items[i].id] else 0.0) > threshold
                  && items[i].needed in {Any, Needs(register)}
                  && (register == Urgent ==> items[i].kind != ReasonedDisagreement))
            && (items[i].surfaced == None && items[i].id in scores && scores[items[i].id] > threshold
                && items[i].needed in {Any, Needs(register)}
                && (register == Urgent ==> items[i].kind != ReasonedDisagreement)
                ==> k.Some? && (if items[k.value].id in scores then scores[items[k.value].id] else 0.0)
                               >= scores[items[i].id])
  {
  }

  // ---- runs of turns ----

  /** What happens to the store. In a turn anything that comes after the mark may
      fail, and then nothing is delivered. */
  datatype Event =
    | Turn(register: Register, scores: map<string, real>, now: int, saveFails: bool, laterFails: bool)
    | Write(item: Item, writeFails: bool)
    | Restart

  /** `delivered` lists the ids of the items whose text reached the user. */
  datatype History = History(store: Contents, delivered: seq<string>)

  function Candidate(c: Contents, register: Register, scores: map<string, real>, threshold: real): Option<Item> {
    var items := Unsurfaced(c.items);
    var k := Selected(items, register, scores, threshold);
    if k.Some? then Some(items[k.value]) else None
  }

  lemma NothingUnsurfaced(c: Contents, register: Register, scores: map<string, real>, threshold: real)
    ensures Unsurfaced(c.items) == [] ==> Candidate(c, register, scores, threshold) == None
  {
  }

  function Next(h: History, e: Event, threshold: real): History {
    match e
    case Turn(register, scores, now, saveFails, laterFails) =>
      (match Candidate(h.store, register, scores, threshold)
       case None => h
       case Some(item) =>
         History(Discharged(h.store, item.id, now, saveFails),
                 if saveFails || laterFails then h.delivered else h.delivered + [item.id]))
    case Write(item, writeFails) => h.(store := Written(h.store, item, writeFails))
    case Restart => h.(store := Contents(h.store.saved, h.store.saved))
  }

  function After(h: History, events: seq<Event>, threshold: real): History
    decreases |events|
  {
    if events == [] then h
    else Next(After(h, events[..|events| - 1], threshold), events[|events| - 1], threshold)
  }

  /** Everything delivered is marked, in memory and in the file. */
  ghost predicate Sound(h: History) {
    && DistinctIds(h.store.items) && DistinctIds(h.store.saved)
    && NoDup(h.delivered)
    && forall id :: id in h.delivered ==> Surfaced(h.store.items, id) && Surfaced(h.store.saved, id)
  }

  /** The candidate is unsurfaced in the store, so the mark succeeds. */
  lemma CandidateIsMarkable(
      c: Contents, register: Register, scores: map<string, real>, threshold: real, saveFails: bool)
    requires DistinctIds(c.items)
    ensures match Candidate(c, register, scores, threshold)
            case None => true
            case Some(item) =>
              && HasId(c.items, item.id) && !Surfaced(c.items, item.id)
              && Eligible(item, register, scores, threshold)
              && DischargeOutcome(c, item.id, saveFails) == if saveFails then SaveFailed else Done
  {
    var items := Unsurfaced(c.items);
    var k := Selected(items, register, scores, threshold);
    if k.Some? {
      var i := UnsurfacedOrigin(c.items, k.value);
      var id := c.items[i].id;
      forall j | 0 <= j < |c.items| && c.items[j].id == id ensures j == i {
      }
    }
  }

  lemma NextKeepsSound(h: History, e: Event, threshold: real)
    requires Sound(h)
    ensures Sound(Next(h, e, threshold))
  {
    match e {
      case Turn(register, scores, now, saveFails, laterFails) =>
        CandidateIsMarkable(h.store, register, scores, threshold, saveFails);
        var candidate := Candidate(h.store, register, scores, threshold);
        if candidate.Some? {
          MarkedSurfaces(h.store.items, candidate.value.id, now);
        }
      case Write(item, _) =>
        if !HasId(h.store.items, item.id) {
          AppendedSurfaces(h.store.items, item);
        }
      case Restart =>
    }
  }

  /** What is in the file is in memory too. */
  ghost predicate Mirrored(c: Contents) {
    forall id :: HasId(c.saved, id) ==> HasId(c.items, id)
  }

  lemma MarkedKeepsIds(items: seq<Item>, marked: string, now: int, id: string)
    ensures HasId(Marked(items, marked, now), id) <==> HasId(items, id)
  {
    var m := Marked(items, marked, now);
    assert forall i :: 0 <= i < |items| ==> m[i].id == items[i].id;
  }

  lemma NextKeepsItems(h: History, e: Event, threshold: real, id: string)
    requires Mirrored(h.store)
    ensures Mirrored(Next(h, e, threshold).store)
    ensures HasId(h.store.saved, id) ==> HasId(Next(h, e, threshold).store.saved, id)
    ensures e.Write? && WriteOutcome(h.store, e.item, e.writeFails) == Done ==>
              HasId(Next(h, e, threshold).store.saved, e.item.id)
  {
    var h' := Next(h, e, threshold);
    match e {
      case Turn(register, scores, now, _, _) =>
        var candidate := Candidate(h.store, register, scores, threshold);
        if candidate.Some? {
          forall x ensures HasId(Marked(h.store.items, candidate.value.id, now), x) <==> HasId(h.store.items, x) {
            MarkedKeepsIds(h.store.items, candidate.value.id, now, x);
          }
        }
      case Write(item, _) =>
        if !HasId(h.store.items, item.id) {
          var grown := h.store.items + [item];
          assert grown[|h.store.items|] == item;
          forall x | HasId(h.store.items, x) ensures HasId(grown, x) {
            var i :| 0 <= i < |h.store.items| && h.store.items[i].id == x;
            assert grown[i].id == x;
          }
        }
      case Restart =>
    }
  }

  /** An item in the file stays there, over any turns, writes, failures and restarts. */
  lemma {:induction false} SavedItemsStay(h: History, events: seq<Event>, threshold: real, id: string)
    requires Mirrored(h.store) && HasId(h.store.saved, id)
    ensures Mirrored(After(h, events, threshold).store)
    ensures HasId(After(h, events, threshold).store.saved, id) && HasId(After(h, events, threshold).store.items, id)
    decreases |events|
  {
    hide Next;
    if events == [] {
    } else {
      var init := events[..|events| - 1];
      SavedItemsStay(h, init, threshold, id);
      NextKeepsItems(After(h, init, threshold), events[|events| - 1], threshold, id);
    }
  }

  /** Over any run of turns, writes and restarts, with saves and later steps
      failing anywhere, no item reaches the user twice, and every item that did is
      marked in memory and in the file. */
  lemma {:induction false} DeliveredAtMostOnce(start: seq<Item>, events: seq<Event>, threshold: real)
    requires DistinctIds(start)
    ensures Sound(After(History(Contents(start, start), []), events, threshold))
    decreases |events|
  {
    if events == [] {
    } else {
      DeliveredAtMostOnce(start, events[..|events| - 1], threshold);
      NextKeepsSound(After(History(Contents(start, start), []), events[..|events| - 1], threshold),
                     events[|events| - 1], threshold);
    }
  }

  ghost predicate HasEligible(items: seq<Item>, e: Event, threshold: real)
    requires e.Turn?
  {
    exists i :: 0 <= i < |items| && Eligible(items[i], e.register, e.scores, threshold)
  }

  ghost predicate DeliversItem(h: History, h': History, e: Event, threshold: real, item: Item, i: nat)
    requires e.Turn?
  {
    && FirstBest(h.store.items, i, e.register, e.scores, threshold)
    && h'.delivered == h.delivered + [item.id]
    && !(e.register == Urgent && item.kind == ReasonedDisagreement)
  }

  ghost predicate DeliversFirstBest(h: History, h': History, e: Event, threshold: real)
    requires e.Turn?
  {
    exists i :: 0 <= i < |h.store.items| && DeliversItem(h, h', e, threshold, h.store.items[i], i)
  }

  lemma NoCandidate(items: seq<Item>, e: Event, threshold: real)
    requires e.Turn? && NoneEligible(items, e.register, e.scores, threshold)
    ensures !HasEligible(items, e, threshold)
  {
  }

  lemma SurfacedNotEligible(x: Item, register: Register, scores: map<string, real>, threshold: real)
    requires x.surfaced.Some?
    ensures !Eligible(x, register, scores, threshold)
  {
  }

  lemma SelectedAppends(init: seq<Item>, x: Item, register: Register, scores: map<string, real>, threshold: real)
    ensures var k := Selected(init, register, scores, threshold);
            (k.Some? ==> k.value < |init|) &&
            Selected(init + [x], register, scores, threshold)
            == if Eligible(x, register, scores, threshold)
                  && (k.None? || Score(scores, x) > Score(scores, init[k.value]))
               then Some(|init|) else k
  {
    assert (init + [x])[..|init|] == init;
  }

  lemma NothingSelected(register: Register, scores: map<string, real>, threshold: real)
    ensures Unsurfaced([]) == [] && Selected([], register, scores, threshold) == None
  {
  }

  lemma UnsurfacedAppends(init: seq<Item>, x: Item)
    ensures x.surfaced.None? ==> Unsurfaced(init + [x]) == Unsurfaced(init) + [x]
    ensures x.surfaced.Some? ==> Unsurfaced(init + [x]) == Unsurfaced(init)
  {
    assert (init + [x])[..|init|] == init;
  }

  /** The selection among the unsurfaced items is the selection among all items. */
  lemma {:induction false} SelectionInStore(
      items: seq<Item>, register: Register, scores: map<string, real>, threshold: real)
    returns (i: nat)
    ensures var k := Selected(Unsurfaced(items), register, scores, threshold);
            var all := Selected(items, register, scores, threshold);
            && (k.Some? <==> all.Some?)
            && (k.Some? ==> all == Some(i) && items[i] == Unsurfaced(items)[k.value])
    decreases |items|
  {
    hide Selected, FirstBest, NoneEligible, Eligible, Score, Unsurfaced;
    i := 0;
    if items == [] {
      NothingSelected(register, scores, threshold);
    } else {
      var init, x := items[..|items| - 1], items[|items| - 1];
      i := SelectionInStore(init, register, scores, threshold);
      SelectedAppends(init, x, register, scores, threshold);
      assert items == init + [x];
      UnsurfacedAppends(init, x);
      if x.surfaced.None? {
        SelectedAppends(Unsurfaced(init), x, register, scores, threshold);
        if Selected(items, register, scores, threshold) == Some(|init|) {
          i := |init|;
        }
      } else {
        SurfacedNotEligible(x, register, scores, threshold);
      }
    }
  }

  /** The candidate is the first-best item of the whole store. */
  lemma CandidateInStore(c: Contents, register: Register, scores: map<string, real>, threshold: real) returns (i: nat)
    ensures match Candidate(c, register, scores, threshold)
            case None => NoneEligible(c.items, register, scores, threshold)
            case Some(item) =>
              i < |c.items| && c.items[i] == item && item.surfaced.None?
              && Eligible(item, register, scores, threshold)
              && FirstBest(c.items, i, register, scores, threshold)
  {
    i := SelectionInStore(c.items, register, scores, threshold);
  }

  /** A turn delivers at most one item; what it delivers is the first-best eligible
      item of the store, and no disagreement in an urgent turn. A turn marks an
      item without delivering it exactly if there is a candidate and the save or
      a later step fails: that text is lost once the mark is saved. */
  lemma TurnDeliversFirstBest(h: History, e: Event, threshold: real)
    requires Sound(h) && e.Turn?
    ensures var h' := Next(h, e, threshold);
            var candidate := Candidate(h.store, e.register, e.scores, threshold);
            && (h'.delivered == h.delivered || DeliversFirstBest(h, h', e, threshold))
            && (h'.store.items != h.store.items && h'.delivered == h.delivered
                <==> candidate.Some? && (e.saveFails || e.laterFails))
            && (candidate.Some? <==> HasEligible(h.store.items, e, threshold))
  {
    var i := CandidateInStore(h.store, e.register, e.scores, threshold);
    CandidateIsMarkable(h.store, e.register, e.scores, threshold, e.saveFails);
    var candidate := Candidate(h.store, e.register, e.scores, threshold);
    hide Candidate, FirstBest, NoneEligible;
    if candidate.Some? {
      assert Marked(h.store.items, candidate.value.id, e.now)[i] != h.store.items[i];
      assert DeliversItem(h, Next(h, e, threshold), e, threshold, h.store.items[i], i)
          || Next(h, e, threshold).delivered == h.delivered;
    } else {
      NoCandidate(h.store.items, e, threshold);
    }
  }
}
