/** How long floating threads live, by the default constants. */
module FloatingThreads {
  import opened Prelude
  import opened ThreadStack
  import opened ThreadStackBounds

  /** Updates in the given turns, and floating threads added in between. */
  datatype FloatingOp = UpdateFloats(turn: int) | AddFloat(id: string, turn: int)

  function NextFloating(floating: seq<Entry>, op: FloatingOp): seq<Entry> {
    if op.UpdateFloats? then UpdatedFloating(floating, op.turn, DEFAULTS)
    else floating + [NewEntry(op.id, op.turn, true)]
  }

  function AfterFloating(floating: seq<Entry>, ops: seq<FloatingOp>): seq<Entry>
    decreases |ops|
  {
    if ops == [] then floating else NextFloating(AfterFloating(floating, ops[..|ops| - 1]), ops[|ops| - 1])
  }

  function WithAdded(ever: seq<Entry>, op: FloatingOp): seq<Entry> {
    if op.UpdateFloats? then ever else ever + [NewEntry(op.id, op.turn, true)]
  }

  /** All threads there ever were, in the order they came. */
  function EverFloating(floating: seq<Entry>, ops: seq<FloatingOp>): seq<Entry>
    decreases |ops|
  {
    if ops == [] then floating else WithAdded(EverFloating(floating, ops[..|ops| - 1]), ops[|ops| - 1])
  }

  /** Turns never go back, and `last` is that of the last update. */
  ghost predicate InTime(floating: seq<Entry>, ops: seq<FloatingOp>, last: int) {
    && (forall i, j :: 0 <= i < j < |ops| ==> ops[i].turn <= ops[j].turn)
    && (forall i, k :: 0 <= i < |ops| && 0 <= k < |floating| ==> floating[k].lastTouched <= ops[i].turn)
    && (forall i :: 0 <= i < |floating| ==> floating[i].depth >= 0.0)
    && (forall i :: 0 <= i < |ops| && ops[i].UpdateFloats? ==> ops[i].turn <= last)
    && (exists i :: 0 <= i < |ops| && ops[i] == UpdateFloats(last))
  }

  function Ids(stack: seq<Entry>): seq<string>
    decreases |stack|
  {
    if stack == [] then [] else Ids(stack[..|stack| - 1]) + [stack[|stack| - 1].threadId]
  }

  /** The threads last touched no more than 200 turns before `turn`. */
  function YoungIds(floating: seq<Entry>, turn: int): seq<string>
    decreases |floating|
  {
    if floating == [] then []
    else
      var e := floating[|floating| - 1];
      YoungIds(floating[..|floating| - 1], turn) + if turn - e.lastTouched <= 200 then [e.threadId] else []
  }

  ghost predicate Afloat(floating: seq<Entry>, turn: int) {
    forall i :: 0 <= i < |floating| ==> floating[i].depth >= 0.0 && floating[i].lastTouched <= turn
  }

  /** Salience is at least 0.3 and the last touch was at most 200 turns ago. */
  ghost predicate AllYoung(floating: seq<Entry>, turn: int) {
    forall i :: 0 <= i < |floating| ==> floating[i].salience >= 0.3 && turn - floating[i].lastTouched <= 200
  }

  lemma FloatSalience(e: Entry, turn: int)
    requires e.depth >= 0.0 && e.lastTouched <= turn
    ensures UpdatedFloat(e, turn, DEFAULTS).salience >= 0.3 && UpdatedFloat(e, turn, DEFAULTS).depth >= 0.0
  {
    PowUnit(0.85, turn - e.lastTouched);
  }

  /** One update keeps exactly the threads touched within 200 turns: salience is
      never below 0.3, so the salience threshold of 0.05 never drops anything. */
  lemma {:induction false} FloatingUpdate(floating: seq<Entry>, turn: int)
    requires Afloat(floating, turn)
    ensures var r := UpdatedFloating(floating, turn, DEFAULTS); Afloat(r, turn) && AllYoung(r, turn)
    decreases |floating|
  {
    if floating == [] {
    } else {
      var k := |floating| - 1;
      FloatingUpdate(floating[..k], turn);
      FloatSalience(floating[k], turn);
    }
  }

  lemma {:induction false} FloatingIds(floating: seq<Entry>, turn: int, later: int)
    requires Afloat(floating, turn) && later >= turn
    ensures YoungIds(UpdatedFloating(floating, turn, DEFAULTS), later) == YoungIds(floating, later)
    decreases |floating|
  {
    if floating == [] {
    } else {
      var k := |floating| - 1;
      FloatingIds(floating[..k], turn, later);
      FloatSalience(floating[k], turn);
      var e := UpdatedFloat(floating[k], turn, DEFAULTS);
      var init := UpdatedFloating(floating[..k], turn, DEFAULTS);
      if turn - e.lastTouched <= 200 {
        assert UpdatedFloating(floating, turn, DEFAULTS) == init + [e];
        assert (init + [e])[..|init|] == init;
      } else {
        assert UpdatedFloating(floating, turn, DEFAULTS) == init;
      }
    }
  }

  lemma {:induction false} YoungAreAll(floating: seq<Entry>, turn: int)
    requires AllYoung(floating, turn)
    ensures Ids(floating) == YoungIds(floating, turn)
    decreases |floating|
  {
    if floating == [] {
    } else {
      YoungAreAll(floating[..|floating| - 1], turn);
    }
  }

  lemma YoungAppends(floating: seq<Entry>, e: Entry, turn: int)
    ensures YoungIds(floating + [e], turn)
            == YoungIds(floating, turn) + if turn - e.lastTouched <= 200 then [e.threadId] else []
  {
    assert (floating + [e])[..|floating|] == floating;
  }

  /** All times of a run are bounded by `now`, the last one. */
  ghost predicate TimesTo(ops: seq<FloatingOp>, now: int) {
    && (forall i, j :: 0 <= i < j < |ops| ==> ops[i].turn <= ops[j].turn)
    && (forall i :: 0 <= i < |ops| ==> ops[i].turn <= now)
  }

  /** One operation on lists that agree on what will be young later. */
  lemma FloatingStep(r: seq<Entry>, ever: seq<Entry>, op: FloatingOp, later: int)
    requires Afloat(r, op.turn) && YoungIds(r, later) == YoungIds(ever, later)
    requires op.UpdateFloats? ==> op.turn <= later
    ensures Afloat(NextFloating(r, op), op.turn)
    ensures YoungIds(NextFloating(r, op), later) == YoungIds(WithAdded(ever, op), later)
  {
    if op.UpdateFloats? {
      FloatingUpdate(r, op.turn);
      FloatingIds(r, op.turn, later);
    } else {
      YoungAppends(r, NewEntry(op.id, op.turn, true), later);
      YoungAppends(ever, NewEntry(op.id, op.turn, true), later);
    }
  }

  lemma {:induction false} FloatingRun(floating: seq<Entry>, ops: seq<FloatingOp>, now: int, later: int)
    requires TimesTo(ops, now) && Afloat(floating, now)
    requires forall i, k :: 0 <= i < |ops| && 0 <= k < |floating| ==> floating[k].lastTouched <= ops[i].turn
    requires forall i :: 0 <= i < |ops| && ops[i].UpdateFloats? ==> ops[i].turn <= later
    ensures var r := AfterFloating(floating, ops);
            Afloat(r, now) && YoungIds(r, later) == YoungIds(EverFloating(floating, ops), later)
    decreases |ops|
  {
    if ops == [] {
    } else {
      var init, op := ops[..|ops| - 1], ops[|ops| - 1];
      assert forall i :: 0 <= i < |init| ==> init[i] == ops[i];
      assert ops[|ops| - 1].turn <= now;
      FloatingRun(floating, init, op.turn, later);
      assert op.UpdateFloats? ==> ops[|ops| - 1].turn <= later;
      hide YoungIds, NextFloating, WithAdded;
      FloatingStep(AfterFloating(floating, init), EverFloating(floating, init), op, later);
    }
  }

  lemma {:induction false} YoungSince(floating: seq<Entry>, ops: seq<FloatingOp>, last: int)
    requires InTime(floating, ops, last)
    ensures AllYoung(AfterFloating(floating, ops), last)
    decreases |ops|
  {
    var init, op := ops[..|ops| - 1], ops[|ops| - 1];
    assert forall i :: 0 <= i < |init| ==> init[i] == ops[i];
    var i :| 0 <= i < |ops| && ops[i] == UpdateFloats(last);
    assert ops[i].turn <= ops[|ops| - 1].turn;
    if op.UpdateFloats? {
      FloatingRun(floating, init, last, last);
      FloatingUpdate(AfterFloating(floating, init), last);
    } else {
      assert init[i] == UpdateFloats(last);
      YoungSince(floating, init, last);
    }
  }

  /** The floating threads present after any updates and additions are exactly
      those, of all there ever were, touched within 200 turns of the last update:
      one added at turn t survives every update through t + 200 and is gone at
      t + 201. */
  lemma FloatingLifetime(floating: seq<Entry>, ops: seq<FloatingOp>, last: int)
    requires InTime(floating, ops, last)
    ensures var r := AfterFloating(floating, ops);
            && (forall i :: 0 <= i < |r| ==> r[i].salience >= 0.3)
            && Ids(r) == YoungIds(EverFloating(floating, ops), last)
  {
    YoungSince(floating, ops, last);
    YoungAreAll(AfterFloating(floating, ops), last);
    assert forall i :: 0 <= i < |ops| ==> ops[i].turn <= ops[|ops| - 1].turn;
    FloatingRun(floating, ops, ops[|ops| - 1].turn, last);
  }

  // ---- what updates leave in a floating entry ----

  lemma {:induction false} FloatingOrigin(floating: seq<Entry>, turn: int, j: nat) returns (i: nat)
    requires j < |UpdatedFloating(floating, turn, DEFAULTS)|
    ensures i < |floating| && UpdatedFloating(floating, turn, DEFAULTS)[j] == UpdatedFloat(floating[i], turn, DEFAULTS)
    decreases |floating|
  {
    var k := |floating| - 1;
    if j < |UpdatedFloating(floating[..k], turn, DEFAULTS)| {
      i := FloatingOrigin(floating[..k], turn, j);
    } else {
      i := k;
    }
  }

  /** Every entry after an update comes from one before it: a hundredth of its depth
      is gone, and salience goes by the turns since the touch, between 0.3 and 0.6,
      and by the depth left. Nothing else of it changes. */
  lemma FloatingLaw(floating: seq<Entry>, turn: int, j: nat) returns (i: nat)
    requires Afloat(floating, turn) && j < |UpdatedFloating(floating, turn, DEFAULTS)|
    ensures i < |floating|
    ensures var e, e' := floating[i], UpdatedFloating(floating, turn, DEFAULTS)[j];
            && e.lastTouched <= turn
            && e' == e.(depth := e'.depth, salience := e'.salience)
            && e'.depth == 0.99 * e.depth
            && e'.salience == 0.3 + 0.3 * PowNat(0.85, turn - e.lastTouched) + 0.4 * e'.depth
  {
    i := FloatingOrigin(floating, turn, j);
  }
}
