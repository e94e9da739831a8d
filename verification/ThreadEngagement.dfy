/** What updates leave in the entries of the stack, by the default constants: depth
    gathered by references, salience as stored, and the turn of the last touch. */
module ThreadEngagement {
  import opened Prelude
  import opened StableSort
  import opened ThreadStack
  import opened ThreadStackBounds

  function AtMostOne(x: real): real {
    if x > 1.0 then 1.0 else x
  }

  // ---- one update ----

  /** What an update in `turn` makes of an entry: a reference adds 0.1 to the depth,
      or 0.2 with a change of stance, and a turn without one takes away a twentieth;
      salience goes by the turns since the touch before and by the new depth. */
  predicate Follows(e: Entry, e': Entry, turn: int, referenced: bool, stance: bool)
    requires e.lastTouched <= turn
  {
    && e'.threadId == e.threadId && e'.enteredTurn == e.enteredTurn && e'.isFloating == e.isFloating
    && e'.depth == (if !referenced then 0.95 * e.depth
                    else if stance then AtMostOne(e.depth + 0.2)
                    else AtMostOne(e.depth + 0.1))
    && e'.salience == AtMostOne(Formula(turn - e.lastTouched, e'.depth))
    && e'.lastTouched == if referenced then turn else e.lastTouched
  }

  lemma UpdatedFollows(e: Entry, turn: int, referenced: bool, stance: bool, state: StackState)
    requires e.lastTouched <= turn
    ensures Follows(e, Updated(e, turn, referenced, stance, DEFAULTS).(state := state), turn, referenced, stance)
  {
  }

  ghost predicate TouchedBy(stack: seq<Entry>, turn: int) {
    forall i :: 0 <= i < |stack| ==> stack[i].lastTouched <= turn
  }

  /** Every entry after an update comes from one before it, in that way. */
  lemma UpdateLaw(s: Session, refs: set<string>, stances: set<string>, j: nat) returns (i: nat)
    requires Shaped(s.stack) && TouchedBy(s.stack, s.turn) && j < |Apply(s, Update(refs, stances)).stack|
    ensures i < |s.stack|
    ensures var e := s.stack[i];
            Follows(e, Apply(s, Update(refs, stances)).stack[j], s.turn, e.threadId in refs, e.threadId in stances)
  {
    hide UpdatedStack, Kept, Updated, Follows;
    UpdateShaped(s.stack, s.turn, refs, stances);
    i := KeptOrigin(s.stack, s.turn, refs, stances, j);
    var e := s.stack[i];
    UpdatedFollows(e, s.turn, e.threadId in refs, e.threadId in stances,
                   Apply(s, Update(refs, stances)).stack[j].state);
  }

  /** In every reachable state, an update stores for each entry it keeps a salience
      that goes by the turns since the touch before and by the depth it stores. */
  lemma StoredSalience(turn: int, ops: seq<Op>, refs: set<string>, stances: set<string>, j: nat) returns (i: nat)
    requires ValidFrom(Empty(turn), ops)
    requires j < |Apply(ExecFrom(Empty(turn), ops), Update(refs, stances)).stack|
    ensures var s := ExecFrom(Empty(turn), ops);
            var s' := Apply(s, Update(refs, stances));
            && i < |s.stack| && s.stack[i].threadId == s'.stack[j].threadId
            && s.stack[i].lastTouched <= s.turn
            && s'.stack[j].salience == AtMostOne(Formula(s.turn - s.stack[i].lastTouched, s'.stack[j].depth))
  {
    hide ExecFrom, ValidFrom, UpdatedStack, OneForeground;
    EmptyInv(turn);
    InvHolds(Empty(turn), ops);
    var s := ExecFrom(Empty(turn), ops);
    i := UpdateLaw(s, refs, stances, j);
  }

  // ---- depth gathered by references ----

  /** Every update references the thread; others may be added. */
  predicate References(op: Op, id: string) {
    match op
    case Count => true
    case Update(refs, _) => id in refs
    case Add(other) => other != id
  }

  predicate KeepReferencing(ops: seq<Op>, id: string)
    decreases |ops|
  {
    ops == [] || (References(ops[0], id) && KeepReferencing(ops[1..], id))
  }

  /** How many updates reference the thread with, or without, a change of stance. */
  function Times(ops: seq<Op>, id: string, stance: bool): nat
    decreases |ops|
  {
    if ops == [] then 0
    else
      (if ops[0].Update? && id in ops[0].refs && (id in ops[0].stances <==> stance) then 1 else 0)
      + Times(ops[1..], id, stance)
  }

  /** The thread, if it is on the stack, has depth `d`. */
  ghost predicate HasDepth(stack: seq<Entry>, id: string, d: real) {
    forall i :: 0 <= i < |stack| && stack[i].threadId == id ==> stack[i].depth == d
  }

  lemma ReferenceDeepens(s: Session, op: Op, id: string, d: real)
    requires Steady(s) && Allowed(s, op) && References(op, id) && HasDepth(s.stack, id, d) && d <= 1.0
    ensures var gain := if !op.Update? then 0.0 else if id in op.stances then 0.2 else 0.1;
            HasDepth(Apply(s, op).stack, id, AtMostOne(d + gain))
  {
    hide UpdatedStack, Added, Live;
    var s' := Apply(s, op);
    match op {
      case Count =>
      case Update(refs, stances) =>
        forall j | 0 <= j < |s'.stack| && s'.stack[j].threadId == id
          ensures s'.stack[j].depth == AtMostOne(d + if id in stances then 0.2 else 0.1)
        {
          var i := UpdateLaw(s, refs, stances, j);
        }
      case Add(other) =>
        AddShaped(s.stack, other, s.turn);
        BaseIsPart(s.stack);
        hide Base;
        var all := Base(s.stack) + [NewEntry(other, s.turn, false)];
        forall j | 0 <= j < |s'.stack| && s'.stack[j].threadId == id ensures s'.stack[j].depth == d {
          assert s'.stack[j] == all[j].(state := s'.stack[j].state);
          assert s'.stack[j].threadId == all[j].threadId && all[j].depth == s'.stack[j].depth;
          assert all[j] in s.stack;
        }
    }
  }

  lemma StepStaysSteady(s: Session, op: Op)
    requires Steady(s) && Allowed(s, op)
    ensures Steady(Apply(s, op))
  {
    hide Live, OneForeground, UpdatedStack, Added;
    match op {
      case Count =>
      case Update(refs, stances) => UpdateKeeps(s, refs, stances);
      case Add(id) => AddKeeps(s, id);
    }
  }

  /** A thread of depth d that every update references, p times without and q times
      with a change of stance, has depth d + 0.1 p + 0.2 q, but no more than 1. */
  lemma {:induction false} ReferencesDeepen(s: Session, ops: seq<Op>, id: string, d: real)
    requires Steady(s) && ValidFrom(s, ops) && KeepReferencing(ops, id) && HasDepth(s.stack, id, d) && d <= 1.0
    ensures HasDepth(ExecFrom(s, ops).stack, id,
                     AtMostOne(d + 0.1 * Times(ops, id, false) as real + 0.2 * Times(ops, id, true) as real))
    decreases |ops|
  {
    hide Steady, Apply, Allowed, HasDepth;
    if ops == [] {
    } else {
      var gain := if !ops[0].Update? then 0.0 else if id in ops[0].stances then 0.2 else 0.1;
      ReferenceDeepens(s, ops[0], id, d);
      StepStaysSteady(s, ops[0]);
      ReferencesDeepen(Apply(s, ops[0]), ops[1..], id, AtMostOne(d + gain));
    }
  }

  // ---- adding ----

  /** A thread added to a stack stands on it with salience 0.5, depth 0 and the turn
      of its addition. */
  lemma AddLaw(s: Session, id: string)
    requires Shaped(s.stack) && !HasId(s.stack, id)
    ensures var r := Apply(s, Add(id)).stack;
            && r != []
            && var e := r[|r| - 1];
               e.threadId == id && e.salience == 0.5 && e.depth == 0.0 && !e.isFloating
               && e.lastTouched == s.turn == e.enteredTurn
  {
    AddShaped(s.stack, id, s.turn);
    hide Added, Base;
    var all, r := Base(s.stack) + [NewEntry(id, s.turn, false)], Apply(s, Add(id)).stack;
    assert r[|r| - 1] == all[|r| - 1].(state := r[|r| - 1].state);
  }
}
