/** How long a thread that is left alone stays on the stack, by the default
    constants, and a run that loses a referenced thread. */
module ThreadLifetimes {
  import opened Prelude
  import opened StableSort
  import opened ThreadStack
  import opened ThreadStackBounds

  // ---- fading ----

  /** Depth after `n` unreferenced updates. */
  function DepthAfter(d: real, n: nat): real {
    if n == 0 then d else DepthAfter(d, n - 1) * 0.95
  }

  lemma {:induction false} DepthBounds(d: real, n: nat)
    requires 0.0 <= d <= 1.0
    ensures 0.0 <= DepthAfter(d, n) <= PowNat(0.95, n) <= 1.0
    ensures DepthAfter(1.0, n) == PowNat(0.95, n) && DepthAfter(0.0, n) == 0.0
  {
    if n == 0 {
    } else {
      DepthBounds(d, n - 1);
    }
  }

  lemma {:induction false} DepthFalls(d: real, m: nat, n: nat)
    requires 0.0 <= d <= 1.0 && m <= n
    ensures DepthAfter(d, n) <= DepthAfter(d, m)
    decreases n
  {
    if m == n {
    } else {
      DepthFalls(d, m, n - 1);
      DepthBounds(d, n - 1);
    }
  }

  /** How an unreferenced thread has aged since its last touch: the turns counted,
      the updates, and the turn of the last update. */
  datatype Age = Age(turns: nat, updates: nat, last: nat)

  const YOUNG := Age(0, 0, 0)

  function Aged(a: Age, op: Op): Age {
    match op
    case Count => a.(turns := a.turns + 1)
    case Update(_, _) => Age(a.turns, a.updates + 1, a.turns)
    case Add(_) => a
  }

  function AgeAfter(a: Age, ops: seq<Op>): Age
    decreases |ops|
  {
    if ops == [] then a else AgeAfter(Aged(a, ops[0]), ops[1..])
  }

  /** Salience of a thread of that age, touched last at depth `d`. */
  function Faded(d: real, a: Age): real {
    Formula(a.last, DepthAfter(d, a.updates))
  }

  /** It has not fallen below the threshold. */
  predicate Alive(d: real, a: Age) {
    a.updates == 0 || Faded(d, a) >= 0.3
  }

  /** `e`, left alone since its last touch. */
  function Stale(e: Entry, a: Age): Entry {
    e.(depth := DepthAfter(e.depth, a.updates), salience := if a.updates == 0 then e.salience else Faded(e.depth, a))
  }

  /** An update is one step of fading, and touching no state. */
  lemma StaleUpdate(e: Entry, a: Age, st: StackState, stance: bool)
    requires 0.0 <= e.depth <= 1.0
    ensures Updated(Stale(e, a).(state := st), e.lastTouched + a.turns, false, stance, DEFAULTS)
            == Stale(e, Age(a.turns, a.updates + 1, a.turns)).(state := st)
  {
    PowUnit(0.85, a.turns);
    DepthBounds(e.depth, a.updates);
    DepthBounds(e.depth, a.updates + 1);
  }

  /** What the count of updates has to do with that of turns. */
  predicate Plausible(touched: int, a: Age, s: Session) {
    && s.turn == touched + a.turns
    && a.updates <= a.last + 1 && a.last <= a.turns
    && (a.updates > 0 ==> s.updated == touched + a.last)
  }

  lemma AgedStep(touched: int, a: Age, s: Session, op: Op)
    requires Plausible(touched, a, s) && Allowed(s, op)
    ensures Plausible(touched, Aged(a, op), Apply(s, op))
    ensures a.last <= Aged(a, op).last && a.updates <= Aged(a, op).updates
  {
    hide UpdatedStack, Added, HasId;
  }

  lemma {:induction false} AgesWell(touched: int, a: Age, s: Session, ops: seq<Op>)
    requires Plausible(touched, a, s) && ValidFrom(s, ops)
    ensures Plausible(touched, AgeAfter(a, ops), ExecFrom(s, ops))
    ensures a.last <= AgeAfter(a, ops).last && a.updates <= AgeAfter(a, ops).updates
    decreases |ops|
  {
    hide Apply, Allowed, Aged, Plausible;
    if ops == [] {
    } else {
      AgedStep(touched, a, s, ops[0]);
      AgesWell(touched, Aged(a, ops[0]), Apply(s, ops[0]), ops[1..]);
    }
  }

  lemma FadingFalls(d: real, a: Age, b: Age)
    requires 0.0 <= d <= 1.0 && a.last <= b.last && a.updates <= b.updates
    ensures Alive(d, b) ==> Alive(d, a)
  {
    PowFalls(0.85, a.last, b.last);
    DepthFalls(d, a.updates, b.updates);
  }

  // ---- a thread left alone ----

  /** No operation references or adds the thread; others may be added. */
  predicate LeavesAlone(op: Op, id: string) {
    match op
    case Count => true
    case Update(refs, _) => id !in refs
    case Add(other) => other != id
  }

  predicate LeftAlone(ops: seq<Op>, id: string)
    decreases |ops|
  {
    ops == [] || (LeavesAlone(ops[0], id) && LeftAlone(ops[1..], id))
  }

  /** The thread is on the stack, and adding another one drops it: there are two
      threads and it is not the one of top rank. */
  predicate Displaces(stack: seq<Entry>, id: string, op: Op) {
    op.Add? && |stack| >= 2 && HasId(stack, id) && stack[Ranking(Saliences(stack))[0]].threadId != id
  }

  predicate Displaced(s: Session, ops: seq<Op>, id: string)
    decreases |ops|
  {
    ops != [] && (Displaces(s.stack, id, ops[0]) || Displaced(Apply(s, ops[0]), ops[1..], id))
  }

  /** The entry `e` of `stack`, up to its state. */
  ghost predicate Holds(stack: seq<Entry>, e: Entry) {
    exists i :: 0 <= i < |stack| && stack[i] == e.(state := stack[i].state)
  }

  lemma HoldsId(stack: seq<Entry>, e: Entry)
    requires Holds(stack, e)
    ensures HasId(stack, e.threadId)
  {
    var i :| 0 <= i < |stack| && stack[i] == e.(state := stack[i].state);
    assert stack[i].threadId == e.threadId;
  }

  /** What an update makes of a thread left alone. */
  lemma UpdateFades(stack: seq<Entry>, e: Entry, a: Age, refs: set<string>, stances: set<string>)
    requires Shaped(stack) && Holds(stack, Stale(e, a)) && 0.0 <= e.depth <= 1.0 && e.threadId !in refs
    ensures var a' := Age(a.turns, a.updates + 1, a.turns);
            var r := UpdatedStack(stack, e.lastTouched + a.turns, refs, stances, DEFAULTS);
            && (HasId(r, e.threadId) <==> Alive(e.depth, a'))
            && (Alive(e.depth, a') ==> Holds(r, Stale(e, a')))
  {
    hide Updated, UpdatedStack, Faded, DepthAfter, HasId, Shaped;
    var i :| 0 <= i < |stack| && stack[i] == Stale(e, a).(state := stack[i].state);
    StaleUpdate(e, a, stack[i].state, e.threadId in stances);
    var j := UpdateStaysIff(stack, i, e.lastTouched + a.turns, refs, stances);
    if Alive(e.depth, Age(a.turns, a.updates + 1, a.turns)) {
      var r := UpdatedStack(stack, e.lastTouched + a.turns, refs, stances, DEFAULTS);
      assert r[j] == Stale(e, Age(a.turns, a.updates + 1, a.turns)).(state := r[j].state);
    }
  }

  /** Adding another thread keeps a thread as it was, or displaces it. */
  lemma AddPassesBy(stack: seq<Entry>, e: Entry, id: string, turn: int)
    requires Shaped(stack) && Holds(stack, e) && !HasId(stack, id) && id != e.threadId
    ensures HasId(Added(stack, id, turn), e.threadId) <==> !Displaces(stack, e.threadId, Add(id))
    ensures !Displaces(stack, e.threadId, Add(id)) ==> Holds(Added(stack, id, turn), e)
  {
    AddShaped(stack, id, turn);
    HoldsId(stack, e);
    hide Added, Ranking;
    var i :| 0 <= i < |stack| && stack[i] == e.(state := stack[i].state);
    var all, r := Base(stack) + [NewEntry(id, turn, false)], Added(stack, id, turn);
    if Displaces(stack, e.threadId, Add(id)) {
      assert r[0].threadId == all[0].threadId && r[1].threadId == all[1].threadId;
    } else {
      var j := if |stack| >= 2 then 0 else i;
      assert all[j].threadId == e.threadId && all[j] in stack;
      var k :| 0 <= k < |stack| && stack[k] == all[j];
      assert k == i;
      assert r[j] == e.(state := r[j].state);
      assert r[j].threadId == e.threadId;
    }
  }

  lemma StaleSame(e: Entry, a: Age)
    ensures Stale(e, a).threadId == e.threadId
    ensures forall turns: nat :: Stale(e, a.(turns := turns)) == Stale(e, a)
    ensures forall turns: nat :: Alive(e.depth, a.(turns := turns)) == Alive(e.depth, a)
  {
  }

  /** One operation on a thread left alone. */
  lemma StepFades(s: Session, e: Entry, a: Age, op: Op)
    requires Shaped(s.stack) && Holds(s.stack, Stale(e, a)) && Plausible(e.lastTouched, a, s)
    requires 0.0 <= e.depth <= 1.0 && Alive(e.depth, a) && Allowed(s, op) && LeavesAlone(op, e.threadId)
    ensures var s', a' := Apply(s, op), Aged(a, op);
            && (HasId(s'.stack, e.threadId) <==> !Displaces(s.stack, e.threadId, op) && Alive(e.depth, a'))
            && (HasId(s'.stack, e.threadId) ==> Holds(s'.stack, Stale(e, a')))
  {
    hide UpdatedStack, Added, Stale, Faded, HasId, Holds, Shaped;
    StaleSame(e, a);
    match op {
      case Count => HoldsId(s.stack, Stale(e, a));
      case Update(refs, stances) => UpdateFades(s.stack, e, a, refs, stances);
      case Add(id) => AddPassesBy(s.stack, Stale(e, a), id, s.turn);
    }
  }

  lemma StepShaped(s: Session, op: Op)
    requires Shaped(s.stack) && Allowed(s, op)
    ensures Shaped(Apply(s, op).stack)
  {
    hide UpdatedStack, Added;
    match op {
      case Count =>
      case Update(refs, stances) => UpdateShaped(s.stack, s.turn, refs, stances);
      case Add(id) => AddShaped(s.stack, id, s.turn);
    }
  }

  /** Nothing but adding it brings a thread back. */
  lemma StepBringsNothing(s: Session, op: Op, id: string)
    requires Shaped(s.stack) && Allowed(s, op) && LeavesAlone(op, id) && !HasId(s.stack, id)
    ensures !HasId(Apply(s, op).stack, id)
  {
    hide UpdatedStack, Added;
    match op {
      case Count =>
      case Update(refs, stances) => UpdateShaped(s.stack, s.turn, refs, stances);
      case Add(other) =>
        AddShaped(s.stack, other, s.turn);
        BaseIsPart(s.stack);
        hide Base;
        var all, r := Base(s.stack) + [NewEntry(other, s.turn, false)], Added(s.stack, other, s.turn);
        assert forall i :: 0 <= i < |r| ==> r[i].threadId == all[i].threadId;
    }
  }

  lemma {:induction false} GoneStaysGone(s: Session, ops: seq<Op>, id: string)
    requires Shaped(s.stack) && ValidFrom(s, ops) && LeftAlone(ops, id) && !HasId(s.stack, id)
    ensures !HasId(ExecFrom(s, ops).stack, id) && !Displaced(s, ops, id)
    decreases |ops|
  {
    hide Apply, Allowed, HasId, Shaped, LeavesAlone;
    if ops == [] {
    } else {
      StepShaped(s, ops[0]);
      StepBringsNothing(s, ops[0], id);
      GoneStaysGone(Apply(s, ops[0]), ops[1..], id);
    }
  }

  /** A thread left alone since its last touch, with other threads added and turns
      failing in between, is on the stack exactly if no addition displaced it and
      its faded salience reaches the threshold. */
  lemma {:induction false} StaysIff(s: Session, e: Entry, a: Age, ops: seq<Op>)
    requires Shaped(s.stack) && Holds(s.stack, Stale(e, a)) && Plausible(e.lastTouched, a, s)
    requires 0.0 <= e.depth <= 1.0 && Alive(e.depth, a) && ValidFrom(s, ops) && LeftAlone(ops, e.threadId)
    ensures var stack, a' := ExecFrom(s, ops).stack, AgeAfter(a, ops);
            && (HasId(stack, e.threadId) <==> !Displaced(s, ops, e.threadId) && Alive(e.depth, a'))
            && (HasId(stack, e.threadId) ==> Holds(stack, Stale(e, a')))
    decreases |ops|
  {
    hide Apply, Allowed, HasId, Shaped, Holds, Stale, Alive, Aged, Displaces, LeavesAlone, Plausible;
    if ops == [] {
      StaleSame(e, a);
      HoldsId(s.stack, Stale(e, a));
    } else {
      StepShaped(s, ops[0]);
      StepFades(s, e, a, ops[0]);
      AgedStep(e.lastTouched, a, s, ops[0]);
      AgesWell(e.lastTouched, Aged(a, ops[0]), Apply(s, ops[0]), ops[1..]);
      if HasId(Apply(s, ops[0]).stack, e.threadId) {
        StaysIff(Apply(s, ops[0]), e, Aged(a, ops[0]), ops[1..]);
      } else {
        GoneStaysGone(Apply(s, ops[0]), ops[1..], e.threadId);
        FadingFalls(e.depth, Aged(a, ops[0]), AgeAfter(a, ops));
      }
    }
  }

  // ---- lifetimes on the stack ----

  /** Within 6 turns of its last touch a thread does not fade below the threshold;
      after 19 updates it has. Both bounds are the best possible: an update in the
      7th turn drops a thread of depth 0, one of depth 1 survives 18. */
  lemma LifetimeBounds(d: real, a: Age)
    requires 0.0 <= d <= 1.0 && a.last <= a.turns && a.updates <= a.last + 1
    ensures a.turns <= 6 ==> Alive(d, a)
    ensures a.updates >= 19 ==> !Alive(d, a)
    ensures !Alive(0.0, Age(7, 7, 7)) && Alive(1.0, Age(18, 18, 18))
  {
    Powers085();
    Powers095();
    DepthBounds(d, a.updates);
    DepthBounds(d, 7);
    DepthBounds(d, 18);
    if a.turns <= 6 {
      PowFalls(0.85, a.last, 6);
    }
    if a.updates >= 19 {
      PowFalls(0.85, 18, a.last);
      PowFalls(0.95, 19, a.updates);
    }
  }

  /** A thread touched this turn and then left alone, while other threads are added
      and turns fail, is on the stack for 6 turns unless an addition displaces it,
      and gone after 19 turns that updated the stack. */
  lemma IdleLifetime(s: Session, i: nat, ops: seq<Op>)
    requires Shaped(s.stack) && i < |s.stack| && s.stack[i].lastTouched == s.turn && 0.0 <= s.stack[i].depth <= 1.0
    requires ValidFrom(s, ops) && LeftAlone(ops, s.stack[i].threadId)
    ensures var stack, id, age := ExecFrom(s, ops).stack, s.stack[i].threadId, AgeAfter(YOUNG, ops);
            && (age.turns <= 6 ==> (HasId(stack, id) <==> !Displaced(s, ops, id)))
            && (age.updates >= 19 ==> !HasId(stack, id))
  {
    hide ExecFrom, ValidFrom, HasId, LeftAlone, Shaped, Displaced, Faded, AgeAfter;
    var e := s.stack[i];
    assert Holds(s.stack, Stale(e, YOUNG)) by { assert s.stack[i] == Stale(e, YOUNG).(state := s.stack[i].state); }
    AgesWell(e.lastTouched, YOUNG, s, ops);
    LifetimeBounds(e.depth, AgeAfter(YOUNG, ops));
    StaysIff(s, e, YOUNG, ops);
  }

  // ---- a run that loses a referenced thread ----

  /** `n` turns that update the stack without referencing anything. */
  function IdleTurns(n: nat): seq<Op> {
    if n == 0 then [] else [Count, Update({}, {})] + IdleTurns(n - 1)
  }

  lemma {:induction false} IdleTurnsAge(s: Session, a: Age, n: nat, id: string)
    requires s.updated <= s.turn
    ensures ValidFrom(s, IdleTurns(n)) && LeftAlone(IdleTurns(n), id) && !Displaced(s, IdleTurns(n), id)
    ensures var s' := ExecFrom(s, IdleTurns(n));
            s'.turn == s.turn + n && (n > 0 ==> s'.updated == s'.turn) && (n == 0 ==> s' == s)
    ensures var a' := AgeAfter(a, IdleTurns(n));
            a'.turns == a.turns + n && a'.updates == a.updates + n && a'.last == if n == 0 then a.last else a.turns + n
    decreases n
  {
    hide UpdatedStack, HasId;
    if n == 0 {
    } else {
      var ops, rest := IdleTurns(n), IdleTurns(n - 1);
      var s1 := Apply(Apply(s, Count), Update({}, {}));
      assert ops[0] == Count && ops[1..][0] == Update({}, {}) && ops[1..][1..] == rest;
      IdleTurnsAge(s1, Aged(Aged(a, Count), Update({}, {})), n - 1, id);
    }
  }

  lemma AddedAlone(id: string)
    ensures var s := Apply(Empty(0), Add(id));
            && |s.stack| == 1 && s.stack[0].threadId == id && s.stack[0].depth == 0.0 && s.stack[0].lastTouched == 0
            && s.turn == 0 == s.updated
  {
    StatesKeepRest([NewEntry(id, 0, false)]);
    assert [] + [NewEntry(id, 0, false)] == [NewEntry(id, 0, false)];
  }

  lemma OneStep(s: Session, op: Op)
    ensures ExecFrom(s, [op]) == Apply(s, op) && (ValidFrom(s, [op]) <==> Allowed(s, op))
  {
    hide Apply, Allowed;
    assert [op][1..] == [];
  }

  lemma TwoCounts(s: Session)
    ensures ValidFrom(s, [Count, Count]) && ExecFrom(s, [Count, Count]) == s.(turn := s.turn + 2)
  {
    assert [Count, Count][1..] == [Count] && [Count][1..] == [];
  }

  /** A thread added at the start and idle for six turns is still there, and has
      not been touched since. */
  lemma SixIdleTurns(id: string)
    ensures var s := Apply(Empty(0), Add(id));
            var t := ExecFrom(s, IdleTurns(6));
            && ValidFrom(s, IdleTurns(6)) && t.turn == 6 == t.updated
            && exists i :: 0 <= i < |t.stack| && t.stack[i].threadId == id
                           && t.stack[i].depth == 0.0 && t.stack[i].lastTouched == 0
  {
    hide ExecFrom, ValidFrom, LeftAlone, Displaced, Faded, AgeAfter, Apply, IdleTurns;
    AddedAlone(id);
    var s := Apply(Empty(0), Add(id));
    var e, t := s.stack[0], ExecFrom(s, IdleTurns(6));
    IdleTurnsAge(s, YOUNG, 6, id);
    LifetimeBounds(0.0, AgeAfter(YOUNG, IdleTurns(6)));
    assert Holds(s.stack, Stale(e, YOUNG)) by { assert s.stack[0] == Stale(e, YOUNG).(state := s.stack[0].state); }
    StaysIff(s, e, YOUNG, IdleTurns(6));
    DepthBounds(0.0, 6);
    var i :| 0 <= i < |t.stack| && t.stack[i] == Stale(e, AgeAfter(YOUNG, IdleTurns(6))).(state := t.stack[i].state);
    assert t.stack[i].threadId == id;
  }

  /** One failed turn can lose a referenced thread: added, idle for six turns, then
      a failed turn, and then a turn that references it. */
  lemma FailedTurnLosesThread(id: string) returns (ops: seq<Op>)
    ensures ValidFrom(Empty(0), ops)
    ensures var s := ExecFrom(Empty(0), ops);
            && s.turn == s.updated + 2 && HasId(s.stack, id)
            && !HasId(Apply(s, Update({id}, {})).stack, id)
  {
    hide ExecFrom, ValidFrom, Apply, IdleTurns, Withstands;
    var s := Apply(Empty(0), Add(id));
    ops := ([Add(id)] + IdleTurns(6)) + [Count, Count];
    SixIdleTurns(id);
    RunsCompose(Empty(0), [Add(id)] + IdleTurns(6), [Count, Count]);
    RunsCompose(Empty(0), [Add(id)], IdleTurns(6));
    OneStep(Empty(0), Add(id));
    var six := ExecFrom(s, IdleTurns(6));
    TwoCounts(six);
    var i :| 0 <= i < |six.stack| && six.stack[i].threadId == id
             && six.stack[i].depth == 0.0 && six.stack[i].lastTouched == 0;
    WithstandsBounds(0.0, 8, false);
    ReferencedStaysIff(0, ops, i, {id}, {});
  }
}
