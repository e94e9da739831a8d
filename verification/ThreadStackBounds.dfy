/** What the default constants guarantee over unbounded sessions, failed turns and
    added threads included: the stack invariant, and when a referenced thread is
    safe. */
module ThreadStackBounds {
  import opened Prelude
  import opened StableSort
  import opened ThreadStack

  // ---- powers ----

  lemma ScalesDown(b: real, p: real)
    requires 0.0 < b < 1.0 && 0.0 < p <= 1.0
    ensures 0.0 < b * p <= p && b * p <= b
  {
  }

  lemma {:induction false} PowUnit(b: real, n: nat)
    requires 0.0 < b < 1.0
    ensures 0.0 < PowNat(b, n) <= 1.0
    ensures n > 0 ==> PowNat(b, n) <= b
  {
    if n == 0 {
    } else {
      PowUnit(b, n - 1);
      ScalesDown(b, PowNat(b, n - 1));
      assert PowNat(b, n) == b * PowNat(b, n - 1);
    }
  }

  lemma {:induction false} PowFalls(b: real, m: nat, n: nat)
    requires 0.0 < b < 1.0 && m <= n
    ensures PowNat(b, n) <= PowNat(b, m)
    decreases n
  {
    if m == n {
    } else {
      PowFalls(b, m, n - 1);
      PowUnit(b, n - 1);
      ScalesDown(b, PowNat(b, n - 1));
      calc {
        PowNat(b, n);
        b * PowNat(b, n - 1);
      <= PowNat(b, n - 1);
      <= PowNat(b, m);
      }
    }
  }

  lemma {:induction false} PowAdds(b: real, m: nat, n: nat)
    ensures PowNat(b, m + n) == PowNat(b, m) * PowNat(b, n)
    decreases n
  {
    if n == 0 {
    } else {
      PowAdds(b, m, n - 1);
      var p, q := PowNat(b, m), PowNat(b, n - 1);
      assert b * (p * q) == p * (b * q);
    }
  }

  lemma Powers085()
    ensures PowNat(0.85, 6) > 0.377
    ensures 0.3205 < PowNat(0.85, 7) < 0.3206
    ensures PowNat(0.85, 8) < 0.2726
    ensures 0.0536 < PowNat(0.85, 18) < 0.0537
  {
    assert PowNat(0.85, 3) == 0.614125;
    PowAdds(0.85, 3, 3);
    assert PowNat(0.85, 6) == 0.377149515625;
    PowAdds(0.85, 6, 6);
    PowAdds(0.85, 12, 6);
    assert PowNat(0.85, 7) == 0.85 * PowNat(0.85, 6);
    assert PowNat(0.85, 8) == 0.85 * PowNat(0.85, 7);
  }

  lemma Powers095()
    ensures 0.3972 < PowNat(0.95, 18)
    ensures PowNat(0.95, 19) < 0.3774
  {
    assert PowNat(0.95, 3) == 0.857375;
    PowAdds(0.95, 3, 3);
    assert PowNat(0.95, 6) == 0.735091890625;
    PowAdds(0.95, 6, 6);
    PowAdds(0.95, 12, 6);
  }

  /** Salience `k` turns after the last touch at depth `d`, by the defaults. */
  function Formula(k: nat, d: real): real {
    0.6 * (0.2 + 0.8 * PowNat(0.85, k)) + 0.4 * d
  }

  // ---- the stack over a session ----

  /** A turn is counted before anything can fail and updates the stack once it has
      its response: a failed turn is a count that no update follows. Threads may
      be added at any time. */
  datatype Op = Count | Update(refs: set<string>, stances: set<string>) | Add(id: string)

  /** `updated` is the last turn that updated the stack. */
  datatype Session = Session(stack: seq<Entry>, turn: int, updated: int)

  predicate HasId(stack: seq<Entry>, id: string) {
    exists i :: 0 <= i < |stack| && stack[i].threadId == id
  }

  predicate DistinctIds(stack: seq<Entry>) {
    forall i, j :: 0 <= i < j < |stack| ==> stack[i].threadId != stack[j].threadId
  }

  function Apply(s: Session, op: Op): Session {
    match op
    case Count => s.(turn := s.turn + 1)
    case Update(refs, stances) => Session(UpdatedStack(s.stack, s.turn, refs, stances, DEFAULTS), s.turn, s.turn)
    case Add(id) => s.(stack := Added(s.stack, id, s.turn))
  }

  /** A turn updates the stack at most once, and only threads not yet on the stack
      are added. */
  predicate Allowed(s: Session, op: Op) {
    match op
    case Count => true
    case Update(_, _) => s.updated < s.turn
    case Add(id) => !HasId(s.stack, id)
  }

  predicate ValidFrom(s: Session, ops: seq<Op>)
    decreases |ops|
  {
    ops == [] || (Allowed(s, ops[0]) && ValidFrom(Apply(s, ops[0]), ops[1..]))
  }

  function ExecFrom(s: Session, ops: seq<Op>): Session
    decreases |ops|
  {
    if ops == [] then s else ExecFrom(Apply(s, ops[0]), ops[1..])
  }

  /** A session that begins with an empty stack. */
  function Empty(turn: int): Session {
    Session([], turn, turn)
  }

  lemma {:induction false} RunsCompose(s: Session, a: seq<Op>, b: seq<Op>)
    ensures ExecFrom(s, a + b) == ExecFrom(ExecFrom(s, a), b)
    ensures ValidFrom(s, a + b) <==> ValidFrom(s, a) && ValidFrom(ExecFrom(s, a), b)
    decreases |a|
  {
    hide Apply, Allowed;
    if a == [] {
      assert a + b == b;
    } else {
      assert (a + b)[1..] == a[1..] + b;
      RunsCompose(Apply(s, a[0]), a[1..], b);
    }
  }

  // ---- live entries ----

  /** What holds of every entry on the stack when `updated` was the last turn to
      update it: it was touched or added then or later, or its salience is given
      by the formula. */
  ghost predicate Live(e: Entry, updated: int) {
    && 0.0 <= e.depth <= 1.0
    && 0.3 <= e.salience <= 1.0
    && !e.isFloating
    && (e.lastTouched >= updated || e.salience == Formula(updated - e.lastTouched, e.depth))
  }

  /** An update after any number of failed turns leaves salience in [0.12, 1], and
      the entry live if it is not dropped. */
  lemma LiveUpdate(e: Entry, updated: int, turn: int, referenced: bool, stance: bool)
    requires Live(e, updated) && e.lastTouched <= turn
    ensures var e' := Updated(e, turn, referenced, stance, DEFAULTS);
            && 0.12 <= e'.salience <= 1.0
            && (e'.salience >= 0.3 ==> Live(e', turn) && e'.lastTouched <= turn)
  {
    PowUnit(0.85, turn - e.lastTouched);
  }

  /** If no turn has failed since the last update, a referenced thread reaches the
      threshold. */
  lemma ReferencedNextTurn(e: Entry, updated: int, stance: bool)
    requires Live(e, updated) && e.lastTouched <= updated + 1
    ensures Updated(e, updated + 1, true, stance, DEFAULTS).salience >= 0.3
  {
    var k := updated + 1 - e.lastTouched;
    PowUnit(0.85, k);
    if k > 1 {
      assert PowNat(0.85, k) == 0.85 * PowNat(0.85, k - 1);
      PowUnit(0.85, k - 1);
    } else {
      assert k == 1 ==> PowNat(0.85, k) == 0.85 * PowNat(0.85, 0);
    }
  }

  /** What a reference adds to the depth. */
  function Boost(stance: bool): real {
    if stance then 0.2 else 0.1
  }

  /** When a thread last touched `k` turns ago at depth `d` withstands a reference. */
  predicate Withstands(d: real, k: nat, stance: bool) {
    0.48 * PowNat(0.85, k) >= 0.18 - 0.4 * (d + Boost(stance))
  }

  /** The exact condition for one entry, whatever its salience was. */
  lemma ReferencedIff(e: Entry, turn: int, stance: bool)
    requires 0.0 <= e.depth <= 1.0 && e.lastTouched <= turn
    ensures Updated(e, turn, true, stance, DEFAULTS).salience >= 0.3
            <==> Withstands(e.depth, turn - e.lastTouched, stance)
  {
    PowUnit(0.85, turn - e.lastTouched);
  }

  /** Up to seven turns after its last touch every entry withstands a reference,
      and from depth 0.35 on at any time; eight turns after, not one of depth 0. */
  lemma WithstandsBounds(d: real, k: nat, stance: bool)
    requires 0.0 <= d <= 1.0
    ensures k <= 7 || d >= 0.35 ==> Withstands(d, k, stance)
    ensures !Withstands(0.0, 8, false)
  {
    Powers085();
    PowUnit(0.85, k);
    if k <= 7 {
      PowFalls(0.85, k, 7);
    }
  }

  // ---- states ----

  ghost predicate OnlyForeground(stack: seq<Entry>, top: nat) {
    && top < |stack|
    && forall i :: 0 <= i < |stack| ==>
         (stack[i].state == Foreground <==> i == top) && stack[i].salience <= stack[top].salience
  }

  /** Exactly one entry is foreground, and no entry is more salient. */
  ghost predicate OneForeground(stack: seq<Entry>) {
    stack != [] ==> exists top: nat :: OnlyForeground(stack, top)
  }

  lemma TopHasMaximum(stack: seq<Entry>)
    requires stack != []
    ensures forall i :: 0 <= i < |stack| ==> stack[i].salience <= stack[Ranking(Saliences(stack))[0]].salience
  {
    var sal := Saliences(stack);
    RankingIsStableSort(sal);
    var r := Ranking(sal);
    forall i | 0 <= i < |stack| ensures stack[i].salience <= stack[r[0]].salience {
      assert i in r;
      var a :| 0 <= a < |r| && r[a] == i;
      assert a > 0 ==> Outranks(sal, r[0], r[a]);
    }
  }

  /** Assigning states changes nothing but states, and makes the first most
      salient entry the only foreground one. */
  lemma StatesAssigned(stack: seq<Entry>)
    requires forall i :: 0 <= i < |stack| ==> !stack[i].isFloating
    ensures var r := WithStates(stack);
            && |r| == |stack| && OneForeground(r)
            && forall i :: 0 <= i < |r| ==> r[i] == stack[i].(state := r[i].state)
  {
    hide Ranking;
    if stack != [] {
      TopHasMaximum(stack);
      assert OnlyForeground(WithStates(stack), Ranking(Saliences(stack))[0]);
    }
  }

  lemma StatesKeepRest(stack: seq<Entry>)
    ensures |WithStates(stack)| == |stack|
    ensures forall i :: 0 <= i < |stack| ==> WithStates(stack)[i] == stack[i].(state := WithStates(stack)[i].state)
  {
  }

  // ---- the shape of the stack ----

  predicate Shaped(stack: seq<Entry>) {
    |stack| <= 2 && DistinctIds(stack)
  }

  lemma {:induction false} KeptShaped(stack: seq<Entry>, turn: int, refs: set<string>, stances: set<string>)
    requires DistinctIds(stack)
    ensures var r := Kept(stack, turn, refs, stances, DEFAULTS);
            |r| <= |stack| && DistinctIds(r) && forall i :: 0 <= i < |r| ==> HasId(stack, r[i].threadId)
    decreases |stack|
  {
    if stack == [] {
    } else {
      var k := |stack| - 1;
      KeptShaped(stack[..k], turn, refs, stances);
      var init := Kept(stack[..k], turn, refs, stances, DEFAULTS);
      forall i | 0 <= i < |init|
        ensures init[i].threadId != stack[k].threadId && HasId(stack, init[i].threadId)
      {
        var j :| 0 <= j < k && stack[..k][j].threadId == init[i].threadId;
        assert stack[j].threadId != stack[k].threadId;
      }
    }
  }

  lemma UpdateShaped(stack: seq<Entry>, turn: int, refs: set<string>, stances: set<string>)
    requires Shaped(stack)
    ensures var kept := Kept(stack, turn, refs, stances, DEFAULTS);
            var r := UpdatedStack(stack, turn, refs, stances, DEFAULTS);
            && |r| == |kept| && Shaped(r)
            && forall i :: 0 <= i < |r| ==> r[i] == kept[i].(state := r[i].state) && HasId(stack, r[i].threadId)
  {
    KeptShaped(stack, turn, refs, stances);
    var kept := Kept(stack, turn, refs, stances, DEFAULTS);
    StatesKeepRest(kept);
    var r := WithStates(kept);
    assert forall i :: 0 <= i < |r| ==> r[i].threadId == kept[i].threadId;
  }

  lemma BaseIsPart(stack: seq<Entry>)
    requires Shaped(stack)
    ensures |Base(stack)| <= 1
    ensures forall i :: 0 <= i < |Base(stack)| ==> Base(stack)[i] in stack && HasId(stack, Base(stack)[i].threadId)
  {
    hide Ranking;
  }

  lemma AddedIsBasePlus(stack: seq<Entry>, id: string, turn: int)
    ensures Added(stack, id, turn) == WithStates(Base(stack) + [NewEntry(id, turn, false)])
  {
    hide WithStates, Ranking;
  }

  /** Ids stay distinct exactly if the added one is not among those that stay. */
  lemma AddDistinctIff(stack: seq<Entry>, e: Entry)
    requires Shaped(stack)
    ensures DistinctIds(Base(stack) + [e]) <==> !HasId(Base(stack), e.threadId)
  {
    BaseIsPart(stack);
    hide Base;
    var all := Base(stack) + [e];
    if |Base(stack)| == 1 {
      assert all[0] == Base(stack)[0] && all[1] == e;
    }
  }

  /** Adding a fresh thread. */
  lemma AddShaped(stack: seq<Entry>, id: string, turn: int)
    requires Shaped(stack) && !HasId(stack, id)
    ensures var r, all := Added(stack, id, turn), Base(stack) + [NewEntry(id, turn, false)];
            && Shaped(r) && |r| == |all|
            && forall i :: 0 <= i < |r| ==> r[i] == all[i].(state := r[i].state)
  {
    hide Added, Base, WithStates;
    var e := NewEntry(id, turn, false);
    AddedIsBasePlus(stack, id, turn);
    BaseIsPart(stack);
    AddDistinctIff(stack, e);
    StatesKeepRest(Base(stack) + [e]);
    var r, all := Added(stack, id, turn), Base(stack) + [e];
    assert forall i :: 0 <= i < |r| ==> r[i].threadId == all[i].threadId;
  }

  // ---- the stack invariant ----

  ghost predicate AllLive(stack: seq<Entry>, turn: int, updated: int) {
    forall i :: 0 <= i < |stack| ==> Live(stack[i], updated) && stack[i].lastTouched <= turn
  }

  ghost predicate Steady(s: Session) {
    s.updated <= s.turn && Shaped(s.stack) && AllLive(s.stack, s.turn, s.updated)
  }

  ghost predicate StackInv(s: Session) {
    Steady(s) && OneForeground(s.stack)
  }

  lemma {:induction false} KeptLive(
      stack: seq<Entry>, turn: int, updated: int, refs: set<string>, stances: set<string>)
    requires AllLive(stack, turn, updated)
    ensures AllLive(Kept(stack, turn, refs, stances, DEFAULTS), turn, turn)
    decreases |stack|
  {
    if stack == [] {
    } else {
      hide Updated, Live;
      var k := |stack| - 1;
      KeptLive(stack[..k], turn, updated, refs, stances);
      LiveUpdate(stack[k], updated, turn, stack[k].threadId in refs, stack[k].threadId in stances);
      assert AllLive(Kept(stack[..k], turn, refs, stances, DEFAULTS), turn, turn);
    }
  }

  /** States do not matter to being live or distinct. */
  lemma StatesKeepInv(stack: seq<Entry>, turn: int, updated: int)
    requires updated <= turn && Shaped(stack) && AllLive(stack, turn, updated)
    ensures StackInv(Session(WithStates(stack), turn, updated))
  {
    StatesAssigned(stack);
    var r := WithStates(stack);
    forall i | 0 <= i < |r|
      ensures Live(r[i], updated) && r[i].lastTouched <= turn && r[i].threadId == stack[i].threadId
    {
      assert Live(stack[i], updated);
    }
  }

  lemma CountKeeps(s: Session)
    requires StackInv(s)
    ensures StackInv(Apply(s, Count))
  {
  }

  lemma UpdateKeeps(s: Session, refs: set<string>, stances: set<string>)
    requires Steady(s)
    ensures StackInv(Apply(s, Update(refs, stances)))
  {
    hide Live, Kept, WithStates, HasId, OneForeground;
    KeptLive(s.stack, s.turn, s.updated, refs, stances);
    KeptShaped(s.stack, s.turn, refs, stances);
    StatesKeepInv(Kept(s.stack, s.turn, refs, stances, DEFAULTS), s.turn, s.turn);
  }

  lemma AddKeeps(s: Session, id: string)
    requires Steady(s) && !HasId(s.stack, id)
    ensures StackInv(Apply(s, Add(id)))
  {
    hide Added, Base, WithStates, OneForeground;
    var e := NewEntry(id, s.turn, false);
    AddedIsBasePlus(s.stack, id, s.turn);
    BaseIsPart(s.stack);
    AddDistinctIff(s.stack, e);
    var all := Base(s.stack) + [e];
    forall i | 0 <= i < |all| ensures Live(all[i], s.updated) && all[i].lastTouched <= s.turn {
      if i < |Base(s.stack)| {
        var j :| 0 <= j < |s.stack| && s.stack[j] == all[i];
        assert Live(s.stack[j], s.updated);
      }
    }
    StatesKeepInv(all, s.turn, s.updated);
  }

  lemma OpKeeps(s: Session, op: Op)
    requires StackInv(s) && Allowed(s, op)
    ensures StackInv(Apply(s, op))
  {
    match op {
      case Count => CountKeeps(s);
      case Update(refs, stances) => UpdateKeeps(s, refs, stances);
      case Add(id) => AddKeeps(s, id);
    }
  }

  lemma {:induction false} InvHolds(s: Session, ops: seq<Op>)
    requires StackInv(s) && ValidFrom(s, ops)
    ensures StackInv(ExecFrom(s, ops))
    decreases |ops|
  {
    hide StackInv, Apply;
    if ops == [] {
    } else {
      OpKeeps(s, ops[0]);
      InvHolds(Apply(s, ops[0]), ops[1..]);
    }
  }

  lemma EmptyInv(turn: int)
    ensures StackInv(Empty(turn))
  {
  }

  /** Starting empty, any sequence of turns, failed turns and additions of fresh
      threads keeps at most two entries with distinct ids, exactly one foreground
      entry, of maximal salience, and salience between 0.3 and 1. */
  lemma StackInvariant(turn: int, ops: seq<Op>)
    requires ValidFrom(Empty(turn), ops)
    ensures var stack := ExecFrom(Empty(turn), ops).stack;
            && |stack| <= 2 && DistinctIds(stack) && OneForeground(stack)
            && forall i :: 0 <= i < |stack| ==> 0.3 <= stack[i].salience <= 1.0 && 0.0 <= stack[i].depth <= 1.0
  {
    hide ExecFrom, ValidFrom;
    EmptyInv(turn);
    InvHolds(Empty(turn), ops);
  }

  // ---- the selection made by one update, for any stack and any constants ----

  lemma PickTwo<T>(s: seq<T>, i: nat, j: nat)
    requires i < |s| && j < |s| && i != j
    ensures multiset([s[i], s[j]]) <= multiset(s)
  {
    var lo, hi := if i < j then i else j, if i < j then j else i;
    assert s[..hi][lo] in multiset(s[..hi]);
    assert s == s[..hi] + [s[hi]] + s[hi + 1..];
  }

  lemma OnlyOnce(stack: seq<Entry>, i: nat)
    requires i < |stack| && forall j :: 0 <= j < |stack| && j != i ==> stack[j] != stack[i]
    ensures multiset(stack)[stack[i]] == 1
  {
    assert stack == stack[..i] + [stack[i]] + stack[i + 1..];
    assert stack[i] !in stack[..i] && stack[i] !in stack[i + 1..];
    assert multiset(stack[..i])[stack[i]] == 0 && multiset(stack[i + 1..])[stack[i]] == 0;
  }

  /** If the best entry is still left over after removing two, it occurs again
      and its twin has its salience. */
  lemma TwinIsNext(stack: seq<Entry>, rank: seq<nat>, y: Entry)
    requires |stack| > 2 && rank == Ranking(Saliences(stack)) && y == stack[rank[0]]
    requires y in multiset(stack) - multiset([stack[rank[0]], stack[rank[1]]])
    ensures y.salience <= stack[rank[1]].salience
  {
    var sal := Saliences(stack);
    RankingIsStableSort(sal);
    if stack[rank[1]].salience < y.salience {
      forall j | 0 <= j < |stack| && j != rank[0] ensures stack[j] != y {
        assert j in rank;
        var a :| 0 <= a < |rank| && rank[a] == j;
        assert a > 1 ==> Outranks(sal, rank[1], rank[a]);
      }
      OnlyOnce(stack, rank[0]);
      assert false;
    }
  }

  /** The cap keeps a top-two selection: nothing left out is more salient than
      anything kept. */
  lemma CapSelectsTopTwo(stack: seq<Entry>)
    ensures var r := Capped(stack);
            && |r| == (if |stack| < 2 then |stack| else 2)
            && multiset(r) <= multiset(stack)
            && forall x, y :: x in r && y in multiset(stack) - multiset(r) ==> y.salience <= x.salience
  {
    if |stack| > 2 {
      var sal := Saliences(stack);
      var rank := Ranking(sal);
      RankingIsStableSort(sal);
      assert Outranks(sal, rank[0], rank[1]);
      PickTwo(stack, rank[0], rank[1]);
      var rest := multiset(stack) - multiset(Capped(stack));
      forall y | y in rest ensures y.salience <= stack[rank[1]].salience {
        assert y in multiset(stack);
        assert y in stack;
        var j :| 0 <= j < |stack| && stack[j] == y;
        assert j in rank;
        var a :| 0 <= a < |rank| && rank[a] == j;
        if a > 1 { assert Outranks(sal, rank[1], rank[a]); }
        if a == 0 { TwinIsNext(stack, rank, y); }
      }
    }
  }

  /** Of more than two entries the cap keeps the most salient and the next, in that
      order; among equally salient ones those further up the stack. */
  lemma CapPicks(stack: seq<Entry>) returns (i: nat, j: nat)
    requires |stack| > 2
    ensures i < |stack| && j < |stack| && i != j && Capped(stack) == [stack[i], stack[j]]
    ensures forall k :: 0 <= k < |stack| && k != i ==>
              stack[k].salience < stack[i].salience || (stack[k].salience == stack[i].salience && i < k)
    ensures forall k :: 0 <= k < |stack| && k != i && k != j ==>
              stack[k].salience < stack[j].salience || (stack[k].salience == stack[j].salience && j < k)
  {
    var sal := Saliences(stack);
    var rank := Ranking(sal);
    RankingIsStableSort(sal);
    i, j := rank[0], rank[1];
    hide Ranking;
    forall k | 0 <= k < |stack| && k != i
      ensures sal[k] == stack[k].salience && Outranks(sal, i, k)
      ensures k != j ==> Outranks(sal, j, k)
    {
      assert k in rank;
      var a :| 0 <= a < |rank| && rank[a] == k;
      if a > 0 { assert Outranks(sal, rank[0], rank[a]); }
      if a > 1 { assert Outranks(sal, rank[1], rank[a]); }
    }
  }

  /** An entry that does not float is in the foreground exactly if it is more salient
      than all others, or the first of the most salient; states are all that changes,
      and not those of floating entries. */
  lemma ForegroundIff(stack: seq<Entry>, i: nat)
    requires i < |stack|
    ensures |WithStates(stack)| == |stack|
    ensures WithStates(stack)[i] == stack[i].(state := WithStates(stack)[i].state)
    ensures stack[i].isFloating ==> WithStates(stack)[i].state == stack[i].state
    ensures !stack[i].isFloating ==>
              (WithStates(stack)[i].state == Foreground <==>
               forall k :: 0 <= k < |stack| && k != i ==>
                 stack[k].salience < stack[i].salience || (stack[k].salience == stack[i].salience && i < k))
  {
    var sal := Saliences(stack);
    var rank := Ranking(sal);
    RankingIsStableSort(sal);
    var top := rank[0];
    forall k | 0 <= k < |stack| && k != top ensures stack[k].salience == sal[k] && Outranks(sal, top, k) {
      assert k in rank;
      var a :| 0 <= a < |rank| && rank[a] == k;
      assert Outranks(sal, rank[0], rank[a]);
    }
    assert i != top ==> stack[top].salience >= stack[i].salience;
  }

  // ---- what an update does to one thread ----

  lemma {:induction false} KeptFinds(stack: seq<Entry>, i: nat, turn: int, refs: set<string>, stances: set<string>)
    returns (j: nat)
    requires i < |stack|
    requires Updated(stack[i], turn, stack[i].threadId in refs, stack[i].threadId in stances, DEFAULTS).salience >= 0.3
    ensures var r := Kept(stack, turn, refs, stances, DEFAULTS);
            var id := stack[i].threadId;
            j < |r| && r[j] == Updated(stack[i], turn, id in refs, id in stances, DEFAULTS)
    decreases |stack|
  {
    var k := |stack| - 1;
    if i == k {
      j := |Kept(stack[..k], turn, refs, stances, DEFAULTS)|;
    } else {
      j := KeptFinds(stack[..k], i, turn, refs, stances);
    }
  }

  lemma {:induction false} KeptOrigin(stack: seq<Entry>, turn: int, refs: set<string>, stances: set<string>, j: nat)
    returns (i: nat)
    requires j < |Kept(stack, turn, refs, stances, DEFAULTS)|
    ensures i < |stack|
    ensures var e := Kept(stack, turn, refs, stances, DEFAULTS)[j];
            && e == Updated(stack[i], turn, stack[i].threadId in refs, stack[i].threadId in stances, DEFAULTS)
            && e.salience >= 0.3
    decreases |stack|
  {
    var k := |stack| - 1;
    if j < |Kept(stack[..k], turn, refs, stances, DEFAULTS)| {
      i := KeptOrigin(stack[..k], turn, refs, stances, j);
    } else {
      i := k;
    }
  }

  lemma UpdatedKeepsId(e: Entry, turn: int, referenced: bool, stance: bool)
    ensures Updated(e, turn, referenced, stance, DEFAULTS).threadId == e.threadId
  {
  }

  /** A thread is on the stack after an update exactly if its new salience reaches
      the threshold. */
  lemma UpdateStaysIff(stack: seq<Entry>, i: nat, turn: int, refs: set<string>, stances: set<string>) returns (j: nat)
    requires Shaped(stack) && i < |stack|
    ensures var id := stack[i].threadId;
            var e' := Updated(stack[i], turn, id in refs, id in stances, DEFAULTS);
            var r := UpdatedStack(stack, turn, refs, stances, DEFAULTS);
            && (HasId(r, id) <==> e'.salience >= 0.3)
            && (e'.salience >= 0.3 ==> j < |r| && r[j] == e'.(state := r[j].state))
  {
    hide UpdatedStack, Kept, Updated;
    var id := stack[i].threadId;
    var e' := Updated(stack[i], turn, id in refs, id in stances, DEFAULTS);
    var r := UpdatedStack(stack, turn, refs, stances, DEFAULTS);
    UpdateShaped(stack, turn, refs, stances);
    UpdatedKeepsId(stack[i], turn, id in refs, id in stances);
    if e'.salience >= 0.3 {
      j := KeptFinds(stack, i, turn, refs, stances);
      assert r[j].threadId == id;
    } else {
      j := 0;
      forall k | 0 <= k < |r| ensures r[k].threadId != id {
        var o := KeptOrigin(stack, turn, refs, stances, k);
        UpdatedKeepsId(stack[o], turn, stack[o].threadId in refs, stack[o].threadId in stances);
        assert o != i;
      }
    }
  }

  // ---- referenced threads ----

  /** In every reachable state a thread referenced by an update stays exactly if it
      withstands the turns since its last touch, failed ones counted. */
  lemma ReferencedStaysIff(turn: int, ops: seq<Op>, i: nat, refs: set<string>, stances: set<string>)
    requires ValidFrom(Empty(turn), ops) && i < |ExecFrom(Empty(turn), ops).stack|
    requires ExecFrom(Empty(turn), ops).stack[i].threadId in refs
    ensures var s := ExecFrom(Empty(turn), ops);
            var e := s.stack[i];
            && e.lastTouched <= s.turn && 0.0 <= e.depth <= 1.0
            && (HasId(Apply(s, Update(refs, stances)).stack, e.threadId)
                <==> Withstands(e.depth, s.turn - e.lastTouched, e.threadId in stances))
  {
    hide ExecFrom, ValidFrom, Withstands, OneForeground, UpdatedStack;
    EmptyInv(turn);
    InvHolds(Empty(turn), ops);
    var s := ExecFrom(Empty(turn), ops);
    assert Live(s.stack[i], s.updated);
    ReferencedIff(s.stack[i], s.turn, s.stack[i].threadId in stances);
    var _ := UpdateStaysIff(s.stack, i, s.turn, refs, stances);
  }

  /** A thread referenced in a turn is never dropped in that turn if no turn has
      failed since the last update of the stack, whatever happened before, earlier
      failed turns included; nor within seven turns of its last touch, even if
      turns failed in between. */
  lemma ReferencedThreadStays(turn: int, ops: seq<Op>, i: nat, refs: set<string>, stances: set<string>)
    requires ValidFrom(Empty(turn), ops) && i < |ExecFrom(Empty(turn), ops).stack|
    requires ExecFrom(Empty(turn), ops).stack[i].threadId in refs
    ensures var s := ExecFrom(Empty(turn), ops);
            s.turn == s.updated + 1 || s.turn - s.stack[i].lastTouched <= 7 ==>
              HasId(Apply(s, Update(refs, stances)).stack, s.stack[i].threadId)
  {
    hide ExecFrom, ValidFrom, Withstands, OneForeground, UpdatedStack;
    EmptyInv(turn);
    InvHolds(Empty(turn), ops);
    var s := ExecFrom(Empty(turn), ops);
    var e := s.stack[i];
    assert Live(e, s.updated);
    ReferencedStaysIff(turn, ops, i, refs, stances);
    ReferencedIff(e, s.turn, e.threadId in stances);
    if s.turn - e.lastTouched <= 7 {
      WithstandsBounds(e.depth, s.turn - e.lastTouched, e.threadId in stances);
    }
    if s.turn == s.updated + 1 {
      ReferencedNextTurn(e, s.updated, e.threadId in stances);
    }
  }
}
