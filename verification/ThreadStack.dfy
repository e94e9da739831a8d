/** The thread stack: salience with exponential decay, a drop threshold, a cap of
    two entries, and states derived from rank. The functions work on values;
    `ThreadStackEntry` objects are updated in place by methods proved against
    them. */
module ThreadStack {
  import opened Prelude
  import opened StableSort

  datatype StackState = Foreground | Peripheral

  datatype Entry = Entry(
    threadId: string,
    state: StackState,
    salience: real,
    depth: real,
    lastTouched: int,
    enteredTurn: int,
    isFloating: bool)

  datatype Config = Config(
    recencyDecay: real,
    recencyFloor: real,
    depthDecay: real,
    boostReference: real,
    boostStance: real,
    recencyWeight: real,
    depthWeight: real,
    dropThreshold: real,
    floatingDepthDecay: real,
    floatingRecencyFloor: real,
    floatingDropThreshold: real,
    floatingMaxTurns: int)

  const DEFAULTS := Config(0.85, 0.20, 0.95, 0.10, 0.20, 0.60, 0.40, 0.30, 0.99, 0.50, 0.05, 200)

  function PowNat(b: real, n: nat): (p: real)
    ensures b != 0.0 ==> p != 0.0
  {
    if n == 0 then 1.0 else b * PowNat(b, n - 1)
  }

  /** `b ** n`; a negative exponent divides. */
  function Pow(b: real, n: int): real
    requires b != 0.0 || n >= 0
  {
    if n >= 0 then PowNat(b, n) else 1.0 / PowNat(b, -n)
  }

  function Min(a: real, b: real): real {
    if b < a then b else a
  }

  /** A power of zero must not have a negative exponent. */
  predicate Computable(e: Entry, turn: int, cfg: Config) {
    cfg.recencyDecay != 0.0 || turn >= e.lastTouched
  }

  function Recency(floor: real, decay: real, turns: int): real
    requires decay != 0.0 || turns >= 0
  {
    floor + (1.0 - floor) * Pow(decay, turns)
  }

  function NewDepth(depth: real, referenced: bool, stance: bool, cfg: Config): real {
    if referenced then Min(1.0, depth + if stance then cfg.boostStance else cfg.boostReference)
    else depth * cfg.depthDecay
  }

  /** The recency used is that from before this turn's touch. */
  function Updated(e: Entry, turn: int, referenced: bool, stance: bool, cfg: Config): Entry
    requires Computable(e, turn, cfg)
  {
    var depth := NewDepth(e.depth, referenced, stance, cfg);
    var recency := Recency(cfg.recencyFloor, cfg.recencyDecay, turn - e.lastTouched);
    e.(depth := depth,
       salience := Min(1.0, cfg.recencyWeight * recency + cfg.depthWeight * depth),
       lastTouched := if referenced then turn else e.lastTouched)
  }

  // ---- ranking ----

  function Saliences(stack: seq<Entry>): seq<real> {
    seq(|stack|, i requires 0 <= i < |stack| => stack[i].salience)
  }

  /** The entry of top rank becomes foreground, the others peripheral; floating
      entries are left alone. */
  function WithStates(stack: seq<Entry>): seq<Entry> {
    if stack == [] then []
    else
      var top := Ranking(Saliences(stack))[0];
      seq(|stack|, i requires 0 <= i < |stack| =>
        if stack[i].isFloating then stack[i]
        else stack[i].(state := if i == top then Foreground else Peripheral))
  }

  /** The entries at or above the threshold after this turn, in stack order. */
  function Kept(stack: seq<Entry>, turn: int, refs: set<string>, stances: set<string>, cfg: Config): seq<Entry>
    requires forall e :: e in stack ==> Computable(e, turn, cfg)
    decreases |stack|
  {
    if stack == [] then []
    else
      var k := |stack| - 1;
      var e := Updated(stack[k], turn, stack[k].threadId in refs, stack[k].threadId in stances, cfg);
      Kept(stack[..k], turn, refs, stances, cfg) + if e.salience >= cfg.dropThreshold then [e] else []
  }

  /** At most two entries: the two of top rank, best first. */
  function Capped(stack: seq<Entry>): seq<Entry> {
    if |stack| <= 2 then stack
    else
      var r := Ranking(Saliences(stack));
      [stack[r[0]], stack[r[1]]]
  }

  function UpdatedStack(stack: seq<Entry>, turn: int, refs: set<string>, stances: set<string>, cfg: Config): seq<Entry>
    requires forall e :: e in stack ==> Computable(e, turn, cfg)
  {
    WithStates(Capped(Kept(stack, turn, refs, stances, cfg)))
  }

  // ---- floating threads ----

  function UpdatedFloat(e: Entry, turn: int, cfg: Config): Entry
    requires Computable(e, turn, cfg)
  {
    var depth := e.depth * cfg.floatingDepthDecay;
    var recency := Recency(cfg.floatingRecencyFloor, cfg.recencyDecay, turn - e.lastTouched);
    e.(depth := depth, salience := cfg.recencyWeight * recency + cfg.depthWeight * depth)
  }

  function UpdatedFloating(floating: seq<Entry>, turn: int, cfg: Config): seq<Entry>
    requires forall e :: e in floating ==> Computable(e, turn, cfg)
    decreases |floating|
  {
    if floating == [] then []
    else
      var k := |floating| - 1;
      var e := UpdatedFloat(floating[k], turn, cfg);
      UpdatedFloating(floating[..k], turn, cfg) +
      if turn - e.lastTouched <= cfg.floatingMaxTurns && e.salience >= cfg.floatingDropThreshold then [e] else []
  }

  // ---- adding ----

  function NewEntry(id: string, turn: int, floating: bool): Entry {
    Entry(id, Foreground, 0.5, 0.0, turn, turn, floating)
  }

  /** The entries that stay when a thread is added: of two or more only the one of
      top rank. */
  function Base(stack: seq<Entry>): seq<Entry> {
    if |stack| >= 2 then [stack[Ranking(Saliences(stack))[0]]] else stack
  }

  function Added(stack: seq<Entry>, id: string, turn: int): seq<Entry> {
    WithStates(Base(stack) + [NewEntry(id, turn, false)])
  }

  // ---- the objects ----

  class ThreadStackEntry {
    const threadId: string
    var state: StackState
    var salience: real
    var engagementDepth: real
    var lastTouchedTurn: int
    const enteredTurn: int
    const isFloating: bool

    ghost function Value(): Entry
      reads this
    {
      Entry(threadId, state, salience, engagementDepth, lastTouchedTurn, enteredTurn, isFloating)
    }

    constructor (id: string, turn: int, floating: bool)
      ensures Value() == NewEntry(id, turn, floating)
    {
      threadId, state, salience, engagementDepth := id, Foreground, 0.5, 0.0;
      lastTouchedTurn, enteredTurn, isFloating := turn, turn, floating;
    }
  }

  ghost function Values(stack: seq<ThreadStackEntry>): (r: seq<Entry>)
    reads stack
    ensures |r| == |stack|
  {
    seq(|stack|, i requires 0 <= i < |stack| reads stack => stack[i].Value())
  }

  method UpdateSalience(entry: ThreadStackEntry, turn: int, referenced: bool, stance: bool, cfg: Config)
    returns (salience: real)
    requires Computable(entry.Value(), turn, cfg)
    modifies entry
    ensures entry.Value() == Updated(old(entry.Value()), turn, referenced, stance, cfg)
    ensures salience == entry.salience <= 1.0
    ensures referenced ==> entry.lastTouchedTurn == turn
    ensures referenced && 0.0 <= cfg.boostReference && 0.0 <= cfg.boostStance && old(entry.engagementDepth) <= 1.0 ==>
              entry.engagementDepth >= old(entry.engagementDepth)
  {
    var turnsSinceTouch := turn - entry.lastTouchedTurn;
    var newDepth: real;
    if referenced {
      var boost := if stance then cfg.boostStance else cfg.boostReference;
      newDepth := Min(1.0, entry.engagementDepth + boost);
    } else {
      newDepth := entry.engagementDepth * cfg.depthDecay;
    }
    var recency := cfg.recencyFloor + (1.0 - cfg.recencyFloor) * Pow(cfg.recencyDecay, turnsSinceTouch);
    salience := Min(1.0, cfg.recencyWeight * recency + cfg.depthWeight * newDepth);
    entry.engagementDepth := newDepth;
    entry.salience := salience;
    if referenced {
      entry.lastTouchedTurn := turn;
    }
  }

  /** The sort key of every entry, read once as `sorted` does. */
  method ReadSaliences(stack: seq<ThreadStackEntry>) returns (sal: seq<real>)
    ensures sal == Saliences(Values(stack))
  {
    sal := [];
    for i := 0 to |stack|
      invariant |sal| == i && forall j :: 0 <= j < i ==> sal[j] == stack[j].salience
    {
      sal := sal + [stack[i].salience];
    }
  }

  method AssignStates(stack: seq<ThreadStackEntry>)
    requires NoDup(stack)
    modifies stack
    ensures Values(stack) == WithStates(old(Values(stack)))
  {
    if stack == [] {
      return;
    }
    ghost var before := Values(stack);
    var sal := ReadSaliences(stack);
    var ranked := Ranking(sal);
    for i := 0 to |stack|
      invariant forall j :: 0 <= j < |stack| ==>
                  stack[j].Value() == if j < i then WithStates(before)[j] else before[j]
    {
      assert stack[i].Value() == before[i];
      if !stack[i].isFloating {
        stack[i].state := if i == ranked[0] then Foreground else Peripheral;
      }
    }
  }

  lemma KeptStep(
      stack: seq<Entry>, i: nat, turn: int, refs: set<string>, stances: set<string>, cfg: Config)
    requires i < |stack| && forall e :: e in stack ==> Computable(e, turn, cfg)
    ensures var e := Updated(stack[i], turn, stack[i].threadId in refs, stack[i].threadId in stances, cfg);
            Kept(stack[..i + 1], turn, refs, stances, cfg)
            == Kept(stack[..i], turn, refs, stances, cfg) + if e.salience >= cfg.dropThreshold then [e] else []
  {
    hide Updated;
    assert stack[..i + 1][..i] == stack[..i];
  }

  /** The first loop of the update: touch or decay every entry, keep those at or
      above the threshold. */
  method UpdateEntries(
      stack: seq<ThreadStackEntry>, turn: int, refs: set<string>, stances: set<string>, cfg: Config)
    returns (kept: seq<ThreadStackEntry>)
    requires NoDup(stack) && forall e :: e in Values(stack) ==> Computable(e, turn, cfg)
    modifies stack
    ensures Values(kept) == Kept(old(Values(stack)), turn, refs, stances, cfg)
    ensures NoDup(kept) && forall e :: e in kept ==> e in stack
  {
    ghost var before := Values(stack);
    kept := [];
    assert Kept([], turn, refs, stances, cfg) == [];
    hide Updated, Kept;
    for i := 0 to |stack|
      invariant forall j :: i <= j < |stack| ==> stack[j].Value() == before[j]
      invariant NoDup(kept) && forall e :: e in kept ==> e in stack[..i]
      invariant Values(kept) == Kept(before[..i], turn, refs, stances, cfg)
    {
      var entry := stack[i];
      assert entry.Value() == before[i] && before[i] in before && entry !in stack[..i] && entry !in kept;
      ghost var was := Values(kept);
      KeptStep(before, i, turn, refs, stances, cfg);
      var salience := UpdateSalience(entry, turn, entry.threadId in refs, entry.threadId in stances, cfg);
      assert Values(kept) == was;
      if salience >= cfg.dropThreshold {
        kept := kept + [entry];
      }
    }
    assert before[..|stack|] == before;
  }

  method DecayFloating(entry: ThreadStackEntry, turn: int, cfg: Config) returns (salience: real)
    requires Computable(entry.Value(), turn, cfg)
    modifies entry
    ensures entry.Value() == UpdatedFloat(old(entry.Value()), turn, cfg) && salience == entry.salience
    ensures entry.lastTouchedTurn == old(entry.lastTouchedTurn)
  {
    var turnsUnresolved := turn - entry.lastTouchedTurn;
    var newDepth := entry.engagementDepth * cfg.floatingDepthDecay;
    var recency := cfg.floatingRecencyFloor
                   + (1.0 - cfg.floatingRecencyFloor) * Pow(cfg.recencyDecay, turnsUnresolved);
    salience := cfg.recencyWeight * recency + cfg.depthWeight * newDepth;
    entry.engagementDepth := newDepth;
    entry.salience := salience;
  }

  method UpdateFloatingEntries(floating: seq<ThreadStackEntry>, turn: int, cfg: Config)
    returns (kept: seq<ThreadStackEntry>)
    requires NoDup(floating) && forall e :: e in Values(floating) ==> Computable(e, turn, cfg)
    modifies floating
    ensures Values(kept) == UpdatedFloating(old(Values(floating)), turn, cfg)
    ensures NoDup(kept) && forall e :: e in kept ==> e in floating
  {
    hide UpdatedFloat;
    ghost var before := Values(floating);
    kept := [];
    for i := 0 to |floating|
      invariant forall j :: i <= j < |floating| ==> floating[j].Value() == before[j]
      invariant NoDup(kept) && forall e :: e in kept ==> e in floating[..i]
      invariant Values(kept) == UpdatedFloating(before[..i], turn, cfg)
    {
      var entry := floating[i];
      assert entry.Value() == before[i] && before[i] in before && entry !in floating[..i];
      assert before[..i + 1][..i] == before[..i];
      var turnsUnresolved := turn - entry.lastTouchedTurn;
      var salience := DecayFloating(entry, turn, cfg);
      assert Values(kept) == UpdatedFloating(before[..i], turn, cfg);
      if turnsUnresolved <= cfg.floatingMaxTurns {
        if salience >= cfg.floatingDropThreshold {
          kept := kept + [entry];
        }
      }
    }
    assert before[..|floating|] == before;
  }

  /** The cap: of more than two entries keep the two of top rank. */
  method CapEntries(stack: seq<ThreadStackEntry>) returns (capped: seq<ThreadStackEntry>)
    requires NoDup(stack)
    ensures Values(capped) == Capped(Values(stack))
    ensures NoDup(capped) && forall e :: e in capped ==> e in stack
  {
    if |stack| <= 2 {
      return stack;
    }
    var sal := ReadSaliences(stack);
    var ranked := Ranking(sal);
    RankingIsStableSort(sal);
    capped := [stack[ranked[0]], stack[ranked[1]]];
  }

  /** What the update does to the stack alone: threshold, cap, states. */
  method UpdateStackEntries(
      stack: seq<ThreadStackEntry>, turn: int, refs: set<string>, stances: set<string>, cfg: Config)
    returns (updated: seq<ThreadStackEntry>)
    requires NoDup(stack) && forall e :: e in Values(stack) ==> Computable(e, turn, cfg)
    modifies stack
    ensures Values(updated) == UpdatedStack(old(Values(stack)), turn, refs, stances, cfg)
    ensures NoDup(updated) && forall e :: e in updated ==> e in stack
  {
    var kept := UpdateEntries(stack, turn, refs, stances, cfg);
    updated := CapEntries(kept);
    forall i | 0 <= i < |updated| ensures updated[i] in stack {
      assert updated[i] in updated && updated[i] in kept;
    }
    AssignStates(updated);
  }

  /** The per-turn update. The lists hold distinct objects, as they do when every
      entry is created by one of the adding methods. */
  method UpdateStack(
      stack: seq<ThreadStackEntry>, floating: seq<ThreadStackEntry>, turn: int,
      refs: set<string>, stances: set<string>, cfg: Config)
    returns (updatedStack: seq<ThreadStackEntry>, updatedFloating: seq<ThreadStackEntry>)
    requires NoDup(stack) && NoDup(floating) && forall e :: e in stack ==> e !in floating
    requires forall e :: e in Values(stack) || e in Values(floating) ==> Computable(e, turn, cfg)
    modifies stack, floating
    ensures Values(updatedStack) == UpdatedStack(old(Values(stack)), turn, refs, stances, cfg)
    ensures Values(updatedFloating) == UpdatedFloating(old(Values(floating)), turn, cfg)
    ensures NoDup(updatedStack) && forall e :: e in updatedStack ==> e in stack
    ensures NoDup(updatedFloating) && forall e :: e in updatedFloating ==> e in floating
  {
    ghost var floatingBefore := Values(floating);
    updatedStack := UpdateStackEntries(stack, turn, refs, stances, cfg);
    forall i | 0 <= i < |floating| ensures floating[i].Value() == floatingBefore[i] {
      assert floating[i] in floating && floating[i] !in stack;
    }
    assert Values(floating) == floatingBefore;
    ghost var stackAfter := Values(updatedStack);
    updatedFloating := UpdateFloatingEntries(floating, turn, cfg);
    forall i | 0 <= i < |updatedStack| ensures updatedStack[i].Value() == stackAfter[i] {
      assert updatedStack[i] in updatedStack && updatedStack[i] !in floating;
    }
  }

  /** A list of entries that its holders share. */
  class ThreadList {
    var entries: seq<ThreadStackEntry>

    constructor (entries: seq<ThreadStackEntry>)
      ensures this.entries == entries
    {
      this.entries := entries;
    }
  }

  /** Of two or more entries keep only the one of top rank, in a new list. */
  method MakeRoom(stack: ThreadList) returns (r: ThreadList)
    requires NoDup(stack.entries)
    ensures Values(r.entries) == Base(Values(stack.entries))
    ensures NoDup(r.entries) && forall e :: e in r.entries ==> e in stack.entries
    ensures if |stack.entries| >= 2 then fresh(r) else r == stack
  {
    r := stack;
    if |stack.entries| >= 2 {
      var sal := ReadSaliences(stack.entries);
      var ranked := Ranking(sal);
      r := new ThreadList([stack.entries[ranked[0]]]);
    }
  }

  /** With two or more entries the result is a new list, and the caller's list stays
      as it was; otherwise it is the caller's list, appended to. */
  method AddThreadToStack(stack: ThreadList, id: string, turn: int) returns (r: ThreadList)
    requires NoDup(stack.entries)
    modifies stack, stack.entries
    ensures Values(r.entries) == Added(old(Values(stack.entries)), id, turn)
    ensures NoDup(r.entries) && forall e :: e in r.entries ==> e in old(stack.entries) || fresh(e)
    ensures if |old(stack.entries)| >= 2 then fresh(r) && stack.entries == old(stack.entries) else r == stack
  {
    hide Base, WithStates;
    var entry := new ThreadStackEntry(id, turn, false);
    assert entry !in stack.entries;
    r := MakeRoom(stack);
    ghost var stay, base := r.entries, Values(r.entries);
    assert entry !in stay;
    r.entries := r.entries + [entry];
    assert Values(r.entries) == base + [NewEntry(id, turn, false)];
    forall i | 0 <= i < |r.entries| ensures r.entries[i] in old(stack.entries) || fresh(r.entries[i]) {
      assert i < |stay| ==> r.entries[i] in stay;
    }
    AssignStates(r.entries);
  }

  /** The caller's list is appended to. */
  method AddFloatingThread(floating: ThreadList, id: string, turn: int) returns (r: ThreadList)
    modifies floating
    ensures r == floating && |r.entries| == |old(floating.entries)| + 1
    ensures r.entries[..|old(floating.entries)|] == old(floating.entries) && fresh(r.entries[|old(floating.entries)|])
    ensures Values(r.entries) == old(Values(floating.entries)) + [NewEntry(id, turn, true)]
  {
    var entry := new ThreadStackEntry(id, turn, true);
    floating.entries := floating.entries + [entry];
    r := floating;
  }
}
