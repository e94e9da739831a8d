/** The worker empties the queue: with acyclic chaining the number of steps it
    still takes is bounded by a measure, and acyclicity is exactly what it takes. */
module EngineDrain {
  import opened Prelude
  import opened Engine
  import Startup = EngineStartup

  // ---- acyclic chaining ----

  ghost predicate HasNext(reg: Registry, p: string, c: set<string>) {
    exists m :: m in c && reg.Chains(p, m)
  }

  /** Every spec of `c` has a spec of `c` chained after it. */
  ghost predicate Cycle(reg: Registry, c: set<string>) {
    c <= reg.specs.Keys && forall p {:trigger HasNext(reg, p, c)} :: p in c ==> HasNext(reg, p, c)
  }

  /** `trigger_after` has no cycle. */
  ghost predicate Acyclic(reg: Registry) {
    forall c :: Cycle(reg, c) ==> c == {}
  }

  /** The specs below which there is a chain of length `k`. */
  ghost function Level(reg: Registry, k: nat): set<string> {
    if k == 0 then reg.specs.Keys
    else
      var l := Level(reg, k - 1);
      set p | p in l && HasNext(reg, p, l)
  }

  lemma LevelFalls(reg: Registry, k: nat)
    requires Acyclic(reg) && k > 0 && Level(reg, k - 1) <= reg.specs.Keys
    ensures Level(reg, k) <= Level(reg, k - 1)
    ensures Level(reg, k) != {} ==> Level(reg, k) < Level(reg, k - 1)
  {
    var l := Level(reg, k - 1);
    assert Level(reg, k) == l != {} ==> Cycle(reg, l);
  }

  lemma SubsetSmaller(a: set<string>, b: set<string>)
    requires a < b
    ensures |a| < |b|
  {
    assert b == a + (b - a);
    assert a !! (b - a);
  }

  lemma {:induction false} LevelsShrink(reg: Registry, k: nat)
    requires Acyclic(reg)
    ensures Level(reg, k) <= reg.specs.Keys
    ensures Level(reg, k) == {} || |Level(reg, k)| + k <= |reg.specs.Keys|
  {
    hide Acyclic;
    if k == 0 {
    } else {
      LevelsShrink(reg, k - 1);
      LevelFalls(reg, k);
      if Level(reg, k) != {} {
        SubsetSmaller(Level(reg, k), Level(reg, k - 1));
      }
    }
  }

  /** The length of the longest chain below `n`, looking no deeper than `k`. */
  ghost function Height(reg: Registry, n: string, k: nat): (h: nat)
    ensures h <= k
    ensures n in reg.specs ==> n in Level(reg, h)
    ensures forall j :: h < j <= k ==> n !in Level(reg, j)
  {
    if k == 0 then 0
    else if n in Level(reg, k) then k
    else Height(reg, n, k - 1)
  }

  ghost function Rank(reg: Registry, n: string): nat {
    Height(reg, n, |reg.specs.Keys|)
  }

  lemma {:induction false} ParentReaches(reg: Registry, p: string, m: string, k: nat)
    requires reg.Chains(p, m) && p in reg.specs && m in Level(reg, k)
    ensures m in reg.specs && p in Level(reg, k) && p in Level(reg, k + 1)
  {
    if k == 0 {
    } else {
      ParentReaches(reg, p, m, k - 1);
    }
  }

  lemma RankDecreases(reg: Registry, p: string, m: string)
    requires Acyclic(reg) && reg.Chains(p, m) && p in reg.specs
    ensures Rank(reg, m) < Rank(reg, p)
  {
    var n := |reg.specs.Keys|;
    var k := Rank(reg, m);
    ParentReaches(reg, p, m, k);
    LevelsShrink(reg, k + 1);
    assert Level(reg, k + 1) != {};
    assert |Level(reg, k + 1)| >= 1;
  }

  // ---- weights ----

  /** 1 for the spec itself plus the weights of the specs chained after it. */
  ghost function Weight(reg: Registry, n: string): nat
    requires Acyclic(reg)
    decreases Rank(reg, n), |reg.order| + 1
  {
    if n in reg.specs then 1 + ChainedWeight(reg, n, reg.order) else 0
  }

  ghost function ChainedWeight(reg: Registry, p: string, names: seq<string>): nat
    requires Acyclic(reg) && p in reg.specs
    decreases Rank(reg, p), |names|
  {
    if names == [] then 0
    else
      var k := |names| - 1;
      ChainedWeight(reg, p, names[..k]) +
      if reg.Chains(p, names[k]) then RankDecreases(reg, p, names[k]); Weight(reg, names[k]) else 0
  }

  ghost function QueueWeight(reg: Registry, q: seq<Item>): nat
    requires Acyclic(reg)
  {
    if q == [] then 0 else Weight(reg, q[0].specName) + QueueWeight(reg, q[1..])
  }

  ghost function NamesWeight(reg: Registry, names: seq<string>): nat
    requires Acyclic(reg)
    decreases |names|
  {
    if names == [] then 0
    else NamesWeight(reg, names[..|names| - 1]) + Weight(reg, names[|names| - 1])
  }

  ghost function WaitWeight(reg: Registry, w: set<string>, names: seq<string>): nat
    requires Acyclic(reg)
  {
    if names == [] then 0
    else (if names[0] in w then Weight(reg, names[0]) else 0) + WaitWeight(reg, w, names[1..])
  }

  /** A bound on the number of runs still to come if nobody else submits: a
      preempted run may be cancelled once. */
  ghost function RunsLeft(reg: Registry, s: State): nat
    requires Acyclic(reg)
  {
    QueueWeight(reg, s.queue) + WaitWeight(reg, s.waiting, reg.order) +
    if s.active.Some? then
      Weight(reg, s.active.value.item.specName) + if s.active.value.preempted then 1 else 0
    else 0
  }

  // ---- how the steps change the weights ----

  lemma {:induction false} InsertWeight(reg: Registry, q: seq<Item>, item: Item)
    requires Acyclic(reg)
    ensures QueueWeight(reg, Insert(q, item)) == QueueWeight(reg, q) + Weight(reg, item.specName)
    decreases |q|
  {
    if q == [] || Before(item, q[0]) {
      assert ([item] + q)[1..] == q;
    } else {
      InsertWeight(reg, q[1..], item);
      assert ([q[0]] + Insert(q[1..], item))[1..] == Insert(q[1..], item);
    }
  }

  lemma {:induction false} EnqueueAllWeight(reg: Registry, s: State, names: seq<string>, cause: Cause)
    requires Acyclic(reg) && s.active.None? && forall n :: n in names ==> n in reg.specs
    ensures var s' := EnqueueAll(reg, s, names, cause);
            && s'.active.None? && s'.waiting == s.waiting
            && QueueWeight(reg, s'.queue) == QueueWeight(reg, s.queue) + NamesWeight(reg, names)
    decreases |names|
  {
    if names == [] {
    } else {
      var k := |names| - 1;
      EnqueueAllWeight(reg, s, names[..k], cause);
      var s1 := EnqueueAll(reg, s, names[..k], cause);
      InsertWeight(reg, s1.queue,
                   Item(reg.specs[names[k]].priority, s1.counter, names[k], ByType(reg.specs[names[k]].trigger)));
    }
  }

  lemma {:induction false} ChainWeight(reg: Registry, s: State, done: string, names: seq<string>, pushes: set<string>)
    requires Acyclic(reg) && s.active.None? && done in reg.specs
    ensures var s' := Chain(reg, s, done, names, pushes);
            && s'.active.None? && s'.waiting == s.waiting
            && QueueWeight(reg, s'.queue) <= QueueWeight(reg, s.queue) + ChainedWeight(reg, done, names)
    decreases |names|
  {
    if names == [] {
    } else {
      var k := |names| - 1;
      ChainWeight(reg, s, done, names[..k], pushes);
      var s1 := Chain(reg, s, done, names[..k], pushes);
      if reg.Chains(done, names[k]) {
        InsertWeight(reg, s1.queue,
                     Item(reg.specs[names[k]].priority, s1.counter, names[k], CompletedAfter(done)));
      }
    }
  }

  lemma {:induction false} DropAbsent(reg: Registry, w: set<string>, x: string, names: seq<string>)
    requires Acyclic(reg) && x !in names
    ensures WaitWeight(reg, w - {x}, names) == WaitWeight(reg, w, names)
    decreases |names|
  {
    if names == [] {
    } else {
      DropAbsent(reg, w, x, names[1..]);
    }
  }

  lemma {:induction false} DropOne(reg: Registry, w: set<string>, x: string, names: seq<string>)
    requires Acyclic(reg) && x in w && x in names && NoDup(names)
    ensures WaitWeight(reg, w - {x}, names) + Weight(reg, x) == WaitWeight(reg, w, names)
    decreases |names|
  {
    if names[0] == x {
      DropAbsent(reg, w, x, names[1..]);
    } else {
      DropOne(reg, w, x, names[1..]);
    }
  }

  lemma {:induction false} DropMany(reg: Registry, w: set<string>, names: seq<string>)
    requires Acyclic(reg) && reg.Valid() && NoDup(names)
    requires forall n :: n in names ==> n in w && n in reg.specs
    ensures WaitWeight(reg, w - (set n | n in names), reg.order) + NamesWeight(reg, names)
            == WaitWeight(reg, w, reg.order)
    decreases |names|
  {
    hide Acyclic, WaitWeight, Weight;
    if names == [] {
      assert w - (set n | n in names) == w;
    } else {
      var k := |names| - 1;
      DropMany(reg, w, names[..k]);
      assert names == names[..k] + [names[k]];
      var w1 := w - (set n | n in names[..k]);
      assert w - (set n | n in names) == w1 - {names[k]};
      DropOne(reg, w1, names[k], reg.order);
    }
  }

  // ---- the worker on its own ----

  predicate WorkerStep(step: Step) {
    step.BeginStep? || step.FinishStep?
  }

  /** The number of worker steps still to come: a run is two steps. */
  ghost function StepsLeft(reg: Registry, s: State): int
    requires Acyclic(reg)
  {
    2 * RunsLeft(reg, s) - if s.active.Some? then 1 else 0
  }

  lemma SuccessLowers(reg: Registry, s: State, names: seq<string>, pushes: set<string>)
    requires reg.Valid() && Acyclic(reg) && Startup.Inv(reg, s, None)
    requires Enabled(reg, s, FinishStep(Success, names, pushes))
    ensures RunsLeft(reg, Finish(reg, s, Success, names, pushes)) < RunsLeft(reg, s)
    ensures Finish(reg, s, Success, names, pushes).active.None?
  {
    var n := s.active.value.item.specName;
    var s1 := Close(reg, s, Success);
    DropMany(reg, s1.waiting, names);
    EnqueueAllWeight(reg, s1.(waiting := s1.waiting - (set n | n in names)), names, Unblocked);
    ChainWeight(reg, Unblock(reg, s1, names, Unblocked), n, reg.order, pushes);
  }

  lemma FinishLowers(reg: Registry, s: State, status: Status, names: seq<string>, pushes: set<string>)
    requires reg.Valid() && Acyclic(reg) && Startup.Inv(reg, s, None)
    requires Enabled(reg, s, FinishStep(status, names, pushes))
    ensures RunsLeft(reg, Finish(reg, s, status, names, pushes)) < RunsLeft(reg, s)
    ensures Finish(reg, s, status, names, pushes).active.None?
  {
    match status
    case Success => SuccessLowers(reg, s, names, pushes);
    case Failure =>
    case Abandoned =>
      var item := s.active.value.item;
      InsertWeight(reg, s.queue, Item(reg.specs[item.specName].priority, s.counter, item.specName, item.trigger));
  }

  lemma WorkerStepLowers(reg: Registry, s: State, step: Step)
    requires reg.Valid() && Acyclic(reg) && Startup.Inv(reg, s, None)
    requires WorkerStep(step) && Enabled(reg, s, step)
    ensures StepsLeft(reg, Apply(reg, s, step)) < StepsLeft(reg, s)
  {
    match step
    case BeginStep =>
    case FinishStep(status, names, pushes) => FinishLowers(reg, s, status, names, pushes);
  }

  lemma {:induction false} DrainFrom(reg: Registry, s: State, more: seq<Step>)
    requires reg.Valid() && Acyclic(reg) && Startup.Inv(reg, s, None)
    requires ValidFrom(reg, s, more) && forall step :: step in more ==> WorkerStep(step)
    ensures Startup.Inv(reg, ExecFrom(reg, s, more), None)
    ensures |more| + StepsLeft(reg, ExecFrom(reg, s, more)) <= StepsLeft(reg, s)
    decreases |more|
  {
    if more == [] {
    } else {
      var k := |more| - 1;
      DrainFrom(reg, s, more[..k]);
      var s1 := ExecFrom(reg, s, more[..k]);
      WorkerStepLowers(reg, s1, more[k]);
      Startup.ApplyKeeps(reg, s1, more[k]);
    }
  }

  /** While something is queued or running the worker can take a step: it never
      gets stuck before the queue is empty. */
  lemma WorkerCanStep(reg: Registry, s: State) returns (step: Step)
    requires reg.Valid() && (s.queue != [] || s.active.Some?)
    ensures WorkerStep(step) && Enabled(reg, s, step)
    ensures s.active.Some? ==> step.FinishStep? && step.status == Success && reg.specs.Keys <= step.pushes
  {
    if s.active.None? {
      step := BeginStep;
    } else {
      var names := EnumerationExists(Released(reg, Close(reg, s, Success), s.active.value.item.specName));
      step := FinishStep(Success, names, reg.specs.Keys);
    }
  }

  // ---- cycles ----

  ghost predicate CycleAlive(reg: Registry, s: State, c: set<string>) {
    exists n :: n in c && Startup.InFlight(s, n)
  }

  lemma SubmitKeepsFlight(reg: Registry, s: State, n: string, trigger: Trigger, cause: Cause, m: string)
    requires Startup.InFlight(s, m)
    ensures Startup.InFlight(Submit(reg, s, n, trigger, cause), m)
  {
    if n in reg.specs {
      Startup.SubmitView(reg, s, n, trigger, cause, m);
    }
  }

  lemma {:induction false} EnqueueAllKeepsFlight(reg: Registry, s: State, names: seq<string>, cause: Cause, m: string)
    requires Startup.InFlight(s, m) && forall n :: n in names ==> n in reg.specs
    ensures Startup.InFlight(EnqueueAll(reg, s, names, cause), m)
    decreases |names|
  {
    if names == [] {
    } else {
      var k := |names| - 1;
      EnqueueAllKeepsFlight(reg, s, names[..k], cause, m);
      var s1 := EnqueueAll(reg, s, names[..k], cause);
      var s2 := s1.(lifecycle := s1.lifecycle[names[k] := Pending]);
      assert Startup.InFlight(s2, m);
      SubmitKeepsFlight(reg, s2, names[k], ByType(reg.specs[names[k]].trigger), cause, m);
    }
  }

  lemma {:induction false} ChainFlight(
      reg: Registry, s: State, done: string, names: seq<string>, pushes: set<string>, m: string)
    requires reg.specs.Keys <= pushes
    requires Startup.InFlight(s, m) || (m in names && reg.Chains(done, m))
    ensures Startup.InFlight(Chain(reg, s, done, names, pushes), m)
    decreases |names|
  {
    if names == [] {
    } else {
      var k := |names| - 1;
      var s1 := Chain(reg, s, done, names[..k], pushes);
      if Startup.InFlight(s, m) || m in names[..k] {
        ChainFlight(reg, s, done, names[..k], pushes, m);
        SubmitKeepsFlight(reg, s1, names[k], CompletedAfter(done), Chained, m);
      } else {
        assert m == names[k];
        Startup.SubmitView(reg, s1, m, CompletedAfter(done), Chained, m);
      }
    }
  }

  lemma FinishKeepsFlight(reg: Registry, s: State, names: seq<string>, pushes: set<string>, n: string)
    requires s.active.Some? && s.active.value.item.specName != n && Startup.InFlight(s, n)
    requires reg.specs.Keys <= pushes && forall m :: m in names ==> m in reg.specs
    ensures Startup.InFlight(Finish(reg, s, Success, names, pushes), n)
  {
    var s1 := Close(reg, s, Success);
    var s2 := s1.(waiting := s1.waiting - (set n | n in names));
    assert Startup.InFlight(s2, n);
    EnqueueAllKeepsFlight(reg, s2, names, Unblocked, n);
    ChainFlight(reg, Unblock(reg, s1, names, Unblocked), s.active.value.item.specName, reg.order, pushes, n);
  }

  lemma BeginKeepsFlight(s: State, n: string)
    requires s.active.None? && s.queue != [] && Startup.InFlight(s, n)
    ensures Startup.InFlight(Begin(s), n)
  {
    assert s.queue == [s.queue[0]] + s.queue[1..];
  }

  /** A successful run of a member of the cycle enqueues another member. */
  lemma CycleSurvives(reg: Registry, s: State, c: set<string>, step: Step)
    requires reg.Valid() && Cycle(reg, c) && CycleAlive(reg, s, c) && WorkerStep(step) && Enabled(reg, s, step)
    requires step.FinishStep? ==> step.status == Success && reg.specs.Keys <= step.pushes
    ensures CycleAlive(reg, Apply(reg, s, step), c)
  {
    var n :| n in c && Startup.InFlight(s, n);
    if step.BeginStep? {
      BeginKeepsFlight(s, n);
    } else if s.active.value.item.specName != n {
      FinishKeepsFlight(reg, s, step.names, step.pushes, n);
    } else {
      assert HasNext(reg, n, c);
      var m :| m in c && reg.Chains(n, m);
      assert m in reg.order;
      ChainFlight(reg, Unblock(reg, Close(reg, s, Success), step.names, Unblocked), n, reg.order, step.pushes, m);
    }
  }

  lemma RunExtends(reg: Registry, s: State, steps: seq<Step>, step: Step)
    requires reg.Valid() && ValidFrom(reg, s, steps) && Enabled(reg, ExecFrom(reg, s, steps), step)
    ensures ValidFrom(reg, s, steps + [step])
    ensures ExecFrom(reg, s, steps + [step]) == Apply(reg, ExecFrom(reg, s, steps), step)
  {
    assert (steps + [step])[..|steps + [step]| - 1] == steps;
  }

  lemma {:induction false} CycleRunsOn(reg: Registry, s: State, c: set<string>, length: nat) returns (more: seq<Step>)
    requires reg.Valid() && Cycle(reg, c) && CycleAlive(reg, s, c)
    ensures |more| == length && ValidFrom(reg, s, more) && forall step :: step in more ==> WorkerStep(step)
    ensures CycleAlive(reg, ExecFrom(reg, s, more), c)
    decreases length
  {
    more := [];
    if length == 0 {
    } else {
      more := CycleRunsOn(reg, s, c, length - 1);
      var s1 := ExecFrom(reg, s, more);
      var step := WorkerCanStep(reg, s1);
      CycleSurvives(reg, s1, c, step);
      RunExtends(reg, s, more, step);
      more := more + [step];
    }
  }

  // ---- main results ----

  /** If nobody else submits and chaining is acyclic, the worker finishes within
      `RunsLeft` runs and as long as anything is left it can take a step: the
      queue is emptied whatever the outcomes of the runs. */
  lemma WorkerDrains(reg: Registry, steps: seq<Step>, more: seq<Step>)
    requires ValidRun(reg, steps) && Acyclic(reg)
    requires ValidFrom(reg, Exec(reg, steps), more) && forall step :: step in more ==> WorkerStep(step)
    ensures |more| <= 2 * RunsLeft(reg, Exec(reg, steps))
    ensures var s := ExecFrom(reg, Exec(reg, steps), more);
            (forall step :: WorkerStep(step) ==> !Enabled(reg, s, step)) ==> s.queue == [] && s.active.None?
  {
    Startup.InvHolds(reg, steps);
    DrainFrom(reg, Exec(reg, steps), more);
    var s := ExecFrom(reg, Exec(reg, steps), more);
    if s.active.Some? {
      assert s.active.value.item.specName in reg.specs;
    }
    if s.queue != [] || s.active.Some? {
      var step := WorkerCanStep(reg, s);
    }
  }

  ghost predicate DrainsWithin(reg: Registry, s: State, bound: nat)
    requires reg.Valid()
  {
    forall more :: ValidFrom(reg, s, more) && (forall step :: step in more ==> WorkerStep(step)) ==> |more| <= bound
  }

  lemma AcyclicDrains(reg: Registry, steps: seq<Step>)
    requires ValidRun(reg, steps) && Acyclic(reg)
    ensures DrainsWithin(reg, Exec(reg, steps), 2 * RunsLeft(reg, Exec(reg, steps)))
  {
    var s := Exec(reg, steps);
    forall more | ValidFrom(reg, s, more) && (forall step :: step in more ==> WorkerStep(step))
      ensures |more| <= 2 * RunsLeft(reg, s)
    {
      WorkerDrains(reg, steps, more);
    }
  }

  /** One outside submission of a member of a cycle keeps the worker busy for as
      long as one likes. */
  lemma CyclicNeverDrains(reg: Registry, c: set<string>, n: string) returns (steps: seq<Step>)
    requires reg.Valid() && Cycle(reg, c) && n in c
    ensures ValidRun(reg, steps)
    ensures forall bound :: !DrainsWithin(reg, Exec(reg, steps), bound)
  {
    steps := [] + [SubmitStep(n, Label("request"))];
    RunExtends(reg, Init(reg), [], SubmitStep(n, Label("request")));
    var s := Exec(reg, steps);
    Startup.SubmitView(reg, Init(reg), n, Label("request"), External, n);
    assert Startup.InFlight(s, n);
    forall bound: nat ensures !DrainsWithin(reg, s, bound) {
      var more := CycleRunsOn(reg, s, c, bound + 1);
    }
  }

  /** Acyclic chaining is exactly the condition under which the worker, left
      alone, has only boundedly many steps to take from every reachable state. */
  lemma DrainsIffAcyclic(reg: Registry)
    requires reg.Valid()
    ensures Acyclic(reg) <==>
            forall steps :: ValidRun(reg, steps) ==> exists bound :: DrainsWithin(reg, Exec(reg, steps), bound)
  {
    if Acyclic(reg) {
      forall steps | ValidRun(reg, steps) ensures exists bound :: DrainsWithin(reg, Exec(reg, steps), bound) {
        AcyclicDrains(reg, steps);
      }
    } else {
      var c :| Cycle(reg, c) && c != {};
      var n :| n in c;
      var steps := CyclicNeverDrains(reg, c, n);
    }
  }
}
