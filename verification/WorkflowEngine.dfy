/** The engine as the object it is: its methods change the fields in place and
    are proved to take the steps of `Engine`. */
module WorkflowEngineObject {
  import opened Prelude
  import opened Engine
  import Startup = EngineStartup
  import History = EngineHistory
  import Drain = EngineDrain
  import P = Preemption

  lemma RegisterValid(reg: Registry, spec: Spec)
    requires reg.Valid()
    ensures var reg' := Registry(if spec.name in reg.specs then reg.order else reg.order + [spec.name],
                                 reg.specs[spec.name := spec]);
            reg'.Valid() && Init(reg') == Init(reg).(lifecycle := Init(reg).lifecycle[spec.name := Pending])
  {
  }

  lemma ChainUnfolds(reg: Registry, s: State, done: string, i: nat, pushes: set<string>)
    requires i < |reg.order|
    ensures var s1 := Chain(reg, s, done, reg.order[..i], pushes);
            var n := reg.order[i];
            Chain(reg, s, done, reg.order[..i + 1], pushes)
            == if reg.Chains(done, n) && (reg.specs[n].pushRequired ==> n in pushes)
               then Submit(reg, s1, n, CompletedAfter(done), Chained) else s1
  {
    assert reg.order[..i + 1][..i] == reg.order[..i];
  }

  lemma EnqueueAllUnfolds(reg: Registry, s: State, names: seq<string>, i: nat, cause: Cause)
    requires i < |names| && forall n :: n in names ==> n in reg.specs
    ensures EnqueueAll(reg, s, names[..i + 1], cause)
            == EnqueueSpec(reg, EnqueueAll(reg, s, names[..i], cause), names[i], cause)
  {
    assert names[..i + 1][..i] == names[..i];
  }

  lemma BeginRunsLeft(reg: Registry, s: State)
    requires Drain.Acyclic(reg) && s.active.None? && s.queue != []
    ensures Drain.RunsLeft(reg, Begin(s)) == Drain.RunsLeft(reg, s)
  {
  }

  /** One run of the worker on its own keeps what its loop relies on. */
  lemma RoundKeeps(reg: Registry, before: State, more: seq<Step>, s0: State, step: Step)
    requires reg.Valid() && Drain.Acyclic(reg) && Startup.Inv(reg, s0, None)
    requires ValidFrom(reg, before, more) && s0 == ExecFrom(reg, before, more)
    requires Enabled(reg, s0, BeginStep) && step.FinishStep? && Enabled(reg, Begin(s0), step)
    ensures var more' := more + [BeginStep] + [step];
            var s' := Apply(reg, Begin(s0), step);
            && ValidFrom(reg, before, more') && s' == ExecFrom(reg, before, more')
            && Startup.Inv(reg, s', None) && Drain.RunsLeft(reg, s') < Drain.RunsLeft(reg, s0)
  {
    Drain.RunExtends(reg, before, more, BeginStep);
    Startup.BeginKeeps(reg, s0);
    Drain.RunExtends(reg, before, more + [BeginStep], step);
    Drain.FinishLowers(reg, Begin(s0), step.status, step.names, step.pushes);
    Startup.ApplyKeeps(reg, Begin(s0), step);
    BeginRunsLeft(reg, s0);
  }

  lemma {:induction false} ChainInactive(reg: Registry, s: State, done: string, names: seq<string>, pushes: set<string>)
    requires s.active.None?
    ensures Chain(reg, s, done, names, pushes).active.None?
    decreases |names|
  {
    if names == [] {
    } else {
      ChainInactive(reg, s, done, names[..|names| - 1], pushes);
    }
  }

  lemma {:induction false} EnqueueAllInactive(reg: Registry, s: State, names: seq<string>, cause: Cause)
    requires s.active.None? && forall n :: n in names ==> n in reg.specs
    ensures EnqueueAll(reg, s, names, cause).active.None?
    decreases |names|
  {
    if names == [] {
    } else {
      EnqueueAllInactive(reg, s, names[..|names| - 1], cause);
    }
  }

  lemma InactiveAfterFinish(reg: Registry, s: State, step: Step)
    requires reg.Valid() && step.FinishStep? && Enabled(reg, s, step)
    ensures Apply(reg, s, step).active.None?
  {
    var s1 := Close(reg, s, step.status);
    if step.status == Success {
      EnqueueAllInactive(reg, s1.(waiting := s1.waiting - (set n | n in step.names)), step.names, Unblocked);
      ChainInactive(reg, Unblock(reg, s1, step.names, Unblocked), s.active.value.item.specName, reg.order, step.pushes);
    }
  }

  lemma ReleasedIgnoresEvaluated(reg: Registry, s: State, k: nat, n: string)
    ensures Released(reg, Skip(s.(evaluated := k), n), n) == Released(reg, Skip(s, n), n)
  {
  }

  /** In what happened after the first `n` happenings, runs ended as `succeeds` says. */
  ghost predicate EndsAsTold(v: seq<History.Happening>, n: nat, succeeds: Item -> bool) {
    forall i :: n <= i < |v| && v[i].Ended? ==> v[i].status == if succeeds(v[i].item) then Success else Failure
  }

  /** One round of the worker adds one ending, that of the item it began. */
  lemma RoundEndsOne(reg: Registry, s: State, step: Step, n: nat, succeeds: Item -> bool)
    requires reg.Valid() && Enabled(reg, s, BeginStep) && step.FinishStep? && Enabled(reg, Begin(s), step)
    requires step.status == if succeeds(s.queue[0]) then Success else Failure
    requires n <= |History.View(s.hist)| && EndsAsTold(History.View(s.hist), n, succeeds)
    ensures var v := History.View(Apply(reg, Begin(s), step).hist);
            History.View(s.hist) <= v && EndsAsTold(v, n, succeeds)
  {
    hide Finish;
    History.StepDoesWhatItShould(reg, s, BeginStep);
    History.StepDoesWhatItShould(reg, Begin(s), step);
  }

  /** Only registered specs are queued or wait. */
  lemma OnlyRegistered(reg: Registry, s: State)
    requires Startup.Inv(reg, s, None)
    ensures s.waiting <= reg.specs.Keys && (s.queue != [] ==> s.queue[0].specName in reg.specs)
  {
    assert s.queue != [] ==> s.queue[0] in s.queue;
  }

  class WorkflowEngine {
    var order: seq<string>
    var specs: map<string, Spec>
    var queue: seq<Item>
    var sequenceCounter: nat
    var lifecycle: map<string, Lifecycle>
    var waiting: set<string>
    var activeCtx: P.PreemptionContext?
    var activeItem: Option<Item>
    var runLog: seq<LogEntry>
    var evaluated: nat
    ghost var hist: seq<Event>

    function Reg(): Registry
      reads this
    {
      Registry(order, specs)
    }

    ghost predicate Coherent()
      reads this
    {
      activeCtx != null <==> activeItem.Some?
    }

    ghost predicate Valid()
      reads this
    {
      Coherent() && Reg().Valid()
    }

    ghost function Now(): State
      reads this, activeCtx
      requires Coherent()
    {
      State(queue, sequenceCounter, lifecycle, waiting,
                   if activeCtx != null then Some(Active(activeItem.value, activeCtx.preemptEvent)) else None,
                   runLog, evaluated, hist)
    }

    constructor ()
      ensures Valid() && Reg() == Registry([], map[]) && Now() == Init(Reg())
    {
      order, specs, queue, sequenceCounter := [], map[], [], 0;
      lifecycle, waiting, activeCtx, activeItem, runLog := map[], {}, null, None, [];
      evaluated, hist := 0, [];
    }

    /** Registering before the start keeps the engine in its initial state; a
        name registered twice keeps its place. */
    method Register(spec: Spec)
      requires Valid() && Now() == Init(Reg())
      modifies this
      ensures Valid() && Now() == Init(Reg())
      ensures specs == old(specs)[spec.name := spec]
      ensures order == if spec.name in old(specs) then old(order) else old(order) + [spec.name]
    {
      hide Init, Registry.Valid;
      RegisterValid(Reg(), spec);
      order := if spec.name in specs then order else order + [spec.name];
      specs := specs[spec.name := spec];
      lifecycle := lifecycle[spec.name := Pending];
    }

    method Submit(name: string, trigger: Trigger, ghost cause: Cause)
      requires Coherent()
      modifies this`queue, this`sequenceCounter, this`hist, activeCtx
      ensures Coherent() && Now() == Engine.Submit(Reg(), old(Now()), name, trigger, cause)
    {
      if name !in specs {
        return;
      }
      var spec := specs[name];
      var seq_ := sequenceCounter;
      sequenceCounter := sequenceCounter + 1;
      var item := Item(spec.priority, seq_, name, trigger);
      queue := Insert(queue, item);
      hist := hist + [Enqueued(item, cause)];
      if activeCtx != null && activeItem.Some? && Reg().PriorityOf(activeItem.value.specName) > spec.priority {
        activeCtx.Preempt();
      }
    }

    method EnqueueSpec(name: string, ghost cause: Cause)
      requires Coherent() && name in specs
      modifies this`queue, this`sequenceCounter, this`hist, this`lifecycle, activeCtx
      ensures Coherent() && Now() == Engine.EnqueueSpec(Reg(), old(Now()), name, cause)
    {
      lifecycle := lifecycle[name := Pending];
      Submit(name, ByType(specs[name].trigger), cause);
    }

    method GetLifecycle(name: string) returns (l: Lifecycle)
      requires Coherent()
      ensures l == LifecycleOf(Now(), name)
    {
      if name in lifecycle {
        l := lifecycle[name];
      } else {
        l := NotNeeded;
      }
    }

    /** The first loop of unblocking: collect the specs waiting for `done`. */
    method TakeReleased(done: string) returns (names: seq<string>)
      requires Coherent() && waiting <= specs.Keys
      modifies this`waiting
      ensures Coherent() && Enumerates(names, Released(Reg(), old(Now()), done))
      ensures Now() == old(Now()).(waiting := old(waiting) - (set n | n in names))
    {
      ghost var before := Now();
      var state := GetLifecycle(done);
      var left := waiting;
      names := [];
      while left != {}
        invariant left <= before.waiting
        invariant waiting == before.waiting - (set n | n in names)
        invariant Enumerates(names, Released(Reg(), before, done) - left)
        decreases left
      {
        var name :| name in left;
        left := left - {name};
        if specs[name].prereq == Some(done) && Resolved(state) {
          waiting := waiting - {name};
          names := names + [name];
        }
      }
    }

    /** The second loop of unblocking: enqueue what was collected. */
    method EnqueueNames(names: seq<string>, ghost cause: Cause)
      requires Coherent() && forall n :: n in names ==> n in specs
      modifies this`queue, this`sequenceCounter, this`hist, this`lifecycle, activeCtx
      ensures Coherent() && Now() == EnqueueAll(Reg(), old(Now()), names, cause)
    {
      ghost var before, reg := Now(), Reg();
      ghost var now := before;
      assert names[..0] == [];
      for i := 0 to |names|
        invariant Reg() == reg && Coherent() && Now() == now
        invariant now == EnqueueAll(reg, before, names[..i], cause)
      {
        hide EnqueueAll, Engine.EnqueueSpec, Now;
        assert names[i] in names;
        EnqueueSpec(names[i], cause);
        EnqueueAllUnfolds(reg, before, names, i, cause);
        now := Engine.EnqueueSpec(reg, now, names[i], cause);
      }
      assert names[..|names|] == names;
    }

    /** Find the specs waiting for `done`, then enqueue them. */
    method UnblockWaiters(done: string, ghost cause: Cause) returns (names: seq<string>)
      requires Coherent() && waiting <= specs.Keys
      modifies this`queue, this`sequenceCounter, this`hist, this`lifecycle, this`waiting, activeCtx
      ensures Coherent() && Enumerates(names, Released(Reg(), old(Now()), done))
      ensures Now() == Unblock(Reg(), old(Now()), names, cause)
    {
      names := TakeReleased(done);
      EnqueueNames(names, cause);
    }

    /** The body of the startup loop for one spec. */
    method EvaluateSpec(name: string, met: bool) returns (names: seq<string>)
      requires Coherent() && name in specs && waiting <= specs.Keys
      modifies this`queue, this`sequenceCounter, this`hist, this`lifecycle, this`waiting, activeCtx
      ensures Coherent() && Enumerates(names, if Reg().IsStartup(name) && !met
                                              then Released(Reg(), Skip(old(Now()), name), name) else {})
      ensures Now() == Engine.EvaluateSpec(Reg(), old(Now()), name, met, names)
    {
      names := [];
      var spec := specs[name];
      if spec.trigger != StartupCondition {
        return;
      }
      if !met {
        lifecycle := lifecycle[name := NotNeeded];
        hist := hist + [Skipped(name)];
        names := UnblockWaiters(name, StartupThread);
        return;
      }
      if spec.prereq.Some? {
        var state := GetLifecycle(spec.prereq.value);
        if !Resolved(state) {
          lifecycle := lifecycle[name := Waiting];
          waiting := waiting + {name};
          return;
        }
      }
      EnqueueSpec(name, StartupThread);
    }

    /** One iteration of the startup loop. */
    method EvaluateNext(met: bool) returns (ghost step: Step)
      requires Valid() && evaluated < |order| && waiting <= specs.Keys
      modifies this`queue, this`sequenceCounter, this`hist, this`lifecycle, this`waiting, this`evaluated, activeCtx
      ensures Valid() && step.EvaluateStep? && step.met == met
      ensures Enabled(Reg(), old(Now()), step) && Now() == Apply(Reg(), old(Now()), step)
    {
      hide Released, Skip, Engine.EvaluateSpec;
      ReleasedIgnoresEvaluated(Reg(), Now(), evaluated + 1, order[evaluated]);
      var name := order[evaluated];
      assert name in order;
      evaluated := evaluated + 1;
      var names := EvaluateSpec(name, met);
      step := EvaluateStep(met, names);
    }

    /** Take the first item and activate a fresh context for it. */
    method BeginRun()
      requires Coherent() && activeCtx == null && queue != []
      requires queue[0].specName in specs
      modifies this`queue, this`hist, this`lifecycle, this`activeCtx, this`activeItem
      ensures Coherent() && Now() == Begin(old(Now())) && activeCtx != null && fresh(activeCtx)
    {
      var item := queue[0];
      queue := queue[1..];
      lifecycle := lifecycle[item.specName := Running];
      activeCtx := new P.PreemptionContext(specs[item.specName].mode);
      activeItem := Some(item);
      hist := hist + [Started(item)];
    }

    method FireChainedTriggers(done: string, pushSignal: set<string>)
      requires Coherent() && forall n :: n in order ==> n in specs
      modifies this`queue, this`sequenceCounter, this`hist, activeCtx
      ensures Coherent() && Now() == Chain(Reg(), old(Now()), done, order, pushSignal)
    {
      ghost var before := Now();
      var i := 0;
      while i < |order|
        invariant 0 <= i <= |order|
        invariant Coherent() && Now() == Chain(Reg(), before, done, order[..i], pushSignal)
      {
        ChainUnfolds(Reg(), before, done, i, pushSignal);
        assert order[i] in order;
        var spec := specs[order[i]];
        if spec.triggerAfter == Some(done) {
          if spec.pushRequired ==> order[i] in pushSignal {
            Submit(order[i], CompletedAfter(done), Chained);
          }
        }
        i := i + 1;
      }
      assert order[..i] == order;
    }

    /** Everything after the workflow function has ended. */
    method FinishRun(status: Status, pushSignal: set<string>) returns (ghost step: Step)
      requires Valid() && activeCtx != null && waiting <= specs.Keys
      requires status == Abandoned ==>
                 activeCtx.preemptEvent && activeItem.value.specName in specs &&
                 specs[activeItem.value.specName].mode == P.Restart
      modifies this, activeCtx
      ensures Valid() && step.FinishStep? && step.status == status && Reg() == old(Reg())
      ensures step.pushes == pushSignal
      ensures Enabled(Reg(), old(Now()), step) && Now() == Apply(Reg(), old(Now()), step)
    {
      hide Unblock, Chain, Released;
      ghost var before := Now();
      var item := activeItem.value;
      if status == Abandoned {
        Submit(item.specName, item.trigger, Requeued);
      }
      activeCtx, activeItem := null, None;
      lifecycle := lifecycle[item.specName := LifecycleAfter(status)];
      runLog := runLog + [LogEntry(item.specName, item.trigger, status)];
      hist := hist + [Finished(item, status)];
      assert Now() == Close(Reg(), before, status);
      step := FinishStep(status, [], pushSignal);
      if status == Success {
        var names := UnblockWaiters(item.specName, Unblocked);
        FireChainedTriggers(item.specName, pushSignal);
        step := FinishStep(status, names, pushSignal);
      }
    }

    /** One iteration of the worker loop without interference. */
    method RunNext(success: bool, pushSignal: set<string>) returns (ghost step: Step)
      requires Valid() && activeCtx == null && queue != []
      requires queue[0].specName in specs && waiting <= specs.Keys
      modifies this
      ensures Valid() && Reg() == old(Reg()) && activeCtx == null && step.FinishStep?
      ensures step.status == (if success then Success else Failure) && step.pushes == pushSignal
      ensures Enabled(Reg(), Begin(old(Now())), step) && Now() == Apply(Reg(), Begin(old(Now())), step)
    {
      BeginRun();
      ghost var started := Now();
      step := FinishRun(if success then Success else Failure, pushSignal);
      InactiveAfterFinish(Reg(), started, step);
    }

    /** The worker left alone with the queue: it takes worker steps only, and
        with acyclic chaining it comes to an end with the queue empty. */
    method WorkerDrain(succeeds: Item -> bool, pushSignal: set<string>, ghost steps: seq<Step>)
      returns (ghost more: seq<Step>)
      requires Valid() && activeCtx == null && Drain.Acyclic(Reg())
      requires ValidRun(Reg(), steps) && Now() == Exec(Reg(), steps)
      modifies this
      ensures Valid() && Reg() == old(Reg()) && queue == [] && activeCtx == null
      ensures ValidFrom(Reg(), old(Now()), more) && Now() == ExecFrom(Reg(), old(Now()), more)
      ensures forall step :: step in more ==> Drain.WorkerStep(step)
      ensures |more| <= 2 * Drain.RunsLeft(Reg(), old(Now()))
      ensures forall step :: step in more && step.FinishStep? ==> step.pushes == pushSignal
      ensures History.View(old(hist)) <= History.View(hist)
      ensures EndsAsTold(History.View(hist), |old(hist)|, succeeds)
    {
      hide Startup.Inv, Drain.RunsLeft, Drain.Acyclic;
      ghost var before := Now();
      ghost var reg := Reg();
      more := [];
      Startup.InvHolds(reg, steps);
      while queue != []
        invariant Valid() && Reg() == reg && activeCtx == null
        invariant ValidFrom(reg, before, more) && Now() == ExecFrom(reg, before, more)
        invariant forall step :: step in more ==> Drain.WorkerStep(step)
        invariant Startup.Inv(reg, Now(), None)
        invariant forall step :: step in more && step.FinishStep? ==> step.pushes == pushSignal
        invariant History.View(before.hist) <= History.View(hist)
        invariant EndsAsTold(History.View(hist), |before.hist|, succeeds)
        decreases Drain.RunsLeft(reg, Now())
      {
        ghost var s0 := Now();
        OnlyRegistered(reg, s0);
        ghost var step := RunNext(succeeds(queue[0]), pushSignal);
        RoundKeeps(reg, before, more, s0, step);
        RoundEndsOne(reg, s0, step, |before.hist|, succeeds);
        more := more + [BeginStep] + [step];
      }
      Drain.WorkerDrains(reg, steps, more);
    }
  }
}
