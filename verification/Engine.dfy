/** The workflow engine: a priority scheduler shared by submitters, the startup
    thread, the cron thread and one worker.

    Each atomic step of the engine is a function on `State`; `Exec` folds the
    steps of a run. The class `WorkflowEngine` carries the fields of the
    original and its methods are proved to take exactly these steps. */
module Engine {
  import opened Prelude
  import Preemption

  datatype TriggerType =
    | StartupCondition | WorkflowCompleted | Cron | CronRandomWindow | CronNightly
    | CronNightlyOrWriteThreshold | CronWeekly | ConversationEnded | WorkflowRequest

  datatype Lifecycle = NotNeeded | Waiting | Pending | Running | Completed | Failed

  datatype Status = Success | Failure | Abandoned

  /** The label stored with a queue item and copied into the run log. */
  datatype Trigger = ByType(kind: TriggerType) | CompletedAfter(name: string) | Label(text: string)

  datatype Spec = Spec(
    name: string,
    trigger: TriggerType,
    priority: int,
    mode: Preemption.Mode,
    prereq: Option<string>,
    triggerAfter: Option<string>,
    pushRequired: bool)

  /** Registered specs, and their names in registration order. */
  datatype Registry = Registry(order: seq<string>, specs: map<string, Spec>) {
    ghost predicate Valid() {
      && Enumerates(order, specs.Keys)
      && (forall n :: n in specs ==> specs[n].name == n)
    }

    predicate IsStartup(n: string) {
      n in specs && specs[n].trigger == StartupCondition
    }

    function PriorityOf(n: string): int {
      if n in specs then specs[n].priority else 0
    }

    /** `n` is enqueued when `p` completes. */
    predicate Chains(p: string, n: string) {
      n in specs && specs[n].triggerAfter == Some(p)
    }
  }

  datatype Item = Item(priority: int, sequence: nat, specName: string, trigger: Trigger)

  /** Who put an item on the queue. */
  datatype Cause = External | StartupThread | Unblocked | Chained | Requeued

  datatype Active = Active(item: Item, preempted: bool)

  datatype LogEntry = LogEntry(name: string, trigger: Trigger, status: Status)

  /** What happened, in order; no branch of the engine reads this history. */
  datatype Event =
    | Enqueued(item: Item, cause: Cause)
    | Skipped(name: string)
    | Started(item: Item)
    | Finished(item: Item, status: Status)

  /** `queue` is kept in the order in which the priority queue yields its items;
      `evaluated` is how far the startup thread has come through the registry. */
  datatype State = State(
    queue: seq<Item>,
    counter: nat,
    lifecycle: map<string, Lifecycle>,
    waiting: set<string>,
    active: Option<Active>,
    log: seq<LogEntry>,
    evaluated: nat,
    hist: seq<Event>)

  function Init(reg: Registry): State {
    State([], 0, map n | n in reg.specs :: Pending, {}, None, [], 0, [])
  }

  /** Items compare by priority, then by sequence number. */
  predicate Before(a: Item, b: Item) {
    a.priority < b.priority || (a.priority == b.priority && a.sequence < b.sequence)
  }

  function Insert(queue: seq<Item>, item: Item): (r: seq<Item>)
    ensures |r| == |queue| + 1
    ensures multiset(r) == multiset(queue) + multiset{item}
  {
    if queue == [] || Before(item, queue[0]) then
      assert multiset([item] + queue) == multiset(queue) + multiset{item};
      [item] + queue
    else
      assert queue == [queue[0]] + queue[1..];
      [queue[0]] + Insert(queue[1..], item)
  }

  lemma InsertElements(q: seq<Item>, item: Item)
    ensures forall x :: x in Insert(q, item) <==> x in q || x == item
  {
    forall x ensures x in Insert(q, item) <==> x in q || x == item {
      assert x in Insert(q, item) <==> x in multiset(Insert(q, item));
    }
  }

  predicate Resolved(l: Lifecycle) {
    l == Completed || l == NotNeeded
  }

  /** An unregistered workflow counts as not needed. */
  function LifecycleOf(s: State, n: string): Lifecycle {
    if n in s.lifecycle then s.lifecycle[n] else NotNeeded
  }

  // ---- submission ----

  function Submit(reg: Registry, s: State, n: string, trigger: Trigger, cause: Cause): State {
    if n !in reg.specs then s
    else
      var item := Item(reg.specs[n].priority, s.counter, n, trigger);
      s.(queue := Insert(s.queue, item),
         counter := s.counter + 1,
         active := if s.active.Some? && reg.PriorityOf(s.active.value.item.specName) > item.priority
                   then Some(s.active.value.(preempted := true)) else s.active,
         hist := s.hist + [Enqueued(item, cause)])
  }

  // ---- startup conditions and prerequisites ----

  function EnqueueSpec(reg: Registry, s: State, n: string, cause: Cause): State
    requires n in reg.specs
  {
    Submit(reg, s.(lifecycle := s.lifecycle[n := Pending]), n, ByType(reg.specs[n].trigger), cause)
  }

  function EnqueueAll(reg: Registry, s: State, names: seq<string>, cause: Cause): State
    requires forall n :: n in names ==> n in reg.specs
    decreases |names|
  {
    if names == [] then s
    else
      var k := |names| - 1;
      EnqueueSpec(reg, EnqueueAll(reg, s, names[..k], cause), names[k], cause)
  }

  /** Waiting specs released now that `done` is resolved. */
  function Released(reg: Registry, s: State, done: string): set<string> {
    set n | n in s.waiting && n in reg.specs && reg.specs[n].prereq == Some(done)
            && Resolved(LifecycleOf(s, done))
  }

  function Unblock(reg: Registry, s: State, names: seq<string>, cause: Cause): State
    requires forall n :: n in names ==> n in reg.specs
  {
    EnqueueAll(reg, s.(waiting := s.waiting - (set n | n in names)), names, cause)
  }

  function Skip(s: State, n: string): State {
    s.(lifecycle := s.lifecycle[n := NotNeeded], hist := s.hist + [Skipped(n)])
  }

  function Park(s: State, n: string): State {
    s.(lifecycle := s.lifecycle[n := Waiting], waiting := s.waiting + {n})
  }

  predicate PrereqPending(reg: Registry, s: State, n: string)
    requires n in reg.specs
  {
    reg.specs[n].prereq.Some? && !Resolved(LifecycleOf(s, reg.specs[n].prereq.value))
  }

  /** One iteration of the startup loop on spec `n`; `met` is what its condition
      returned and `names` the order in which released waiters were found. */
  function EvaluateSpec(reg: Registry, s: State, n: string, met: bool, names: seq<string>): State
    requires n in reg.specs && forall m :: m in names ==> m in reg.specs
  {
    if reg.specs[n].trigger != StartupCondition then s
    else if !met then Unblock(reg, Skip(s, n), names, StartupThread)
    else if PrereqPending(reg, s, n) then Park(s, n)
    else EnqueueSpec(reg, s, n, StartupThread)
  }

  // ---- the worker ----

  function Begin(s: State): State
    requires s.active.None? && s.queue != []
  {
    var item := s.queue[0];
    s.(queue := s.queue[1..],
       lifecycle := s.lifecycle[item.specName := Running],
       active := Some(Active(item, false)),
       hist := s.hist + [Started(item)])
  }

  function LifecycleAfter(status: Status): Lifecycle {
    match status
    case Success => Completed
    case Failure => Failed
    case Abandoned => Pending
  }

  /** Clear the context, set the lifecycle, write the log. */
  function Retire(s: State, status: Status): State
    requires s.active.Some?
  {
    var item := s.active.value.item;
    s.(active := None,
       lifecycle := s.lifecycle[item.specName := LifecycleAfter(status)],
       log := s.log + [LogEntry(item.specName, item.trigger, status)],
       hist := s.hist + [Finished(item, status)])
  }

  /** A cancelled run is submitted again while its context is still active. */
  function Close(reg: Registry, s: State, status: Status): State
    requires s.active.Some?
  {
    var item := s.active.value.item;
    Retire(if status == Abandoned then Submit(reg, s, item.specName, item.trigger, Requeued) else s, status)
  }

  /** Submit every spec of `names` chained after `done`; `pushes` are the specs
      for which the push signal was found set. */
  function Chain(reg: Registry, s: State, done: string, names: seq<string>, pushes: set<string>): State
    decreases |names|
  {
    if names == [] then s
    else
      var k := |names| - 1;
      var s1 := Chain(reg, s, done, names[..k], pushes);
      if reg.Chains(done, names[k]) && (reg.specs[names[k]].pushRequired ==> names[k] in pushes)
      then Submit(reg, s1, names[k], CompletedAfter(done), Chained)
      else s1
  }

  function Finish(reg: Registry, s: State, status: Status, names: seq<string>, pushes: set<string>): State
    requires s.active.Some? && forall m :: m in names ==> m in reg.specs
  {
    var done := s.active.value.item.specName;
    var s1 := Close(reg, s, status);
    if status != Success then s1
    else Chain(reg, Unblock(reg, s1, names, Unblocked), done, reg.order, pushes)
  }

  // ---- runs ----

  datatype Step =
    | SubmitStep(name: string, trigger: Trigger)
    | EvaluateStep(met: bool, names: seq<string>)
    | BeginStep
    | FinishStep(status: Status, names: seq<string>, pushes: set<string>)

  /** A run is cancelled only from inside `cooperate` on its own context, so it
      must have been preempted and be a restart workflow. */
  ghost predicate Enabled(reg: Registry, s: State, step: Step) {
    match step
    case SubmitStep(_, _) => true
    case EvaluateStep(met, names) =>
      && s.evaluated < |reg.order|
      && var n := reg.order[s.evaluated];
         Enumerates(names, if reg.IsStartup(n) && !met then Released(reg, Skip(s, n), n) else {})
    case BeginStep => s.active.None? && s.queue != []
    case FinishStep(status, names, _) =>
      && s.active.Some?
      && var item := s.active.value.item;
         && Enumerates(names, if status == Success then Released(reg, Close(reg, s, status), item.specName) else {})
         && (status == Abandoned ==>
               && s.active.value.preempted
               && item.specName in reg.specs && reg.specs[item.specName].mode == Preemption.Restart)
  }

  ghost function Apply(reg: Registry, s: State, step: Step): State
    requires reg.Valid() && Enabled(reg, s, step)
  {
    match step
    case SubmitStep(n, trigger) => Submit(reg, s, n, trigger, External)
    case EvaluateStep(met, names) =>
      EvaluateSpec(reg, s.(evaluated := s.evaluated + 1), reg.order[s.evaluated], met, names)
    case BeginStep => Begin(s)
    case FinishStep(status, names, pushes) => Finish(reg, s, status, names, pushes)
  }

  /** `steps` can be taken one after the other starting from `s`. */
  ghost predicate ValidFrom(reg: Registry, s: State, steps: seq<Step>)
    requires reg.Valid()
    decreases |steps|, 0
  {
    steps == [] ||
    var k := |steps| - 1;
    ValidFrom(reg, s, steps[..k]) && Enabled(reg, ExecFrom(reg, s, steps[..k]), steps[k])
  }

  ghost function ExecFrom(reg: Registry, s: State, steps: seq<Step>): State
    requires reg.Valid() && ValidFrom(reg, s, steps)
    decreases |steps|, 1
  {
    if steps == [] then s
    else Apply(reg, ExecFrom(reg, s, steps[..|steps| - 1]), steps[|steps| - 1])
  }

  ghost predicate ValidRun(reg: Registry, steps: seq<Step>) {
    reg.Valid() && ValidFrom(reg, Init(reg), steps)
  }

  /** The state after a whole run from the start of the engine. */
  ghost function Exec(reg: Registry, steps: seq<Step>): State
    requires ValidRun(reg, steps)
  {
    ExecFrom(reg, Init(reg), steps)
  }
}
