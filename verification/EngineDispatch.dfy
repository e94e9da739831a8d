/** Dispatch order, conservation of submissions and exactness of preemption,
    over every run of the engine. */
module EngineDispatch {
  import opened Prelude
  import opened Engine

  // ---- reading the history ----

  /** The history sorted by kind of event; `log` is the run log it calls for,
      `others` counts submissions made by threads other than the worker. */
  datatype Trace = Trace(
    enqueued: seq<Item>,
    started: seq<Item>,
    finished: seq<Item>,
    statuses: seq<Status>,
    log: seq<LogEntry>,
    others: nat,
    abandoned: nat)

  predicate FromOtherThread(c: Cause) {
    c == External || c == StartupThread
  }

  function Extend(t: Trace, e: Event): Trace {
    match e
    case Enqueued(item, cause) =>
      t.(enqueued := t.enqueued + [item], others := t.others + if FromOtherThread(cause) then 1 else 0)
    case Skipped(_) => t
    case Started(item) => t.(started := t.started + [item])
    case Finished(item, status) =>
      t.(finished := t.finished + [item],
         statuses := t.statuses + [status],
         log := t.log + [LogEntry(item.specName, item.trigger, status)],
         abandoned := t.abandoned + if status == Abandoned then 1 else 0)
  }

  function TraceOf(h: seq<Event>): Trace {
    if h == [] then Trace([], [], [], [], [], 0, 0)
    else Extend(TraceOf(h[..|h| - 1]), h[|h| - 1])
  }

  lemma TraceGrows(h: seq<Event>, e: Event)
    ensures TraceOf(h + [e]) == Extend(TraceOf(h), e)
  {
    assert (h + [e])[..|h + [e]| - 1] == h;
  }

  // ---- the invariant ----

  ghost predicate Sorted(q: seq<Item>) {
    forall i, j :: 0 <= i < j < |q| ==> Before(q[i], q[j])
  }

  predicate Good(reg: Registry, counter: nat, x: Item) {
    x.specName in reg.specs && x.priority == reg.specs[x.specName].priority && x.sequence < counter
  }

  /** The item of the active run, if there is one. */
  function InHand(active: Option<Active>): seq<Item> {
    if active.Some? then [active.value.item] else []
  }

  ghost predicate QueueInv(reg: Registry, q: seq<Item>, counter: nat, active: Option<Active>) {
    && Sorted(q)
    && (forall x :: x in q ==> Good(reg, counter, x))
    && (active.Some? ==> Good(reg, counter, active.value.item))
  }

  /** Every submission is queued, running or finished, exactly once. */
  ghost predicate Conserved(q: seq<Item>, counter: nat, active: Option<Active>, t: Trace) {
    && |t.enqueued| == counter
    && (forall i :: 0 <= i < counter ==> t.enqueued[i].sequence == i)
    && multiset(t.enqueued) == multiset(q) + multiset(InHand(active)) + multiset(t.finished)
    && t.started == t.finished + InHand(active)
    && |t.log| == |t.finished| == |t.statuses|
  }

  predicate HigherQueued(q: seq<Item>, priority: int) {
    q != [] && q[0].priority < priority
  }

  /** The context of the active run is preempted exactly when something of
      strictly higher priority is queued; after a cancelled run something of
      strictly higher priority is queued until the next run starts. */
  ghost predicate PreemptExact(q: seq<Item>, active: Option<Active>, t: Trace) {
    && |t.finished| == |t.statuses|
    && (active.Some? ==> (active.value.preempted <==> HigherQueued(q, active.value.item.priority)))
    && (active.None? && t.finished != [] && t.statuses[|t.finished| - 1] == Abandoned ==>
          HigherQueued(q, t.finished[|t.finished| - 1].priority))
    && t.abandoned + (if active.Some? && active.value.preempted then 1 else 0) <= t.others
  }

  /** A cancelled run is followed by one of strictly higher priority. */
  ghost predicate AbandonYields(t: Trace) {
    forall i, j | 0 <= i < |t.statuses| && j == i + 1 && j < |t.started| && t.statuses[i] == Abandoned ::
      t.started[j].priority < t.started[i].priority
  }

  /** Whatever started earlier among items of one priority was submitted earlier. */
  ghost predicate Fifo(q: seq<Item>, counter: nat, t: Trace) {
    && (forall i, j :: 0 <= i < j < |t.started| && t.started[i].priority == t.started[j].priority ==>
          t.started[i].sequence < t.started[j].sequence)
    && (forall x, y :: x in t.started && y in q && x.priority == y.priority ==> x.sequence < y.sequence)
    && (forall x :: x in t.started ==> x.sequence < counter)
  }

  ghost predicate InvOf(reg: Registry, q: seq<Item>, counter: nat, active: Option<Active>, t: Trace) {
    && QueueInv(reg, q, counter, active)
    && Conserved(q, counter, active, t)
    && PreemptExact(q, active, t)
    && AbandonYields(t)
    && Fifo(q, counter, t)
  }

  ghost predicate Inv(reg: Registry, s: State) {
    InvOf(reg, s.queue, s.counter, s.active, TraceOf(s.hist)) && TraceOf(s.hist).log == s.log
  }

  // ---- submission ----

  lemma {:induction false} InsertSorted(q: seq<Item>, item: Item)
    requires Sorted(q) && forall x :: x in q ==> x.sequence < item.sequence
    ensures Sorted(Insert(q, item))
    decreases |q|
  {
    if q == [] || Before(item, q[0]) {
    } else {
      assert Sorted(q[1..]);
      InsertSorted(q[1..], item);
      InsertElements(q[1..], item);
      var r := Insert(q[1..], item);
      forall j | 0 <= j < |r| ensures Before(q[0], r[j]) {
        assert r[j] in r;
        if r[j] != item {
          assert r[j] in q[1..];
        }
      }
    }
  }

  lemma InsertFifo(q: seq<Item>, item: Item, t: Trace)
    requires Fifo(q, item.sequence, t)
    ensures Fifo(Insert(q, item), item.sequence + 1, t)
  {
    InsertElements(q, item);
  }

  lemma InsertConserves(q: seq<Item>, counter: nat, active: Option<Active>, item: Item, t: Trace, cause: Cause)
    requires Conserved(q, counter, active, t) && item.sequence == counter
    ensures Conserved(Insert(q, item), counter + 1, active, Extend(t, Enqueued(item, cause)))
  {
    assert multiset(t.enqueued + [item]) == multiset(t.enqueued) + multiset{item};
  }

  lemma InsertGood(reg: Registry, q: seq<Item>, active: Option<Active>, item: Item)
    requires QueueInv(reg, q, item.sequence, active) && Good(reg, item.sequence + 1, item)
    ensures QueueInv(reg, Insert(q, item), item.sequence + 1, active)
  {
    InsertSorted(q, item);
    InsertElements(q, item);
  }

  lemma PreemptByInsert(q: seq<Item>, active: Option<Active>, item: Item, t: Trace, cause: Cause)
    requires PreemptExact(q, active, t)
    requires FromOtherThread(cause) || active.None? || active.value.item.priority == item.priority
    ensures var active' := if active.Some? && active.value.item.priority > item.priority
                           then Some(active.value.(preempted := true)) else active;
            PreemptExact(Insert(q, item), active', Extend(t, Enqueued(item, cause)))
  {
  }

  /** A submission by another thread, a submission while nothing runs, or the
      active run submitting itself again, keeps the invariant. */
  lemma SubmitKeeps(reg: Registry, s: State, n: string, trigger: Trigger, cause: Cause)
    requires Inv(reg, s)
    requires FromOtherThread(cause) || s.active.None? || s.active.value.item.specName == n
    ensures Inv(reg, Submit(reg, s, n, trigger, cause))
    ensures Submit(reg, s, n, trigger, cause).active.Some? <==> s.active.Some?
    ensures s.active.Some? ==> Submit(reg, s, n, trigger, cause).active.value.item == s.active.value.item
    ensures s.active.Some? && s.active.value.preempted ==> Submit(reg, s, n, trigger, cause).active.value.preempted
  {
    if n in reg.specs {
      var item := Item(reg.specs[n].priority, s.counter, n, trigger);
      var s' := Submit(reg, s, n, trigger, cause);
      var t := TraceOf(s.hist);
      TraceGrows(s.hist, Enqueued(item, cause));
      InsertGood(reg, s.queue, s.active, item);
      InsertFifo(s.queue, item, t);
      InsertConserves(s.queue, s.counter, s.active, item, t, cause);
      PreemptByInsert(s.queue, s.active, item, t, cause);
      assert Conserved(s'.queue, s'.counter, s'.active, Extend(t, Enqueued(item, cause))) by {
        assert InHand(s'.active) == InHand(s.active);
      }
    }
  }

  lemma {:induction false} EnqueueAllKeeps(reg: Registry, s: State, names: seq<string>, cause: Cause)
    requires Inv(reg, s) && forall n :: n in names ==> n in reg.specs
    requires FromOtherThread(cause) || s.active.None?
    ensures Inv(reg, EnqueueAll(reg, s, names, cause))
    ensures s.active.None? ==> EnqueueAll(reg, s, names, cause).active.None?
    decreases |names|
  {
    if names == [] {
    } else {
      var k := |names| - 1;
      EnqueueAllKeeps(reg, s, names[..k], cause);
      var s1 := EnqueueAll(reg, s, names[..k], cause);
      var s2 := s1.(lifecycle := s1.lifecycle[names[k] := Pending]);
      SubmitKeeps(reg, s2, names[k], ByType(reg.specs[names[k]].trigger), cause);
    }
  }

  lemma {:induction false} ChainKeeps(reg: Registry, s: State, done: string, names: seq<string>, pushes: set<string>)
    requires Inv(reg, s) && s.active.None?
    ensures Inv(reg, Chain(reg, s, done, names, pushes))
    ensures Chain(reg, s, done, names, pushes).active.None?
    decreases |names|
  {
    if names == [] {
    } else {
      var k := |names| - 1;
      ChainKeeps(reg, s, done, names[..k], pushes);
      SubmitKeeps(reg, Chain(reg, s, done, names[..k], pushes), names[k], CompletedAfter(done), Chained);
    }
  }

  lemma UnblockKeeps(reg: Registry, s: State, names: seq<string>, cause: Cause)
    requires Inv(reg, s) && forall n :: n in names ==> n in reg.specs
    requires FromOtherThread(cause) || s.active.None?
    ensures Inv(reg, Unblock(reg, s, names, cause))
    ensures s.active.None? ==> Unblock(reg, s, names, cause).active.None?
  {
    EnqueueAllKeeps(reg, s.(waiting := s.waiting - (set n | n in names)), names, cause);
  }

  // ---- the worker ----

  /** The first item of a sorted queue comes before all the others. */
  lemma HeadIsMinimum(q: seq<Item>)
    requires Sorted(q) && q != []
    ensures Sorted(q[1..])
    ensures forall x :: x in q[1..] ==> x in q && Before(q[0], x)
  {
    forall x | x in q[1..] ensures x in q && Before(q[0], x) {
      var j :| 0 <= j < |q[1..]| && q[1..][j] == x;
      assert q[j + 1] == x;
    }
  }

  lemma TakeConserves(q: seq<Item>, counter: nat, t: Trace)
    requires Conserved(q, counter, None, t) && q != []
    ensures Conserved(q[1..], counter, Some(Active(q[0], false)), Extend(t, Started(q[0])))
  {
    assert q == [q[0]] + q[1..];
    assert t.started == t.finished;
  }

  lemma TakeYields(q: seq<Item>, counter: nat, t: Trace)
    requires Conserved(q, counter, None, t) && PreemptExact(q, None, t) && AbandonYields(t) && q != []
    ensures AbandonYields(Extend(t, Started(q[0])))
  {
    assert t.started == t.finished;
  }

  lemma TakeFifo(q: seq<Item>, counter: nat, t: Trace)
    requires Sorted(q) && Fifo(q, counter, t) && q != [] && q[0].sequence < counter
    ensures Fifo(q[1..], counter, Extend(t, Started(q[0])))
  {
    HeadIsMinimum(q);
    assert q[0] in q;
    var started := t.started + [q[0]];
    forall i, j | 0 <= i < j < |started| && started[i].priority == started[j].priority
      ensures started[i].sequence < started[j].sequence
    {
      assert started[i] in t.started;
    }
  }

  lemma TakeFirst(reg: Registry, q: seq<Item>, counter: nat, t: Trace)
    requires InvOf(reg, q, counter, None, t) && q != []
    ensures InvOf(reg, q[1..], counter, Some(Active(q[0], false)), Extend(t, Started(q[0])))
  {
    HeadIsMinimum(q);
    assert q[0] in q;
    assert q[1..] != [] ==> q[1] in q[1..];
    TakeConserves(q, counter, t);
    TakeYields(q, counter, t);
    TakeFifo(q, counter, t);
  }

  lemma BeginKeeps(reg: Registry, s: State)
    requires Inv(reg, s) && s.active.None? && s.queue != []
    ensures Inv(reg, Begin(s))
  {
    TraceGrows(s.hist, Started(s.queue[0]));
    TakeFirst(reg, s.queue, s.counter, TraceOf(s.hist));
  }

  lemma DropConserves(q: seq<Item>, counter: nat, a: Active, t: Trace, status: Status)
    requires Conserved(q, counter, Some(a), t)
    ensures Conserved(q, counter, None, Extend(t, Finished(a.item, status)))
  {
    assert t.finished + [a.item] == t.started;
    assert multiset(t.finished + [a.item]) == multiset(t.finished) + multiset{a.item};
  }

  lemma DropYields(q: seq<Item>, counter: nat, a: Active, t: Trace, status: Status)
    requires Conserved(q, counter, Some(a), t) && AbandonYields(t)
    ensures AbandonYields(Extend(t, Finished(a.item, status)))
  {
  }

  lemma Drop(reg: Registry, q: seq<Item>, counter: nat, a: Active, t: Trace, status: Status)
    requires InvOf(reg, q, counter, Some(a), t)
    requires status == Abandoned ==> a.preempted
    ensures InvOf(reg, q, counter, None, Extend(t, Finished(a.item, status)))
  {
    DropConserves(q, counter, a, t, status);
    DropYields(q, counter, a, t, status);
    assert PreemptExact(q, None, Extend(t, Finished(a.item, status)));
    assert Fifo(q, counter, Extend(t, Finished(a.item, status)));
  }

  lemma RetireKeeps(reg: Registry, s: State, status: Status)
    requires Inv(reg, s) && s.active.Some? && (status == Abandoned ==> s.active.value.preempted)
    ensures Inv(reg, Retire(s, status))
  {
    hide InvOf;
    TraceGrows(s.hist, Finished(s.active.value.item, status));
    Drop(reg, s.queue, s.counter, s.active.value, TraceOf(s.hist), status);
  }

  lemma CloseKeeps(reg: Registry, s: State, status: Status)
    requires Inv(reg, s) && s.active.Some? && (status == Abandoned ==> s.active.value.preempted)
    ensures Inv(reg, Close(reg, s, status)) && Close(reg, s, status).active.None?
  {
    var item := s.active.value.item;
    if status == Abandoned {
      SubmitKeeps(reg, s, item.specName, item.trigger, Requeued);
      RetireKeeps(reg, Submit(reg, s, item.specName, item.trigger, Requeued), status);
    } else {
      RetireKeeps(reg, s, status);
    }
  }

  lemma FinishKeeps(reg: Registry, s: State, status: Status, names: seq<string>, pushes: set<string>)
    requires Inv(reg, s) && s.active.Some? && (status == Abandoned ==> s.active.value.preempted)
    requires forall m :: m in names ==> m in reg.specs
    ensures Inv(reg, Finish(reg, s, status, names, pushes))
  {
    CloseKeeps(reg, s, status);
    if status == Success {
      var s1 := Close(reg, s, status);
      UnblockKeeps(reg, s1, names, Unblocked);
      ChainKeeps(reg, Unblock(reg, s1, names, Unblocked), s.active.value.item.specName, reg.order, pushes);
    }
  }

  // ---- the startup thread ----

  lemma EvaluateKeeps(reg: Registry, s: State, n: string, met: bool, names: seq<string>)
    requires Inv(reg, s) && n in reg.specs && forall m :: m in names ==> m in reg.specs
    ensures Inv(reg, EvaluateSpec(reg, s, n, met, names))
  {
    if reg.IsStartup(n) {
      if !met {
        TraceGrows(s.hist, Skipped(n));
        UnblockKeeps(reg, Skip(s, n), names, StartupThread);
      } else if !PrereqPending(reg, s, n) {
        var s1 := s.(lifecycle := s.lifecycle[n := Pending]);
        SubmitKeeps(reg, s1, n, ByType(reg.specs[n].trigger), StartupThread);
      }
    }
  }

  lemma EvaluatedNamesRegistered(reg: Registry, s: State, met: bool, names: seq<string>)
    requires reg.Valid() && Enabled(reg, s, EvaluateStep(met, names))
    ensures reg.order[s.evaluated] in reg.specs
    ensures forall m :: m in names ==> m in reg.specs
  {
    assert reg.order[s.evaluated] in reg.order;
  }

  lemma EvaluateStepKeeps(reg: Registry, s: State, met: bool, names: seq<string>)
    requires reg.Valid() && Inv(reg, s) && Enabled(reg, s, EvaluateStep(met, names))
    ensures Inv(reg, Apply(reg, s, EvaluateStep(met, names)))
  {
    hide InvOf, EvaluateSpec;
    EvaluatedNamesRegistered(reg, s, met, names);
    EvaluateKeeps(reg, s.(evaluated := s.evaluated + 1), reg.order[s.evaluated], met, names);
  }

  lemma FinishStepKeeps(reg: Registry, s: State, status: Status, names: seq<string>, pushes: set<string>)
    requires reg.Valid() && Inv(reg, s) && Enabled(reg, s, FinishStep(status, names, pushes))
    ensures Inv(reg, Apply(reg, s, FinishStep(status, names, pushes)))
  {
    FinishKeeps(reg, s, status, names, pushes);
  }

  // ---- runs ----

  lemma ApplyKeeps(reg: Registry, s: State, step: Step)
    requires reg.Valid() && Enabled(reg, s, step) && Inv(reg, s)
    ensures Inv(reg, Apply(reg, s, step))
  {
    match step
    case SubmitStep(n, trigger) => SubmitKeeps(reg, s, n, trigger, External);
    case EvaluateStep(met, names) => EvaluateStepKeeps(reg, s, met, names);
    case BeginStep => BeginKeeps(reg, s);
    case FinishStep(status, names, pushes) => FinishStepKeeps(reg, s, status, names, pushes);
  }

  lemma {:induction false} ExecFromKeeps(reg: Registry, s: State, steps: seq<Step>)
    requires reg.Valid() && ValidFrom(reg, s, steps) && Inv(reg, s)
    ensures Inv(reg, ExecFrom(reg, s, steps))
    decreases |steps|
  {
    if steps == [] {
    } else {
      var k := |steps| - 1;
      ExecFromKeeps(reg, s, steps[..k]);
      ApplyKeeps(reg, ExecFrom(reg, s, steps[..k]), steps[k]);
    }
  }

  lemma InvHolds(reg: Registry, steps: seq<Step>)
    requires ValidRun(reg, steps)
    ensures Inv(reg, Exec(reg, steps))
  {
    ExecFromKeeps(reg, Init(reg), steps);
  }

  // ---- main results ----

  /** Conservation: the sequence counter counts the queued, running and logged
      runs; the i-th submission carries number i, and every submission is, with
      its multiplicity, in exactly one of the three places. */
  lemma SubmissionsConserved(reg: Registry, steps: seq<Step>)
    requires ValidRun(reg, steps)
    ensures var s := Exec(reg, steps);
            var t := TraceOf(s.hist);
            && s.counter == |s.queue| + |InHand(s.active)| + |s.log|
            && |t.enqueued| == s.counter
            && (forall i :: 0 <= i < s.counter ==> t.enqueued[i].sequence == i)
            && multiset(t.enqueued) == multiset(s.queue) + multiset(InHand(s.active)) + multiset(t.finished)
            && s.log == t.log
  {
    InvHolds(reg, steps);
    var s := Exec(reg, steps);
    var t := TraceOf(s.hist);
    assert |multiset(t.enqueued)| == |multiset(s.queue)| + |multiset(InHand(s.active))| + |multiset(t.finished)|;
  }

  /** Every run starts from the smallest (priority, sequence) on the queue, and
      runs of one priority start in the order of their submission. */
  lemma DispatchInOrder(reg: Registry, steps: seq<Step>)
    requires ValidRun(reg, steps)
    ensures var s := Exec(reg, steps);
            var started := TraceOf(s.hist).started;
            && (Enabled(reg, s, BeginStep) ==>
                  forall x :: x in Begin(s).queue ==> Before(Begin(s).active.value.item, x))
            && (forall i, j :: 0 <= i < j < |started| && started[i].priority == started[j].priority ==>
                  started[i].sequence < started[j].sequence)
  {
    InvHolds(reg, steps);
    var s := Exec(reg, steps);
    if Enabled(reg, s, BeginStep) {
      HeadIsMinimum(s.queue);
    }
  }

  /** In every reachable state with an active run, its context is preempted if
      and only if the queue holds an item of strictly smaller priority number. */
  lemma PreemptedIffHigherQueued(reg: Registry, steps: seq<Step>)
    requires ValidRun(reg, steps)
    ensures var s := Exec(reg, steps);
            s.active.Some? ==>
              (s.active.value.preempted <==> exists x :: x in s.queue && x.priority < s.active.value.item.priority)
  {
    InvHolds(reg, steps);
    var s := Exec(reg, steps);
    if s.active.Some? {
      var p := s.active.value.item.priority;
      if x :| x in s.queue && x.priority < p {
        var i :| 0 <= i < |s.queue| && s.queue[i] == x;
        assert i > 0 ==> Before(s.queue[0], s.queue[i]);
      }
      if s.active.value.preempted {
        assert s.queue[0] in s.queue;
      }
    }
  }

  /** A run cancelled by `cooperate` is followed by a run of strictly higher
      priority, and cancellations never outnumber the submissions made by
      threads other than the worker. */
  lemma CancelledRunsYield(reg: Registry, steps: seq<Step>)
    requires ValidRun(reg, steps)
    ensures var t := TraceOf(Exec(reg, steps).hist);
            && |t.finished| == |t.statuses| <= |t.started| <= |t.finished| + 1
            && (forall i :: 0 <= i < |t.finished| ==> t.started[i] == t.finished[i])
            && (forall i :: 0 <= i < |t.finished| && t.statuses[i] == Abandoned && i + 1 < |t.started| ==>
                  t.started[i + 1].priority < t.started[i].priority)
            && t.abandoned <= t.others
  {
    InvHolds(reg, steps);
    var t := TraceOf(Exec(reg, steps).hist);
    forall i | 0 <= i < |t.finished| && t.statuses[i] == Abandoned && i + 1 < |t.started|
      ensures t.started[i + 1].priority < t.started[i].priority
    {
      var j := i + 1;
      assert t.started[j].priority < t.started[i].priority;
    }
  }
}
