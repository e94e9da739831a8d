/** What every step of the engine does, told by its traces alone: the events it
    adds to the history, and what it leaves of lifecycles, waiting set and log. */
module EngineHistory {
  import opened Prelude
  import opened Engine

  /** An event without the sequence number. */
  datatype Happening =
    | Put(name: string, priority: int, trigger: Trigger, cause: Cause)
    | Dismissed(name: string)
    | Began(item: Item)
    | Ended(item: Item, status: Status)

  function Happened(e: Event): Happening {
    match e
    case Enqueued(item, cause) => Put(item.specName, item.priority, item.trigger, cause)
    case Skipped(n) => Dismissed(n)
    case Started(item) => Began(item)
    case Finished(item, status) => Ended(item, status)
  }

  function View(h: seq<Event>): (v: seq<Happening>)
    ensures |v| == |h|
  {
    seq(|h|, i requires 0 <= i < |h| => Happened(h[i]))
  }

  lemma ViewGrows(h: seq<Event>, e: Event)
    ensures View(h + [e]) == View(h) + [Happened(e)]
  {
  }

  // ---- what should happen ----

  /** The spec `n` put on the queue under a trigger. */
  function PutOf(reg: Registry, n: string, trigger: Trigger, cause: Cause): Happening
    requires n in reg.specs
  {
    Put(n, reg.specs[n].priority, trigger, cause)
  }

  /** Specs put on the queue under their own trigger types, in the order given. */
  function OwnPuts(reg: Registry, names: seq<string>, cause: Cause): seq<Happening>
    requires forall n :: n in names ==> n in reg.specs
  {
    seq(|names|, i requires 0 <= i < |names| =>
      assert names[i] in names; PutOf(reg, names[i], ByType(reg.specs[names[i]].trigger), cause))
  }

  /** `n` is chained after `done`, and has the push signal if it needs one. */
  predicate Follows(reg: Registry, done: string, n: string, pushes: set<string>) {
    n in reg.specs && reg.specs[n].triggerAfter == Some(done) && (reg.specs[n].pushRequired ==> n in pushes)
  }

  /** Those of `names`, in order. */
  function Followers(reg: Registry, done: string, names: seq<string>, pushes: set<string>): (r: seq<string>)
    ensures forall n :: n in r ==> n in reg.specs
    decreases |names|
  {
    if names == [] then []
    else
      var k := |names| - 1;
      Followers(reg, done, names[..k], pushes) + if Follows(reg, done, names[k], pushes) then [names[k]] else []
  }

  function ChainedPuts(reg: Registry, done: string, names: seq<string>): seq<Happening>
    requires forall n :: n in names ==> n in reg.specs
  {
    seq(|names|, i requires 0 <= i < |names| =>
      assert names[i] in names; PutOf(reg, names[i], CompletedAfter(done), Chained))
  }

  /** A registered prerequisite has neither completed nor been found not needed. */
  predicate Waits(reg: Registry, s: State, n: string)
    requires n in reg.specs
  {
    reg.specs[n].prereq.Some?
    && reg.specs[n].prereq.value in s.lifecycle
    && s.lifecycle[reg.specs[n].prereq.value] !in {Completed, NotNeeded}
  }

  predicate NamesRegistered(reg: Registry, step: Step) {
    match step
    case EvaluateStep(_, names) => forall n :: n in names ==> n in reg.specs
    case FinishStep(_, names, _) => forall n :: n in names ==> n in reg.specs
    case _ => true
  }

  /** The events the step should add. */
  function Expected(reg: Registry, s: State, step: Step): seq<Happening>
    requires NamesRegistered(reg, step)
    requires step.EvaluateStep? ==> s.evaluated < |reg.order| && reg.order[s.evaluated] in reg.specs
    requires step.BeginStep? ==> s.queue != []
    requires step.FinishStep? ==> s.active.Some?
  {
    match step
    case SubmitStep(n, trigger) => if n in reg.specs then [PutOf(reg, n, trigger, External)] else []
    case EvaluateStep(met, names) =>
      var n := reg.order[s.evaluated];
      if reg.specs[n].trigger != StartupCondition then []
      else if !met then [Dismissed(n)] + OwnPuts(reg, names, StartupThread)
      else if Waits(reg, s, n) then []
      else [PutOf(reg, n, ByType(StartupCondition), StartupThread)]
    case BeginStep => [Began(s.queue[0])]
    case FinishStep(status, names, pushes) =>
      var item := s.active.value.item;
      match status
      case Success =>
        [Ended(item, Success)] + OwnPuts(reg, names, Unblocked)
        + ChainedPuts(reg, item.specName, Followers(reg, item.specName, reg.order, pushes))
      case Failure => [Ended(item, Failure)]
      case Abandoned =>
        (if item.specName in reg.specs then [PutOf(reg, item.specName, item.trigger, Requeued)] else [])
        + [Ended(item, Abandoned)]
  }

  /** The lifecycle the step should leave spec `m` in. */
  function ExpectedLife(reg: Registry, s: State, step: Step, m: string): Lifecycle
    requires step.EvaluateStep? ==> s.evaluated < |reg.order| && reg.order[s.evaluated] in reg.specs
    requires step.BeginStep? ==> s.queue != []
    requires step.FinishStep? ==> s.active.Some?
  {
    var before := if m in s.lifecycle then s.lifecycle[m] else NotNeeded;
    match step
    case SubmitStep(_, _) => before
    case EvaluateStep(met, names) =>
      var n := reg.order[s.evaluated];
      if reg.specs[n].trigger != StartupCondition then before
      else if !met then (if m in names then Pending else if m == n then NotNeeded else before)
      else if m != n then before
      else if Waits(reg, s, n) then Waiting
      else Pending
    case BeginStep => if m == s.queue[0].specName then Running else before
    case FinishStep(status, names, _) =>
      var done := s.active.value.item.specName;
      if status == Success && m in names then Pending
      else if m != done then before
      else match status
        case Success => Completed
        case Failure => Failed
        case Abandoned => Pending
  }

  function ExpectedWaiting(reg: Registry, s: State, step: Step): set<string>
    requires step.EvaluateStep? ==> s.evaluated < |reg.order| && reg.order[s.evaluated] in reg.specs
  {
    match step
    case EvaluateStep(met, names) =>
      var n := reg.order[s.evaluated];
      if reg.specs[n].trigger != StartupCondition then s.waiting
      else if !met then (set m | m in s.waiting && m !in names)
      else if Waits(reg, s, n) then s.waiting + {n}
      else s.waiting
    case FinishStep(Success, names, _) => set m | m in s.waiting && m !in names
    case _ => s.waiting
  }

  function ExpectedLog(s: State, step: Step): seq<LogEntry>
    requires step.FinishStep? ==> s.active.Some?
  {
    if step.FinishStep?
    then s.log + [LogEntry(s.active.value.item.specName, s.active.value.item.trigger, step.status)]
    else s.log
  }

  // ---- what the parts of a step do ----

  /** A submission leaves everything but queue, counter, context and history. */
  lemma SubmitHappens(reg: Registry, s: State, n: string, trigger: Trigger, cause: Cause)
    ensures var s' := Submit(reg, s, n, trigger, cause);
            && View(s'.hist) == View(s.hist) + (if n in reg.specs then [PutOf(reg, n, trigger, cause)] else [])
            && s'.lifecycle == s.lifecycle && s'.waiting == s.waiting && s'.log == s.log
            && s'.evaluated == s.evaluated
            && (s'.active.Some? <==> s.active.Some?)
            && (s.active.Some? ==> s'.active.value.item == s.active.value.item)
  {
    hide Insert;
  }

  lemma NoPuts(reg: Registry, cause: Cause)
    ensures OwnPuts(reg, [], cause) == []
  {
  }

  lemma OwnPutsGrow(reg: Registry, names: seq<string>, n: string, cause: Cause)
    requires n in reg.specs && forall m :: m in names ==> m in reg.specs
    ensures OwnPuts(reg, names + [n], cause)
            == OwnPuts(reg, names, cause) + [PutOf(reg, n, ByType(reg.specs[n].trigger), cause)]
  {
  }

  lemma {:induction false} EnqueueAllHappens(reg: Registry, s: State, names: seq<string>, cause: Cause)
    requires forall n :: n in names ==> n in reg.specs
    ensures var s' := EnqueueAll(reg, s, names, cause);
            && View(s'.hist) == View(s.hist) + OwnPuts(reg, names, cause)
            && (forall m :: LifecycleOf(s', m) == if m in names then Pending else LifecycleOf(s, m))
            && s'.waiting == s.waiting && s'.log == s.log
    decreases |names|
  {
    hide Submit, View, OwnPuts;
    if names == [] {
      NoPuts(reg, cause);
      assert View(s.hist) + [] == View(s.hist);
    } else {
      var init, n := names[..|names| - 1], names[|names| - 1];
      assert names == init + [n];
      var s1 := EnqueueAll(reg, s, init, cause);
      EnqueueAllHappens(reg, s, init, cause);
      SubmitHappens(reg, s1.(lifecycle := s1.lifecycle[n := Pending]), n, ByType(reg.specs[n].trigger), cause);
      OwnPutsGrow(reg, init, n, cause);
    }
  }

  lemma ChainedPutsGrow(reg: Registry, done: string, names: seq<string>, n: string)
    requires n in reg.specs && forall m :: m in names ==> m in reg.specs
    ensures ChainedPuts(reg, done, names + [n])
            == ChainedPuts(reg, done, names) + [PutOf(reg, n, CompletedAfter(done), Chained)]
  {
  }

  lemma {:induction false} ChainHappens(reg: Registry, s: State, done: string, names: seq<string>, pushes: set<string>)
    ensures var s' := Chain(reg, s, done, names, pushes);
            && View(s'.hist) == View(s.hist) + ChainedPuts(reg, done, Followers(reg, done, names, pushes))
            && s'.lifecycle == s.lifecycle && s'.waiting == s.waiting && s'.log == s.log
    decreases |names|
  {
    hide Submit, View;
    if names == [] {
      assert View(s.hist) + [] == View(s.hist);
    } else {
      var k := |names| - 1;
      var s1 := Chain(reg, s, done, names[..k], pushes);
      ChainHappens(reg, s, done, names[..k], pushes);
      SubmitHappens(reg, s1, names[k], CompletedAfter(done), Chained);
      if Follows(reg, done, names[k], pushes) {
        ChainedPutsGrow(reg, done, Followers(reg, done, names[..k], pushes), names[k]);
      } else {
        assert Followers(reg, done, names, pushes) == Followers(reg, done, names[..k], pushes);
      }
    }
  }

  // ---- what every step does ----

  /** The step adds the events it should, and leaves lifecycles, waiting set and log
      as it should. */
  ghost predicate DoesWhatItShould(reg: Registry, s: State, step: Step, s': State)
    requires NamesRegistered(reg, step)
    requires step.EvaluateStep? ==> s.evaluated < |reg.order| && reg.order[s.evaluated] in reg.specs
    requires step.BeginStep? ==> s.queue != []
    requires step.FinishStep? ==> s.active.Some?
  {
    && View(s'.hist) == View(s.hist) + Expected(reg, s, step)
    && (forall m :: LifecycleOf(s', m) == ExpectedLife(reg, s, step, m))
    && s'.waiting == ExpectedWaiting(reg, s, step)
    && s'.log == ExpectedLog(s, step)
  }

  lemma WaitsIsPending(reg: Registry, s: State, n: string)
    requires n in reg.specs
    ensures PrereqPending(reg, s, n) <==> Waits(reg, s, n)
  {
  }

  lemma SkipHappens(reg: Registry, s: State, names: seq<string>)
    requires s.evaluated < |reg.order| && reg.IsStartup(reg.order[s.evaluated])
    requires forall n :: n in names ==> n in reg.specs
    ensures var s1 := Skip(s.(evaluated := s.evaluated + 1), reg.order[s.evaluated]);
            DoesWhatItShould(reg, s, EvaluateStep(false, names), Unblock(reg, s1, names, StartupThread))
  {
    hide View, EnqueueAll, OwnPuts;
    var n := reg.order[s.evaluated];
    ViewGrows(s.hist, Skipped(n));
    var s2 := Skip(s.(evaluated := s.evaluated + 1), n);
    EnqueueAllHappens(reg, s2.(waiting := s2.waiting - (set m | m in names)), names, StartupThread);
  }

  lemma EvaluateHappens(reg: Registry, s: State, met: bool, names: seq<string>)
    requires s.evaluated < |reg.order| && reg.order[s.evaluated] in reg.specs
    requires forall n :: n in names ==> n in reg.specs
    requires reg.specs[reg.order[s.evaluated]].trigger != StartupCondition || met ==> names == []
    ensures var n := reg.order[s.evaluated];
            DoesWhatItShould(reg, s, EvaluateStep(met, names),
                             EvaluateSpec(reg, s.(evaluated := s.evaluated + 1), n, met, names))
  {
    hide View, Submit, OwnPuts, Unblock, Skip;
    var n := reg.order[s.evaluated];
    var s1 := s.(evaluated := s.evaluated + 1);
    WaitsIsPending(reg, s1, n);
    if reg.specs[n].trigger != StartupCondition {
    } else if !met {
      hide DoesWhatItShould;
      SkipHappens(reg, s, names);
    } else if !PrereqPending(reg, s1, n) {
      SubmitHappens(reg, s1.(lifecycle := s1.lifecycle[n := Pending]), n, ByType(reg.specs[n].trigger), StartupThread);
    }
  }

  lemma CloseHappens(reg: Registry, s: State, status: Status)
    requires s.active.Some?
    ensures var s', item := Close(reg, s, status), s.active.value.item;
            && View(s'.hist) == View(s.hist)
                 + (if status == Abandoned && item.specName in reg.specs
                    then [PutOf(reg, item.specName, item.trigger, Requeued)] else [])
                 + [Ended(item, status)]
            && s'.lifecycle == s.lifecycle[item.specName := match status
                                                            case Success => Completed
                                                            case Failure => Failed
                                                            case Abandoned => Pending]
            && s'.waiting == s.waiting && s'.log == s.log + [LogEntry(item.specName, item.trigger, status)]
  {
    hide View, Submit;
    var item := s.active.value.item;
    SubmitHappens(reg, s, item.specName, item.trigger, Requeued);
    var s1 := if status == Abandoned then Submit(reg, s, item.specName, item.trigger, Requeued) else s;
    ViewGrows(s1.hist, Finished(item, status));
  }

  lemma Reassociate<T>(a: seq<T>, b: seq<T>, c: seq<T>, d: seq<T>)
    ensures a + [] + b == a + ([] + b)
    ensures ((a + b) + c) + d == a + (b + c + d)
  {
  }

  lemma SucceedHappens(reg: Registry, s: State, names: seq<string>, pushes: set<string>)
    requires s.active.Some? && forall n :: n in names ==> n in reg.specs
    ensures DoesWhatItShould(reg, s, FinishStep(Success, names, pushes), Finish(reg, s, Success, names, pushes))
  {
    hide View, Close, EnqueueAll, Chain, OwnPuts, ChainedPuts, Followers;
    var item, s1 := s.active.value.item, Close(reg, s, Success);
    CloseHappens(reg, s, Success);
    EnqueueAllHappens(reg, s1.(waiting := s1.waiting - (set m | m in names)), names, Unblocked);
    ChainHappens(reg, Unblock(reg, s1, names, Unblocked), item.specName, reg.order, pushes);
    var puts := OwnPuts(reg, names, Unblocked);
    var chained := ChainedPuts(reg, item.specName, Followers(reg, item.specName, reg.order, pushes));
    assert View(s.hist) + [] + [Ended(item, Success)] == View(s.hist) + [Ended(item, Success)];
    Reassociate(View(s.hist), [Ended(item, Success)], puts, chained);
  }

  lemma FinishHappens(reg: Registry, s: State, status: Status, names: seq<string>, pushes: set<string>)
    requires s.active.Some? && forall n :: n in names ==> n in reg.specs
    requires status != Success ==> names == []
    ensures DoesWhatItShould(reg, s, FinishStep(status, names, pushes), Finish(reg, s, status, names, pushes))
  {
    hide View, Close, EnqueueAll, Chain, OwnPuts, ChainedPuts, Followers;
    if status == Success {
      SucceedHappens(reg, s, names, pushes);
    } else {
      var item := s.active.value.item;
      CloseHappens(reg, s, status);
      Reassociate(View(s.hist), [Ended(item, status)], [], []);
    }
  }

  lemma BeginHappens(reg: Registry, s: State)
    requires s.active.None? && s.queue != []
    ensures DoesWhatItShould(reg, s, BeginStep, Begin(s))
  {
    ViewGrows(s.hist, Started(s.queue[0]));
  }

  lemma EnabledNames(reg: Registry, s: State, step: Step)
    requires reg.Valid() && Enabled(reg, s, step)
    ensures NamesRegistered(reg, step)
    ensures step.EvaluateStep? ==> reg.order[s.evaluated] in reg.specs
    ensures step.EvaluateStep? && (reg.specs[reg.order[s.evaluated]].trigger != StartupCondition || step.met) ==>
              step.names == []
    ensures step.FinishStep? && step.status != Success ==> step.names == []
  {
    if step.EvaluateStep? {
      assert reg.order[s.evaluated] in reg.order;
      if step.names != [] { assert step.names[0] in step.names; }
    }
    if step.FinishStep? && step.names != [] {
      assert step.names[0] in step.names;
    }
  }

  lemma EvaluateStepHappens(reg: Registry, s: State, met: bool, names: seq<string>)
    requires reg.Valid() && Enabled(reg, s, EvaluateStep(met, names))
    ensures NamesRegistered(reg, EvaluateStep(met, names)) && reg.order[s.evaluated] in reg.specs
    ensures DoesWhatItShould(reg, s, EvaluateStep(met, names), Apply(reg, s, EvaluateStep(met, names)))
  {
    hide DoesWhatItShould, EvaluateSpec;
    EnabledNames(reg, s, EvaluateStep(met, names));
    EvaluateHappens(reg, s, met, names);
  }

  lemma SubmitStepHappens(reg: Registry, s: State, n: string, trigger: Trigger)
    ensures DoesWhatItShould(reg, s, SubmitStep(n, trigger), Submit(reg, s, n, trigger, External))
  {
    hide View, Submit;
    SubmitHappens(reg, s, n, trigger, External);
  }

  lemma FinishStepHappens(reg: Registry, s: State, status: Status, names: seq<string>, pushes: set<string>)
    requires reg.Valid() && Enabled(reg, s, FinishStep(status, names, pushes))
    ensures NamesRegistered(reg, FinishStep(status, names, pushes))
    ensures DoesWhatItShould(reg, s, FinishStep(status, names, pushes), Finish(reg, s, status, names, pushes))
  {
    hide DoesWhatItShould, Finish;
    EnabledNames(reg, s, FinishStep(status, names, pushes));
    FinishHappens(reg, s, status, names, pushes);
  }

  /** Every step, from every state, adds exactly the events it should, in order, and
      leaves lifecycles, waiting set and log as it should. */
  lemma StepDoesWhatItShould(reg: Registry, s: State, step: Step)
    requires reg.Valid() && Enabled(reg, s, step)
    ensures NamesRegistered(reg, step) && (step.EvaluateStep? ==> reg.order[s.evaluated] in reg.specs)
    ensures DoesWhatItShould(reg, s, step, Apply(reg, s, step))
  {
    hide DoesWhatItShould, Finish, EvaluateSpec, Begin, NamesRegistered;
    EnabledNames(reg, s, step);
    match step {
      case SubmitStep(n, trigger) => SubmitStepHappens(reg, s, n, trigger);
      case EvaluateStep(met, names) => EvaluateStepHappens(reg, s, met, names);
      case BeginStep => BeginHappens(reg, s);
      case FinishStep(status, names, pushes) => FinishStepHappens(reg, s, status, names, pushes);
    }
  }

  // ---- chaining ----

  ghost predicate Precedes(s: seq<string>, x: string, y: string) {
    exists i, j :: 0 <= i < j < |s| && s[i] == x && s[j] == y
  }

  /** `r` keeps elements of `s` in their order. */
  ghost predicate InOrderOf(r: seq<string>, s: seq<string>) {
    forall a, b :: 0 <= a < b < |r| ==> Precedes(s, r[a], r[b])
  }

  lemma OrderAppends(r: seq<string>, s: seq<string>, n: string)
    requires InOrderOf(r, s) && NoDup(r) && n !in s && forall x :: x in r ==> x in s
    ensures InOrderOf(r, s + [n]) && InOrderOf(r + [n], s + [n]) && NoDup(r + [n])
  {
    var q, t := r + [n], s + [n];
    forall a, b | 0 <= a < b < |q| ensures q[a] != q[b] && Precedes(t, q[a], q[b]) {
      assert q[a] == r[a] && r[a] in r;
      if b < |r| {
        assert q[b] == r[b] && Precedes(s, r[a], r[b]);
        var i, j :| 0 <= i < j < |s| && s[i] == r[a] && s[j] == r[b];
        assert t[i] == q[a] && t[j] == q[b];
      } else {
        var i :| 0 <= i < |s| && s[i] == r[a];
        assert t[i] == q[a] && t[|s|] == q[b];
      }
    }
    forall a, b | 0 <= a < b < |r| ensures Precedes(t, r[a], r[b]) {
      assert q[a] == r[a] && q[b] == r[b];
    }
  }

  lemma {:induction false} FollowersOf(reg: Registry, done: string, names: seq<string>, pushes: set<string>)
    requires NoDup(names)
    ensures var r := Followers(reg, done, names, pushes);
            NoDup(r) && InOrderOf(r, names) && forall n :: n in r <==> n in names && Follows(reg, done, n, pushes)
    decreases |names|
  {
    if names == [] {
    } else {
      var init, n := names[..|names| - 1], names[|names| - 1];
      assert names == init + [n];
      FollowersOf(reg, done, init, pushes);
      var r := Followers(reg, done, init, pushes);
      assert n !in init;
      hide Followers, Follows;
      forall a | 0 <= a < |r| ensures r[a] in init {
      }
      OrderAppends(r, init, n);
    }
  }

  /** The chained submissions among what a step did, in order. */
  function ChainedIn(v: seq<Happening>): seq<Happening>
    decreases |v|
  {
    if v == [] then []
    else
      var x := v[|v| - 1];
      ChainedIn(v[..|v| - 1]) + if x.Put? && x.cause == Chained then [x] else []
  }

  lemma {:induction false} AllChained(v: seq<Happening>)
    requires forall i :: 0 <= i < |v| ==> v[i].Put? && v[i].cause == Chained
    ensures ChainedIn(v) == v
    decreases |v|
  {
    if v == [] {
    } else {
      AllChained(v[..|v| - 1]);
      assert v == v[..|v| - 1] + [v[|v| - 1]];
    }
  }

  lemma {:induction false} NoneChained(v: seq<Happening>)
    requires forall i :: 0 <= i < |v| ==> !(v[i].Put? && v[i].cause == Chained)
    ensures ChainedIn(v) == []
    decreases |v|
  {
    if v == [] {
    } else {
      NoneChained(v[..|v| - 1]);
    }
  }

  lemma {:induction false} ChainedAppends(a: seq<Happening>, b: seq<Happening>)
    ensures ChainedIn(a + b) == ChainedIn(a) + ChainedIn(b)
    decreases |b|
  {
    if b == [] {
      assert a + b == a;
    } else {
      assert (a + b)[..|a + b| - 1] == a + b[..|b| - 1];
      ChainedAppends(a, b[..|b| - 1]);
    }
  }

  lemma NothingChained(reg: Registry, s: State, step: Step)
    requires NamesRegistered(reg, step) && !(step.FinishStep? && step.status == Success)
    requires step.EvaluateStep? ==> s.evaluated < |reg.order| && reg.order[s.evaluated] in reg.specs
    requires step.BeginStep? ==> s.queue != []
    requires step.FinishStep? ==> s.active.Some?
    ensures ChainedIn(Expected(reg, s, step)) == []
  {
    NoneChained(Expected(reg, s, step));
  }

  lemma ChainedOfSuccess(reg: Registry, item: Item, names: seq<string>, followers: seq<string>)
    requires forall n :: n in names ==> n in reg.specs
    requires forall n :: n in followers ==> n in reg.specs
    ensures ChainedIn([Ended(item, Success)] + OwnPuts(reg, names, Unblocked)
                      + ChainedPuts(reg, item.specName, followers))
            == ChainedPuts(reg, item.specName, followers)
  {
    var a, b, c := [Ended(item, Success)], OwnPuts(reg, names, Unblocked), ChainedPuts(reg, item.specName, followers);
    NoneChained(a);
    NoneChained(b);
    AllChained(c);
    hide ChainedIn;
    ChainedAppends(a, b);
    ChainedAppends(a + b, c);
  }

  /** A finished run chains exactly the registered specs that follow it, each once,
      in registration order, and labelled with it; a run that did not succeed, and
      any other step, chains nothing. */
  lemma ChainsExactly(reg: Registry, s: State, step: Step) returns (names: seq<string>)
    requires reg.Valid() && Enabled(reg, s, step)
    ensures NoDup(names) && InOrderOf(names, reg.order)
    ensures forall n :: n in names <==>
              && step.FinishStep? && step.status == Success
              && n in reg.specs && reg.specs[n].triggerAfter == Some(s.active.value.item.specName)
              && (reg.specs[n].pushRequired ==> n in step.pushes)
    ensures var was, now := View(s.hist), View(Apply(reg, s, step).hist);
            && was <= now
            && |ChainedIn(now[|was|..])| == |names|
            && forall i :: 0 <= i < |names| ==>
                 ChainedIn(now[|was|..])[i]
                 == Put(names[i], reg.specs[names[i]].priority,
                        CompletedAfter(s.active.value.item.specName), Chained)
  {
    StepDoesWhatItShould(reg, s, step);
    var more := Expected(reg, s, step);
    var was, now := View(s.hist), View(Apply(reg, s, step).hist);
    assert now[|was|..] == more;
    if step.FinishStep? && step.status == Success {
      var done := s.active.value.item.specName;
      names := Followers(reg, done, reg.order, step.pushes);
      FollowersOf(reg, done, reg.order, step.pushes);
      ChainedOfSuccess(reg, s.active.value.item, step.names, names);
    } else {
      names := [];
      NothingChained(reg, s, step);
    }
  }

  // ---- a startup spec and its condition ----

  /** What the condition of startup spec `n` returned when the startup thread came
      to it, if it has. */
  ghost function MetOf(reg: Registry, steps: seq<Step>, n: string): Option<bool>
    requires ValidRun(reg, steps)
    decreases |steps|
  {
    if steps == [] then None
    else
      var init, step := steps[..|steps| - 1], steps[|steps| - 1];
      if step.EvaluateStep? && reg.order[Exec(reg, init).evaluated] == n then Some(step.met) else MetOf(reg, init, n)
  }

  ghost predicate Reached(reg: Registry, s: State, n: string) {
    exists i :: 0 <= i < s.evaluated && i < |reg.order| && reg.order[i] == n
  }

  lemma {:induction false} EnqueueAllEvaluates(reg: Registry, names: seq<string>)
    requires forall n :: n in names ==> n in reg.specs
    ensures forall s, cause :: EnqueueAll(reg, s, names, cause).evaluated == s.evaluated
    decreases |names|
  {
    hide Insert;
    if names == [] {
    } else {
      EnqueueAllEvaluates(reg, names[..|names| - 1]);
    }
  }

  lemma {:induction false} ChainEvaluates(reg: Registry, done: string, names: seq<string>, pushes: set<string>)
    ensures forall s :: Chain(reg, s, done, names, pushes).evaluated == s.evaluated
    decreases |names|
  {
    hide Insert;
    if names == [] {
    } else {
      ChainEvaluates(reg, done, names[..|names| - 1], pushes);
    }
  }

  lemma EvaluatedGrows(reg: Registry, s: State, step: Step)
    requires reg.Valid() && Enabled(reg, s, step)
    ensures Apply(reg, s, step).evaluated == s.evaluated + if step.EvaluateStep? then 1 else 0
  {
    hide Insert;
    EnabledNames(reg, s, step);
    match step {
      case SubmitStep(_, _) =>
      case EvaluateStep(_, names) => EnqueueAllEvaluates(reg, names);
      case BeginStep =>
      case FinishStep(_, names, pushes) =>
        EnqueueAllEvaluates(reg, names);
        ChainEvaluates(reg, s.active.value.item.specName, reg.order, pushes);
    }
  }

  lemma DismissedExpected(reg: Registry, s: State, step: Step, n: string)
    requires NamesRegistered(reg, step)
    requires step.EvaluateStep? ==> s.evaluated < |reg.order| && reg.order[s.evaluated] in reg.specs
    requires step.BeginStep? ==> s.queue != []
    requires step.FinishStep? ==> s.active.Some?
    ensures Dismissed(n) in Expected(reg, s, step)
            <==> step.EvaluateStep? && !step.met && reg.order[s.evaluated] == n && reg.IsStartup(n)
  {
    hide Followers;
    var more := Expected(reg, s, step);
    if step.EvaluateStep? && !step.met && reg.order[s.evaluated] == n && reg.IsStartup(n) {
      assert more[0] == Dismissed(n);
    } else {
      forall i | 0 <= i < |more| ensures more[i] != Dismissed(n) {
      }
    }
  }

  lemma StepAdds(reg: Registry, s: State, step: Step)
    requires reg.Valid() && Enabled(reg, s, step) && NamesRegistered(reg, step)
    requires step.EvaluateStep? ==> reg.order[s.evaluated] in reg.specs
    ensures View(Apply(reg, s, step).hist) == View(s.hist) + Expected(reg, s, step)
  {
    hide Apply;
    StepDoesWhatItShould(reg, s, step);
  }

  lemma DismissedByStep(reg: Registry, s: State, step: Step, n: string)
    requires reg.Valid() && Enabled(reg, s, step)
    ensures Dismissed(n) in View(Apply(reg, s, step).hist)
            <==> Dismissed(n) in View(s.hist)
                 || (step.EvaluateStep? && !step.met && reg.order[s.evaluated] == n && reg.IsStartup(n))
  {
    StepDoesWhatItShould(reg, s, step);
    hide DoesWhatItShould, Apply;
    assert View(Apply(reg, s, step).hist) == View(s.hist) + Expected(reg, s, step) by { StepAdds(reg, s, step); }
    DismissedExpected(reg, s, step, n);
  }

  lemma ReachedByStep(reg: Registry, s: State, step: Step, n: string)
    requires reg.Valid() && Enabled(reg, s, step)
    ensures step.EvaluateStep? ==> s.evaluated < |reg.order|
    ensures Reached(reg, Apply(reg, s, step), n)
            <==> Reached(reg, s, n) || (step.EvaluateStep? && reg.order[s.evaluated] == n)
    ensures step.EvaluateStep? && reg.order[s.evaluated] == n ==> !Reached(reg, s, n)
  {
    EvaluatedGrows(reg, s, step);
    hide Apply;
    if step.EvaluateStep? && reg.order[s.evaluated] == n {
      assert Reached(reg, Apply(reg, s, step), n);
    }
  }

  /** A startup spec was skipped exactly if its condition was false when the startup
      thread came to it, and the thread comes to every spec once. */
  lemma {:induction false} DismissedIff(reg: Registry, steps: seq<Step>, n: string)
    requires ValidRun(reg, steps)
    ensures MetOf(reg, steps, n).Some? <==> Reached(reg, Exec(reg, steps), n)
    ensures Dismissed(n) in View(Exec(reg, steps).hist)
            <==> reg.IsStartup(n) && MetOf(reg, steps, n) == Some(false)
    decreases |steps|
  {
    hide Enabled, Apply;
    if steps == [] {
    } else {
      var init, step := steps[..|steps| - 1], steps[|steps| - 1];
      var s := Exec(reg, init);
      DismissedIff(reg, init, n);
      EvaluatedGrows(reg, s, step);
      DismissedByStep(reg, s, step, n);
      ReachedByStep(reg, s, step, n);
    }
  }
}
