/** Startup conditions and prerequisites: what holds of every startup spec over
    every run, for every registration order. */
module EngineStartup {
  import opened Prelude
  import opened Engine
  import History = EngineHistory

  // ---- what the history says about one workflow ----

  /** `startups` counts how often the startup machinery enqueued the workflow;
      `resolved` says that it once completed or was found not needed;
      `otherPath` that it was submitted from outside or chained; `allSucceeded`
      that every finished run of any workflow succeeded. */
  datatype Past = Past(startups: nat, skipped: bool, resolved: bool, otherPath: bool, allSucceeded: bool)

  predicate ByStartup(c: Cause) {
    c == StartupThread || c == Unblocked
  }

  function Extend(p: Past, e: Event, n: string): Past {
    match e
    case Enqueued(item, cause) =>
      if item.specName != n then p
      else if ByStartup(cause) then p.(startups := p.startups + 1)
      else if cause == Requeued then p
      else p.(otherPath := true)
    case Skipped(m) => if m == n then p.(skipped := true, resolved := true) else p
    case Started(_) => p
    case Finished(item, status) =>
      p.(resolved := p.resolved || (item.specName == n && status == Success),
         allSucceeded := p.allSucceeded && status == Success)
  }

  function PastOf(h: seq<Event>, n: string): Past {
    if h == [] then Past(0, false, false, false, true)
    else Extend(PastOf(h[..|h| - 1], n), h[|h| - 1], n)
  }

  lemma PastGrows(h: seq<Event>, e: Event, n: string)
    ensures PastOf(h + [e], n) == Extend(PastOf(h, n), e, n)
  {
    assert (h + [e])[..|h + [e]| - 1] == h;
  }

  predicate Queued(q: seq<Item>, n: string) {
    q != [] && (q[0].specName == n || Queued(q[1..], n))
  }

  lemma {:induction false} QueuedAfterInsert(q: seq<Item>, item: Item, n: string)
    ensures Queued(Insert(q, item), n) <==> Queued(q, n) || item.specName == n
    decreases |q|
  {
    if q == [] || Before(item, q[0]) {
      assert ([item] + q)[1..] == q;
    } else {
      QueuedAfterInsert(q[1..], item, n);
      assert ([q[0]] + Insert(q[1..], item))[1..] == Insert(q[1..], item);
    }
  }

  predicate InFlight(s: State, n: string) {
    Queued(s.queue, n) || (s.active.Some? && s.active.value.item.specName == n)
  }

  // ---- the invariant ----

  ghost predicate Seen(reg: Registry, s: State, n: string) {
    exists i :: 0 <= i < s.evaluated && i < |reg.order| && reg.order[i] == n
  }

  /** A waiting spec has an unresolved prerequisite, unless that prerequisite is
      `exempt`: the one being resolved by the step in progress. */
  ghost predicate WaitsForGood(reg: Registry, s: State, n: string, exempt: Option<string>)
    requires n in reg.specs
  {
    n in s.waiting ==>
      && reg.specs[n].prereq.Some?
      && var r := reg.specs[n].prereq.value;
         r in reg.specs && (exempt != Some(r) ==> !Resolved(LifecycleOf(s, r)))
  }

  /** A startup spec that has been evaluated was enqueued once, or skipped, or
      waits, and only one of these; any other spec none of them. */
  ghost predicate OneFate(reg: Registry, s: State, n: string) {
    var p := PastOf(s.hist, n);
    if reg.IsStartup(n) && Seen(reg, s, n) then
      if n in s.waiting then p.startups == 0 && !p.skipped
      else p.startups == if p.skipped then 0 else 1
    else n !in s.waiting && p.startups == 0 && !p.skipped
  }

  /** The prerequisite of `n`, if registered, has been resolved. */
  ghost predicate PrereqResolved(reg: Registry, s: State, n: string)
    requires n in reg.specs
  {
    reg.specs[n].prereq.Some? && reg.specs[n].prereq.value in reg.specs ==>
      PastOf(s.hist, reg.specs[n].prereq.value).resolved
  }

  /** `n` was submitted from outside, chained, or enqueued by the startup machinery. */
  ghost predicate Entitled(s: State, n: string) {
    PastOf(s.hist, n).otherPath || PastOf(s.hist, n).startups > 0
  }

  /** While every run succeeds, a spec the startup machinery has dealt with is
      resolved or on its way. */
  ghost predicate Settles(s: State, n: string) {
    var p := PastOf(s.hist, n);
    p.allSucceeded && (p.skipped || p.startups > 0) ==> Resolved(LifecycleOf(s, n)) || InFlight(s, n)
  }

  ghost predicate NameInv(reg: Registry, s: State, n: string, exempt: Option<string>)
    requires n in reg.specs
  {
    && n in s.lifecycle
    && WaitsForGood(reg, s, n, exempt)
    && OneFate(reg, s, n)
    && (Resolved(LifecycleOf(s, n)) ==> PastOf(s.hist, n).resolved)
    && (InFlight(s, n) ==> Entitled(s, n))
    && (PastOf(s.hist, n).startups > 0 ==> PrereqResolved(reg, s, n))
    && Settles(s, n)
  }

  /** Only registered workflows occur anywhere. */
  ghost predicate Registered(reg: Registry, s: State) {
    && s.waiting <= reg.specs.Keys
    && s.lifecycle.Keys <= reg.specs.Keys
    && (forall x :: x in s.queue ==> x.specName in reg.specs)
    && (s.active.Some? ==> s.active.value.item.specName in reg.specs)
  }

  ghost predicate Inv(reg: Registry, s: State, exempt: Option<string>) {
    && Registered(reg, s)
    && (forall n :: n in reg.specs ==> NameInv(reg, s, n, exempt))
  }

  // ---- how a step looks from one workflow ----

  function Counted(p: Past, cause: Cause): Past {
    if ByStartup(cause) then p.(startups := p.startups + 1)
    else if cause == Requeued then p
    else p.(otherPath := true)
  }

  /** What a submission of `n` changes for workflow `m`. */
  lemma SubmitView(reg: Registry, s: State, n: string, trigger: Trigger, cause: Cause, m: string)
    requires n in reg.specs
    ensures var s' := Submit(reg, s, n, trigger, cause);
            && s'.lifecycle == s.lifecycle && s'.waiting == s.waiting && s'.evaluated == s.evaluated
            && (InFlight(s', m) <==> InFlight(s, m) || m == n)
            && PastOf(s'.hist, m) == (if m == n then Counted(PastOf(s.hist, m), cause) else PastOf(s.hist, m))
  {
    var item := Item(reg.specs[n].priority, s.counter, n, trigger);
    QueuedAfterInsert(s.queue, item, m);
    PastGrows(s.hist, Enqueued(item, cause), m);
  }

  lemma SubmitRegistered(reg: Registry, s: State, n: string, trigger: Trigger, cause: Cause)
    requires Registered(reg, s)
    ensures Registered(reg, Submit(reg, s, n, trigger, cause))
  {
    if n in reg.specs {
      InsertElements(s.queue, Item(reg.specs[n].priority, s.counter, n, trigger));
    }
  }

  lemma {:induction false} EnqueueAllRegistered(reg: Registry, s: State, names: seq<string>, cause: Cause)
    requires Registered(reg, s) && forall n :: n in names ==> n in reg.specs
    ensures Registered(reg, EnqueueAll(reg, s, names, cause))
    decreases |names|
  {
    if names == [] {
    } else {
      var k := |names| - 1;
      EnqueueAllRegistered(reg, s, names[..k], cause);
      var s1 := EnqueueAll(reg, s, names[..k], cause);
      SubmitRegistered(reg, s1.(lifecycle := s1.lifecycle[names[k] := Pending]), names[k],
                       ByType(reg.specs[names[k]].trigger), cause);
    }
  }

  /** What enqueueing `n` through the startup machinery changes for workflow `m`. */
  lemma EnqueueSpecView(reg: Registry, s: State, n: string, cause: Cause, m: string)
    requires n in reg.specs
    ensures var s' := EnqueueSpec(reg, s, n, cause);
            && s'.waiting == s.waiting && s'.evaluated == s.evaluated
            && (m in s'.lifecycle <==> m in s.lifecycle || m == n)
            && LifecycleOf(s', m) == (if m == n then Pending else LifecycleOf(s, m))
            && (InFlight(s', m) <==> InFlight(s, m) || m == n)
            && PastOf(s'.hist, m) == (if m == n then Counted(PastOf(s.hist, m), cause) else PastOf(s.hist, m))
  {
    SubmitView(reg, s.(lifecycle := s.lifecycle[n := Pending]), n, ByType(reg.specs[n].trigger), cause, m);
  }

  lemma SplitLast(names: seq<string>, m: string)
    requires NoDup(names) && names != []
    ensures var k := |names| - 1;
            && NoDup(names[..k]) && names[k] !in names[..k]
            && (m in names <==> m in names[..k] || m == names[k])
  {
    var k := |names| - 1;
    assert names == names[..k] + [names[k]];
  }

  /** What enqueueing distinct specs changes for workflow `m`. */
  lemma {:induction false} EnqueueAllView(reg: Registry, s: State, names: seq<string>, cause: Cause, m: string)
    requires NoDup(names) && forall n :: n in names ==> n in reg.specs
    ensures var s' := EnqueueAll(reg, s, names, cause);
            && s'.waiting == s.waiting && s'.evaluated == s.evaluated
            && (m in s'.lifecycle <==> m in s.lifecycle || m in names)
            && LifecycleOf(s', m) == (if m in names then Pending else LifecycleOf(s, m))
            && (InFlight(s', m) <==> InFlight(s, m) || m in names)
            && PastOf(s'.hist, m) == (if m in names then Counted(PastOf(s.hist, m), cause) else PastOf(s.hist, m))
    decreases |names|
  {
    if names == [] {
    } else {
      var k := |names| - 1;
      SplitLast(names, m);
      EnqueueAllView(reg, s, names[..k], cause, m);
      EnqueueSpecView(reg, EnqueueAll(reg, s, names[..k], cause), names[k], cause, m);
    }
  }

  /** What releasing `names` changes for workflow `m`. */
  lemma UnblockView(reg: Registry, s: State, names: seq<string>, cause: Cause, m: string)
    requires NoDup(names) && forall n :: n in names ==> n in reg.specs
    ensures var s' := Unblock(reg, s, names, cause);
            && (m in s'.waiting <==> m in s.waiting && m !in names)
            && (Seen(reg, s', m) <==> Seen(reg, s, m))
            && (m in s'.lifecycle <==> m in s.lifecycle || m in names)
            && LifecycleOf(s', m) == (if m in names then Pending else LifecycleOf(s, m))
            && (InFlight(s', m) <==> InFlight(s, m) || m in names)
            && PastOf(s'.hist, m) == (if m in names then Counted(PastOf(s.hist, m), cause) else PastOf(s.hist, m))
  {
    var s1 := s.(waiting := s.waiting - (set n | n in names));
    assert InFlight(s1, m) <==> InFlight(s, m);
    EnqueueAllView(reg, s1, names, cause, m);
  }

  // ---- steps that submit ----

  lemma SubmitKeepsName(
      reg: Registry, s: State, n: string, trigger: Trigger, cause: Cause, exempt: Option<string>, m: string)
    requires n in reg.specs && m in reg.specs && NameInv(reg, s, m, exempt)
    requires cause == External || cause == Chained || (cause == Requeued && InFlight(s, n))
    ensures NameInv(reg, Submit(reg, s, n, trigger, cause), m, exempt)
  {
    SubmitView(reg, s, n, trigger, cause, m);
    if reg.specs[m].prereq.Some? {
      SubmitView(reg, s, n, trigger, cause, reg.specs[m].prereq.value);
    }
    assert Seen(reg, Submit(reg, s, n, trigger, cause), m) <==> Seen(reg, s, m);
  }

  /** A submission from outside, a chained one, or the active run submitting
      itself again keeps the invariant. */
  lemma SubmitKeeps(reg: Registry, s: State, n: string, trigger: Trigger, cause: Cause, exempt: Option<string>)
    requires Inv(reg, s, exempt)
    requires cause == External || cause == Chained || (cause == Requeued && InFlight(s, n))
    ensures Inv(reg, Submit(reg, s, n, trigger, cause), exempt)
  {
    if n in reg.specs {
      SubmitRegistered(reg, s, n, trigger, cause);
      forall m | m in reg.specs ensures NameInv(reg, Submit(reg, s, n, trigger, cause), m, exempt) {
        SubmitKeepsName(reg, s, n, trigger, cause, exempt, m);
      }
    }
  }

  lemma {:induction false} ChainKeeps(
      reg: Registry, s: State, done: string, names: seq<string>, pushes: set<string>, exempt: Option<string>)
    requires Inv(reg, s, exempt)
    ensures Inv(reg, Chain(reg, s, done, names, pushes), exempt)
    decreases |names|
  {
    if names == [] {
    } else {
      var k := |names| - 1;
      ChainKeeps(reg, s, done, names[..k], pushes, exempt);
      SubmitKeeps(reg, Chain(reg, s, done, names[..k], pushes), names[k], CompletedAfter(done), Chained, exempt);
    }
  }

  lemma UnblockKeepsName(reg: Registry, s: State, done: string, names: seq<string>, cause: Cause, m: string)
    requires done in reg.specs && ByStartup(cause) && m in reg.specs
    requires NameInv(reg, s, m, Some(done)) && PastOf(s.hist, done).resolved
    requires Resolved(LifecycleOf(s, done)) && Enumerates(names, Released(reg, s, done))
    ensures NameInv(reg, Unblock(reg, s, names, cause), m, None)
  {
    hide Unblock, PastOf, InFlight;
    UnblockView(reg, s, names, cause, m);
    if reg.specs[m].prereq.Some? {
      UnblockView(reg, s, names, cause, reg.specs[m].prereq.value);
    }
    assert m in names <==> m in s.waiting && reg.specs[m].prereq == Some(done);
  }

  /** Releasing exactly the specs that waited for `done` ends the exemption. */
  lemma UnblockKeeps(reg: Registry, s: State, done: string, names: seq<string>, cause: Cause)
    requires Inv(reg, s, Some(done)) && done in reg.specs && ByStartup(cause)
    requires Resolved(LifecycleOf(s, done)) && Enumerates(names, Released(reg, s, done))
    ensures Inv(reg, Unblock(reg, s, names, cause), None)
  {
    EnqueueAllRegistered(reg, s.(waiting := s.waiting - (set n | n in names)), names, cause);
    assert NameInv(reg, s, done, Some(done));
    forall m | m in reg.specs ensures NameInv(reg, Unblock(reg, s, names, cause), m, None) {
      UnblockKeepsName(reg, s, done, names, cause, m);
    }
  }

  // ---- the startup thread ----

  /** The state in which the startup loop looks at its next spec. */
  function Advance(s: State): State {
    s.(evaluated := s.evaluated + 1)
  }

  lemma AdvanceView(reg: Registry, s: State, m: string)
    requires reg.Valid() && s.evaluated < |reg.order|
    ensures reg.order[s.evaluated] in reg.specs && !Seen(reg, s, reg.order[s.evaluated])
    ensures Seen(reg, Advance(s), m) <==> m == reg.order[s.evaluated] || Seen(reg, s, m)
    ensures InFlight(Advance(s), m) <==> InFlight(s, m)
  {
    assert reg.order[s.evaluated] in reg.order;
    if Seen(reg, Advance(s), m) {
      var i :| 0 <= i < s.evaluated + 1 && i < |reg.order| && reg.order[i] == m;
      assert i < s.evaluated || i == s.evaluated;
    }
    if m == reg.order[s.evaluated] {
      assert 0 <= s.evaluated < Advance(s).evaluated;
    }
  }

  /** `n` is the startup spec at which the loop has arrived, as seen from `m`. */
  ghost predicate Arrives(reg: Registry, s: State, n: string, m: string) {
    && reg.IsStartup(n) && m in reg.specs
    && !Seen(reg, s, n)
    && (Seen(reg, Advance(s), m) <==> m == n || Seen(reg, s, m))
  }

  lemma SkipKeepsName(reg: Registry, s: State, n: string, m: string)
    requires Arrives(reg, s, n, m) && NameInv(reg, s, m, None)
    ensures NameInv(reg, Skip(Advance(s), n), m, Some(n))
  {
    PastGrows(s.hist, Skipped(n), m);
    if reg.specs[m].prereq.Some? {
      PastGrows(s.hist, Skipped(n), reg.specs[m].prereq.value);
    }
    assert Seen(reg, Skip(Advance(s), n), m) <==> Seen(reg, Advance(s), m);
  }

  lemma ParkKeepsName(reg: Registry, s: State, n: string, m: string)
    requires Arrives(reg, s, n, m) && NameInv(reg, s, m, None)
    requires PrereqPending(reg, s, n) && s.lifecycle.Keys <= reg.specs.Keys
    ensures NameInv(reg, Park(Advance(s), n), m, None)
  {
    assert Seen(reg, Park(Advance(s), n), m) <==> Seen(reg, Advance(s), m);
    assert reg.specs[n].prereq.value in s.lifecycle;
  }

  lemma EnqueueFirstKeepsName(reg: Registry, s: State, n: string, m: string)
    requires Arrives(reg, s, n, m) && NameInv(reg, s, m, None) && PrereqResolved(reg, s, n)
    ensures NameInv(reg, EnqueueSpec(reg, Advance(s), n, StartupThread), m, None)
  {
    EnqueueSpecView(reg, Advance(s), n, StartupThread, m);
    if reg.specs[m].prereq.Some? {
      EnqueueSpecView(reg, Advance(s), n, StartupThread, reg.specs[m].prereq.value);
    }
    assert Seen(reg, EnqueueSpec(reg, Advance(s), n, StartupThread), m) <==> Seen(reg, Advance(s), m);
  }

  lemma IgnoreKeeps(reg: Registry, s: State)
    requires reg.Valid() && Inv(reg, s, None) && s.evaluated < |reg.order|
    requires !reg.IsStartup(reg.order[s.evaluated])
    ensures Inv(reg, Advance(s), None)
  {
    forall m | m in reg.specs ensures NameInv(reg, Advance(s), m, None) {
      AdvanceView(reg, s, m);
      assert NameInv(reg, s, m, None);
    }
  }

  lemma SkipKeeps(reg: Registry, s: State)
    requires reg.Valid() && Inv(reg, s, None) && s.evaluated < |reg.order|
    requires reg.IsStartup(reg.order[s.evaluated])
    ensures Inv(reg, Skip(Advance(s), reg.order[s.evaluated]), Some(reg.order[s.evaluated]))
  {
    var n := reg.order[s.evaluated];
    forall m | m in reg.specs ensures NameInv(reg, Skip(Advance(s), n), m, Some(n)) {
      assert NameInv(reg, s, m, None);
      AdvanceView(reg, s, m);
      SkipKeepsName(reg, s, reg.order[s.evaluated], m);
    }
  }

  lemma ParkKeeps(reg: Registry, s: State)
    requires reg.Valid() && Inv(reg, s, None) && s.evaluated < |reg.order|
    requires reg.IsStartup(reg.order[s.evaluated]) && PrereqPending(reg, s, reg.order[s.evaluated])
    ensures Inv(reg, Park(Advance(s), reg.order[s.evaluated]), None)
  {
    forall m | m in reg.specs ensures NameInv(reg, Park(Advance(s), reg.order[s.evaluated]), m, None) {
      assert NameInv(reg, s, m, None);
      AdvanceView(reg, s, m);
      ParkKeepsName(reg, s, reg.order[s.evaluated], m);
    }
  }

  lemma EnqueueFirstKeeps(reg: Registry, s: State)
    requires reg.Valid() && Inv(reg, s, None) && s.evaluated < |reg.order|
    requires reg.IsStartup(reg.order[s.evaluated]) && !PrereqPending(reg, s, reg.order[s.evaluated])
    ensures Inv(reg, EnqueueSpec(reg, Advance(s), reg.order[s.evaluated], StartupThread), None)
  {
    var n := reg.order[s.evaluated];
    if reg.specs[n].prereq.Some? && reg.specs[n].prereq.value in reg.specs {
      assert NameInv(reg, s, reg.specs[n].prereq.value, None);
    }
    SubmitRegistered(reg, Advance(s).(lifecycle := s.lifecycle[n := Pending]), n,
                     ByType(reg.specs[n].trigger), StartupThread);
    forall m | m in reg.specs ensures NameInv(reg, EnqueueSpec(reg, Advance(s), n, StartupThread), m, None) {
      assert NameInv(reg, s, m, None);
      AdvanceView(reg, s, m);
      EnqueueFirstKeepsName(reg, s, reg.order[s.evaluated], m);
    }
  }

  lemma EvaluateKeeps(reg: Registry, s: State, met: bool, names: seq<string>)
    requires reg.Valid() && Inv(reg, s, None) && Enabled(reg, s, EvaluateStep(met, names))
    ensures Inv(reg, Apply(reg, s, EvaluateStep(met, names)), None)
  {
    hide Inv, Unblock, EnqueueSpec, Park;
    var n := reg.order[s.evaluated];
    AdvanceView(reg, s, n);
    if !reg.IsStartup(n) {
      IgnoreKeeps(reg, s);
    } else if !met {
      SkipKeeps(reg, s);
      assert Released(reg, Skip(Advance(s), n), n) == Released(reg, Skip(s, n), n);
      UnblockKeeps(reg, Skip(Advance(s), n), n, names, StartupThread);
    } else if PrereqPending(reg, s, n) {
      ParkKeeps(reg, s);
    } else {
      EnqueueFirstKeeps(reg, s);
    }
  }

  // ---- the worker ----

  lemma QueuedHead(q: seq<Item>, n: string)
    requires q != []
    ensures Queued(q, n) <==> q[0].specName == n || Queued(q[1..], n)
  {
  }

  lemma BeginView(s: State, m: string)
    requires s.active.None? && s.queue != []
    ensures InFlight(Begin(s), m) <==> InFlight(s, m)
    ensures PastOf(Begin(s).hist, m) == PastOf(s.hist, m)
    ensures m == s.queue[0].specName ==> InFlight(s, m)
  {
    QueuedHead(s.queue, m);
    PastGrows(s.hist, Started(s.queue[0]), m);
    assert Begin(s).hist == s.hist + [Started(s.queue[0])];
  }

  lemma BeginKeepsName(reg: Registry, s: State, m: string)
    requires s.active.None? && s.queue != [] && m in reg.specs && NameInv(reg, s, m, None)
    ensures NameInv(reg, Begin(s), m, None)
  {
    BeginView(s, m);
    if reg.specs[m].prereq.Some? {
      BeginView(s, reg.specs[m].prereq.value);
    }
    assert Seen(reg, Begin(s), m) <==> Seen(reg, s, m);
  }

  lemma BeginKeeps(reg: Registry, s: State)
    requires Inv(reg, s, None) && s.active.None? && s.queue != []
    ensures Inv(reg, Begin(s), None)
  {
    assert s.queue[0] in s.queue;
    assert forall x :: x in s.queue[1..] ==> x in s.queue;
    forall m | m in reg.specs ensures NameInv(reg, Begin(s), m, None) {
      BeginKeepsName(reg, s, m);
    }
  }

  lemma RetireView(reg: Registry, s: State, status: Status, m: string)
    requires s.active.Some?
    ensures var s' := Retire(s, status);
            && (Seen(reg, s', m) <==> Seen(reg, s, m))
            && (InFlight(s', m) ==> InFlight(s, m))
            && (InFlight(s, m) ==> m == s.active.value.item.specName || InFlight(s', m))
            && PastOf(s'.hist, m) == Extend(PastOf(s.hist, m), Finished(s.active.value.item, status), m)
  {
    PastGrows(s.hist, Finished(s.active.value.item, status), m);
  }

  /** A cancelled run has been submitted again before it is retired. */
  lemma RetireKeepsName(reg: Registry, s: State, status: Status, m: string)
    requires s.active.Some? && m in reg.specs && NameInv(reg, s, m, None)
    ensures NameInv(reg, Retire(s, status), m,
                    if status == Success then Some(s.active.value.item.specName) else None)
  {
    RetireView(reg, s, status, m);
    if reg.specs[m].prereq.Some? {
      RetireView(reg, s, status, reg.specs[m].prereq.value);
    }
  }

  lemma RetireKeeps(reg: Registry, s: State, status: Status)
    requires Inv(reg, s, None) && s.active.Some?
    ensures Inv(reg, Retire(s, status), if status == Success then Some(s.active.value.item.specName) else None)
  {
    hide NameInv;
    var exempt := if status == Success then Some(s.active.value.item.specName) else None;
    forall m | m in reg.specs ensures NameInv(reg, Retire(s, status), m, exempt) {
      RetireKeepsName(reg, s, status, m);
    }
  }

  lemma CloseKeeps(reg: Registry, s: State, status: Status)
    requires Inv(reg, s, None) && s.active.Some?
    ensures Inv(reg, Close(reg, s, status), if status == Success then Some(s.active.value.item.specName) else None)
  {
    var item := s.active.value.item;
    if status == Abandoned {
      SubmitKeeps(reg, s, item.specName, item.trigger, Requeued, None);
      RetireKeeps(reg, Submit(reg, s, item.specName, item.trigger, Requeued), status);
    } else {
      RetireKeeps(reg, s, status);
    }
  }

  lemma FinishKeeps(reg: Registry, s: State, status: Status, names: seq<string>, pushes: set<string>)
    requires reg.Valid() && Inv(reg, s, None) && Enabled(reg, s, FinishStep(status, names, pushes))
    ensures Inv(reg, Finish(reg, s, status, names, pushes), None)
  {
    CloseKeeps(reg, s, status);
    if status == Success {
      var n := s.active.value.item.specName;
      var s1 := Close(reg, s, status);
      UnblockKeeps(reg, s1, n, names, Unblocked);
      ChainKeeps(reg, Unblock(reg, s1, names, Unblocked), n, reg.order, pushes, None);
    }
  }

  // ---- runs ----

  lemma ApplyKeeps(reg: Registry, s: State, step: Step)
    requires reg.Valid() && Enabled(reg, s, step) && Inv(reg, s, None)
    ensures Inv(reg, Apply(reg, s, step), None)
  {
    match step
    case SubmitStep(n, trigger) => SubmitKeeps(reg, s, n, trigger, External, None);
    case EvaluateStep(met, names) => EvaluateKeeps(reg, s, met, names);
    case BeginStep => BeginKeeps(reg, s);
    case FinishStep(status, names, pushes) => FinishKeeps(reg, s, status, names, pushes);
  }

  lemma {:induction false} ExecFromKeeps(reg: Registry, s: State, steps: seq<Step>)
    requires reg.Valid() && ValidFrom(reg, s, steps) && Inv(reg, s, None)
    ensures Inv(reg, ExecFrom(reg, s, steps), None)
    decreases |steps|
  {
    if steps == [] {
    } else {
      var k := |steps| - 1;
      ExecFromKeeps(reg, s, steps[..k]);
      ApplyKeeps(reg, ExecFrom(reg, s, steps[..k]), steps[k]);
    }
  }

  lemma InvHolds(reg: Registry, steps: seq<Step>)
    requires ValidRun(reg, steps)
    ensures Inv(reg, Exec(reg, steps), None)
  {
    forall n | n in reg.specs ensures NameInv(reg, Init(reg), n, None) {}
    ExecFromKeeps(reg, Init(reg), steps);
  }

  // ---- main results ----

  /** A workflow enqueued by the startup machinery has had its prerequisite
      completed, found not needed, or not registered at all; and a workflow about
      to start is one of these unless someone else submitted or chained it. */
  lemma StartsAfterPrerequisite(reg: Registry, steps: seq<Step>)
    requires ValidRun(reg, steps)
    ensures var s := Exec(reg, steps);
            && (forall n :: n in reg.specs && PastOf(s.hist, n).startups > 0 ==>
                  (reg.specs[n].prereq.Some? && reg.specs[n].prereq.value in reg.specs ==>
                     PastOf(s.hist, reg.specs[n].prereq.value).resolved))
            && (Enabled(reg, s, BeginStep) ==>
                  var n := s.queue[0].specName;
                  n in reg.specs && (PastOf(s.hist, n).otherPath || PastOf(s.hist, n).startups > 0))
  {
    InvHolds(reg, steps);
    var s := Exec(reg, steps);
    forall n | n in reg.specs && PastOf(s.hist, n).startups > 0 ensures PrereqResolved(reg, s, n) {
      assert NameInv(reg, s, n, None);
    }
    if Enabled(reg, s, BeginStep) {
      assert s.queue[0] in s.queue;
      assert NameInv(reg, s, s.queue[0].specName, None);
    }
  }

  /** The startup machinery enqueues a workflow at most once, never one whose
      condition was false, and no waiting workflow has a prerequisite that is
      currently completed or not needed. */
  lemma StartupEnqueuesOnce(reg: Registry, steps: seq<Step>, n: string)
    requires ValidRun(reg, steps) && n in reg.specs
    ensures var s := Exec(reg, steps);
            var p := PastOf(s.hist, n);
            && p.startups <= 1
            && (p.skipped || !reg.IsStartup(n) || n in s.waiting ==> p.startups == 0)
            && (n in s.waiting ==>
                  && reg.specs[n].prereq.Some?
                  && reg.specs[n].prereq.value in reg.specs
                  && !Resolved(LifecycleOf(s, reg.specs[n].prereq.value)))
  {
    InvHolds(reg, steps);
    assert NameInv(reg, Exec(reg, steps), n, None);
  }

  /** Prerequisites of startup specs are unregistered, or startup specs of
      smaller rank. */
  ghost predicate PrereqsAcyclic(reg: Registry, rank: map<string, nat>) {
    forall n :: reg.IsStartup(n) && reg.specs[n].prereq.Some? && reg.specs[n].prereq.value in reg.specs ==>
      var r := reg.specs[n].prereq.value;
      reg.IsStartup(r) && n in rank && r in rank && rank[r] < rank[n]
  }

  /** The startup thread is done, nothing is queued and nothing runs. */
  predicate Quiescent(reg: Registry, s: State) {
    s.evaluated >= |reg.order| && s.queue == [] && s.active.None?
  }

  lemma AllSucceededEverywhere(h: seq<Event>, n: string, m: string)
    ensures PastOf(h, n).allSucceeded == PastOf(h, m).allSucceeded
  {
    if h != [] {
      AllSucceededEverywhere(h[..|h| - 1], n, m);
    }
  }

  /** When nothing is in flight and every run succeeded, the prerequisite of a
      waiting spec waits itself. */
  lemma PrereqWaitsToo(reg: Registry, s: State, rank: map<string, nat>, n: string)
    requires reg.Valid() && Inv(reg, s, None) && Quiescent(reg, s) && PrereqsAcyclic(reg, rank)
    requires n in s.waiting && PastOf(s.hist, n).allSucceeded
    ensures n in reg.specs && reg.specs[n].prereq.Some?
    ensures var r := reg.specs[n].prereq.value;
            && r in s.waiting && r in reg.specs && PastOf(s.hist, r).allSucceeded
            && n in rank && r in rank && rank[r] < rank[n]
  {
    assert NameInv(reg, s, n, None);
    assert reg.IsStartup(n);
    var r := reg.specs[n].prereq.value;
    AllSucceededEverywhere(s.hist, n, r);
    assert NameInv(reg, s, r, None);
    assert r in reg.order;
    assert Seen(reg, s, r);
  }

  lemma {:induction false} NobodyWaits(reg: Registry, s: State, rank: map<string, nat>, n: string)
    requires reg.Valid() && Inv(reg, s, None) && Quiescent(reg, s) && PrereqsAcyclic(reg, rank)
    requires n in reg.specs && PastOf(s.hist, n).allSucceeded
    ensures n !in s.waiting
    decreases if n in rank then rank[n] else 0
  {
    if n !in s.waiting {
    } else {
      PrereqWaitsToo(reg, s, rank, n);
      NobodyWaits(reg, s, rank, reg.specs[n].prereq.value);
    }
  }

  lemma {:induction false} SkippedIsDismissed(h: seq<Event>, n: string)
    ensures PastOf(h, n).skipped <==> History.Dismissed(n) in History.View(h)
    decreases |h|
  {
    if h == [] {
    } else {
      var init, e := h[..|h| - 1], h[|h| - 1];
      assert h == init + [e];
      SkippedIsDismissed(init, n);
      History.ViewGrows(init, e);
    }
  }

  /** In every run a spec is skipped exactly if it is a startup spec whose condition
      was false when the startup thread came to it. */
  lemma SkippedIffConditionFalse(reg: Registry, steps: seq<Step>, n: string)
    requires ValidRun(reg, steps)
    ensures PastOf(Exec(reg, steps).hist, n).skipped
            <==> reg.IsStartup(n) && History.MetOf(reg, steps, n) == Some(false)
  {
    hide Exec;
    SkippedIsDismissed(Exec(reg, steps).hist, n);
    History.DismissedIff(reg, steps, n);
  }

  /** If prerequisites are acyclic over startup specs and all runs succeed, then
      once the engine is quiescent every startup spec whose condition was true was
      enqueued exactly once, and every other one never. */
  lemma EveryStartupSpecServed(reg: Registry, steps: seq<Step>, rank: map<string, nat>, n: string)
    requires ValidRun(reg, steps) && PrereqsAcyclic(reg, rank) && reg.IsStartup(n)
    requires Quiescent(reg, Exec(reg, steps)) && PastOf(Exec(reg, steps).hist, n).allSucceeded
    ensures var s, met := Exec(reg, steps), History.MetOf(reg, steps, n);
            && met.Some? && PastOf(s.hist, n).startups == (if met.value then 1 else 0)
            && Resolved(LifecycleOf(s, n)) && s.waiting == {}
  {
    SkippedIffConditionFalse(reg, steps, n);
    History.DismissedIff(reg, steps, n);
    InvHolds(reg, steps);
    var s := Exec(reg, steps);
    forall m | m in reg.specs ensures m !in s.waiting {
      AllSucceededEverywhere(s.hist, n, m);
      NobodyWaits(reg, s, rank, m);
    }
    assert NameInv(reg, s, n, None);
    assert Seen(reg, s, n) by {
      assert n in reg.order;
    }
    assert History.Reached(reg, s, n);
  }
}
