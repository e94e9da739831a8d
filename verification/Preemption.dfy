/** The preemption handshake: three events shared by the engine, which preempts
    and resumes, and the workflow thread, which cooperates at its safe points.

    The protocol is a step machine whose workflow-side steps may be interleaved
    with engine-side steps in any way; `PreemptionContext` holds the events and
    its methods take these steps. */
module Preemption {
  datatype Mode = Suspend | Restart

  /** Where the workflow thread is inside `cooperate`; `Outside` between calls. */
  datatype Pc = Outside | InCheckpoint | Checkpointed | Waiting | InRollback

  datatype Outcome = Pending | Returned | Raised

  /** A call of one of the two callables injected by the workflow. */
  datatype Call = Checkpoint(outcome: Outcome) | Rollback(outcome: Outcome)

  datatype State = State(
    mode: Mode,
    preempted: bool,
    checkpointDone: bool,
    resumed: bool,
    pc: Pc,
    calls: seq<Call>,
    cancelled: nat)

  datatype Step =
    | Preempt | Resume                               // engine side
    | Enter | CheckpointEnds(returned: bool) | Signal | Wake | RollbackEnds(returned: bool)  // workflow side

  function Fresh(mode: Mode): State {
    State(mode, false, false, false, Outside, [], 0)
  }

  predicate Enabled(s: State, step: Step) {
    match step
    case Preempt => true
    case Resume => true
    case Enter => s.pc == Outside
    case CheckpointEnds(_) => s.pc == InCheckpoint
    case Signal => s.pc == Checkpointed
    case Wake => s.pc == Waiting && s.resumed
    case RollbackEnds(_) => s.pc == InRollback
  }

  function EndCall(calls: seq<Call>, returned: bool): seq<Call> {
    if calls == [] then calls
    else calls[|calls| - 1 := calls[|calls| - 1].(outcome := if returned then Returned else Raised)]
  }

  function Apply(s: State, step: Step): State {
    match step
    case Preempt => s.(preempted := true)
    case Resume => s.(resumed := true)
    case Enter =>
      if !s.preempted then s
      else if s.mode == Restart then s.(cancelled := s.cancelled + 1)
      else s.(pc := InCheckpoint, calls := s.calls + [Checkpoint(Pending)])
    case CheckpointEnds(returned) =>
      s.(pc := if returned then Checkpointed else Outside, calls := EndCall(s.calls, returned))
    case Signal => s.(pc := Waiting, checkpointDone := true)
    case Wake => s.(pc := InRollback, calls := s.calls + [Rollback(Pending)])
    case RollbackEnds(returned) => s.(pc := Outside, calls := EndCall(s.calls, returned))
  }

  predicate ValidFrom(s: State, steps: seq<Step>)
    decreases |steps|
  {
    steps == [] || (Enabled(s, steps[0]) && ValidFrom(Apply(s, steps[0]), steps[1..]))
  }

  function ExecFrom(s: State, steps: seq<Step>): State
    decreases |steps|
  {
    if steps == [] then s else ExecFrom(Apply(s, steps[0]), steps[1..])
  }

  predicate WorkflowStep(step: Step) {
    !step.Preempt? && !step.Resume?
  }

  // ---- the invariant ----

  /** Call `i` is over when call `i + 1` is made, which is a rollback exactly if
      call `i` was a checkpoint that returned. */
  predicate Link(calls: seq<Call>, i: nat)
    requires i + 1 < |calls|
  {
    && calls[i].outcome != Pending
    && (calls[i + 1].Rollback? <==> calls[i] == Checkpoint(Returned))
  }

  ghost predicate CallsInOrder(calls: seq<Call>) {
    && (calls != [] ==> calls[0].Checkpoint?)
    && (forall i :: 0 <= i < |calls| - 1 ==> Link(calls, i))
  }

  lemma OrderExtends(calls: seq<Call>, c: Call)
    requires CallsInOrder(calls)
    requires if calls == [] then c.Checkpoint? else
               var last := calls[|calls| - 1];
               last.outcome != Pending && (c.Rollback? <==> last == Checkpoint(Returned))
    ensures CallsInOrder(calls + [c])
  {
    forall i | 0 <= i < |calls + [c]| - 1 ensures Link(calls + [c], i) {
      if i < |calls| - 1 { assert Link(calls, i); }
    }
  }

  lemma OrderSurvivesEnd(calls: seq<Call>, returned: bool)
    requires CallsInOrder(calls)
    ensures CallsInOrder(EndCall(calls, returned))
  {
    var ended := EndCall(calls, returned);
    forall i | 0 <= i < |ended| - 1 ensures Link(ended, i) {
      assert Link(calls, i);
    }
  }

  /** What the last call says about where the workflow thread is. */
  ghost predicate LastCallMatches(s: State) {
    var last := if s.calls == [] then Rollback(Returned) else s.calls[|s.calls| - 1];
    match s.pc
    case Outside => last.outcome != Pending && last != Checkpoint(Returned)
    case InCheckpoint => last == Checkpoint(Pending)
    case Checkpointed => last == Checkpoint(Returned)
    case Waiting => last == Checkpoint(Returned)
    case InRollback => last == Rollback(Pending)
  }

  ghost predicate Inv(s: State) {
    && CallsInOrder(s.calls)
    && LastCallMatches(s)
    && (s.mode == Restart ==> s.pc == Outside && s.calls == [])
    && (s.calls != [] || s.cancelled > 0 ==> s.preempted)
    && (s.checkpointDone ==> exists i :: 0 <= i < |s.calls| && s.calls[i] == Checkpoint(Returned))
    && ((exists i :: 0 <= i < |s.calls| && s.calls[i] == Checkpoint(Returned)) ==>
          s.checkpointDone || s.pc == Checkpointed)
    && (s.pc == Waiting ==> s.checkpointDone)
    && ((exists i :: 0 <= i < |s.calls| && s.calls[i].Rollback?) ==> s.resumed && s.checkpointDone)
    && (s.mode == Suspend ==> s.cancelled == 0)
  }

  lemma EndCallKeepsDone(s: State, i: nat, returned: bool)
    requires Inv(s) && (s.pc == InCheckpoint || s.pc == InRollback)
    requires i < |s.calls| && s.calls[i] == Checkpoint(Returned)
    ensures i < |s.calls| - 1 && EndCall(s.calls, returned)[i] == Checkpoint(Returned)
  {
  }

  lemma ApplyKeeps(s: State, step: Step)
    requires Inv(s) && Enabled(s, step)
    ensures Inv(Apply(s, step))
  {
    var s' := Apply(s, step);
    if s.checkpointDone {
      var i :| 0 <= i < |s.calls| && s.calls[i] == Checkpoint(Returned);
      if step.CheckpointEnds? || step.RollbackEnds? {
        EndCallKeepsDone(s, i, step.returned);
      }
      assert s'.calls[i] == Checkpoint(Returned);
    }
    match step
    case Enter =>
      if s.preempted && s.mode == Suspend { OrderExtends(s.calls, Checkpoint(Pending)); }
    case CheckpointEnds(returned) =>
      assert s.calls[|s.calls| - 1] == Checkpoint(Pending);
      OrderSurvivesEnd(s.calls, returned);
      assert forall i :: 0 <= i < |s'.calls| - 1 ==> s'.calls[i] == s.calls[i];
    case Signal =>
      assert s'.calls[|s'.calls| - 1] == Checkpoint(Returned);
    case Wake =>
      assert s.calls[|s.calls| - 1] == Checkpoint(Returned);
      OrderExtends(s.calls, Rollback(Pending));
    case RollbackEnds(returned) =>
      assert s.calls[|s.calls| - 1] == Rollback(Pending);
      OrderSurvivesEnd(s.calls, returned);
      assert forall i :: 0 <= i < |s'.calls| - 1 ==> s'.calls[i] == s.calls[i];
    case _ =>
  }

  lemma {:induction false} ExecKeeps(s: State, steps: seq<Step>)
    requires Inv(s) && ValidFrom(s, steps)
    ensures Inv(ExecFrom(s, steps))
    ensures ExecFrom(s, steps).mode == s.mode
    ensures s.resumed ==> ExecFrom(s, steps).resumed
    decreases |steps|
  {
    if steps == [] {
    } else {
      ApplyKeeps(s, steps[0]);
      ExecKeeps(Apply(s, steps[0]), steps[1..]);
    }
  }

  // ---- main results ----

  /** Checkpoints that returned and rollbacks strictly alternate, beginning with
      a checkpoint: the word of all calls with the raising checkpoints removed. */
  function Handshakes(calls: seq<Call>): seq<Call> {
    if calls == [] then []
    else
      var c := calls[|calls| - 1];
      Handshakes(calls[..|calls| - 1]) +
      if c.Rollback? || c == Checkpoint(Returned) then [c] else []
  }

  lemma {:induction false} HandshakeParity(calls: seq<Call>)
    requires CallsInOrder(calls)
    ensures var h := Handshakes(calls);
            && (forall i :: 0 <= i < |h| ==> (h[i].Rollback? <==> i % 2 == 1))
            && (calls != [] ==> (|h| % 2 == 1 <==> calls[|calls| - 1] == Checkpoint(Returned)))
            && (calls == [] ==> |h| == 0)
    decreases |calls|
  {
    if calls == [] {
    } else {
      var k := |calls| - 1;
      forall i | 0 <= i < k - 1 ensures Link(calls[..k], i) { assert Link(calls, i); }
      HandshakeParity(calls[..k]);
      if k > 0 { assert calls[..k][k - 1] == calls[k - 1] && Link(calls, k - 1); }
    }
  }

  /** In every interleaving of preempt, resume and repeated cooperate:
      returned checkpoints and rollbacks alternate; a rollback is called only
      after a resume and right after a checkpoint that returned; the
      checkpoint-done event is set only if a checkpoint returned; restart mode
      never calls either function, and suspend mode never cancels. */
  lemma HandshakeAlternates(mode: Mode, steps: seq<Step>)
    requires ValidFrom(Fresh(mode), steps)
    ensures var s := ExecFrom(Fresh(mode), steps);
            var h := Handshakes(s.calls);
            && (forall i :: 0 <= i < |h| ==> (h[i].Rollback? <==> i % 2 == 1))
            && (forall i :: 0 <= i < |s.calls| && s.calls[i].Rollback? ==>
                  i > 0 && s.calls[i - 1] == Checkpoint(Returned) && s.resumed)
            && (s.checkpointDone ==> exists i :: 0 <= i < |s.calls| && s.calls[i] == Checkpoint(Returned))
            && (mode == Restart ==> s.calls == [])
            && (mode == Suspend ==> s.cancelled == 0)
            && (!s.preempted ==> s.calls == [] && s.cancelled == 0)
  {
    var s := ExecFrom(Fresh(mode), steps);
    ExecKeeps(Fresh(mode), steps);
    HandshakeParity(s.calls);
    forall i | 0 <= i < |s.calls| && s.calls[i].Rollback?
      ensures i > 0 && s.calls[i - 1] == Checkpoint(Returned)
    {
      assert i > 0 ==> Link(s.calls, i - 1);
    }
  }

  /** Call `i + 1` is of the other kind than call `i`. */
  predicate Switches(calls: seq<Call>, i: nat)
    requires i + 1 < |calls|
  {
    calls[i].Rollback? <==> calls[i + 1].Checkpoint?
  }

  /** All calls, raising ones included, alternate exactly when no checkpoint that
      raised was followed by another call on the same context. */
  lemma CallsAlternateIffNoRetry(mode: Mode, steps: seq<Step>)
    requires ValidFrom(Fresh(mode), steps)
    ensures var calls := ExecFrom(Fresh(mode), steps).calls;
            (forall i :: 0 <= i < |calls| - 1 ==> Switches(calls, i)) <==>
            (forall i :: 0 <= i < |calls| - 1 ==> calls[i] != Checkpoint(Raised))
  {
    ExecKeeps(Fresh(mode), steps);
    var calls := ExecFrom(Fresh(mode), steps).calls;
    forall i | 0 <= i < |calls| - 1
      ensures Switches(calls, i) <==> calls[i] != Checkpoint(Raised)
    {
      assert Link(calls, i);
    }
  }

  /** The workflow thread cannot move. */
  ghost predicate Blocked(s: State) {
    forall step :: WorkflowStep(step) ==> !Enabled(s, step)
  }

  lemma BlockedIff(s: State)
    ensures Blocked(s) <==> s.pc == Waiting && !s.resumed
  {
    match s.pc
    case Outside => assert Enabled(s, Enter);
    case InCheckpoint => assert Enabled(s, CheckpointEnds(true));
    case Checkpointed => assert Enabled(s, Signal);
    case Waiting => assert s.resumed ==> Enabled(s, Wake);
    case InRollback => assert Enabled(s, RollbackEnds(true));
  }

  /** The only place to block is the wait, and only before the first resume: a
      resume issued early is remembered and no later call blocks again. */
  lemma BlocksOnlyBeforeResume(mode: Mode, steps: seq<Step>, more: seq<Step>)
    requires ValidFrom(Fresh(mode), steps)
    requires ValidFrom(ExecFrom(Fresh(mode), steps), more)
    ensures var s := ExecFrom(Fresh(mode), steps);
            && (Blocked(s) <==> s.pc == Waiting && !s.resumed)
            && (s.resumed ==> !Blocked(ExecFrom(s, more)))
  {
    var s := ExecFrom(Fresh(mode), steps);
    ExecKeeps(Fresh(mode), steps);
    ExecKeeps(s, more);
    BlockedIff(s);
    BlockedIff(ExecFrom(s, more));
  }

  /** How many workflow steps the current call of `cooperate` still takes. */
  function StepsToReturn(pc: Pc): nat {
    match pc
    case Outside => 0
    case InCheckpoint => 4
    case Checkpointed => 3
    case Waiting => 2
    case InRollback => 1
  }

  function WorkflowSteps(steps: seq<Step>): nat {
    if steps == [] then 0 else (if WorkflowStep(steps[0]) then 1 else 0) + WorkflowSteps(steps[1..])
  }

  /** However the engine interferes, a call in progress returns after at most
      four steps of the workflow thread. */
  lemma {:induction false} CooperateReturns(s: State, steps: seq<Step>)
    requires ValidFrom(s, steps) && Enter !in steps
    ensures StepsToReturn(ExecFrom(s, steps).pc) + WorkflowSteps(steps) <= StepsToReturn(s.pc)
    decreases |steps|
  {
    if steps == [] {
    } else {
      CooperateReturns(Apply(s, steps[0]), steps[1..]);
    }
  }

  function CheckpointCalls(calls: seq<Call>): nat {
    if calls == [] then 0
    else CheckpointCalls(calls[..|calls| - 1]) + if calls[|calls| - 1].Checkpoint? then 1 else 0
  }

  lemma CallsAppend(calls: seq<Call>, c: Call)
    ensures CheckpointCalls(calls + [c]) == CheckpointCalls(calls) + if c.Checkpoint? then 1 else 0
  {
    assert (calls + [c])[..|calls|] == calls;
  }

  lemma EndKeepsKinds(calls: seq<Call>, returned: bool)
    ensures |EndCall(calls, returned)| == |calls| && CheckpointCalls(EndCall(calls, returned)) == CheckpointCalls(calls)
  {
    if calls != [] {
      assert EndCall(calls, returned)[..|calls| - 1] == calls[..|calls| - 1];
    }
  }

  lemma CallsCounted(s: State, step: Step)
    requires Enabled(s, step)
    ensures var s', answers := Apply(s, step), step.Enter? && s.preempted;
            && CheckpointCalls(s'.calls)
               == CheckpointCalls(s.calls) + (if answers && s.mode == Suspend then 1 else 0)
            && |s'.calls| == |s.calls| + (if answers && s.mode == Suspend then 1 else 0) + (if step.Wake? then 1 else 0)
            && s'.cancelled == s.cancelled + (if answers && s.mode == Restart then 1 else 0)
            && (s'.preempted <==> s.preempted || step.Preempt?)
  {
    hide CheckpointCalls;
    match step
    case Enter => CallsAppend(s.calls, Checkpoint(Pending));
    case Wake => CallsAppend(s.calls, Rollback(Pending));
    case CheckpointEnds(returned) => EndKeepsKinds(s.calls, returned);
    case RollbackEnds(returned) => EndKeepsKinds(s.calls, returned);
    case _ =>
  }

  /** How many calls of `cooperate` begin once a preemption was asked for. */
  function Answering(steps: seq<Step>, preempted: bool): nat {
    if steps == [] then 0
    else (if steps[0].Enter? && preempted then 1 else 0) + Answering(steps[1..], preempted || steps[0].Preempt?)
  }

  function Wakes(steps: seq<Step>): nat {
    if steps == [] then 0 else (if steps[0].Wake? then 1 else 0) + Wakes(steps[1..])
  }

  lemma KeepsMode(s: State, step: Step)
    ensures Apply(s, step).mode == s.mode
  {
  }

  /** No preemption is overlooked: from the request on every call of `cooperate`
      makes a checkpoint in suspend mode and cancels the run in restart mode, and
      every wait that ends is followed by a rollback. */
  lemma {:induction false} EveryCallAnswers(s: State, steps: seq<Step>)
    requires ValidFrom(s, steps)
    ensures var s', n := ExecFrom(s, steps), Answering(steps, s.preempted);
            && CheckpointCalls(s'.calls) == CheckpointCalls(s.calls) + (if s.mode == Suspend then n else 0)
            && |s'.calls| == |s.calls| + (if s.mode == Suspend then n else 0) + Wakes(steps)
            && s'.cancelled == s.cancelled + (if s.mode == Restart then n else 0)
    decreases |steps|
  {
    hide CheckpointCalls, Apply, Enabled;
    if steps == [] {
    } else {
      KeepsMode(s, steps[0]);
      CallsCounted(s, steps[0]);
      EveryCallAnswers(Apply(s, steps[0]), steps[1..]);
    }
  }

  // ---- the object ----

  datatype Entry = GoOn | Cancelled | CallCheckpoint

  class PreemptionContext {
    const mode: Mode
    var preemptEvent: bool
    var checkpointDoneEvent: bool
    var resumeEvent: bool
    ghost var pc: Pc
    ghost var calls: seq<Call>
    ghost var cancelled: nat

    ghost function Value(): State
      reads this
    {
      State(mode, preemptEvent, checkpointDoneEvent, resumeEvent, pc, calls, cancelled)
    }

    constructor (mode: Mode)
      ensures Value() == Fresh(mode)
    {
      this.mode := mode;
      preemptEvent, checkpointDoneEvent, resumeEvent := false, false, false;
      pc, calls, cancelled := Outside, [], 0;
    }

    method Preempt()
      modifies this
      ensures Value() == Apply(old(Value()), Step.Preempt)
    {
      preemptEvent := true;
    }

    method Resume()
      modifies this
      ensures Value() == Apply(old(Value()), Step.Resume)
    {
      resumeEvent := true;
    }

    /** What the wait returns once it is over; it changes nothing. */
    method WaitForCheckpoint() returns (done: bool)
      ensures done == Value().checkpointDone
    {
      done := checkpointDoneEvent;
    }

    /** The beginning of `cooperate`: up to and including the call of the checkpoint. */
    method EnterCooperate() returns (entry: Entry)
      requires Enabled(Value(), Enter)
      modifies this
      ensures Value() == Apply(old(Value()), Enter)
      ensures entry == if !preemptEvent then GoOn else if mode == Restart then Cancelled else CallCheckpoint
    {
      if !preemptEvent {
        return GoOn;
      }
      if mode == Restart {
        cancelled := cancelled + 1;
        return Cancelled;
      }
      pc, calls := InCheckpoint, calls + [Checkpoint(Pending)];
      return CallCheckpoint;
    }

    /** The checkpoint has ended; if it returned, the engine is told. */
    method AfterCheckpoint(returned: bool)
      requires Enabled(Value(), CheckpointEnds(returned))
      modifies this
      ensures Value() == if returned then Apply(Apply(old(Value()), CheckpointEnds(true)), Signal)
                         else Apply(old(Value()), CheckpointEnds(false))
    {
      calls := EndCall(calls, returned);
      pc := Outside;
      if returned {
        checkpointDoneEvent := true;
        pc := Waiting;
      }
    }

    /** The rest of `cooperate`, once the wait is over. */
    method AfterWait(returned: bool)
      requires Enabled(Value(), Wake)
      modifies this
      ensures Value() == Apply(Apply(old(Value()), Wake), RollbackEnds(returned))
    {
      calls := calls + [Rollback(Pending)];
      calls := EndCall(calls, returned);
      pc := Outside;
    }

    /** A whole call that finds the resume already issued: it does not block. */
    method CooperateResumed(checkpointReturns: bool, rollbackReturns: bool) returns (entry: Entry)
      requires pc == Outside && resumeEvent
      modifies this
      ensures pc == Outside
      ensures entry == if !preemptEvent then GoOn else if mode == Restart then Cancelled else CallCheckpoint
      ensures entry != CallCheckpoint ==> calls == old(calls)
      ensures entry == CallCheckpoint ==>
                calls == old(calls) + if !checkpointReturns then [Checkpoint(Raised)]
                                      else [Checkpoint(Returned),
                                            Rollback(if rollbackReturns then Returned else Raised)]
      ensures checkpointDoneEvent <==> old(checkpointDoneEvent) || (entry == CallCheckpoint && checkpointReturns)
    {
      entry := EnterCooperate();
      if entry == CallCheckpoint {
        AfterCheckpoint(checkpointReturns);
        if checkpointReturns {
          AfterWait(rollbackReturns);
        }
      }
    }
  }
}
