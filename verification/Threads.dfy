/** The thread store: status transitions, perspectives, handoff notes with their
    search index, and pickup notes. */
module Threads {
  import opened Prelude

  datatype Status = Nascent | Active | Dormant | Archived

  datatype Perspective = Perspective(content: string, fascination: string, written: int, status: Status)

  datatype Note = Note(content: string, written: int)

  datatype Thread = Thread(
    id: string,
    centralQuestion: string,
    status: Status,
    lastTouched: int,
    dormantSince: Option<int>,
    perspectives: seq<Perspective>,
    notes: seq<Note>)

  datatype Pickup = Pickup(threadId: string, content: string, dormantSince: int, timeGapQuality: Option<string>)

  /** The stored threads and pickup notes by thread id, and the documents of the
      handoff note index by document id. */
  datatype Store = Store(threads: map<string, Thread>, pickups: map<string, Pickup>, index: map<string, Note>)

  datatype Outcome = Done | NotFound | Rejected

  // ---- document ids ----

  function Digit(n: nat): char
    requires n < 10
  {
    "0123456789"[n]
  }

  function Decimal(n: nat): (s: string)
    ensures s != []
    ensures forall i :: 0 <= i < |s| ==> s[i] != ':'
  {
    if n < 10 then [Digit(n)] else Decimal(n / 10) + [Digit(n % 10)]
  }

  function DocId(threadId: string, index: nat): string {
    threadId + ":" + Decimal(index)
  }

  lemma {:induction false} DecimalInjective(m: nat, n: nat)
    ensures Decimal(m) == Decimal(n) ==> m == n
    decreases m
  {
    if Decimal(m) == Decimal(n) {
      assert |Decimal(m)| > 1 <==> m >= 10;
      assert |Decimal(n)| > 1 <==> n >= 10;
      var s := Decimal(m);
      assert s[|s| - 1] == Digit(m % 10) == Digit(n % 10);
      if m < 10 {
      } else {
        assert s[..|s| - 1] == Decimal(m / 10) == Decimal(n / 10);
        DecimalInjective(m / 10, n / 10);
      }
    }
  }

  lemma LastColon(a: string, i: nat)
    ensures DocId(a, i)[|a|] == ':' && forall k :: |a| < k < |DocId(a, i)| ==> DocId(a, i)[k] != ':'
  {
    forall k | |a| < k < |DocId(a, i)| ensures DocId(a, i)[k] == Decimal(i)[k - |a| - 1] {
    }
  }

  /** Distinct notes have distinct document ids, whatever characters thread ids
      contain: the last colon separates the two parts. */
  lemma DocIdInjective(a: string, i: nat, b: string, j: nat)
    requires DocId(a, i) == DocId(b, j)
    ensures a == b && i == j
  {
    LastColon(a, i);
    LastColon(b, j);
    var s := DocId(a, i);
    assert s[..|a|] == a && s[..|b|] == b;
    assert s[|a| + 1..] == Decimal(i) && s[|b| + 1..] == Decimal(j);
    DecimalInjective(i, j);
  }

  // ---- operations ----

  predicate Allowed(from: Status, to: Status) {
    match from
    case Nascent => to == Active
    case Active => to == Dormant
    case Dormant => to == Active || to == Archived
    case Archived => false
  }

  datatype Op =
    | Create(thread: Thread)
    | Transition(id: string, to: Status, now: int)
    | AddPerspective(id: string, perspective: Perspective, now: int)
    | AddHandoffNote(id: string, note: Note, now: int, upsertFails: bool)
    | WritePickupNote(pickup: Pickup)
    | FillTimeGapQuality(id: string, quality: string)

  function Moved(t: Thread, to: Status, now: int): Thread {
    t.(status := to,
       lastTouched := now,
       dormantSince := if to == Dormant then Some(now)
                       else if t.status == Dormant && to == Active then None
                       else t.dormantSince)
  }

  function OpOutcome(s: Store, op: Op): Outcome {
    match op
    case Create(t) => if t.id in s.threads then Rejected else Done
    case Transition(id, to, _) =>
      if id !in s.threads then NotFound else if Allowed(s.threads[id].status, to) then Done else Rejected
    case AddPerspective(id, _, _) => if id in s.threads then Done else NotFound
    case AddHandoffNote(id, _, _, _) => if id in s.threads then Done else NotFound
    case WritePickupNote(p) =>
      if p.timeGapQuality.Some? then Rejected else if p.threadId in s.threads then Done else NotFound
    case FillTimeGapQuality(id, _) => if id in s.pickups then Done else NotFound
  }

  function Apply(s: Store, op: Op): Store {
    if OpOutcome(s, op) != Done then s
    else
      match op
      case Create(t) => s.(threads := s.threads[t.id := t])
      case Transition(id, to, now) => s.(threads := s.threads[id := Moved(s.threads[id], to, now)])
      case AddPerspective(id, perspective, now) =>
        var t := s.threads[id];
        s.(threads := s.threads[id := t.(perspectives := t.perspectives + [perspective], lastTouched := now)])
      case AddHandoffNote(id, note, now, upsertFails) =>
        var t := s.threads[id];
        s.(threads := s.threads[id := t.(notes := t.notes + [note], lastTouched := now)],
           index := if upsertFails then s.index else s.index[DocId(id, |t.notes|) := note])
      case WritePickupNote(p) => s.(pickups := s.pickups[p.threadId := p])
      case FillTimeGapQuality(id, quality) =>
        s.(pickups := s.pickups[id := s.pickups[id].(timeGapQuality := Some(quality))])
  }

  const EMPTY := Store(map[], map[], map[])

  function After(s: Store, ops: seq<Op>): Store
    decreases |ops|
  {
    if ops == [] then s else Apply(After(s, ops[..|ops| - 1]), ops[|ops| - 1])
  }

  // ---- the lifecycle ----

  /** A dormancy date is there exactly for dormant and archived threads. */
  predicate Coherent(t: Thread) {
    t.dormantSince.Some? <==> t.status == Dormant || t.status == Archived
  }

  /** Threads enter the store coherent, as nascent ones without a date are. */
  ghost predicate CoherentlyCreated(ops: seq<Op>) {
    forall i :: 0 <= i < |ops| && ops[i].Create? ==> Coherent(ops[i].thread)
  }

  ghost predicate AllCoherent(s: Store) {
    forall id :: id in s.threads ==> s.threads[id].id == id && Coherent(s.threads[id])
  }

  lemma CoherentStep(s: Store, op: Op)
    requires AllCoherent(s) && (op.Create? ==> Coherent(op.thread))
    ensures AllCoherent(Apply(s, op))
  {
    var s' := Apply(s, op);
    forall id | id in s'.threads ensures s'.threads[id].id == id && Coherent(s'.threads[id]) {
      assert id in s.threads ==> Coherent(s.threads[id]);
    }
  }

  lemma {:induction false} DatesCoherent(ops: seq<Op>)
    requires CoherentlyCreated(ops)
    ensures AllCoherent(After(EMPTY, ops))
    decreases |ops|
  {
    if ops == [] {
    } else {
      var init, op := ops[..|ops| - 1], ops[|ops| - 1];
      assert op.Create? ==> Coherent(ops[|ops| - 1].thread);
      DatesCoherent(init);
      CoherentStep(After(EMPTY, init), op);
    }
  }

  /** What a later state keeps of a thread. */
  ghost predicate Later(t: Thread, u: Thread) {
    && t.notes <= u.notes
    && t.perspectives <= u.perspectives
    && (t.status == Archived ==> u.status == Archived && u.dormantSince == t.dormantSince)
    && (u.status == Nascent ==> t.status == Nascent)
  }

  lemma LaterStep(s: Store, op: Op, id: string)
    requires id in s.threads
    ensures id in Apply(s, op).threads && Later(s.threads[id], Apply(s, op).threads[id])
  {
  }

  /** Threads never disappear, their notes and perspectives only grow, archived is
      final, and nothing returns to nascent. */
  lemma {:induction false} HistoryOnlyGrows(s: Store, ops: seq<Op>)
    ensures var s' := After(s, ops);
            forall id :: id in s.threads ==> id in s'.threads && Later(s.threads[id], s'.threads[id])
    decreases |ops|
  {
    if ops == [] {
    } else {
      HistoryOnlyGrows(s, ops[..|ops| - 1]);
      var r := After(s, ops[..|ops| - 1]);
      hide Apply;
      forall id | id in s.threads
        ensures id in Apply(r, ops[|ops| - 1]).threads && Later(s.threads[id], Apply(r, ops[|ops| - 1]).threads[id])
      {
        LaterStep(r, ops[|ops| - 1], id);
      }
    }
  }

  /** A thread that was neither dormant nor archived and is archived now has been
      dormant in between. */
  lemma {:induction false} ArchivedThroughDormant(s: Store, ops: seq<Op>, id: string) returns (k: nat)
    requires id in s.threads && (s.threads[id].status == Nascent || s.threads[id].status == Active)
    requires id in After(s, ops).threads && After(s, ops).threads[id].status == Archived
    ensures k <= |ops| && id in After(s, ops[..k]).threads && After(s, ops[..k]).threads[id].status == Dormant
    decreases |ops|
  {
    var init := ops[..|ops| - 1];
    HistoryOnlyGrows(s, init);
    var t := After(s, init).threads[id];
    if t.status == Archived {
      k := ArchivedThroughDormant(s, init, id);
      assert init[..k] == ops[..k];
    } else {
      k := |ops| - 1;
    }
  }

  /** The transitions of the lifecycle, as pairs. */
  const LIFECYCLE: set<(Status, Status)> :=
    {(Nascent, Active), (Active, Dormant), (Dormant, Active), (Dormant, Archived)}

  /** A transition of a stored thread is done exactly if the lifecycle has it, and
      then the thread is in the new status, touched now, dormant since now if it
      became dormant and without that date if it resurfaced; refused, it changes
      nothing. No other thread changes in either case. */
  lemma TransitionLaw(s: Store, id: string, to: Status, now: int, other: string)
    requires id in s.threads
    ensures var s', t := Apply(s, Transition(id, to, now)), s.threads[id];
            && (OpOutcome(s, Transition(id, to, now)) == Done <==> (t.status, to) in LIFECYCLE)
            && ((t.status, to) !in LIFECYCLE ==> s' == s)
            && ((t.status, to) in LIFECYCLE ==>
                  && s'.threads.Keys == s.threads.Keys
                  && s'.threads[id].status == to && s'.threads[id].lastTouched == now
                  && (to == Dormant ==> s'.threads[id].dormantSince == Some(now))
                  && (to == Active && t.status == Dormant ==> s'.threads[id].dormantSince == None)
                  && s'.threads[id].notes == t.notes && s'.threads[id].perspectives == t.perspectives
                  && s'.threads[id].centralQuestion == t.centralQuestion)
            && (other != id && other in s.threads ==> s'.threads[other] == s.threads[other])
            && s'.pickups == s.pickups && s'.index == s.index
  {
  }

  /** A nascent thread can be brought through the whole lifecycle, resurfacing
      included. */
  lemma WholeLifecycle(s: Store, id: string, now: int)
    requires id in s.threads && s.threads[id].status == Nascent
    ensures var s1 := Apply(s, Transition(id, Active, now));
            var s2 := Apply(s1, Transition(id, Dormant, now));
            var s3 := Apply(s2, Transition(id, Active, now));
            var s4 := Apply(s3, Transition(id, Dormant, now));
            var s5 := Apply(s4, Transition(id, Archived, now));
            && s2.threads[id].status == Dormant && s3.threads[id].status == Active
            && s5.threads[id].status == Archived
            && forall to :: OpOutcome(s5, Transition(id, to, now)) == Rejected
  {
  }

  /** Adding a note or a perspective appends it, touches the thread, and changes
      nothing else of it or of any other. */
  lemma AdditionLaw(s: Store, op: Op, other: string)
    requires op.AddHandoffNote? || op.AddPerspective?
    ensures var s' := Apply(s, op);
            && (OpOutcome(s, op) == Done <==> op.id in s.threads)
            && (op.id in s.threads ==>
                  var t, t' := s.threads[op.id], s'.threads[op.id];
                  t' == t.(lastTouched := op.now,
                           notes := if op.AddHandoffNote? then t.notes + [op.note] else t.notes,
                           perspectives := if op.AddPerspective? then t.perspectives + [op.perspective]
                                           else t.perspectives))
            && (other != op.id && other in s.threads ==> s'.threads[other] == s.threads[other])
            && s'.pickups == s.pickups && s'.threads.Keys == s.threads.Keys
  {
  }

  /** A thread is stored as it was given unless its id is taken, and then the store
      does not change; no other thread does in either case. */
  lemma CreationLaw(s: Store, t: Thread, other: string)
    ensures var s' := Apply(s, Create(t));
            && (OpOutcome(s, Create(t)) == Rejected <==> t.id in s.threads)
            && (t.id in s.threads ==> s' == s)
            && (t.id !in s.threads ==> s'.threads.Keys == s.threads.Keys + {t.id} && s'.threads[t.id] == t)
            && (other in s.threads ==> other in s'.threads && s'.threads[other] == s.threads[other])
            && s'.pickups == s.pickups && s'.index == s.index
  {
  }

  // ---- the note index ----

  /** The notes of threads whose index entry failed, as (thread, note number). */
  function Unindexed(s: Store, ops: seq<Op>): set<(string, nat)>
    decreases |ops|
  {
    if ops == [] then {}
    else
      var init, op := ops[..|ops| - 1], ops[|ops| - 1];
      var r := After(s, init);
      Unindexed(s, init)
      + if op.AddHandoffNote? && op.upsertFails && op.id in r.threads
        then {(op.id, |r.threads[op.id].notes|)} else {}
  }

  ghost predicate CreatedWithoutNotes(ops: seq<Op>) {
    forall i :: 0 <= i < |ops| && ops[i].Create? ==> ops[i].thread.notes == []
  }

  ghost predicate HasNote(s: Store, id: string, i: nat) {
    id in s.threads && i < |s.threads[id].notes|
  }

  /** A document of the index holds exactly the note its id names. */
  ghost predicate IndexSound(s: Store) {
    && (forall id, i: nat :: DocId(id, i) in s.index ==>
          HasNote(s, id, i) && s.index[DocId(id, i)] == s.threads[id].notes[i])
    && forall key :: key in s.index ==> exists id, i: nat :: key == DocId(id, i)
  }

  lemma SoundStep(s: Store, op: Op)
    requires IndexSound(s)
    ensures IndexSound(Apply(s, op))
  {
    var s' := Apply(s, op);
    if op.AddHandoffNote? && op.id in s.threads && !op.upsertFails {
      var n := |s.threads[op.id].notes|;
      forall id, i: nat | DocId(id, i) in s'.index
        ensures HasNote(s', id, i) && s'.index[DocId(id, i)] == s'.threads[id].notes[i]
      {
        if DocId(id, i) == DocId(op.id, n) {
          DocIdInjective(id, i, op.id, n);
        } else {
          assert DocId(id, i) in s.index;
          assert HasNote(s, id, i);
        }
      }
    } else {
      forall id, i: nat | DocId(id, i) in s'.index
        ensures HasNote(s', id, i) && s'.index[DocId(id, i)] == s'.threads[id].notes[i]
      {
        assert DocId(id, i) in s.index;
        assert HasNote(s, id, i);
      }
    }
  }

  /** Under any pattern of failed index writes every indexed document is the note
      its id names, threads created with notes included. */
  lemma {:induction false} IndexNeverWrong(ops: seq<Op>)
    ensures IndexSound(After(EMPTY, ops))
    decreases |ops|
  {
    if ops == [] {
    } else {
      IndexNeverWrong(ops[..|ops| - 1]);
      SoundStep(After(EMPTY, ops[..|ops| - 1]), ops[|ops| - 1]);
    }
  }

  lemma {:induction false} UnindexedAreNotes(ops: seq<Op>)
    ensures forall x :: x in Unindexed(EMPTY, ops) ==> HasNote(After(EMPTY, ops), x.0, x.1)
    decreases |ops|
  {
    if ops == [] {
    } else {
      UnindexedAreNotes(ops[..|ops| - 1]);
      var r, s' := After(EMPTY, ops[..|ops| - 1]), After(EMPTY, ops);
      forall x | x in Unindexed(EMPTY, ops) ensures HasNote(s', x.0, x.1) {
        assert x in Unindexed(EMPTY, ops[..|ops| - 1]) ==> HasNote(r, x.0, x.1);
      }
    }
  }

  /** With threads created without notes, a note is indexed exactly if its own
      index write did not fail. */
  lemma {:induction false} IndexedIffWriteSucceeded(ops: seq<Op>, id: string, i: nat)
    requires CreatedWithoutNotes(ops)
    ensures DocId(id, i) in After(EMPTY, ops).index
            <==> HasNote(After(EMPTY, ops), id, i) && (id, i) !in Unindexed(EMPTY, ops)
    decreases |ops|
  {
    if ops == [] {
    } else {
      var init, op := ops[..|ops| - 1], ops[|ops| - 1];
      IndexedIffWriteSucceeded(init, id, i);
      UnindexedAreNotes(init);
      var r := After(EMPTY, init);
      assert ops[|ops| - 1] == op;
      if op.AddHandoffNote? && op.id in r.threads && DocId(id, i) == DocId(op.id, |r.threads[op.id].notes|) {
        DocIdInjective(id, i, op.id, |r.threads[op.id].notes|);
        assert (id, i) !in Unindexed(EMPTY, init);
      }
    }
  }

  // ---- pickup notes ----

  /** A filled time gap quality was set by the filling operation: a pickup note is
      never written with one. */
  lemma {:induction false} QualityOnlyFilled(ops: seq<Op>, id: string) returns (k: nat)
    requires id in After(EMPTY, ops).pickups && After(EMPTY, ops).pickups[id].timeGapQuality.Some?
    ensures k < |ops|
    ensures ops[k] == FillTimeGapQuality(id, After(EMPTY, ops).pickups[id].timeGapQuality.value)
    decreases |ops|
  {
    var init, op := ops[..|ops| - 1], ops[|ops| - 1];
    if op.FillTimeGapQuality? && op.id == id {
      k := |ops| - 1;
    } else {
      k := QualityOnlyFilled(init, id);
    }
  }

  /** A pickup note is refused if it comes with a quality, and cannot be filled
      before it was written; every other note is unaffected. */
  lemma PickupLaw(s: Store, p: Pickup, id: string, quality: string, other: string)
    ensures var r, w := OpOutcome(s, WritePickupNote(p)), Apply(s, WritePickupNote(p));
            && (r == Rejected <==> p.timeGapQuality != None)
            && (r == Done <==> p.timeGapQuality == None && p.threadId in s.threads)
            && (r == Done ==> p.threadId in w.pickups && w.pickups[p.threadId] == p)
            && (r != Done ==> w == s)
            && (other != p.threadId && other in s.pickups ==>
                  other in w.pickups && w.pickups[other] == s.pickups[other])
    ensures var r, f := OpOutcome(s, FillTimeGapQuality(id, quality)), Apply(s, FillTimeGapQuality(id, quality));
            && (r == Done <==> id in s.pickups)
            && (r == Done ==> id in f.pickups && f.pickups[id].timeGapQuality == Some(quality))
            && f.pickups.Keys == s.pickups.Keys
            && (other != id && other in s.pickups ==> f.pickups[other] == s.pickups[other])
  {
  }

  /** No operation from the k-th on fills the quality of this pickup note. */
  ghost predicate UnfilledSince(ops: seq<Op>, k: nat, id: string) {
    forall j :: k <= j < |ops| && ops[j].FillTimeGapQuality? ==> ops[j].id != id
  }

  /** The k-th operation wrote this pickup note. */
  ghost predicate WroteAt(ops: seq<Op>, k: nat, id: string)
    requires k < |ops|
  {
    && ops[k].WritePickupNote? && ops[k].pickup.threadId == id
    && OpOutcome(After(EMPTY, ops[..k]), ops[k]) == Done
  }

  lemma WroteBefore(ops: seq<Op>, k: nat, id: string)
    requires k < |ops| - 1
    ensures WroteAt(ops, k, id) <==> WroteAt(ops[..|ops| - 1], k, id)
  {
    assert ops[..|ops| - 1][..k] == ops[..k];
  }

  lemma PickupStep(s: Store, op: Op, id: string)
    ensures op.WritePickupNote? && op.pickup.threadId == id && OpOutcome(s, op) == Done ==>
              Apply(s, op).pickups == s.pickups[id := op.pickup] && op.pickup.timeGapQuality == None
    ensures !(op.WritePickupNote? && op.pickup.threadId == id && OpOutcome(s, op) == Done)
            && id in Apply(s, op).pickups ==>
              && id in s.pickups
              && Apply(s, op).pickups[id] == if op.FillTimeGapQuality? && op.id == id
                                             then s.pickups[id].(timeGapQuality := Some(op.quality)) else s.pickups[id]
  {
  }

  lemma UnfilledBefore(ops: seq<Op>, k: nat, id: string)
    requires ops != [] && UnfilledSince(ops, k, id)
    ensures UnfilledSince(ops[..|ops| - 1], k, id)
  {
    var init := ops[..|ops| - 1];
    assert forall i :: 0 <= i < |init| ==> init[i] == ops[i];
  }

  /** The pickup note says what the k-th operation wrote, with the quality filled in
      last since then, and none if nothing filled it. */
  ghost predicate SaysAsWritten(p: Pickup, ops: seq<Op>, k: nat, id: string)
    requires k < |ops| && ops[k].WritePickupNote?
  {
    && p.(timeGapQuality := None) == ops[k].pickup
    && (UnfilledSince(ops, k, id) ==> p.timeGapQuality == None)
    && forall j :: k < j < |ops| && ops[j].FillTimeGapQuality? && ops[j].id == id && UnfilledSince(ops, j + 1, id)
         ==> p.timeGapQuality == Some(ops[j].quality)
  }

  lemma SaysAtOnce(ops: seq<Op>, id: string)
    requires ops != [] && ops[|ops| - 1].WritePickupNote? && ops[|ops| - 1].pickup.timeGapQuality == None
    ensures SaysAsWritten(ops[|ops| - 1].pickup, ops, |ops| - 1, id)
  {
  }

  lemma SaysNext(p: Pickup, ops: seq<Op>, k: nat, id: string)
    requires k < |ops| - 1 && ops[k].WritePickupNote? && SaysAsWritten(p, ops[..|ops| - 1], k, id)
    ensures var op := ops[|ops| - 1];
            SaysAsWritten(if op.FillTimeGapQuality? && op.id == id then p.(timeGapQuality := Some(op.quality)) else p,
                          ops, k, id)
  {
    var init := ops[..|ops| - 1];
    forall j: nat | k <= j && UnfilledSince(ops, j, id) ensures UnfilledSince(init, j, id) {
      UnfilledBefore(ops, j, id);
    }
  }

  /** One more operation: either it writes the note, or the note is as before but
      for a quality it fills. */
  lemma PickupNext(ops: seq<Op>, id: string)
    requires id in After(EMPTY, ops).pickups
    ensures var init := ops[..|ops| - 1];
            && ops != []
            && if WroteAt(ops, |ops| - 1, id) then SaysAsWritten(After(EMPTY, ops).pickups[id], ops, |ops| - 1, id)
               else
                 && id in After(EMPTY, init).pickups
                 && forall k :: 0 <= k < |init| && ops[k].WritePickupNote?
                                && SaysAsWritten(After(EMPTY, init).pickups[id], init, k, id)
                      ==> SaysAsWritten(After(EMPTY, ops).pickups[id], ops, k, id)
  {
    hide Apply, OpOutcome, SaysAsWritten, UnfilledSince;
    var init, op := ops[..|ops| - 1], ops[|ops| - 1];
    PickupStep(After(EMPTY, init), op, id);
    if WroteAt(ops, |ops| - 1, id) {
      SaysAtOnce(ops, id);
    } else {
      forall k | 0 <= k < |init| && ops[k].WritePickupNote?
                 && SaysAsWritten(After(EMPTY, init).pickups[id], init, k, id)
        ensures SaysAsWritten(After(EMPTY, ops).pickups[id], ops, k, id)
      {
        SaysNext(After(EMPTY, init).pickups[id], ops, k, id);
      }
    }
  }

  /** What a pickup note says is what the last accepted write of it said, with the
      quality filled in last since then. */
  lemma {:induction false} PickupIsLastWritten(ops: seq<Op>, id: string) returns (k: nat)
    requires id in After(EMPTY, ops).pickups
    ensures k < |ops| && WroteAt(ops, k, id)
    ensures forall j :: k < j < |ops| ==> !WroteAt(ops, j, id)
    ensures SaysAsWritten(After(EMPTY, ops).pickups[id], ops, k, id)
    decreases |ops|
  {
    hide After, Apply, OpOutcome, SaysAsWritten;
    PickupNext(ops, id);
    if WroteAt(ops, |ops| - 1, id) {
      k := |ops| - 1;
    } else {
      k := PickupIsLastWritten(ops[..|ops| - 1], id);
      forall j | k <= j < |ops| - 1 ensures WroteAt(ops, j, id) <==> WroteAt(ops[..|ops| - 1], j, id) {
        WroteBefore(ops, j, id);
      }
    }
  }

  // ---- the object ----

  class ThreadStore {
    var threads: map<string, Thread>
    var pickups: map<string, Pickup>
    var index: map<string, Note>

    ghost function Value(): Store
      reads this
    {
      Store(threads, pickups, index)
    }

    constructor ()
      ensures Value() == EMPTY
    {
      threads, pickups, index := map[], map[], map[];
    }

    method CreateThread(t: Thread) returns (r: Outcome)
      modifies this
      ensures r == OpOutcome(old(Value()), Create(t)) && Value() == Apply(old(Value()), Create(t))
    {
      if t.id in threads {
        return Rejected;
      }
      threads := threads[t.id := t];
      r := Done;
    }

    method DoTransition(id: string, to: Status, now: int) returns (r: Outcome)
      modifies this
      ensures r == OpOutcome(old(Value()), Transition(id, to, now))
      ensures Value() == Apply(old(Value()), Transition(id, to, now))
    {
      if id !in threads {
        return NotFound;
      }
      var thread := threads[id];
      if !Allowed(thread.status, to) {
        return Rejected;
      }
      var updated := thread.(status := to, lastTouched := now);
      if to == Dormant {
        updated := updated.(dormantSince := Some(now));
      } else if thread.status == Dormant && to == Active {
        updated := updated.(dormantSince := None);
      }
      threads := threads[id := updated];
      r := Done;
    }

    method AddThePerspective(id: string, perspective: Perspective, now: int) returns (r: Outcome)
      modifies this
      ensures r == OpOutcome(old(Value()), AddPerspective(id, perspective, now))
      ensures Value() == Apply(old(Value()), AddPerspective(id, perspective, now))
    {
      if id !in threads {
        return NotFound;
      }
      var thread := threads[id];
      threads := threads[id := thread.(perspectives := thread.perspectives + [perspective], lastTouched := now)];
      r := Done;
    }

    /** An index write; its failure is caught and only warned about. */
    method EmbedHandoffNote(id: string, note: Note, i: nat, upsertFails: bool)
      modifies this`index
      ensures index == if upsertFails then old(index) else old(index)[DocId(id, i) := note]
    {
      if !upsertFails {
        index := index[DocId(id, i) := note];
      }
    }

    method AddNote(id: string, note: Note, now: int, upsertFails: bool) returns (r: Outcome)
      modifies this
      ensures r == OpOutcome(old(Value()), AddHandoffNote(id, note, now, upsertFails))
      ensures Value() == Apply(old(Value()), AddHandoffNote(id, note, now, upsertFails))
    {
      if id !in threads {
        return NotFound;
      }
      var thread := threads[id];
      var newNotes := thread.notes + [note];
      threads := threads[id := thread.(notes := newNotes, lastTouched := now)];
      EmbedHandoffNote(id, note, |newNotes| - 1, upsertFails);
      r := Done;
    }

    method WritePickup(p: Pickup) returns (r: Outcome)
      modifies this
      ensures r == OpOutcome(old(Value()), WritePickupNote(p))
      ensures Value() == Apply(old(Value()), WritePickupNote(p))
    {
      if p.timeGapQuality.Some? {
        return Rejected;
      }
      if p.threadId !in threads {
        return NotFound;
      }
      pickups := pickups[p.threadId := p];
      r := Done;
    }

    method FillQuality(id: string, quality: string) returns (r: Outcome)
      modifies this
      ensures r == OpOutcome(old(Value()), FillTimeGapQuality(id, quality))
      ensures Value() == Apply(old(Value()), FillTimeGapQuality(id, quality))
    {
      if id !in pickups {
        return NotFound;
      }
      pickups := pickups[id := pickups[id].(timeGapQuality := Some(quality))];
      r := Done;
    }
  }
}
