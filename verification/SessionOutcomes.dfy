/** What whole runs of the daemon leave: on the memory server, with the user, in
    the correction log, and on the thread stacks. */
module SessionOutcomes {
  import opened Prelude
  import opened Registers
  import opened ThreadStack
  import opened WorkingMemory
  import opened SessionRecords
  import opened EpisodicFlush
  import opened Assistant
  import opened Sessions
  import B = ThreadStackBounds
  import D = Discharge
  import H = Holding

  // ---- what the memory server has ----

  /** Flushes are numbered as they come, and none completes for a session twice. */
  ghost predicate FlushesInOrder(d: Daemon) {
    Numbered(d.flushes) && CompleteOnce(d.flushes)
  }

  lemma FlushesStep(d: Daemon, e: Event, settings: Settings)
    requires Whole(d) && Usable(settings) && MemoriesSane(d) && FlushesSane(d) && FlushesInOrder(d)
    ensures FlushesInOrder(Next(d, e, settings))
  {
    hide Fails, TurnOf, Added, NotesSound;
    if e.Snapshot? && d.current.Some? && d.ending.None? {
      var fs, f := d.flushes, FlushOf(d, e);
      assert d.memories[d.current.value].session == d.current.value;
      forall i, j | 0 <= i < j < |fs + [f]| && Completes((fs + [f])[i]) && Completes((fs + [f])[j])
        ensures (fs + [f])[i].memory.session != (fs + [f])[j].memory.session
      {
        assert Completes(fs[i]);
      }
    }
  }

  lemma SaneParts(d: Daemon, committed: seq<TurnNote>)
    requires Whole(d) && Sane(d, committed)
    ensures MemoriesSane(d) && FlushesSane(d)
  {
  }

  lemma {:induction false} FlushesAlwaysInOrder(start: State, events: seq<Event>, settings: Settings)
    requires Usable(settings)
    ensures FlushesInOrder(After(start, events, settings))
    decreases |events|
  {
    hide Next;
    if |events| == 0 {
    } else {
      hide FlushesInOrder, Sane;
      var init := events[..|events| - 1];
      FlushesAlwaysInOrder(start, init, settings);
      RunSane(start, init, settings);
      SaneParts(After(start, init, settings), Committed(start, init, settings));
      FlushesStep(After(start, init, settings), events[|events| - 1], settings);
    }
  }

  /** Working memory is cleared exactly by the end of a session whose flush
      completed, and then every write of the session's complete record is stored. */
  lemma ClearedIffFlushed(start: State, events: seq<Event>, e: Event, settings: Settings)
    requires Usable(settings) && After(start, events, settings).current.Some?
    ensures var d := After(start, events, settings);
            && (Next(d, e, settings).current.None? <==> e.Clear? && d.ending.Some? && Completes(d.ending.value))
            && (Next(d, e, settings).current.None? ==>
                  forall w :: w in AllWrites(d.ending.value.memory, d.ending.value.attempt) ==> w in Stored(d.flushes))
  {
    hide AllWrites, WritesOf, Stored, TurnOf, Added, After, Fails;
    var d := After(start, events, settings);
    if e.Clear? && d.ending.Some? && Completes(d.ending.value) {
      RunSane(start, events, settings);
      var f := d.ending.value;
      var k :| 0 <= k < |d.flushes| && d.flushes[k] == f;
      WritesSplit(f.memory, f.attempt);
      forall w | w in AllWrites(f.memory, f.attempt) ensures w in Stored(d.flushes) {
        AttemptStaysStored(d.flushes, k, w);
      }
    }
  }

  /** The snapshot of the end of a session stores what a flush of the current memory
      stores, under a number no other attempt has, and leaves all memories alone. */
  lemma SnapshotStores(d: Daemon, e: Event, settings: Settings)
    requires Whole(d) && Usable(settings) && e.Snapshot? && d.current.Some? && d.ending.None?
    ensures var d', m := Next(d, e, settings), d.memories[d.current.value];
            var a := Attempt(|d.flushes|, e.context, e.answers, e.fault);
            && Stored(d'.flushes) == Stored(d.flushes) + WritesOf(m, a)
            && d'.memories == d.memories && d'.current == d.current && d'.turning == d.turning && d'.state == d.state
  {
    hide WritesOf;
    var fs := Next(d, e, settings).flushes;
    assert fs[..|fs| - 1] == d.flushes;
  }

  ghost predicate RecordOf(ws: seq<Write>, w: Write, note: TurnNote) {
    w.SessionRecord? && BelongsTo(ws, w.record, note.session)
    && ArcEntry(note.number, note.register, note.corrected) in w.record.arc
  }

  /** A stored record that belongs to the turn's session, by the handoff note it
      refers to, has the turn in its arc, and the rows that index the session are
      stored too. */
  ghost predicate Recorded(d: Daemon, note: TurnNote) {
    && (exists w :: w in Stored(d.flushes) && RecordOf(Stored(d.flushes), w, note))
    && (exists w :: w in Stored(d.flushes) && w.ThreadIndex? && w.session == note.session)
  }

  lemma CompiledHandoff(m: Memory, handoff: Id)
    ensures Compiled(m, handoff).handoff == handoff
  {
  }

  lemma FlushedIsRecorded(d: Daemon, committed: seq<TurnNote>, note: TurnNote)
    requires Whole(d) && Sane(d, committed) && Flushed(d, note)
    ensures Recorded(d, note)
  {
    hide Stored, WritesOf, Compiled, AllThreads, NotableThreads, Fails, NotesSound;
    var k :| 0 <= k < |d.flushes| && CompleteWith(d.flushes[k], note);
    var m, a := d.flushes[k].memory, d.flushes[k].attempt;
    assert SnapshotSane(d, d.flushes[k]);
    SessionOfNotes(d, committed, m.session);
    var i :| 0 <= i < |m.notes| && m.notes[i] == note;
    assert d.memories[m.session].notes[i] == note;
    CompleteFlushRecords(m, a, note);
    var n := |NotableThreads(m.notes)|;
    var record := Compiled(m, Id(a.number, n));
    var handoff := Handoff(Id(a.number, n), m.session, NotableThreads(m.notes), Reply(a, n));
    AttemptStaysStored(d.flushes, k, SessionRecord(Id(a.number, n + 1), record));
    AttemptStaysStored(d.flushes, k, handoff);
    AttemptStaysStored(d.flushes, k, ThreadIndex(m.session, AllThreads(m.notes)));
    CompiledHandoff(m, Id(a.number, n));
    var h :| 0 <= h < |Stored(d.flushes)| && Stored(d.flushes)[h] == handoff;
    assert IsHandoffOf(Stored(d.flushes)[h], record, m.session);
    assert RecordOf(Stored(d.flushes), SessionRecord(Id(a.number, n + 1), record), note);
  }

  /** In a process that begins one session and whose turns overlap no end of
      session, after any turns, flush failures and retries, every answered turn is
      in working memory or on the memory server, recorded and indexed. */
  lemma AnsweredTurnsSurvive(start: State, events: seq<Event>, settings: Settings, note: TurnNote)
    requires Usable(settings) && OneSession(events) && !OverlapsSomewhere(start, events, settings)
    requires note in Committed(start, events, settings)
    ensures var d := After(start, events, settings);
            (d.current.Some? && note in d.memories[d.current.value].notes) || Recorded(d, note)
  {
    hide After, Committed, Recorded, LosesSomewhere, OverlapsSomewhere, Flushed, Sane, Quiet;
    var d := After(start, events, settings);
    OneSessionLosesNothing(start, events, settings);
    NoTurnLostIff(start, events, settings);
    RunSane(start, events, settings);
    var notes := Committed(start, events, settings);
    var i :| 0 <= i < |notes| && notes[i] == note;
    assert Sessions.Kept(d, notes[i]);
    if Flushed(d, note) {
      FlushedIsRecorded(d, notes, note);
    }
  }

  /** Over whole runs, with turns going on between a failed flush and its retry, the
      records stored of a session are as many as its flushes that completed or
      failed at the index only. */
  lemma RecordsAreFlushes(start: State, events: seq<Event>, settings: Settings, session: nat)
    requires Usable(settings)
    ensures var fs := After(start, events, settings).flushes;
            Records(Stored(fs), session) == RecordingAttempts(fs, session)
  {
    hide After, Records, Stored, RecordingAttempts;
    FlushesAlwaysInOrder(start, events, settings);
    RecordsAreAttempts(After(start, events, settings).flushes, session);
  }

  /** So a session whose flush completed has exactly one record, unless an earlier
      flush of it failed at the index only: then the retry recorded it again. */
  lemma RecordedOnceIff(start: State, events: seq<Event>, settings: Settings, session: nat)
    requires Usable(settings) && SomeCompletes(After(start, events, settings).flushes, session)
    ensures var fs := After(start, events, settings).flushes;
            Records(Stored(fs), session) == 1 <==> !SomeFailsAtIndex(fs, session)
  {
    hide After, Records, Stored, RecordingAttempts, SomeCompletes, SomeFailsAtIndex;
    FlushesAlwaysInOrder(start, events, settings);
    RecordsAreFlushes(start, events, settings, session);
    AttemptsSplit(After(start, events, settings).flushes, session);
  }

  lemma {:induction false} NoMoreNotesThanTurns(m: Memory, k: nat)
    requires NotesSound(m) && k <= |m.notes|
    ensures k > 0 ==> k <= m.notes[k - 1].number <= m.turnCount
    decreases k
  {
    if k <= 1 {
    } else {
      NoMoreNotesThanTurns(m, k - 1);
      assert m.notes[k - 2].number < m.notes[k - 1].number;
    }
  }

  /** In every reachable state the notes of every session are numbered upwards
      within the turns counted and have a text exactly if notable. */
  lemma NotesAlwaysSound(start: State, events: seq<Event>, settings: Settings)
    requires Usable(settings)
    ensures var d := After(start, events, settings);
            forall k :: 0 <= k < |d.memories| ==>
              NotesSound(d.memories[k]) && |d.memories[k].notes| <= d.memories[k].turnCount
  {
    hide After, Committed, NotesSound;
    RunSane(start, events, settings);
    var d := After(start, events, settings);
    forall k | 0 <= k < |d.memories| ensures |d.memories[k].notes| <= d.memories[k].turnCount {
      NoMoreNotesThanTurns(d.memories[k], |d.memories[k].notes|);
    }
  }

  // ---- how many turns are counted ----

  function TurnTotal(ms: seq<Memory>): nat {
    if ms == [] then 0 else TurnTotal(ms[..|ms| - 1]) + ms[|ms| - 1].turnCount
  }

  lemma {:induction false} TotalReplaced(ms: seq<Memory>, k: nat, m: Memory)
    requires k < |ms|
    ensures TurnTotal(ms[k := m]) == TurnTotal(ms) - ms[k].turnCount + m.turnCount
    decreases |ms|
  {
    var n := |ms| - 1;
    if k < n {
      TotalReplaced(ms[..n], k, m);
      assert ms[k := m][..n] == ms[..n][k := m];
    } else {
      assert ms[k := m][..n] == ms[..n];
    }
  }

  /** A turn comes in while a session is there and no other turn is in progress. */
  predicate TurnComesIn(d: Daemon, e: Event) {
    e.StartTurn? && d.current.Some? && d.turning.None?
  }

  function TurnsIn(start: State, events: seq<Event>, settings: Settings): nat
    requires Usable(settings)
    decreases |events|
  {
    if |events| == 0 then 0
    else
      var init := events[..|events| - 1];
      TurnsIn(start, init, settings) + if TurnComesIn(After(start, init, settings), events[|events| - 1]) then 1 else 0
  }

  lemma TotalAppends(ms: seq<Memory>, m: Memory)
    ensures TurnTotal(ms + [m]) == TurnTotal(ms) + m.turnCount
  {
    assert (ms + [m])[..|ms|] == ms;
  }

  lemma CountStep(d: Daemon, e: Event, settings: Settings)
    requires Whole(d) && Usable(settings)
    ensures var d' := Next(d, e, settings);
            && TurnTotal(d'.memories) == TurnTotal(d.memories) + (if TurnComesIn(d, e) then 1 else 0)
            && (TurnComesIn(d, e) ==> d'.turning == d.current)
  {
    hide Answering, Added, TurnTotal, H.Written;
    match e {
      case Begin => TotalAppends(d.memories, NewMemory(|d.memories|));
      case StartTurn =>
        if TurnComesIn(d, e) {
          TotalReplaced(d.memories, d.current.value, Counted(d.memories[d.current.value]));
        }
      case Answer(input) =>
        if d.turning.Some? {
          TurnCommitsOne(d.state, d.memories[d.turning.value], input, settings);
          TotalReplaced(d.memories, d.turning.value, TurnOf(d, input, settings).memory);
        }
      case Push(thread) =>
        if d.current.Some? {
          var m := d.memories[d.current.value];
          TotalReplaced(d.memories, d.current.value, m.(stack := Added(m.stack, thread, m.turnCount)));
        }
      case _ =>
    }
  }

  lemma NoTurns()
    ensures TurnTotal([]) == 0
  {
  }

  /** Over whole runs every turn that comes in is counted once, an overlapped end of
      session or a turn that fails notwithstanding, and nothing else is. */
  lemma {:induction false} TurnsCounted(start: State, events: seq<Event>, settings: Settings)
    requires Usable(settings)
    ensures TurnTotal(After(start, events, settings).memories) == TurnsIn(start, events, settings)
    decreases |events|
  {
    hide Next, TurnTotal;
    if |events| == 0 {
      NoTurns();
    } else {
      TurnsCounted(start, events[..|events| - 1], settings);
      CountStep(After(start, events[..|events| - 1], settings), events[|events| - 1], settings);
    }
  }

  // ---- what reaches the user ----

  /** The id of the item the event surfaces to the user, if any. */
  function DeliveredBy(d: Daemon, e: Event, settings: Settings): seq<string>
    requires Whole(d) && Usable(settings)
  {
    if e.Answer? && d.turning.Some? then Delivered(TurnOf(d, e.input, settings).outcome) else []
  }

  function DeliveredIn(start: State, events: seq<Event>, settings: Settings): seq<string>
    requires Usable(settings)
    decreases |events|
  {
    if |events| == 0 then []
    else
      var init := events[..|events| - 1];
      DeliveredIn(start, init, settings) + DeliveredBy(After(start, init, settings), events[|events| - 1], settings)
  }

  lemma WriteIsNext(h: D.History, item: H.Item, writeFails: bool, threshold: real)
    ensures D.Next(h, D.Write(item, writeFails), threshold) == h.(store := H.Written(h.store, item, writeFails))
  {
  }

  lemma DeliveryStep(d: Daemon, e: Event, settings: Settings, delivered: seq<string>)
    requires Whole(d) && Usable(settings) && D.Sound(D.History(d.state.held, delivered))
    ensures D.Sound(D.History(Next(d, e, settings).state.held, delivered + DeliveredBy(d, e, settings)))
  {
    hide Answering, D.Sound, D.Next, H.Written, ReachesDischarge;
    var h := D.History(d.state.held, delivered);
    assert delivered + [] == delivered;
    match e {
      case Answer(input) =>
        if d.turning.Some? {
          var m := d.memories[d.turning.value];
          TurnIsDischargeStep(d.state, m, input, settings, delivered);
          D.NextKeepsSound(
            h,
            D.Turn(input.register, input.scores, input.now, input.raises == Some(Saving),
                   !TurnOf(d, input, settings).outcome.Answered?),
            settings.threshold);
        }
      case Hold(item, writeFails) =>
        D.NextKeepsSound(h, D.Write(item, writeFails), settings.threshold);
        WriteIsNext(h, item, writeFails, settings.threshold);
      case _ =>
    }
  }

  /** Over whole runs of the daemon no held item reaches the user twice, and every
      one that did is marked in memory and in the file. */
  lemma {:induction false} DeliveriesSound(start: State, events: seq<Event>, settings: Settings)
    requires Usable(settings) && start.held.items == start.held.saved && H.DistinctIds(start.held.items)
    ensures D.Sound(D.History(After(start, events, settings).state.held, DeliveredIn(start, events, settings)))
    decreases |events|
  {
    hide Next, DeliveredBy;
    if |events| == 0 {
    } else {
      hide D.Sound;
      var init := events[..|events| - 1];
      DeliveriesSound(start, init, settings);
      DeliveryStep(After(start, init, settings), events[|events| - 1], settings, DeliveredIn(start, init, settings));
    }
  }

  // ---- what is held ----

  /** The items of `later` begin with those of `earlier`, in order, marked or not. */
  ghost predicate Continues(earlier: seq<H.Item>, later: seq<H.Item>) {
    |earlier| <= |later| && forall i :: 0 <= i < |earlier| ==> H.SameButMark(later[i], earlier[i])
  }

  lemma TurnContinues(h: D.History, turn: D.Event, threshold: real)
    requires turn.Turn?
    ensures var r := D.Next(h, turn, threshold).store.items;
            |r| == |h.store.items| && Continues(h.store.items, r)
  {
    var candidate := D.Candidate(h.store, turn.register, turn.scores, threshold);
    if candidate.Some? {
      H.DischargeMarksOnly(h.store, candidate.value.id, turn.now, turn.saveFails);
    }
  }

  /** What one event does to the items held: a write of a new id appends its item,
      and nothing else adds, drops or moves any. */
  lemma HeldStep(d: Daemon, e: Event, settings: Settings)
    requires Whole(d) && Usable(settings)
    ensures var items, items' := d.state.held.items, Next(d, e, settings).state.held.items;
            && Continues(items, items')
            && (|items'| > |items| ==> e.Hold? && items' == items + [e.item])
            && (e.Hold? ==> H.HasId(items', e.item.id))
  {
    hide Answering, D.Next, ReachesDischarge;
    match e {
      case Answer(input) =>
        if d.turning.Some? {
          TurnIsDischargeStep(d.state, d.memories[d.turning.value], input, settings, []);
          TurnContinues(
            D.History(d.state.held, []),
            D.Turn(input.register, input.scores, input.now, input.raises == Some(Saving),
                   !TurnOf(d, input, settings).outcome.Answered?),
            settings.threshold);
        }
      case Hold(item, writeFails) =>
        if !H.HasId(d.state.held.items, item.id) {
          assert (d.state.held.items + [item])[|d.state.held.items|].id == item.id;
        }
      case _ =>
    }
  }

  lemma ContinuesKeepsId(earlier: seq<H.Item>, later: seq<H.Item>, id: string)
    requires Continues(earlier, later) && H.HasId(earlier, id)
    ensures H.HasId(later, id)
  {
    var i :| 0 <= i < |earlier| && earlier[i].id == id;
    assert later[i].id == id;
  }

  ghost predicate WrittenIn(events: seq<Event>, item: H.Item) {
    exists k :: 0 <= k < |events| && events[k].Hold? && H.SameButMark(item, events[k].item)
  }

  lemma WrittenBefore(events: seq<Event>, item: H.Item, item': H.Item)
    requires |events| > 0 && WrittenIn(events[..|events| - 1], item) && H.SameButMark(item', item)
    ensures WrittenIn(events, item')
  {
    var k :| 0 <= k < |events| - 1 && events[k].Hold? && H.SameButMark(item, events[k].item);
    assert events[k].Hold? && H.SameButMark(item', events[k].item);
  }

  lemma WrittenNow(events: seq<Event>, item: H.Item)
    requires |events| > 0 && events[|events| - 1].Hold? && H.SameButMark(item, events[|events| - 1].item)
    ensures WrittenIn(events, item)
  {
  }

  /** Over whole runs nothing that is held is dropped or changed but for its mark:
      the items from the start remain in place, each further one was written, and
      every item written is there under its id. */
  lemma {:induction false} HeldItemsRemain(start: State, events: seq<Event>, settings: Settings)
    requires Usable(settings)
    ensures var items := After(start, events, settings).state.held.items;
            && Continues(start.held.items, items)
            && (forall i :: |start.held.items| <= i < |items| ==> WrittenIn(events, items[i]))
            && (forall k :: 0 <= k < |events| && events[k].Hold? ==> H.HasId(items, events[k].item.id))
    decreases |events|
  {
    hide Next, WrittenIn, H.HasId;
    if |events| == 0 {
    } else {
      var init, e := events[..|events| - 1], events[|events| - 1];
      HeldItemsRemain(start, init, settings);
      HeldStep(After(start, init, settings), e, settings);
      var items := After(start, init, settings).state.held.items;
      var items' := After(start, events, settings).state.held.items;
      forall i | |start.held.items| <= i < |items'| ensures WrittenIn(events, items'[i]) {
        if i < |items| {
          WrittenBefore(events, items[i], items'[i]);
        } else {
          WrittenNow(events, items'[i]);
        }
      }
      forall k | 0 <= k < |events| && events[k].Hold? ensures H.HasId(items', events[k].item.id) {
        if k < |init| {
          assert init[k] == events[k];
          ContinuesKeepsId(items, items', events[k].item.id);
        }
      }
    }
  }

  // ---- the correction log ----

  function AcknowledgedAt(d: Daemon, e: Event, settings: Settings): seq<Correction>
    requires Whole(d) && Usable(settings)
  {
    if e.Answer? && d.turning.Some? then AcknowledgedBy(TurnOf(d, e.input, settings).outcome, e.input) else []
  }

  function LoggedAt(d: Daemon, e: Event, settings: Settings): seq<Correction>
    requires Whole(d) && Usable(settings)
  {
    if e.Answer? && d.turning.Some? then LoggedBy(TurnOf(d, e.input, settings).outcome, e.input) else []
  }

  /** The corrections acknowledged in the answered turns of a run. */
  function AcknowledgedIn(start: State, events: seq<Event>, settings: Settings): seq<Correction>
    requires Usable(settings)
    decreases |events|
  {
    if |events| == 0 then []
    else
      var init := events[..|events| - 1];
      AcknowledgedIn(start, init, settings)
      + AcknowledgedAt(After(start, init, settings), events[|events| - 1], settings)
  }

  /** Those of them whose append to the log succeeded. */
  function LoggedIn(start: State, events: seq<Event>, settings: Settings): seq<Correction>
    requires Usable(settings)
    decreases |events|
  {
    if |events| == 0 then []
    else
      var init := events[..|events| - 1];
      LoggedIn(start, init, settings) + LoggedAt(After(start, init, settings), events[|events| - 1], settings)
  }

  /** Where the last read of the log failed, if it did. */
  function LastRead(start: State, events: seq<Event>, settings: Settings): Option<nat>
    requires Usable(settings)
    decreases |events|
  {
    if |events| == 0 then None
    else
      var init, e := events[..|events| - 1], events[|events| - 1];
      if AcknowledgedAt(After(start, init, settings), e, settings) == [] then LastRead(start, init, settings)
      else e.input.readStops
  }

  /** The append of an acknowledged correction failed. */
  predicate AppendLostSomewhere(start: State, events: seq<Event>, settings: Settings)
    requires Usable(settings)
    decreases |events|
  {
    |events| > 0 &&
    var init, e := events[..|events| - 1], events[|events| - 1];
    || AppendLostSomewhere(start, init, settings)
    || (AcknowledgedAt(After(start, init, settings), e, settings) != [] && e.input.signal.value.appendFails)
  }

  lemma LogStep(d: Daemon, e: Event, settings: Settings)
    requires Whole(d) && Usable(settings)
    ensures var s, s', more := d.state, Next(d, e, settings).state, AcknowledgedAt(d, e, settings);
            && s'.log == s.log + LoggedAt(d, e, settings) && AllValid(more)
            && s'.history == (if more == [] then s.history else Read(s'.log, e.input.readStops))
            && LoggedAt(d, e, settings)
               == (if more != [] && e.input.signal.value.appendFails then [] else more)
            && |more| <= 1
  {
    hide Answering, H.Written, Read;
    if e.Answer? && d.turning.Some? {
      TurnLogs(d.state, d.memories[d.turning.value], e.input, settings);
    }
  }

  lemma NothingValid()
    ensures AllValid([])
  {
  }

  lemma ValidAppends(a: seq<Correction>, b: seq<Correction>)
    requires AllValid(a) && AllValid(b)
    ensures AllValid(a + b)
  {
  }

  /** Over whole runs of the daemon, with appends and reads of the log failing
      anywhere: the log grows by exactly the acknowledged corrections whose append
      succeeded, and what inference looks back on is what the last read returned. */
  lemma {:induction false} LogGrowsByLogged(start: State, events: seq<Event>, settings: Settings)
    requires Usable(settings)
    ensures var s := After(start, events, settings).state;
            && s.log == start.log + LoggedIn(start, events, settings)
            && AllValid(LoggedIn(start, events, settings))
            && s.history == (if AcknowledgedIn(start, events, settings) == [] then start.history
                             else Read(s.log, LastRead(start, events, settings)))
    decreases |events|
  {
    hide Next, LoggedAt, AcknowledgedAt, AllValid, Read;
    if |events| == 0 {
      NothingValid();
    } else {
      var init, e := events[..|events| - 1], events[|events| - 1];
      var d, logged := After(start, init, settings), LoggedIn(start, init, settings);
      LogGrowsByLogged(start, init, settings);
      LogStep(d, e, settings);
      if LoggedAt(d, e, settings) == [] { NothingValid(); }
      ValidAppends(logged, LoggedAt(d, e, settings));
      assert (start.log + logged) + LoggedAt(d, e, settings) == start.log + (logged + LoggedAt(d, e, settings));
      var before, more := AcknowledgedIn(start, init, settings), AcknowledgedAt(d, e, settings);
      assert |before + more| == |before| + |more|;
      if more == [] {
        assert before + more == before && Next(d, e, settings).state.log == d.state.log;
      }
    }
  }

  lemma {:induction false} LoggedUnlessLostIn(start: State, events: seq<Event>, settings: Settings)
    requires Usable(settings)
    ensures var acknowledged, logged := AcknowledgedIn(start, events, settings), LoggedIn(start, events, settings);
            && |logged| <= |acknowledged|
            && if AppendLostSomewhere(start, events, settings) then |logged| < |acknowledged|
               else logged == acknowledged
    decreases |events|
  {
    hide After, LoggedAt, AcknowledgedAt;
    if |events| == 0 {
    } else {
      var init := events[..|events| - 1];
      LoggedUnlessLostIn(start, init, settings);
      LogStep(After(start, init, settings), events[|events| - 1], settings);
    }
  }

  /** Over whole runs the log grows by exactly the acknowledged corrections if and
      only if the append of none of them failed. */
  lemma LogGrowsByAcknowledgedIff(start: State, events: seq<Event>, settings: Settings)
    requires Usable(settings)
    ensures After(start, events, settings).state.log == start.log + AcknowledgedIn(start, events, settings)
            <==> !AppendLostSomewhere(start, events, settings)
  {
    hide After, LoggedIn, AcknowledgedIn, AppendLostSomewhere, LastRead;
    LogGrowsByLogged(start, events, settings);
    LoggedUnlessLostIn(start, events, settings);
    var acknowledged, logged := AcknowledgedIn(start, events, settings), LoggedIn(start, events, settings);
    assert |start.log + acknowledged| == |start.log| + |acknowledged|;
    assert |start.log + logged| == |start.log| + |logged|;
  }

  /** The acknowledged corrections of one session. */
  function AcknowledgedFor(start: State, events: seq<Event>, settings: Settings, k: nat): seq<Correction>
    requires Usable(settings)
    decreases |events|
  {
    if |events| == 0 then []
    else
      var init, e := events[..|events| - 1], events[|events| - 1];
      var d := After(start, init, settings);
      AcknowledgedFor(start, init, settings, k) + if d.turning == Some(k) then AcknowledgedAt(d, e, settings) else []
  }

  lemma ShadowStep(d: Daemon, e: Event, settings: Settings, k: nat)
    requires Whole(d) && Usable(settings)
    ensures k < |d.memories| ==>
              && k < |Next(d, e, settings).memories|
              && Next(d, e, settings).memories[k].shadow
                 == d.memories[k].shadow + if d.turning == Some(k) then AcknowledgedAt(d, e, settings) else []
    ensures |d.memories| <= k < |Next(d, e, settings).memories| ==>
              Next(d, e, settings).memories[k].shadow == [] && d.turning != Some(k)
  {
    hide Answering, Added, H.Written;
    if e.Answer? && d.turning.Some? {
      TurnLogs(d.state, d.memories[d.turning.value], e.input, settings);
    }
  }

  lemma MemoriesStay(d: Daemon, e: Event, settings: Settings)
    requires Whole(d) && Usable(settings)
    ensures |d.memories| <= |Next(d, e, settings).memories|
  {
    hide TurnOf, Added;
  }

  lemma {:induction false} NoShadowBefore(start: State, events: seq<Event>, settings: Settings, k: nat)
    requires Usable(settings) && |After(start, events, settings).memories| <= k
    ensures AcknowledgedFor(start, events, settings, k) == []
    decreases |events|
  {
    hide AcknowledgedAt;
    if |events| == 0 {
    } else {
      hide Next;
      var init := events[..|events| - 1];
      MemoriesStay(After(start, init, settings), events[|events| - 1], settings);
      NoShadowBefore(start, init, settings, k);
    }
  }

  /** Whatever fails, the shadow of a session holds exactly the corrections
      acknowledged in its turns. */
  lemma {:induction false} ShadowHoldsAcknowledged(start: State, events: seq<Event>, settings: Settings, k: nat)
    requires Usable(settings) && k < |After(start, events, settings).memories|
    ensures After(start, events, settings).memories[k].shadow == AcknowledgedFor(start, events, settings, k)
    decreases |events|
  {
    hide Next, AcknowledgedAt;
    if |events| == 0 {
    } else {
      var init, e := events[..|events| - 1], events[|events| - 1];
      var d := After(start, init, settings);
      ShadowStep(d, e, settings, k);
      if k < |d.memories| {
        ShadowHoldsAcknowledged(start, init, settings, k);
      } else {
        NoShadowBefore(start, init, settings, k);
      }
    }
  }

  lemma ReadValid(log: seq<Correction>, stops: Option<nat>)
    requires AllValid(log)
    ensures AllValid(Read(log, stops))
  {
  }

  /** So if the daemon starts from a valid log, the prior conserves the score total
      in every turn of every run. */
  lemma PriorAlwaysConserves(start: State, events: seq<Event>, settings: Settings, base: Scores)
    requires Usable(settings) && AllValid(start.log) && AllValid(start.history) && OverRegisters(base)
    ensures var history := After(start, events, settings).state.history;
            && AllValid(After(start, events, settings).state.log)
            && OverRegisters(Adjusted(base, history)) && Total(Adjusted(base, history)) == Total(base)
  {
    hide After, LoggedIn, AcknowledgedIn, LastRead, Read, AllValid;
    LogGrowsByLogged(start, events, settings);
    ValidAppends(start.log, LoggedIn(start, events, settings));
    ReadValid(After(start, events, settings).state.log, LastRead(start, events, settings));
    ValidHistoryConserves(After(start, events, settings).state.history, base);
  }

  // ---- the thread stack ----

  /** The stack satisfies the invariant as of some last update. */
  ghost predicate StackSound(m: Memory) {
    exists updated :: B.StackInv(B.Session(m.stack, m.turnCount, updated))
  }

  ghost predicate StacksSound(d: Daemon) {
    forall k :: 0 <= k < |d.memories| ==> StackSound(d.memories[k])
  }

  /** Only threads not yet on the stack are pushed. */
  predicate PushesFresh(d: Daemon, e: Event)
    requires Whole(d)
  {
    e.Push? && d.current.Some? ==> !B.HasId(d.memories[d.current.value].stack, e.thread)
  }

  predicate PushesFreshOnly(start: State, events: seq<Event>, settings: Settings)
    requires Usable(settings)
    decreases |events|
  {
    |events| == 0 ||
    (&& PushesFreshOnly(start, events[..|events| - 1], settings)
     && PushesFresh(After(start, events[..|events| - 1], settings), events[|events| - 1]))
  }

  lemma CountIs(s: B.Session)
    ensures B.Apply(s, B.Count) == s.(turn := s.turn + 1)
  {
  }

  lemma CountedStackSound(m: Memory)
    requires StackSound(m)
    ensures StackSound(Counted(m))
  {
    hide B.StackInv, B.Apply;
    var u :| B.StackInv(B.Session(m.stack, m.turnCount, u));
    B.CountKeeps(B.Session(m.stack, m.turnCount, u));
    CountIs(B.Session(m.stack, m.turnCount, u));
  }

  lemma SteadyIs(s: B.Session)
    requires B.StackInv(s)
    ensures B.Steady(s)
  {
  }

  lemma AnsweredStackSound(s: State, m: Memory, input: Input, settings: Settings)
    requires settings.cfg == DEFAULTS && StackSound(m)
    ensures StackSound(Answering(s, m, input, settings).memory)
  {
    hide B.StackInv, Answering, UpdatedStack;
    var u :| B.StackInv(B.Session(m.stack, m.turnCount, u));
    TurnUpdatesStack(s, m, input, settings);
    TurnCommitsOne(s, m, input, settings);
    var refs, stances := input.referenced, SetOf(Movements(StackIds(m.stack), input.before, input.after));
    SteadyIs(B.Session(m.stack, m.turnCount, u));
    B.UpdateKeeps(B.Session(m.stack, m.turnCount, u), refs, stances);
    assert B.StackInv(B.Session(UpdatedStack(m.stack, m.turnCount, refs, stances, DEFAULTS), m.turnCount, m.turnCount));
  }

  lemma PushedStackSound(m: Memory, thread: string)
    requires StackSound(m) && !B.HasId(m.stack, thread)
    ensures StackSound(m.(stack := Added(m.stack, thread, m.turnCount)))
  {
    hide B.StackInv, Added;
    var u :| B.StackInv(B.Session(m.stack, m.turnCount, u));
    SteadyIs(B.Session(m.stack, m.turnCount, u));
    B.AddKeeps(B.Session(m.stack, m.turnCount, u), thread);
    assert B.StackInv(B.Session(Added(m.stack, thread, m.turnCount), m.turnCount, u));
  }

  lemma NewStackSound(session: nat)
    ensures StackSound(NewMemory(session))
  {
    B.EmptyInv(0);
  }

  lemma StackStep(d: Daemon, e: Event, settings: Settings)
    requires Whole(d) && settings.cfg == DEFAULTS && StacksSound(d) && PushesFresh(d, e)
    ensures StacksSound(Next(d, e, settings))
  {
    hide StackSound, Answering, Added, Counted;
    match e {
      case Begin => NewStackSound(|d.memories|);
      case StartTurn => if d.current.Some? { CountedStackSound(d.memories[d.current.value]); }
      case Answer(input) =>
        if d.turning.Some? { AnsweredStackSound(d.state, d.memories[d.turning.value], input, settings); }
      case Push(thread) => if d.current.Some? { PushedStackSound(d.memories[d.current.value], thread); }
      case _ =>
    }
  }

  /** With the default constants, over whole runs of the daemon with turns failing
      anywhere, the stack of every session has at most two threads, distinct, with
      exactly one in the foreground, of greatest salience. */
  lemma {:induction false} StacksAlwaysSound(start: State, events: seq<Event>, settings: Settings)
    requires settings.cfg == DEFAULTS && PushesFreshOnly(start, events, settings)
    ensures StacksSound(After(start, events, settings))
    decreases |events|
  {
    hide Next, StackSound;
    if |events| == 0 {
    } else {
      var init := events[..|events| - 1];
      StacksAlwaysSound(start, init, settings);
      StackStep(After(start, init, settings), events[|events| - 1], settings);
    }
  }

  // ---- what the episodes hold ----

  lemma SoundIdsDistinct(m: Memory)
    requires StackSound(m)
    ensures NoDup(StackIds(m.stack))
  {
    hide B.OneForeground, B.AllLive;
    var u :| B.StackInv(B.Session(m.stack, m.turnCount, u));
    assert B.DistinctIds(m.stack);
  }

  lemma AnsweredTurnsDistinct(s: State, m: Memory, input: Input, settings: Settings)
    requires Usable(settings) && StackSound(m) && ThreadsDistinct(m.notes)
    ensures ThreadsDistinct(Answering(s, m, input, settings).memory.notes)
  {
    hide StackSound, Answering, StackIds, Movements, NoteSound, NoDup;
    SoundIdsDistinct(m);
    TurnCommitsOne(s, m, input, settings);
  }

  /** No turn of any session lists a thread twice. */
  ghost predicate TurnsDistinct(d: Daemon) {
    forall k :: 0 <= k < |d.memories| ==> ThreadsDistinct(d.memories[k].notes)
  }

  lemma TurnsStep(d: Daemon, e: Event, settings: Settings)
    requires Whole(d) && Usable(settings) && StacksSound(d) && TurnsDistinct(d)
    ensures TurnsDistinct(Next(d, e, settings))
  {
    hide StackSound, Answering, Added, NoDup;
    if e.Answer? && d.turning.Some? {
      AnsweredTurnsDistinct(d.state, d.memories[d.turning.value], e.input, settings);
    }
  }

  lemma {:induction false} TurnsAlwaysDistinct(start: State, events: seq<Event>, settings: Settings)
    requires settings.cfg == DEFAULTS && PushesFreshOnly(start, events, settings)
    ensures TurnsDistinct(After(start, events, settings))
    decreases |events|
  {
    hide Next, StacksSound, ThreadsDistinct;
    if |events| == 0 {
    } else {
      var init := events[..|events| - 1];
      TurnsAlwaysDistinct(start, init, settings);
      StacksAlwaysSound(start, init, settings);
      TurnsStep(After(start, init, settings), events[|events| - 1], settings);
    }
  }

  lemma PrefixDistinct(a: seq<TurnNote>, b: seq<TurnNote>)
    requires a <= b && ThreadsDistinct(b)
    ensures ThreadsDistinct(a)
  {
  }

  /** In every run with the default constants a stored episode is of a thread with a
      notable turn in the snapshot flushed, and holds exactly that thread's notable
      turns, in order and each once. */
  lemma EpisodesAreNotableTurns(start: State, events: seq<Event>, settings: Settings, w: Write) returns (k: nat)
    requires settings.cfg == DEFAULTS && PushesFreshOnly(start, events, settings)
    requires w in Stored(After(start, events, settings).flushes) && w.Episode?
    ensures k < |After(start, events, settings).flushes|
    ensures var m := After(start, events, settings).flushes[k].memory;
            w.session == m.session && w.turns == TurnsOf(m.notes, w.thread) && w.turns != []
  {
    hide After, Stored, WritesOf, Sane, TurnsOf, ThreadsDistinct;
    var d := After(start, events, settings);
    k := StoredOrigin(d.flushes, w);
    var f := d.flushes[k];
    RunSane(start, events, settings);
    SaneParts(d, Committed(start, events, settings));
    assert SnapshotSane(d, f);
    TurnsAlwaysDistinct(start, events, settings);
    PrefixDistinct(f.memory.notes, d.memories[f.memory.session].notes);
    EpisodesHoldTurns(f.memory, f.attempt, w);
  }
}
