/** Whole runs of the daemon: sessions, turns, flushes with any call failing, and
    turns that overlap the end of a session; and exactly when a turn is lost. */
module Sessions {
  import opened Prelude
  import opened ThreadStack
  import opened WorkingMemory
  import opened EpisodicFlush
  import opened Assistant
  import H = Holding

  /** A turn takes hold of the working memory when it starts and commits to that
      memory when it is answered. The end of a session takes a snapshot and
      flushes it, and later clears the working memory if the flush succeeded.
      Besides, other code may put a thread on the stack or write a held item. */
  datatype Event =
    | Begin
    | StartTurn
    | Answer(input: Input)
    | Push(thread: string)
    | Hold(item: H.Item, writeFails: bool)
    | Snapshot(context: bool, answers: map<nat, string>, fault: Option<nat>)
    | Clear

  /** The working memories of all sessions begun, of which one may be the current
      one and one that of a turn in progress; the flush of an end of session in
      progress; and all flushes attempted, whose writes are on the memory server. */
  datatype Daemon = Daemon(
    state: State,
    memories: seq<Memory>,
    current: Option<nat>,
    turning: Option<nat>,
    ending: Option<Flushing>,
    flushes: seq<Flushing>)

  predicate Whole(d: Daemon) {
    && (d.current.Some? ==> d.current.value < |d.memories|)
    && (d.turning.Some? ==> d.turning.value < |d.memories|)
  }

  function Fresh(state: State): (d: Daemon)
    ensures Whole(d)
  {
    Daemon(state, [], None, None, None, [])
  }

  predicate Usable(settings: Settings) {
    settings.cfg.recencyDecay != 0.0
  }

  /** What the turn in progress comes to. */
  function TurnOf(d: Daemon, input: Input, settings: Settings): Turned
    requires Whole(d) && d.turning.Some? && Usable(settings)
  {
    Answering(d.state, d.memories[d.turning.value], input, settings)
  }

  /** The flush a snapshot taken now starts. */
  function FlushOf(d: Daemon, e: Event): Flushing
    requires Whole(d) && d.current.Some? && e.Snapshot?
  {
    Flushing(d.memories[d.current.value], Attempt(|d.flushes|, e.context, e.answers, e.fault))
  }

  predicate Completes(f: Flushing) {
    !Fails(f.memory, f.attempt)
  }

  function Next(d: Daemon, e: Event, settings: Settings): (d': Daemon)
    requires Whole(d) && Usable(settings)
    ensures Whole(d')
  {
    match e
    case Begin => d.(memories := d.memories + [NewMemory(|d.memories|)], current := Some(|d.memories|))
    case StartTurn =>
      if d.current.None? || d.turning.Some? then d
      else
        var k := d.current.value;
        d.(memories := d.memories[k := Counted(d.memories[k])], turning := Some(k))
    case Answer(input) =>
      if d.turning.None? then d
      else
        var t := TurnOf(d, input, settings);
        d.(memories := d.memories[d.turning.value := t.memory], state := t.state, turning := None)
    case Push(thread) =>
      if d.current.None? then d
      else
        var k, m := d.current.value, d.memories[d.current.value];
        d.(memories := d.memories[k := m.(stack := Added(m.stack, thread, m.turnCount))])
    case Hold(item, writeFails) =>
      d.(state := d.state.(held := H.Written(d.state.held, item, writeFails)))
    case Snapshot(_, _, _) =>
      if d.current.None? || d.ending.Some? then d
      else d.(ending := Some(FlushOf(d, e)), flushes := d.flushes + [FlushOf(d, e)])
    case Clear =>
      if d.ending.None? then d
      else d.(current := if Completes(d.ending.value) then None else d.current, ending := None)
  }

  function After(start: State, events: seq<Event>, settings: Settings): (d: Daemon)
    requires Usable(settings)
    ensures Whole(d)
    decreases |events|
  {
    if |events| == 0 then Fresh(start)
    else Next(After(start, events[..|events| - 1], settings), events[|events| - 1], settings)
  }

  /** The note the event commits, if it is an answered turn. */
  function CommittedBy(d: Daemon, e: Event, settings: Settings): seq<TurnNote>
    requires Whole(d) && Usable(settings)
  {
    if e.Answer? && d.turning.Some? && TurnOf(d, e.input, settings).outcome.Answered? then
      var notes := TurnOf(d, e.input, settings).memory.notes;
      if notes == [] then [] else [notes[|notes| - 1]]
    else []
  }

  /** The notes of all answered turns of a run. */
  function Committed(start: State, events: seq<Event>, settings: Settings): seq<TurnNote>
    requires Usable(settings)
    decreases |events|
  {
    if |events| == 0 then []
    else
      var init := events[..|events| - 1];
      Committed(start, init, settings) + CommittedBy(After(start, init, settings), events[|events| - 1], settings)
  }

  // ---- what is kept ----

  ghost predicate CompleteWith(f: Flushing, note: TurnNote) {
    Completes(f) && note in f.memory.notes
  }

  /** In the snapshot of a complete flush. */
  ghost predicate Flushed(d: Daemon, note: TurnNote) {
    exists k :: 0 <= k < |d.flushes| && CompleteWith(d.flushes[k], note)
  }

  ghost predicate Kept(d: Daemon, note: TurnNote)
    requires Whole(d)
  {
    (d.current.Some? && note in d.memories[d.current.value].notes) || Flushed(d, note)
  }

  ghost predicate AllKept(d: Daemon, notes: seq<TurnNote>)
    requires Whole(d)
  {
    forall i :: 0 <= i < |notes| ==> Kept(d, notes[i])
  }

  /** How many turns of the current session are in the snapshot of a complete flush
      under way. */
  function Saved(d: Daemon): nat
    requires Whole(d) && d.current.Some?
  {
    if d.ending.Some? && Completes(d.ending.value) && d.ending.value.memory.session == d.current.value
    then |d.ending.value.memory.notes|
    else 0
  }

  /** The current memory holds a turn that was answered since that snapshot, or at
      all if there is none. */
  predicate Unsaved(d: Daemon)
    requires Whole(d)
  {
    d.current.Some? && |d.memories[d.current.value].notes| > Saved(d)
  }

  /** The event drops a turn: a session begins over unsaved turns, a complete flush
      clears memory that has come to hold unsaved turns, or a turn is answered
      whose memory is no longer the current one. */
  predicate Loses(d: Daemon, e: Event, settings: Settings)
    requires Whole(d) && Usable(settings)
  {
    match e
    case Begin => Unsaved(d)
    case Clear => d.ending.Some? && Completes(d.ending.value) && Unsaved(d)
    case Answer(input) =>
      d.turning.Some? && TurnOf(d, input, settings).outcome.Answered? && d.current != d.turning
    case _ => false
  }

  predicate LosesSomewhere(start: State, events: seq<Event>, settings: Settings)
    requires Usable(settings)
    decreases |events|
  {
    |events| > 0 &&
    (|| LosesSomewhere(start, events[..|events| - 1], settings)
     || Loses(After(start, events[..|events| - 1], settings), events[|events| - 1], settings))
  }

  // ---- what holds between steps ----

  ghost predicate MemoriesSane(d: Daemon) {
    forall k :: 0 <= k < |d.memories| ==> d.memories[k].session == k && NotesSound(d.memories[k])
  }

  /** No note carries the number of the turn in progress yet. */
  ghost predicate TurnSane(d: Daemon)
    requires Whole(d)
  {
    d.turning.Some? ==>
      var m := d.memories[d.turning.value];
      m.turnCount >= 1 && forall i :: 0 <= i < |m.notes| ==> m.notes[i].number < m.turnCount
  }

  /** A snapshot holds the notes its memory began with. */
  ghost predicate SnapshotSane(d: Daemon, f: Flushing) {
    f.memory.session < |d.memories| && f.memory.notes <= d.memories[f.memory.session].notes
  }

  ghost predicate FlushesSane(d: Daemon) {
    && (forall j :: 0 <= j < |d.flushes| ==> SnapshotSane(d, d.flushes[j]))
    && (d.ending.Some? ==> d.ending.value in d.flushes)
    && (forall j :: 0 <= j < |d.flushes| && Completes(d.flushes[j]) && d.current == Some(d.flushes[j].memory.session)
          ==> d.ending == Some(d.flushes[j]))
  }

  /** Exactly the notes of answered turns are in the memories. */
  ghost predicate NotesAre(d: Daemon, committed: seq<TurnNote>) {
    forall n :: n in committed <==> n.session < |d.memories| && n in d.memories[n.session].notes
  }

  ghost predicate Sane(d: Daemon, committed: seq<TurnNote>)
    requires Whole(d)
  {
    MemoriesSane(d) && TurnSane(d) && FlushesSane(d) && NotesAre(d, committed)
  }

  /** What a turn's answer does, seen from outside: it commits at most one note, to
      the memory the turn took hold of and numbered with that turn. */
  lemma AnswerEffect(d: Daemon, input: Input, settings: Settings)
    requires Whole(d) && Usable(settings) && d.turning.Some?
    ensures var m, t := d.memories[d.turning.value], TurnOf(d, input, settings);
            var more := CommittedBy(d, Answer(input), settings);
            && t.memory.session == m.session && t.memory.turnCount == m.turnCount
            && t.memory.notes == m.notes + more
            && (t.outcome.Answered? <==> |more| == 1) && |more| <= 1
            && (t.outcome.Answered? ==>
                  NoteSound(more[0]) && more[0].session == m.session && more[0].number == m.turnCount)
  {
    hide Answering, NoteSound;
    TurnCommitsOne(d.state, d.memories[d.turning.value], input, settings);
  }

  lemma AppendKeepsSound(m: Memory, m': Memory, more: seq<TurnNote>)
    requires NotesSound(m) && m'.session == m.session && m'.turnCount == m.turnCount && m'.notes == m.notes + more
    requires m.turnCount >= 1 && forall i :: 0 <= i < |m.notes| ==> m.notes[i].number < m.turnCount
    requires |more| <= 1
    requires |more| == 1 ==> NoteSound(more[0]) && more[0].session == m.session && more[0].number == m.turnCount
    ensures NotesSound(m')
  {
    hide NoteSound;
    forall k | 0 <= k < |m'.notes| ensures m'.notes[k] == if k < |m.notes| then m.notes[k] else more[k - |m.notes|] {
    }
  }

  /** Memories and their notes only grow. */
  ghost predicate Grown(d: Daemon, d': Daemon) {
    && |d.memories| <= |d'.memories|
    && forall k :: 0 <= k < |d.memories| ==>
         d'.memories[k].session == d.memories[k].session && d.memories[k].notes <= d'.memories[k].notes
  }

  lemma SnapshotStaysSane(d: Daemon, d': Daemon, f: Flushing)
    requires SnapshotSane(d, f) && Grown(d, d')
    ensures SnapshotSane(d', f)
  {
  }

  /** Steps that leave flushes and the end in progress alone, and the current
      session too unless they begin one. */
  lemma FlushesStaySane(d: Daemon, d': Daemon)
    requires FlushesSane(d) && Grown(d, d') && d'.flushes == d.flushes && d'.ending == d.ending
    requires d'.current == d.current || d'.current == Some(|d.memories|)
    ensures FlushesSane(d')
  {
    forall j | 0 <= j < |d'.flushes| ensures SnapshotSane(d', d'.flushes[j]) {
      SnapshotStaysSane(d, d', d.flushes[j]);
    }
  }

  lemma BeginSane(d: Daemon, settings: Settings, committed: seq<TurnNote>)
    requires Whole(d) && Usable(settings) && Sane(d, committed)
    ensures Sane(Next(d, Begin, settings), committed)
  {
    hide NoteSound;
    var d' := Next(d, Begin, settings);
    forall k | 0 <= k < |d'.memories| ensures d'.memories[k].session == k && NotesSound(d'.memories[k]) {
    }
    FlushesStaySane(d, d');
  }

  lemma StartSane(d: Daemon, settings: Settings, committed: seq<TurnNote>)
    requires Whole(d) && Usable(settings) && Sane(d, committed)
    ensures Sane(Next(d, StartTurn, settings), committed)
  {
    hide NoteSound;
    var d' := Next(d, StartTurn, settings);
    if d.current.Some? && d.turning.None? {
      var m := d.memories[d.current.value];
      assert NotesSound(m) && m.session == d.current.value;
      assert NotesSound(Counted(m));
      FlushesStaySane(d, d');
    }
  }

  lemma PushSane(d: Daemon, thread: string, settings: Settings, committed: seq<TurnNote>)
    requires Whole(d) && Usable(settings) && Sane(d, committed)
    ensures Sane(Next(d, Push(thread), settings), committed)
  {
    hide NoteSound, Added;
    var d' := Next(d, Push(thread), settings);
    if d.current.Some? {
      var k := d.current.value;
      assert NotesSound(d.memories[k]) && d.memories[k].session == k;
      assert NotesSound(d'.memories[k]);
      FlushesStaySane(d, d');
    }
  }

  lemma AppendedNotesAre(d: Daemon, d': Daemon, k: nat, more: seq<TurnNote>, committed: seq<TurnNote>)
    requires NotesAre(d, committed) && k < |d.memories| && |d'.memories| == |d.memories|
    requires forall j :: 0 <= j < |d.memories| ==>
               d'.memories[j].notes == d.memories[j].notes + if j == k then more else []
    requires forall n :: n in more ==> n.session == k
    ensures NotesAre(d', committed + more)
  {
  }

  lemma NothingCommitted(d: Daemon, input: Input, settings: Settings)
    requires Whole(d) && Usable(settings) && d.turning.None?
    ensures CommittedBy(d, Answer(input), settings) == []
  {
  }

  lemma AnswerSane(d: Daemon, input: Input, settings: Settings, committed: seq<TurnNote>)
    requires Whole(d) && Usable(settings) && Sane(d, committed)
    ensures Sane(Next(d, Answer(input), settings), committed + CommittedBy(d, Answer(input), settings))
  {
    hide NoteSound, TurnOf, CommittedBy;
    var d', more := Next(d, Answer(input), settings), CommittedBy(d, Answer(input), settings);
    if d.turning.Some? {
      var k, m, t := d.turning.value, d.memories[d.turning.value], TurnOf(d, input, settings);
      assert NotesSound(m) && m.session == k;
      AnswerEffect(d, input, settings);
      AppendKeepsSound(m, t.memory, more);
      FlushesStaySane(d, d');
      AppendedNotesAre(d, d', k, more, committed);
    } else {
      NothingCommitted(d, input, settings);
      assert committed + more == committed;
    }
  }

  lemma SnapshotEventSane(d: Daemon, e: Event, settings: Settings, committed: seq<TurnNote>)
    requires Whole(d) && Usable(settings) && Sane(d, committed) && e.Snapshot?
    ensures Sane(Next(d, e, settings), committed)
  {
    hide NotesSound, Completes;
    var d' := Next(d, e, settings);
    if d.current.Some? && d.ending.None? {
      var k := d.current.value;
      assert d.memories[k].session == k;
      forall j | 0 <= j < |d'.flushes| ensures SnapshotSane(d', d'.flushes[j]) {
        if j < |d.flushes| {
          assert d'.flushes[j] == d.flushes[j];
          SnapshotStaysSane(d, d', d.flushes[j]);
        }
      }
      assert d'.flushes[|d.flushes|] == d'.ending.value;
      assert forall j :: 0 <= j < |d.flushes| ==> d'.flushes[j] == d.flushes[j];
    }
  }

  lemma ClearSane(d: Daemon, settings: Settings, committed: seq<TurnNote>)
    requires Whole(d) && Usable(settings) && Sane(d, committed)
    ensures Sane(Next(d, Clear, settings), committed)
  {
    hide NotesSound, Completes;
    var d' := Next(d, Clear, settings);
    forall j | 0 <= j < |d'.flushes| ensures SnapshotSane(d', d'.flushes[j]) {
      SnapshotStaysSane(d, d', d.flushes[j]);
    }
  }

  lemma StepSane(d: Daemon, e: Event, settings: Settings, committed: seq<TurnNote>)
    requires Whole(d) && Usable(settings) && Sane(d, committed)
    ensures Sane(Next(d, e, settings), committed + CommittedBy(d, e, settings))
  {
    match e {
      case Answer(input) => AnswerSane(d, input, settings, committed);
      case Begin => BeginSane(d, settings, committed);
      case StartTurn => StartSane(d, settings, committed);
      case Push(thread) => PushSane(d, thread, settings, committed);
      case Hold(_, _) =>
      case Snapshot(_, _, _) => SnapshotEventSane(d, e, settings, committed);
      case Clear => ClearSane(d, settings, committed);
    }
    assert !e.Answer? ==> committed + CommittedBy(d, e, settings) == committed;
  }

  lemma {:induction false} RunSane(start: State, events: seq<Event>, settings: Settings)
    requires Usable(settings)
    ensures Sane(After(start, events, settings), Committed(start, events, settings))
    decreases |events|
  {
    hide Next, CommittedBy;
    if |events| == 0 {
    } else {
      var init := events[..|events| - 1];
      RunSane(start, init, settings);
      StepSane(After(start, init, settings), events[|events| - 1], settings, Committed(start, init, settings));
    }
  }

  // ---- losing turns ----

  /** Not in a complete flush, and of a session that is over. */
  ghost predicate Gone(d: Daemon, note: TurnNote) {
    note.session < |d.memories| && d.current != Some(note.session) && !Flushed(d, note)
  }

  /** A turn that was answered is kept or gone. */
  lemma KeptOrGone(d: Daemon, committed: seq<TurnNote>, note: TurnNote)
    requires Whole(d) && Sane(d, committed) && note in committed
    ensures Kept(d, note) <==> !Gone(d, note)
  {
    if d.current.Some? && note in d.memories[d.current.value].notes {
      var m := d.memories[d.current.value];
      var i :| 0 <= i < |m.notes| && m.notes[i] == note;
      assert NotesSound(m);
    }
  }

  lemma SessionOfNotes(d: Daemon, committed: seq<TurnNote>, k: nat)
    requires Whole(d) && Sane(d, committed) && k < |d.memories|
    ensures forall n :: n in d.memories[k].notes ==> n.session == k
  {
    assert NotesSound(d.memories[k]);
    assert d.memories[k].session == k;
  }

  lemma GoneForGood(d: Daemon, e: Event, settings: Settings, committed: seq<TurnNote>, note: TurnNote)
    requires Whole(d) && Usable(settings) && Sane(d, committed) && Gone(d, note)
    ensures Gone(Next(d, e, settings), note)
  {
    hide TurnOf, Completes, NotesSound, Added;
    var d' := Next(d, e, settings);
    if e.Snapshot? && d.current.Some? && d.ending.None? {
      var m := d.memories[d.current.value];
      SessionOfNotes(d, committed, d.current.value);
      forall k | 0 <= k < |d'.flushes| ensures !CompleteWith(d'.flushes[k], note) {
        if k < |d.flushes| {
          assert d'.flushes[k] == d.flushes[k];
        }
      }
    }
  }

  /** The notes of a complete flush of the current session are those saved. */
  lemma UnsavedNotFlushed(d: Daemon, committed: seq<TurnNote>)
    requires Whole(d) && Sane(d, committed) && Unsaved(d)
    ensures var note := d.memories[d.current.value].notes[Saved(d)];
            note in committed && note.session == d.current.value && !Flushed(d, note)
  {
    hide Completes;
    var c, m, i := d.current.value, d.memories[d.current.value], Saved(d);
    SessionOfNotes(d, committed, c);
    assert NotesSound(m) && m.session == c;
    forall j | 0 <= j < |d.flushes| ensures !CompleteWith(d.flushes[j], m.notes[i]) {
      var f := d.flushes[j];
      assert SnapshotSane(d, f);
      SessionOfNotes(d, committed, f.memory.session);
      if m.notes[i] in f.memory.notes {
        var x :| 0 <= x < |f.memory.notes| && f.memory.notes[x] == m.notes[i];
        assert d.memories[f.memory.session].notes[x] == m.notes[i];
        assert x == i;
      }
    }
  }

  lemma AllSavedFlushed(d: Daemon, committed: seq<TurnNote>, note: TurnNote)
    requires Whole(d) && Sane(d, committed) && d.current.Some? && !Unsaved(d)
    requires note in d.memories[d.current.value].notes
    ensures Flushed(d, note)
  {
    hide Completes;
    var f := d.ending.value;
    var j :| 0 <= j < |d.flushes| && d.flushes[j] == f;
    assert SnapshotSane(d, d.flushes[j]);
    assert f.memory.notes == d.memories[d.current.value].notes;
    assert CompleteWith(d.flushes[j], note);
  }

  lemma FlushedStays(d: Daemon, e: Event, settings: Settings, note: TurnNote)
    requires Whole(d) && Usable(settings) && Flushed(d, note)
    ensures Flushed(Next(d, e, settings), note)
  {
    hide TurnOf, Completes, Added;
    var k :| 0 <= k < |d.flushes| && CompleteWith(d.flushes[k], note);
    assert Next(d, e, settings).flushes[k] == d.flushes[k];
  }

  lemma AllSavedFlushedIf(d: Daemon, committed: seq<TurnNote>, note: TurnNote)
    requires Whole(d) && Sane(d, committed) && Kept(d, note) && !Unsaved(d)
    ensures Flushed(d, note)
  {
    if d.current.Some? && note in d.memories[d.current.value].notes {
      AllSavedFlushed(d, committed, note);
    }
  }

  lemma StepKeeps(d: Daemon, e: Event, settings: Settings, committed: seq<TurnNote>, note: TurnNote)
    requires Whole(d) && Usable(settings) && Sane(d, committed) && !Loses(d, e, settings) && Kept(d, note)
    ensures Kept(Next(d, e, settings), note)
  {
    hide TurnOf, Completes, Added, Flushed;
    if Flushed(d, note) {
      FlushedStays(d, e, settings, note);
    } else {
      match e {
        case Begin => AllSavedFlushedIf(d, committed, note);
        case Clear => if d.ending.Some? && Completes(d.ending.value) { AllSavedFlushedIf(d, committed, note); }
        case Answer(input) => if d.turning.Some? { AnswerEffect(d, input, settings); }
        case _ =>
      }
    }
  }

  /** A snapshot has no note with the number of the turn in progress. */
  lemma NumbersBefore(d: Daemon, committed: seq<TurnNote>, f: Flushing)
    requires Whole(d) && Sane(d, committed) && d.turning.Some? && SnapshotSane(d, f)
    ensures forall n :: n in f.memory.notes && n.session == d.turning.value ==>
              n.number < d.memories[d.turning.value].turnCount
  {
    var m := d.memories[f.memory.session];
    SessionOfNotes(d, committed, f.memory.session);
    forall n | n in f.memory.notes && n.session == d.turning.value
      ensures n.number < d.memories[d.turning.value].turnCount
    {
      var x :| 0 <= x < |f.memory.notes| && f.memory.notes[x] == n;
      assert m.notes[x] == n && n in m.notes;
    }
  }

  lemma NothingElseCommits(d: Daemon, e: Event, settings: Settings)
    requires Whole(d) && Usable(settings) && !(e.Answer? && d.turning.Some?)
    ensures CommittedBy(d, e, settings) == []
  {
  }

  /** A new note is kept exactly if its turn took hold of the current memory. */
  lemma NewKeptIff(d: Daemon, e: Event, settings: Settings, committed: seq<TurnNote>)
    requires Whole(d) && Usable(settings) && Sane(d, committed)
    ensures var more := CommittedBy(d, e, settings);
            && (more != [] ==> |more| == 1 && e.Answer? && d.turning.Some?)
            && (more != [] && !Loses(d, e, settings) ==> Kept(Next(d, e, settings), more[0]))
            && (e.Answer? && Loses(d, e, settings) ==> more != [] && Gone(Next(d, e, settings), more[0]))
  {
    hide TurnOf, Completes, Added;
    if e.Answer? && d.turning.Some? {
      AnswerEffect(d, e.input, settings);
      var k, more := d.turning.value, CommittedBy(d, e, settings);
      var m := d.memories[k];
      assert m.session == k;
      if more != [] && Loses(d, e, settings) {
        forall j | 0 <= j < |d.flushes| ensures !CompleteWith(d.flushes[j], more[0]) {
          NumbersBefore(d, committed, d.flushes[j]);
        }
      }
    } else {
      NothingElseCommits(d, e, settings);
    }
  }

  ghost predicate SomeGone(d: Daemon, notes: seq<TurnNote>) {
    exists i :: 0 <= i < |notes| && Gone(d, notes[i])
  }

  /** An event that loses anything leaves some answered turn gone. */
  lemma LosingLeavesGone(d: Daemon, e: Event, settings: Settings, committed: seq<TurnNote>)
    requires Whole(d) && Usable(settings) && Sane(d, committed) && Loses(d, e, settings)
    ensures SomeGone(Next(d, e, settings), committed + CommittedBy(d, e, settings))
  {
    hide TurnOf, Completes, CommittedBy, Sane;
    var all := committed + CommittedBy(d, e, settings);
    if e.Answer? {
      NewKeptIff(d, e, settings, committed);
      assert all[|committed|] == CommittedBy(d, e, settings)[0];
    } else {
      UnsavedNotFlushed(d, committed);
      var note := d.memories[d.current.value].notes[Saved(d)];
      var i :| 0 <= i < |committed| && committed[i] == note;
      assert all[i] == note;
      assert Gone(Next(d, e, settings), all[i]);
    }
  }

  /** One step: a turn is lost exactly if one was before or the step loses one. */
  lemma StepLosesIff(d: Daemon, e: Event, settings: Settings, committed: seq<TurnNote>)
    requires Whole(d) && Usable(settings) && Sane(d, committed)
    requires AllKept(d, committed) || SomeGone(d, committed)
    ensures var d', notes := Next(d, e, settings), committed + CommittedBy(d, e, settings);
            if AllKept(d, committed) && !Loses(d, e, settings) then AllKept(d', notes) else SomeGone(d', notes)
  {
    hide Kept, Gone, Next, CommittedBy, Sane, Loses;
    var d', more := Next(d, e, settings), CommittedBy(d, e, settings);
    var notes := committed + more;
    if !AllKept(d, committed) {
      var i :| 0 <= i < |committed| && Gone(d, committed[i]);
      GoneForGood(d, e, settings, committed, committed[i]);
      assert notes[i] == committed[i];
    } else if Loses(d, e, settings) {
      LosingLeavesGone(d, e, settings, committed);
    } else {
      NewKeptIff(d, e, settings, committed);
      forall i | 0 <= i < |notes| ensures Kept(d', notes[i]) {
        if i < |committed| {
          StepKeeps(d, e, settings, committed, committed[i]);
        } else {
          assert notes[i] == more[0];
        }
      }
    }
  }

  lemma GoneNotKept(d: Daemon, committed: seq<TurnNote>)
    requires Whole(d) && Sane(d, committed) && SomeGone(d, committed)
    ensures !AllKept(d, committed)
  {
    hide Sane, Gone, Kept;
    var i :| 0 <= i < |committed| && Gone(d, committed[i]);
    KeptOrGone(d, committed, committed[i]);
  }

  lemma {:induction false} LosesIff(start: State, events: seq<Event>, settings: Settings)
    requires Usable(settings)
    ensures var d, notes := After(start, events, settings), Committed(start, events, settings);
            if LosesSomewhere(start, events, settings) then SomeGone(d, notes) else AllKept(d, notes)
    decreases |events|
  {
    hide Next, CommittedBy, Loses, Gone, Kept, Sane;
    if |events| == 0 {
    } else {
      var init := events[..|events| - 1];
      var d, committed := After(start, init, settings), Committed(start, init, settings);
      LosesIff(start, init, settings);
      RunSane(start, init, settings);
      if SomeGone(d, committed) { GoneNotKept(d, committed); }
      StepLosesIff(d, events[|events| - 1], settings, committed);
    }
  }

  /** Over any run of sessions, turns and ends of session, overlapping, and with
      flushes failing anywhere: every turn that was answered is in the current
      working memory or in the snapshot of a complete flush, exactly if no session
      begins over unsaved turns, no turn is answered between the snapshot of a
      complete flush and the clear, and none after its memory was let go. */
  lemma NoTurnLostIff(start: State, events: seq<Event>, settings: Settings)
    requires Usable(settings)
    ensures AllKept(After(start, events, settings), Committed(start, events, settings))
            <==> !LosesSomewhere(start, events, settings)
  {
    hide After, Committed, LosesSomewhere, Sane, Gone, Kept;
    LosesIff(start, events, settings);
    RunSane(start, events, settings);
    if LosesSomewhere(start, events, settings) {
      GoneNotKept(After(start, events, settings), Committed(start, events, settings));
    }
  }

  // ---- ends of session that overlap no turn ----

  /** A turn starts while an end of session is in progress, or the other way round. */
  predicate Overlaps(d: Daemon, e: Event) {
    (e.StartTurn? && d.ending.Some?) || (e.Snapshot? && d.turning.Some?)
  }

  predicate OverlapsSomewhere(start: State, events: seq<Event>, settings: Settings)
    requires Usable(settings)
    decreases |events|
  {
    |events| > 0 &&
    (|| OverlapsSomewhere(start, events[..|events| - 1], settings)
     || Overlaps(After(start, events[..|events| - 1], settings), events[|events| - 1]))
  }

  /** A turn in progress has the current memory, and a complete flush under way has
      all its turns. */
  ghost predicate Quiet(d: Daemon)
    requires Whole(d)
  {
    && (d.turning.Some? ==> d.ending.None? && d.current == d.turning)
    && (d.ending.Some? && d.current.Some? ==>
          && d.ending.value.memory.session == d.current.value
          && d.ending.value.memory.notes == d.memories[d.current.value].notes)
  }

  lemma QuietStep(d: Daemon, e: Event, settings: Settings, committed: seq<TurnNote>)
    requires Whole(d) && Usable(settings) && Sane(d, committed) && Quiet(d)
    requires !Overlaps(d, e) && (e.Begin? ==> d.memories == [])
    ensures Quiet(Next(d, e, settings)) && !Loses(d, e, settings)
  {
    hide TurnOf, Completes, Added, NotesSound;
    if d.current.Some? {
      assert d.memories[d.current.value].session == d.current.value;
    }
  }

  lemma {:induction false} NoMemoryBeforeBegin(start: State, events: seq<Event>, settings: Settings)
    requires Usable(settings) && forall i :: 0 <= i < |events| ==> !events[i].Begin?
    ensures After(start, events, settings).memories == []
    decreases |events|
  {
    hide TurnOf, Added;
    if |events| == 0 {
    } else {
      NoMemoryBeforeBegin(start, events[..|events| - 1], settings);
      assert !events[|events| - 1].Begin?;
    }
  }

  /** At most one of the events begins a session. */
  ghost predicate OneSession(events: seq<Event>) {
    forall i, j :: 0 <= i < j < |events| && events[i].Begin? ==> !events[j].Begin?
  }

  lemma FreshQuiet(start: State)
    ensures Quiet(Fresh(start))
  {
  }

  /** The daemon begins one session in a process. If in addition no turn overlaps
      the end of the session, no event loses a turn. */
  lemma {:induction false} OneSessionLosesNothing(start: State, events: seq<Event>, settings: Settings)
    requires Usable(settings) && OneSession(events) && !OverlapsSomewhere(start, events, settings)
    ensures !LosesSomewhere(start, events, settings) && Quiet(After(start, events, settings))
    decreases |events|
  {
    hide Next, Loses, Quiet, Sane, Overlaps;
    if |events| == 0 {
      FreshQuiet(start);
    } else {
      var init, e := events[..|events| - 1], events[|events| - 1];
      OneSessionLosesNothing(start, init, settings);
      RunSane(start, init, settings);
      if e.Begin? {
        assert forall i :: 0 <= i < |init| ==> init[i] == events[i];
        NoMemoryBeforeBegin(start, init, settings);
      }
      QuietStep(After(start, init, settings), e, settings, Committed(start, init, settings));
    }
  }

  /** The events of an end of session around the answer of a turn. */
  function Overlapping(input: Input): seq<Event> {
    [Begin, StartTurn, Snapshot(false, map[], None), Answer(input), Clear]
  }

  lemma AfterNothing(start: State, settings: Settings)
    requires Usable(settings)
    ensures After(start, [], settings) == Fresh(start)
  {
  }

  lemma AfterAppends(start: State, init: seq<Event>, e: Event, settings: Settings)
    requires Usable(settings)
    ensures After(start, init + [e], settings) == Next(After(start, init, settings), e, settings)
    ensures LosesSomewhere(start, init + [e], settings)
            <==> LosesSomewhere(start, init, settings) || Loses(After(start, init, settings), e, settings)
  {
    hide Next, Loses;
    assert (init + [e])[..|init|] == init;
  }

  /** A turn answered between snapshot and clear is lost in the first session of a
      daemon, with nothing failing and no second session. */
  lemma OverlappingTurnIsLost(start: State, input: Input, settings: Settings)
    requires Usable(settings)
    requires Answering(start, Counted(NewMemory(0)), input, settings).outcome.Answered?
    ensures var events := Overlapping(input);
            OneSession(events) && LosesSomewhere(start, events, settings)
            && !AllKept(After(start, events, settings), Committed(start, events, settings))
  {
    hide Answering, NotesSound, Kept, After, Committed, LosesSomewhere;
    var snapshot := Snapshot(false, map[], None);
    AfterNothing(start, settings);
    AfterAppends(start, [], Begin, settings);
    AfterAppends(start, [Begin], StartTurn, settings);
    AfterAppends(start, [Begin] + [StartTurn], snapshot, settings);
    AfterAppends(start, [Begin] + [StartTurn] + [snapshot], Answer(input), settings);
    var answered := [Begin] + [StartTurn] + [snapshot] + [Answer(input)];
    AfterAppends(start, answered, Clear, settings);
    assert Overlapping(input) == answered + [Clear] && [] + [Begin] == [Begin];
    TurnCommitsOne(start, Counted(NewMemory(0)), input, settings);
    assert Loses(After(start, answered, settings), Clear, settings);
    NoTurnLostIff(start, Overlapping(input), settings);
  }
}
