/** The personal assistant: one conversation turn with any of its outside calls
    failing, and the begin and end of a session. */
module Assistant {
  import opened Prelude
  import opened Registers
  import opened ThreadStack
  import opened WorkingMemory
  import opened SessionRecords
  import opened EpisodicFlush
  import opened SessionEnd
  import H = Holding
  import D = Discharge

  // ---- a turn ----

  /** What can raise during a turn: the response, the scoring of held items, the
      save that marks a discharged item, and the inference of the turn's note. */
  datatype Call = Responding | Scoring | Saving | Noting

  /** What a turn is given from outside: the epistemic statuses of the threads on
      the stack captured when it starts, those of the stored threads when the
      response is there, the inferred register, topics, retrieved artifacts and
      threads, similarity scores, the text of the note, a correction signal, where
      reading back the correction log fails, if it does, and which call raises. */
  datatype Input = Input(
    before: map<string, string>,
    after: map<string, string>,
    register: Register,
    topics: seq<string>,
    artifacts: seq<string>,
    pending: seq<string>,
    referenced: set<string>,
    scores: map<string, real>,
    now: int,
    long: bool,
    text: string,
    signal: Option<Signal>,
    readStops: Option<nat>,
    raises: Option<Call>)

  datatype Settings = Settings(cfg: Config, threshold: real)

  /** What the assistant keeps beside the working memory of the session. */
  datatype State = State(history: seq<Correction>, held: H.Contents, log: seq<Correction>)

  datatype Outcome = NotBegun | Failed | Answered(discharged: Option<string>, corrected: bool)

  /** What a turn makes of the working memory it works on and of the rest. */
  datatype Turned = Turned(memory: Memory, state: State, outcome: Outcome)

  function StackIds(stack: seq<Entry>): seq<string> {
    seq(|stack|, i requires 0 <= i < |stack| => stack[i].threadId)
  }

  predicate Moved(thread: string, before: map<string, string>, after: map<string, string>) {
    thread in before && thread in after && before[thread] != after[thread]
  }

  /** The threads of the stack whose status changed, in stack order. */
  function Movements(ids: seq<string>, before: map<string, string>, after: map<string, string>): (r: seq<string>)
    ensures forall t :: t in r <==> t in ids && t in before && t in after && before[t] != after[t]
    decreases |ids|
  {
    if ids == [] then []
    else
      var t := ids[|ids| - 1];
      Movements(ids[..|ids| - 1], before, after) + if Moved(t, before, after) then [t] else []
  }

  /** `list` with those of `more` it does not hold yet. */
  function AppendNew(list: seq<string>, more: seq<string>): seq<string>
    decreases |more|
  {
    if more == [] then list
    else
      var r, x := AppendNew(list, more[..|more| - 1]), more[|more| - 1];
      if x in r then r else r + [x]
  }

  function SetOf(s: seq<string>): set<string> {
    set x | x in s
  }

  function Draft(m: Memory, i: Input): TurnNote {
    TurnNote(m.session, m.turnCount, StackIds(m.stack), i.register, false, i.topics,
             Movements(StackIds(m.stack), i.before, i.after), i.artifacts, false, None)
  }

  function Touched(m: Memory, i: Input, movements: seq<string>, cfg: Config): Memory
    requires cfg.recencyDecay != 0.0
  {
    m.(artifacts := AppendNew(m.artifacts, i.pending),
       stack := UpdatedStack(m.stack, m.turnCount, i.referenced, SetOf(movements), cfg),
       floating := UpdatedFloating(m.floating, m.turnCount, cfg))
  }

  function Surfacing(m: Memory, item: Option<H.Item>): Memory {
    if item.Some? && item.value.contradiction.Some? && item.value.contradiction.value != ""
    then m.(contradictions := m.contradictions + [item.value.id])
    else m
  }

  predicate Notable(movements: seq<string>, item: Option<H.Item>, long: bool) {
    movements != [] || item.Some? || long
  }

  function CorrectionText(s: Signal): string {
    "Register correction: " + Name(s.inferred) + " \U{2192} " + Name(s.corrected)
  }

  function Amended(note: TurnNote, s: Signal): TurnNote {
    note.(corrected := true, notable := true,
          text := if note.text.Some? && note.text.value != "" then note.text else Some(CorrectionText(s)))
  }

  /** The last part of a turn: the correction pathway, then committing the note. */
  function Finished(s: State, m: Memory, note: TurnNote, discharged: Option<string>, i: Input): Turned {
    if i.signal.None? || CorrectingOutcome(i.signal.value) == InvalidRegister then
      Turned(m.(notes := m.notes + [note]), s, Answered(discharged, false))
    else
      var c := Corrected(CorrectionState(s.log, m.shadow), i.signal.value);
      Turned(m.(shadow := c.shadow, notes := m.notes + [Amended(note, i.signal.value)]),
             s.(history := Read(c.log, i.readStops), log := c.log),
             Answered(discharged, true))
  }

  /** The discharge check and the note, for a turn counted, answered and with the
      stack updated. */
  function Discharging(s: State, m: Memory, draft: TurnNote, i: Input, threshold: real): Turned {
    if H.Unsurfaced(s.held.items) != [] && i.raises == Some(Scoring) then Turned(m, s, Failed)
    else
      var item := D.Candidate(s.held, i.register, i.scores, threshold);
      var held := if item.None? then s.held
                  else H.Discharged(s.held, item.value.id, i.now, i.raises == Some(Saving));
      if item.Some? && i.raises == Some(Saving) then Turned(m, s.(held := held), Failed)
      else
        var surfaced := Surfacing(m, item);
        var notable := Notable(draft.movements, item, i.long);
        if notable && i.raises == Some(Noting) then Turned(surfaced, s.(held := held), Failed)
        else
          var note := draft.(notable := notable, text := if notable then Some(i.text) else None);
          Finished(s.(held := held), surfaced, note, if item.None? then None else Some(item.value.id), i)
  }

  /** A turn counts itself before anything can fail. */
  function Counted(m: Memory): Memory {
    m.(turnCount := m.turnCount + 1)
  }

  /** All of a turn after it has counted itself. */
  function Answering(s: State, m: Memory, i: Input, settings: Settings): Turned
    requires settings.cfg.recencyDecay != 0.0
  {
    if i.raises == Some(Responding) then Turned(m, s, Failed)
    else
      var draft := Draft(m, i);
      Discharging(s, Touched(m, i, draft.movements, settings.cfg), draft, i, settings.threshold)
  }

  // ---- what a turn keeps ----

  /** What every note of a session satisfies: it has a text exactly if it is
      notable, and is notable if the register was corrected. */
  predicate NoteSound(note: TurnNote) {
    (note.notable <==> note.text.Some?) && (note.corrected ==> note.notable)
  }

  ghost predicate NotesSound(m: Memory) {
    && (forall k :: 0 <= k < |m.notes| ==>
          NoteSound(m.notes[k]) && m.notes[k].session == m.session && 1 <= m.notes[k].number <= m.turnCount)
    && (forall j, k :: 0 <= j < k < |m.notes| ==> m.notes[j].number < m.notes[k].number)
  }

  /** The turn was notable without its correction. */
  predicate NotableBefore(note: TurnNote, r: Outcome, i: Input)
    requires r.Answered?
  {
    note.movements != [] || r.discharged.Some? || i.long
  }

  /** What an answered turn appends to the notes: its note carries the turn's
      number, lists the threads on the stack before the update, and tells what was
      surfaced and corrected. */
  ghost predicate CommitsNote(m: Memory, m': Memory, note: TurnNote, r: Outcome, i: Input)
    requires r.Answered?
  {
    && m'.notes == m.notes + [note]
    && NoteSound(note) && note.session == m.session && note.number == m.turnCount
    && note.threads == StackIds(m.stack)
    && note.movements == Movements(StackIds(m.stack), i.before, i.after)
    && note.register == i.register && note.topics == i.topics && note.artifacts == i.artifacts
    && note.corrected == r.corrected
    && (note.notable && !r.corrected ==> note.text == Some(i.text))
    && (r.corrected ==>
          note.text.value != "" && (!NotableBefore(note, r, i) || i.text == "" || note.text == Some(i.text)))
    && (r.corrected && !NotableBefore(note, r, i) && i.signal.Some? ==>
          var c := i.signal.value;
          note.text.value == "Register correction: " + Name(c.inferred) + " \U{2192} " + Name(c.corrected))
    && (note.notable <==> note.movements != [] || r.discharged.Some? || i.long || r.corrected)
  }

  /** A turn commits last: if it is answered it appends one note, and otherwise
      none, however far it came. */
  lemma TurnCommitsOne(s: State, m: Memory, i: Input, settings: Settings)
    requires settings.cfg.recencyDecay != 0.0
    ensures var t := Answering(s, m, i, settings);
            && t.memory.session == m.session && t.memory.turnCount == m.turnCount
            && t.outcome != NotBegun
            && (t.outcome == Failed ==> t.memory.notes == m.notes)
            && (t.outcome.Answered? ==>
                  t.memory.notes != [] && CommitsNote(m, t.memory, t.memory.notes[|t.memory.notes| - 1], t.outcome, i))
  {
    hide UpdatedStack, UpdatedFloating, Movements, AppendNew, StackIds, SetOf, D.Candidate, H.Discharged, H.Unsurfaced,
         CorrectingOutcome, Corrected;
  }

  /** A turn is answered unless a call it makes raises: the scoring is made only if
      something is unsurfaced, the save only if an item is due, and the note's
      inference only if a thread moved, an item is due, or the exchange was long. */
  lemma AnsweredIff(s: State, m: Memory, i: Input, settings: Settings)
    requires settings.cfg.recencyDecay != 0.0
    ensures var item := D.Candidate(s.held, i.register, i.scores, settings.threshold);
            var moved := Movements(StackIds(m.stack), i.before, i.after);
            Answering(s, m, i, settings).outcome.Answered? <==>
              match i.raises
              case None => true
              case Some(Responding) => false
              case Some(Scoring) => H.Unsurfaced(s.held.items) == []
              case Some(Saving) => item == None
              case Some(Noting) => moved == [] && item == None && !i.long
  {
    hide UpdatedStack, UpdatedFloating, Movements, AppendNew, StackIds, SetOf, D.Candidate, H.Discharged, H.Unsurfaced,
         CorrectingOutcome, Corrected;
  }

  lemma {:induction false} AppendsNew(list: seq<string>, more: seq<string>)
    ensures var r := AppendNew(list, more);
            && list <= r && (forall x :: x in r <==> x in list || x in more)
            && (NoDup(list) ==> NoDup(r))
    decreases |more|
  {
    if more == [] {
    } else {
      AppendsNew(list, more[..|more| - 1]);
    }
  }

  /** Once the response is there, whatever fails later, the pending artifacts are
      among those of the session and the floating threads have been updated;
      before that nothing has changed. */
  lemma TurnRecords(s: State, m: Memory, i: Input, settings: Settings)
    requires settings.cfg.recencyDecay != 0.0
    ensures var t := Answering(s, m, i, settings);
            && (i.raises != Some(Responding) ==>
                  && (forall x :: x in t.memory.artifacts <==> x in m.artifacts || x in i.pending)
                  && m.artifacts <= t.memory.artifacts
                  && t.memory.floating == UpdatedFloating(m.floating, m.turnCount, settings.cfg))
            && (i.raises == Some(Responding) ==> t.memory == m && t.state == s)
            && t.memory.inquiries == m.inquiries
  {
    hide UpdatedStack, UpdatedFloating, Movements, AppendNew, StackIds, SetOf, D.Candidate, H.Discharged, H.Unsurfaced,
         CorrectingOutcome, Corrected;
    AppendsNew(m.artifacts, i.pending);
  }

  /** The id of an item marked as surfaced is recorded, if the item points to a
      contradiction, also when the turn then fails. */
  lemma TurnRecordsContradiction(s: State, m: Memory, i: Input, settings: Settings)
    requires settings.cfg.recencyDecay != 0.0
    ensures var t := Answering(s, m, i, settings);
            var item := D.Candidate(s.held, i.register, i.scores, settings.threshold);
            var marked := item.Some? && (t.outcome.Answered? || i.raises == Some(Noting));
            t.memory.contradictions
            == if marked && item.value.contradiction.Some? && item.value.contradiction.value != ""
               then m.contradictions + [item.value.id]
               else m.contradictions
  {
    hide UpdatedStack, UpdatedFloating, Movements, AppendNew, StackIds, SetOf, D.Candidate, H.Discharged, H.Unsurfaced,
         CorrectingOutcome, Corrected;
  }

  /** The stack is updated as soon as the response is there, even if the turn fails
      later. */
  lemma TurnUpdatesStack(s: State, m: Memory, i: Input, settings: Settings)
    requires settings.cfg.recencyDecay != 0.0
    ensures var moved := Movements(StackIds(m.stack), i.before, i.after);
            Answering(s, m, i, settings).memory.stack
            == if i.raises == Some(Responding) then m.stack
               else UpdatedStack(m.stack, m.turnCount, i.referenced, SetOf(moved), settings.cfg)
  {
    hide UpdatedStack, UpdatedFloating, Movements, AppendNew, StackIds, SetOf, D.Candidate, H.Discharged, H.Unsurfaced,
         CorrectingOutcome, Corrected;
  }

  /** The correction an answered turn acknowledges, if any. */
  function AcknowledgedBy(r: Outcome, i: Input): seq<Correction> {
    if r.Answered? && i.signal.Some? then CorrectionOf(i.signal.value) else []
  }

  /** What of it reaches the log. */
  function LoggedBy(r: Outcome, i: Input): seq<Correction> {
    if r.Answered? && i.signal.Some? then LoggedOf(i.signal.value) else []
  }

  /** An acknowledged correction enters the shadow, and the log unless its append
      fails, which does not fail the turn; the history becomes what can then be
      read of the log. */
  lemma TurnLogs(s: State, m: Memory, i: Input, settings: Settings)
    requires settings.cfg.recencyDecay != 0.0
    ensures var t := Answering(s, m, i, settings);
            var more := AcknowledgedBy(t.outcome, i);
            && t.memory.shadow == m.shadow + more && AllValid(more)
            && t.state.log == s.log + LoggedBy(t.outcome, i)
            && t.state.history == (if more == [] then s.history else Read(t.state.log, i.readStops))
            && (t.outcome.Answered? ==> (t.outcome.corrected <==> more != []))
  {
    hide UpdatedStack, UpdatedFloating, Movements, AppendNew, StackIds, SetOf, D.Candidate, H.Discharged, H.Unsurfaced,
         Read;
  }

  /** The turn gets as far as looking for an item to surface. */
  predicate ReachesDischarge(s: State, i: Input) {
    && i.raises != Some(Responding)
    && !(H.Unsurfaced(s.held.items) != [] && i.raises == Some(Scoring))
  }

  function Delivered(r: Outcome): seq<string> {
    if r.Answered? && r.discharged.Some? then [r.discharged.value] else []
  }

  /** A turn that gets as far as looking for an item takes exactly one step of the
      discharge history, which delivers what the answer delivers; any other turn
      leaves the held items alone and delivers nothing. */
  lemma TurnIsDischargeStep(s: State, m: Memory, i: Input, settings: Settings, delivered: seq<string>)
    requires settings.cfg.recencyDecay != 0.0
    ensures var t := Answering(s, m, i, settings);
            var h := D.History(s.held, delivered);
            var turn := D.Turn(i.register, i.scores, i.now, i.raises == Some(Saving), !t.outcome.Answered?);
            D.History(t.state.held, delivered + Delivered(t.outcome))
            == if ReachesDischarge(s, i) then D.Next(h, turn, settings.threshold) else h
  {
    hide UpdatedStack, UpdatedFloating, Movements, AppendNew, StackIds, SetOf, D.Candidate, H.Discharged, H.Unsurfaced,
         CorrectingOutcome, Corrected;
    assert delivered + [] == delivered;
  }

  // ---- the object ----

  lemma MovementsStep(ids: seq<string>, k: nat, before: map<string, string>, after: map<string, string>)
    requires k < |ids|
    ensures Movements(ids[..k + 1], before, after)
            == Movements(ids[..k], before, after) + if Moved(ids[k], before, after) then [ids[k]] else []
  {
    assert ids[..k + 1][..k] == ids[..k];
  }

  method DetectStanceMovements(before: map<string, string>, stack: seq<Entry>, after: map<string, string>)
    returns (movements: seq<string>)
    ensures movements == Movements(StackIds(stack), before, after)
  {
    movements := [];
    var ids := StackIds(stack);
    assert Movements([], before, after) == [];
    hide Movements;
    for k := 0 to |ids|
      invariant movements == Movements(ids[..k], before, after)
    {
      MovementsStep(ids, k, before, after);
      if ids[k] !in after {
        continue;
      }
      if ids[k] in before && after[ids[k]] != before[ids[k]] {
        movements := movements + [ids[k]];
      }
    }
    assert ids[..|ids|] == ids;
  }

  method AddPending(artifacts: seq<string>, pending: seq<string>) returns (r: seq<string>)
    ensures r == AppendNew(artifacts, pending)
  {
    r := artifacts;
    for k := 0 to |pending|
      invariant r == AppendNew(artifacts, pending[..k])
    {
      assert pending[..k + 1][..k] == pending[..k];
      if pending[k] !in r {
        r := r + [pending[k]];
      }
    }
    assert pending[..|pending|] == pending;
  }

  /** The working memory of a session. A turn in progress holds on to the object it
      started with, also when the assistant has let go of it. */
  class WorkingMemoryObject {
    var value: Memory

    constructor (value: Memory)
      ensures this.value == value
    {
      this.value := value;
    }
  }

  class PersonalAssistant {
    const settings: Settings
    var memory: WorkingMemoryObject?
    var history: seq<Correction>
    const holding: H.HoldingStore
    const logger: InferenceLogger
    const server: MemoryServer

    ghost predicate Valid()
      reads this, holding
    {
      holding.Valid() && settings.cfg.recencyDecay != 0.0
    }

    ghost function Value(): State
      requires Valid()
      reads this, holding, logger
    {
      State(history, holding.Value(), logger.entries)
    }

    constructor (
        settings: Settings, history: seq<Correction>, holding: H.HoldingStore, logger: InferenceLogger,
        server: MemoryServer)
      requires holding.Valid() && settings.cfg.recencyDecay != 0.0
      ensures Valid() && Value() == State(history, old(holding.Value()), old(logger.entries)) && memory == null
      ensures this.holding == holding && this.logger == logger && this.settings == settings
      ensures this.server == server
    {
      this.settings, this.history, this.holding, this.logger := settings, history, holding, logger;
      this.server := server;
      memory := null;
    }

    /** A new session starts with a new working memory, whatever was there. */
    method BeginSession(session: nat)
      requires Valid()
      modifies this`memory
      ensures Valid() && Value() == old(Value())
      ensures memory != null && fresh(memory) && memory.value == NewMemory(session)
      ensures memory.value.session == session && memory.value.turnCount == 0 && memory.value.notes == []
    {
      memory := new WorkingMemoryObject(NewMemory(session));
    }

    /** The first half of ending a session: snapshot and flush. Turns may go on
        between the two halves; the snapshot does not see them. */
    method FlushSession(a: Attempt, relationalRaises: bool) returns (r: Option<SessionEndResult>)
      requires Valid()
      modifies server
      ensures Valid() && Value() == old(Value())
      ensures memory == null ==> r.None? && server.writes == old(server.writes)
      ensures memory != null ==>
                && r.Some? && r.value.session == memory.value.session
                && server.writes == old(server.writes) + WritesOf(memory.value, a)
                && (r.value.flushSucceeded <==> !Fails(memory.value, a))
    {
      if memory == null {
        return None;
      }
      var result := RunSessionEnd(server, memory.value, a, relationalRaises);
      r := Some(result);
    }

    /** The second half: working memory is cleared only if the flush succeeded, but
        then whatever it has come to hold. */
    method ClearIfFlushed(result: SessionEndResult)
      requires Valid()
      modifies this`memory
      ensures Valid() && Value() == old(Value())
      ensures memory == if result.flushSucceeded then null else old(memory)
    {
      if result.flushSucceeded {
        memory := null;
      }
    }

    /** Both halves, with no turn in between. Without a session there is nothing to
        end. */
    method EndSession(a: Attempt, relationalRaises: bool) returns (r: Option<SessionEndResult>)
      requires Valid()
      modifies this`memory, server
      ensures Valid() && Value() == old(Value())
      ensures old(memory) == null ==> r.None? && memory == null && server.writes == old(server.writes)
      ensures old(memory) != null ==>
                && r.Some? && r.value.session == old(memory).value.session
                && server.writes == old(server.writes) + WritesOf(old(memory).value, a)
                && (r.value.flushSucceeded <==> !Fails(old(memory).value, a))
                && memory == if Fails(old(memory).value, a) then old(memory) else null
    {
      r := FlushSession(a, relationalRaises);
      if r.Some? {
        ClearIfFlushed(r.value);
      }
    }

    /** The correction pathway and the commit. */
    method FinishTurn(wm: WorkingMemoryObject, note: TurnNote, discharged: Option<string>, i: Input)
      returns (r: Outcome)
      requires Valid()
      modifies this`history, wm, logger
      ensures Valid() && Turned(wm.value, Value(), r) == Finished(old(Value()), old(wm.value), note, discharged, i)
    {
      var turnNote, corrected := note, false;
      if i.signal.Some? {
        var shadow := new RelationalShadow(wm.value.shadow);
        var correcting := ApplyCorrection(i.signal.value, shadow, logger);
        if correcting == Acknowledged {
          corrected := true;
          history := logger.ReadAll(i.readStops);
          wm.value := wm.value.(shadow := shadow.corrections);
          turnNote := Amended(note, i.signal.value);
        }
      }
      wm.value := wm.value.(notes := wm.value.notes + [turnNote]);
      r := Answered(discharged, corrected);
    }

    method DischargeAndFinish(wm: WorkingMemoryObject, draft: TurnNote, i: Input) returns (r: Outcome)
      requires Valid()
      modifies this`history, wm, logger, holding
      ensures Valid()
      ensures Turned(wm.value, Value(), r) == Discharging(old(Value()), old(wm.value), draft, i, settings.threshold)
    {
      hide H.Unsurfaced, D.Selected, H.Marked;
      var unsurfaced := holding.ListUnsurfaced();
      var candidate: Option<H.Item> := None;
      if unsurfaced != [] {
        if i.raises == Some(Scoring) {
          return Failed;
        }
        candidate := D.SelectDischargeCandidate(unsurfaced, i.register, i.scores, settings.threshold);
        assert candidate == D.Candidate(old(holding.Value()), i.register, i.scores, settings.threshold);
        if candidate.Some? {
          D.CandidateIsMarkable(holding.Value(), i.register, i.scores, settings.threshold, i.raises == Some(Saving));
          var saved := holding.Discharge(candidate.value.id, i.now, i.raises == Some(Saving));
          if saved != H.Done {
            return Failed;
          }
        }
      } else {
        D.NothingUnsurfaced(holding.Value(), i.register, i.scores, settings.threshold);
      }
      wm.value := Surfacing(wm.value, candidate);
      var notable := Notable(draft.movements, candidate, i.long);
      if notable && i.raises == Some(Noting) {
        return Failed;
      }
      var note := draft.(notable := notable, text := if notable then Some(i.text) else None);
      r := FinishTurn(wm, note, if candidate.None? then None else Some(candidate.value.id), i);
    }

    /** The beginning of a turn: take hold of the working memory and count. */
    method StartTurn() returns (wm: WorkingMemoryObject?)
      requires Valid()
      modifies memory
      ensures Valid() && Value() == old(Value()) && wm == memory
      ensures wm != null ==> wm.value == Counted(old(memory.value))
      ensures wm != null ==> wm.value == old(memory.value).(turnCount := old(memory.value).turnCount + 1)
    {
      wm := memory;
      if wm != null {
        wm.value := Counted(wm.value);
      }
    }

    /** The rest of a turn, on the memory it took hold of. */
    method AnswerTurn(wm: WorkingMemoryObject, i: Input) returns (r: Outcome)
      requires Valid()
      modifies this`history, wm, logger, holding
      ensures Valid() && Turned(wm.value, Value(), r) == Answering(old(Value()), old(wm.value), i, settings)
    {
      hide UpdatedStack, UpdatedFloating, Movements, AppendNew, StackIds, SetOf, Discharging;
      if i.raises == Some(Responding) {
        return Failed;
      }
      var m := wm.value;
      var movements := DetectStanceMovements(i.before, m.stack, i.after);
      var artifacts := AddPending(m.artifacts, i.pending);
      var draft := TurnNote(m.session, m.turnCount, StackIds(m.stack), i.register, false, i.topics,
                            movements, i.artifacts, false, None);
      wm.value := m.(artifacts := artifacts,
                     stack := UpdatedStack(m.stack, m.turnCount, i.referenced, SetOf(movements), settings.cfg),
                     floating := UpdatedFloating(m.floating, m.turnCount, settings.cfg));
      r := DischargeAndFinish(wm, draft, i);
    }

    /** A whole turn with nothing in between; the memory object stays the same. */
    method HandleTurn(i: Input) returns (r: Outcome)
      requires Valid()
      modifies this`history, memory, logger, holding
      ensures Valid()
      ensures memory == null ==> r == NotBegun && Value() == old(Value())
      ensures memory != null ==>
                Turned(memory.value, Value(), r) == Answering(old(Value()), Counted(old(memory.value)), i, settings)
    {
      hide Answering;
      var wm := StartTurn();
      if wm == null {
        return NotBegun;
      }
      r := AnswerTurn(wm, i);
    }
  }
}
