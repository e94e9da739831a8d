/** What a flush compiles from working memory: notable turns grouped by thread,
    and the session record. */
module SessionRecords {
  import opened Prelude
  import opened Registers
  import opened WorkingMemory

  // ---- grouping notable turns by thread ----

  /** A thread active in a notable turn. */
  datatype Mention = Mention(thread: string, turn: TurnNote)

  function TurnMentions(tn: TurnNote, k: nat): seq<Mention>
    requires k <= |tn.threads|
  {
    seq(k, j requires 0 <= j < k => Mention(tn.threads[j], tn))
  }

  function Mentions(notes: seq<TurnNote>): seq<Mention>
    decreases |notes|
  {
    if notes == [] then []
    else
      var tn := notes[|notes| - 1];
      Mentions(notes[..|notes| - 1]) + if tn.notable then TurnMentions(tn, |tn.threads|) else []
  }

  function MentionedThreads(ms: seq<Mention>): seq<string> {
    seq(|ms|, i requires 0 <= i < |ms| => ms[i].thread)
  }

  /** The turns mentioning a thread, in order. */
  function GroupOf(ms: seq<Mention>, thread: string): seq<TurnNote>
    decreases |ms|
  {
    if ms == [] then []
    else
      var m := ms[|ms| - 1];
      GroupOf(ms[..|ms| - 1], thread) + if m.thread == thread then [m.turn] else []
  }

  /** The threads with a notable turn, in first-seen order. */
  function NotableThreads(notes: seq<TurnNote>): seq<string> {
    FirstSeen(MentionedThreads(Mentions(notes)))
  }

  /** The dictionary of turns by thread, with its keys in insertion order. */
  ghost predicate Grouped(ms: seq<Mention>, keys: seq<string>, groups: map<string, seq<TurnNote>>) {
    && keys == FirstSeen(MentionedThreads(ms))
    && (forall t :: t in keys <==> t in groups)
    && (forall t :: GroupOf(ms, t) == if t in groups then groups[t] else [])
  }

  function PutMention(groups: map<string, seq<TurnNote>>, m: Mention): map<string, seq<TurnNote>> {
    groups[m.thread := (if m.thread in groups then groups[m.thread] else []) + [m.turn]]
  }

  lemma GroupStep(ms: seq<Mention>, m: Mention, thread: string)
    ensures GroupOf(ms + [m], thread) == GroupOf(ms, thread) + if m.thread == thread then [m.turn] else []
  {
    assert (ms + [m])[..|ms|] == ms;
  }

  lemma GroupedStep(ms: seq<Mention>, keys: seq<string>, groups: map<string, seq<TurnNote>>, m: Mention)
    requires Grouped(ms, keys, groups)
    ensures Grouped(ms + [m], if m.thread in groups then keys else keys + [m.thread], PutMention(groups, m))
  {
    hide GroupOf, FirstSeen;
    assert MentionedThreads(ms + [m]) == MentionedThreads(ms) + [m.thread];
    FirstSeenAppends(MentionedThreads(ms), m.thread);
    FirstSeenElements(MentionedThreads(ms));
    var groups' := PutMention(groups, m);
    forall t ensures GroupOf(ms + [m], t) == if t in groups' then groups'[t] else [] {
      GroupStep(ms, m, t);
    }
  }

  /** The collecting loop over the threads of one notable turn. */
  method GroupTurn(ghost ms: seq<Mention>, tn: TurnNote, keys: seq<string>, groups: map<string, seq<TurnNote>>)
    returns (keys': seq<string>, groups': map<string, seq<TurnNote>>)
    requires Grouped(ms, keys, groups)
    ensures Grouped(ms + TurnMentions(tn, |tn.threads|), keys', groups')
  {
    hide Grouped;
    keys', groups' := keys, groups;
    assert ms + TurnMentions(tn, 0) == ms;
    for j := 0 to |tn.threads|
      invariant Grouped(ms + TurnMentions(tn, j), keys', groups')
    {
      var m := Mention(tn.threads[j], tn);
      GroupedStep(ms + TurnMentions(tn, j), keys', groups', m);
      assert ms + TurnMentions(tn, j + 1) == (ms + TurnMentions(tn, j)) + [m];
      if m.thread !in groups' {
        keys' := keys' + [m.thread];
      }
      groups' := PutMention(groups', m);
    }
  }

  lemma MentionsStep(notes: seq<TurnNote>, tn: TurnNote)
    ensures tn.notable ==> Mentions(notes + [tn]) == Mentions(notes) + TurnMentions(tn, |tn.threads|)
    ensures !tn.notable ==> Mentions(notes + [tn]) == Mentions(notes)
  {
    assert (notes + [tn])[..|notes|] == notes;
  }

  /** The collecting loop over the turns. */
  method GroupNotableTurns(notes: seq<TurnNote>) returns (keys: seq<string>, groups: map<string, seq<TurnNote>>)
    ensures Grouped(Mentions(notes), keys, groups)
  {
    keys, groups := [], map[];
    for i := 0 to |notes|
      invariant Grouped(Mentions(notes[..i]), keys, groups)
    {
      hide Grouped, Mentions, TurnMentions;
      var tn := notes[i];
      assert notes[..i + 1] == notes[..i] + [tn];
      MentionsStep(notes[..i], tn);
      if tn.notable {
        keys, groups := GroupTurn(Mentions(notes[..i]), tn, keys, groups);
      }
    }
    assert notes[..|notes|] == notes;
  }

  /** The notable turns in which a thread is active. */
  function TurnsOf(notes: seq<TurnNote>, thread: string): seq<TurnNote>
    decreases |notes|
  {
    if notes == [] then []
    else
      var tn := notes[|notes| - 1];
      TurnsOf(notes[..|notes| - 1], thread) + if tn.notable && thread in tn.threads then [tn] else []
  }

  lemma {:induction false} GroupAppends(a: seq<Mention>, b: seq<Mention>, thread: string)
    ensures GroupOf(a + b, thread) == GroupOf(a, thread) + GroupOf(b, thread)
    decreases |b|
  {
    if b == [] {
      assert a + b == a;
    } else {
      assert (a + b)[..|a + b| - 1] == a + b[..|b| - 1];
      GroupAppends(a, b[..|b| - 1], thread);
    }
  }

  lemma {:induction false} TurnGroup(tn: TurnNote, k: nat, thread: string)
    requires k <= |tn.threads| && NoDup(tn.threads)
    ensures GroupOf(TurnMentions(tn, k), thread) == if thread in tn.threads[..k] then [tn] else []
  {
    if k == 0 {
    } else {
      TurnGroup(tn, k - 1, thread);
      assert TurnMentions(tn, k)[..k - 1] == TurnMentions(tn, k - 1);
      assert tn.threads[..k] == tn.threads[..k - 1] + [tn.threads[k - 1]];
    }
  }

  ghost predicate ThreadsDistinct(notes: seq<TurnNote>) {
    forall i :: 0 <= i < |notes| ==> NoDup(notes[i].threads)
  }

  /** When no turn lists a thread twice, a thread's group is exactly its notable
      turns, each once. */
  lemma {:induction false} GroupIsTurns(notes: seq<TurnNote>, thread: string)
    requires ThreadsDistinct(notes)
    ensures GroupOf(Mentions(notes), thread) == TurnsOf(notes, thread)
    decreases |notes|
  {
    if notes == [] {
    } else {
      var init, tn := notes[..|notes| - 1], notes[|notes| - 1];
      GroupIsTurns(init, thread);
      if tn.notable {
        TurnGroup(tn, |tn.threads|, thread);
        assert tn.threads[..|tn.threads|] == tn.threads;
        GroupAppends(Mentions(init), TurnMentions(tn, |tn.threads|), thread);
        assert NoDup(tn.threads);
      } else {
        assert Mentions(notes) == Mentions(init);
      }
    }
  }

  lemma {:induction false} MentionedIff(notes: seq<TurnNote>, thread: string)
    ensures thread in MentionedThreads(Mentions(notes)) <==> TurnsOf(notes, thread) != []
    decreases |notes|
  {
    if notes == [] {
    } else {
      var init, tn := notes[..|notes| - 1], notes[|notes| - 1];
      MentionedIff(init, thread);
      if tn.notable {
        var own := TurnMentions(tn, |tn.threads|);
        assert MentionedThreads(Mentions(init) + own) == MentionedThreads(Mentions(init)) + tn.threads;
      } else {
        assert Mentions(notes) == Mentions(init);
      }
    }
  }

  /** A thread has an episode exactly if it is active in some notable turn. */
  lemma EpisodeIffNotableTurn(notes: seq<TurnNote>, thread: string)
    ensures thread in NotableThreads(notes) <==> TurnsOf(notes, thread) != []
  {
    var ms := Mentions(notes);
    FirstSeenElements(MentionedThreads(ms));
    MentionedIff(notes, thread);
  }

  /** How many threads were active in notable turns, counted per turn. */
  function ActiveCount(notes: seq<TurnNote>): nat
    decreases |notes|
  {
    if notes == [] then 0
    else
      var tn := notes[|notes| - 1];
      ActiveCount(notes[..|notes| - 1]) + if tn.notable then |tn.threads| else 0
  }

  function GroupSizes(ms: seq<Mention>, keys: seq<string>): nat
    decreases |keys|
  {
    if keys == [] then 0
    else GroupSizes(ms, keys[..|keys| - 1]) + |GroupOf(ms, keys[|keys| - 1])|
  }

  lemma {:induction false} OneMoreMention(ms: seq<Mention>, m: Mention, keys: seq<string>)
    requires NoDup(keys)
    ensures GroupSizes(ms + [m], keys) == GroupSizes(ms, keys) + if m.thread in keys then 1 else 0
    decreases |keys|
  {
    if keys == [] {
    } else {
      var init, k := keys[..|keys| - 1], keys[|keys| - 1];
      OneMoreMention(ms, m, init);
      assert (ms + [m])[..|ms|] == ms;
      assert keys == init + [k];
    }
  }

  lemma {:induction false} NotMentioned(ms: seq<Mention>, thread: string)
    requires thread !in MentionedThreads(ms)
    ensures GroupOf(ms, thread) == []
    decreases |ms|
  {
    if ms == [] {
    } else {
      var init := ms[..|ms| - 1];
      assert MentionedThreads(ms) == MentionedThreads(init) + [ms[|ms| - 1].thread];
      NotMentioned(init, thread);
    }
  }

  lemma SizesWithKey(ms: seq<Mention>, keys: seq<string>, k: string)
    ensures GroupSizes(ms, keys + [k]) == GroupSizes(ms, keys) + |GroupOf(ms, k)|
  {
    hide GroupOf;
    assert (keys + [k])[..|keys|] == keys;
  }

  lemma NoSizes()
    ensures GroupSizes([], FirstSeen(MentionedThreads([]))) == 0
  {
  }

  lemma {:induction false} SizesAddUp(ms: seq<Mention>)
    ensures GroupSizes(ms, FirstSeen(MentionedThreads(ms))) == |ms|
    decreases |ms|
  {
    hide GroupSizes, FirstSeen, GroupOf;
    if ms == [] {
      NoSizes();
    } else {
      var init, m := ms[..|ms| - 1], ms[|ms| - 1];
      SizesAddUp(init);
      var seen := MentionedThreads(init);
      assert MentionedThreads(ms) == seen + [m.thread] && ms == init + [m];
      FirstSeenAppends(seen, m.thread);
      FirstSeenElements(seen);
      OneMoreMention(init, m, FirstSeen(seen));
      if m.thread !in seen {
        NotMentioned(init, m.thread);
        GroupStep(init, m, m.thread);
        SizesWithKey(ms, FirstSeen(seen), m.thread);
      }
    }
  }

  lemma {:induction false} MentionCount(notes: seq<TurnNote>)
    ensures |Mentions(notes)| == ActiveCount(notes)
    decreases |notes|
  {
    if notes == [] {
    } else {
      MentionCount(notes[..|notes| - 1]);
    }
  }

  /** The group sizes sum to the active-thread counts of the notable turns: no
      notable turn is left out of an episode or counted twice. */
  lemma GroupSizesConserved(notes: seq<TurnNote>)
    ensures GroupSizes(Mentions(notes), NotableThreads(notes)) == ActiveCount(notes)
  {
    SizesAddUp(Mentions(notes));
    MentionCount(notes);
  }

  // ---- the session record ----

  function ThreadsIn(notes: seq<TurnNote>): seq<string>
    decreases |notes|
  {
    if notes == [] then [] else ThreadsIn(notes[..|notes| - 1]) + notes[|notes| - 1].threads
  }

  function TopicsIn(notes: seq<TurnNote>): seq<string>
    decreases |notes|
  {
    if notes == [] then [] else TopicsIn(notes[..|notes| - 1]) + notes[|notes| - 1].topics
  }

  /** All threads of the session in first-seen order, notable or not. */
  function AllThreads(notes: seq<TurnNote>): seq<string> {
    FirstSeen(ThreadsIn(notes))
  }

  lemma {:induction false} ThreadsInIff(notes: seq<TurnNote>, thread: string)
    ensures thread in ThreadsIn(notes) <==> exists i :: 0 <= i < |notes| && thread in notes[i].threads
    ensures TurnsOf(notes, thread) != [] ==> thread in ThreadsIn(notes)
    decreases |notes|
  {
    if notes == [] {
    } else {
      var init, tn := notes[..|notes| - 1], notes[|notes| - 1];
      ThreadsInIff(init, thread);
      assert forall i :: 0 <= i < |init| ==> init[i] == notes[i];
    }
  }

  /** The thread list of the session holds exactly the threads of its turns, notable
      or not, so every thread with an episode is among them. */
  lemma EpisodesAmongThreads(notes: seq<TurnNote>, thread: string)
    ensures thread in AllThreads(notes) <==> exists i :: 0 <= i < |notes| && thread in notes[i].threads
    ensures thread in NotableThreads(notes) ==> thread in AllThreads(notes)
  {
    FirstSeenElements(MentionedThreads(Mentions(notes)));
    FirstSeenElements(ThreadsIn(notes));
    MentionedIff(notes, thread);
    ThreadsInIff(notes, thread);
  }

  datatype ArcEntry = ArcEntry(turn: nat, register: Register, corrected: bool)

  function Arc(notes: seq<TurnNote>): seq<ArcEntry> {
    seq(|notes|, i requires 0 <= i < |notes| => ArcEntry(notes[i].number, notes[i].register, notes[i].corrected))
  }

  function RegistersOf(notes: seq<TurnNote>): seq<Register> {
    seq(|notes|, i requires 0 <= i < |notes| => notes[i].register)
  }

  function Count(rs: seq<Register>, r: Register): nat
    decreases |rs|
  {
    if rs == [] then 0 else Count(rs[..|rs| - 1], r) + if rs[|rs| - 1] == r then 1 else 0
  }

  /** The place of the most frequent of `keys` in `rs`, the first on a tie. */
  function MostCommon(rs: seq<Register>, keys: seq<Register>): (k: nat)
    requires keys != []
    ensures k < |keys|
    ensures forall j :: 0 <= j < |keys| ==> Count(rs, keys[j]) <= Count(rs, keys[k])
    ensures forall j :: 0 <= j < k ==> Count(rs, keys[j]) < Count(rs, keys[k])
    decreases |keys|
  {
    if |keys| == 1 then 0
    else
      var n := |keys| - 1;
      var best := MostCommon(rs, keys[..n]);
      assert forall j :: 0 <= j < n ==> keys[..n][j] == keys[j];
      if Count(rs, keys[n]) > Count(rs, keys[best]) then n else best
  }

  function Dominant(notes: seq<TurnNote>): Option<Register> {
    if notes == [] then None
    else
      var rs := RegistersOf(notes);
      var keys := FirstSeen(rs);
      FirstSeenElements(rs);
      assert rs[0] in keys;
      Some(keys[MostCommon(rs, keys)])
  }

  /** How often consecutive registers differ. */
  function Shifts(rs: seq<Register>): nat
    decreases |rs|
  {
    if |rs| < 2 then 0
    else Shifts(rs[..|rs| - 1]) + if rs[|rs| - 2] != rs[|rs| - 1] then 1 else 0
  }

  function Flatten(runs: seq<seq<Register>>): seq<Register>
    decreases |runs|
  {
    if runs == [] then [] else Flatten(runs[..|runs| - 1]) + runs[|runs| - 1]
  }

  ghost predicate Constant(run: seq<Register>) {
    run != [] && forall k :: 0 <= k < |run| ==> run[k] == run[0]
  }

  /** The sequence is cut into maximal stretches of one register. */
  ghost predicate MaximalRuns(runs: seq<seq<Register>>) {
    && (forall i :: 0 <= i < |runs| ==> Constant(runs[i]))
    && (forall i :: 0 < i < |runs| ==> runs[i - 1][0] != runs[i][0])
  }

  lemma {:induction false} ShiftsOverRun(rs: seq<Register>, run: seq<Register>)
    requires Constant(run)
    ensures Shifts(rs + run) == Shifts(rs) + if rs != [] && rs[|rs| - 1] != run[0] then 1 else 0
    decreases |run|
  {
    var all, init := rs + run, run[..|run| - 1];
    assert all[..|all| - 1] == rs + init;
    if |run| == 1 {
      assert rs + init == rs;
    } else {
      assert init[0] == run[0];
      ShiftsOverRun(rs, init);
      assert all[|all| - 2] == run[|run| - 2];
    }
  }

  lemma FlattenAppends(runs: seq<seq<Register>>, run: seq<Register>)
    ensures Flatten(runs + [run]) == Flatten(runs) + run
  {
    assert (runs + [run])[..|runs|] == runs;
  }

  lemma InitIsMaximal(init: seq<seq<Register>>, run: seq<Register>)
    requires MaximalRuns(init + [run])
    ensures MaximalRuns(init) && Constant(run) && (init != [] ==> init[|init| - 1][0] != run[0])
  {
    var runs := init + [run];
    assert Constant(runs[|init|]);
    forall i | 0 <= i < |init| ensures Constant(init[i]) && runs[i] == init[i] {
      assert Constant(runs[i]);
    }
    if init != [] {
      assert runs[|init| - 1][0] != runs[|init|][0];
    }
  }

  lemma FlattenNothing()
    ensures Flatten([]) == [] && Shifts([]) == 0
  {
  }

  lemma {:induction false} ShiftsOfRuns(runs: seq<seq<Register>>)
    requires MaximalRuns(runs) && runs != []
    ensures Shifts(Flatten(runs)) + 1 == |runs|
    ensures Flatten(runs) != [] && Flatten(runs)[|Flatten(runs)| - 1] == runs[|runs| - 1][0]
    decreases |runs|
  {
    var init, run := runs[..|runs| - 1], runs[|runs| - 1];
    assert runs == init + [run];
    InitIsMaximal(init, run);
    if init == [] {
      FlattenNothing();
    } else {
      ShiftsOfRuns(init);
    }
    hide Shifts, Flatten, MaximalRuns;
    FlattenAppends(init, run);
    ShiftsOverRun(Flatten(init), run);
  }

  /** When there are turns, register shifts plus one is the number of maximal
      stretches of one register, however found. */
  lemma ShiftsCountRuns(notes: seq<TurnNote>, runs: seq<seq<Register>>)
    requires notes != [] && MaximalRuns(runs) && Flatten(runs) == RegistersOf(notes)
    ensures Shifts(RegistersOf(notes)) + 1 == |runs|
  {
    assert runs != [];
    ShiftsOfRuns(runs);
  }

  function Corrections(notes: seq<TurnNote>): nat
    decreases |notes|
  {
    if notes == [] then 0
    else Corrections(notes[..|notes| - 1]) + if notes[|notes| - 1].corrected then 1 else 0
  }

  datatype Record<Id> = Record(
    threads: seq<string>,
    topics: seq<string>,
    dominant: Option<Register>,
    arc: seq<ArcEntry>,
    shifts: nat,
    corrections: nat,
    artifacts: seq<string>,
    contradictions: seq<string>,
    inquiries: seq<string>,
    handoff: Id)

  function Compiled<Id>(m: Memory, handoff: Id): Record<Id> {
    Record(AllThreads(m.notes), FirstSeen(TopicsIn(m.notes)), Dominant(m.notes), Arc(m.notes),
           Shifts(RegistersOf(m.notes)), Corrections(m.notes), m.artifacts, m.contradictions, m.inquiries, handoff)
  }
}
