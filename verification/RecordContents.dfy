/** What the writes of a flush say about the turns flushed, told by the turns
    alone. */
module RecordContents {
  import opened Prelude
  import opened Registers
  import opened WorkingMemory
  import opened SessionRecords
  import opened EpisodicFlush

  // ---- first-seen order ----

  /** `x` occurs, and `y` not before it. */
  ghost predicate SeenFirst<T>(s: seq<T>, x: T, y: T) {
    exists p :: 0 <= p < |s| && s[p] == x && y !in s[..p + 1]
  }

  lemma SeenFirstExtends<T>(s: seq<T>, x: T, a: T, b: T)
    requires SeenFirst(s, a, b) || (a in s && b == x && x !in s)
    ensures SeenFirst(s + [x], a, b)
  {
    var p :| 0 <= p < |s| && s[p] == a && b !in s[..p + 1];
    assert (s + [x])[..p + 1] == s[..p + 1] && (s + [x])[p] == a;
  }

  lemma {:induction false} FirstSeenOrder<T(!new)>(s: seq<T>)
    ensures var r := FirstSeen(s); forall a, b :: 0 <= a < b < |r| ==> SeenFirst(s, r[a], r[b])
    decreases |s|
  {
    if s == [] {
    } else {
      var init, x := s[..|s| - 1], s[|s| - 1];
      assert s == init + [x];
      FirstSeenOrder(init);
      FirstSeenAppends(init, x);
      FirstSeenElements(init);
      var r0, r := FirstSeen(init), FirstSeen(s);
      hide FirstSeen, SeenFirst;
      forall a, b | 0 <= a < b < |r| ensures SeenFirst(s, r[a], r[b]) {
        assert r[a] == r0[a] && r0[a] in r0;
        assert b < |r0| ==> r[b] == r0[b];
        SeenFirstExtends(init, x, r[a], r[b]);
      }
    }
  }

  lemma FirstSeenOrderAt<T(!new)>(s: seq<T>, a: nat, b: nat)
    requires a < b < |FirstSeen(s)|
    ensures SeenFirst(s, FirstSeen(s)[a], FirstSeen(s)[b])
  {
    hide FirstSeen;
    FirstSeenOrder(s);
  }

  // ---- lists drawn from the turns ----

  function Flat(parts: seq<seq<string>>): seq<string>
    decreases |parts|
  {
    if parts == [] then [] else Flat(parts[..|parts| - 1]) + parts[|parts| - 1]
  }

  ghost predicate IsFirstAt(parts: seq<seq<string>>, x: string, y: string, i: nat, k: nat)
    requires i < |parts| && k < |parts[i]|
  {
    parts[i][k] == x && y !in parts[i][..k + 1] && forall j :: 0 <= j < i ==> y !in parts[j]
  }

  /** `x` is in some turn, and `y` neither in an earlier one nor before it there. */
  ghost predicate InTurnFirst(parts: seq<seq<string>>, x: string, y: string) {
    exists i, k :: 0 <= i < |parts| && 0 <= k < |parts[i]| && IsFirstAt(parts, x, y, i, k)
  }

  /** `list` is what the turns list, without repetition, in the order in which each
      first occurs in a turn. */
  ghost predicate ListsFirstSeen(list: seq<string>, parts: seq<seq<string>>) {
    && NoDup(list)
    && (forall x :: x in list <==> exists i :: 0 <= i < |parts| && x in parts[i])
    && (forall a, b :: 0 <= a < b < |list| ==> InTurnFirst(parts, list[a], list[b]))
  }

  lemma {:induction false} Locate(parts: seq<seq<string>>, p: nat) returns (i: nat, k: nat)
    requires p < |Flat(parts)|
    ensures i < |parts| && k < |parts[i]| && parts[i][k] == Flat(parts)[p]
    ensures Flat(parts)[..p + 1] == Flat(parts[..i]) + parts[i][..k + 1]
    decreases |parts|
  {
    var n := |parts| - 1;
    var init := Flat(parts[..n]);
    if p < |init| {
      i, k := Locate(parts[..n], p);
      assert parts[..n][..i] == parts[..i] && Flat(parts)[..p + 1] == init[..p + 1];
    } else {
      i, k := n, p - |init|;
      assert Flat(parts)[..p + 1] == init + parts[n][..k + 1];
    }
  }

  lemma {:induction false} FlatElements(parts: seq<seq<string>>, x: string)
    ensures x in Flat(parts) <==> exists i :: 0 <= i < |parts| && x in parts[i]
    decreases |parts|
  {
    if parts == [] {
    } else {
      var n := |parts| - 1;
      FlatElements(parts[..n], x);
      if exists i :: 0 <= i < |parts| && x in parts[i] {
        var i :| 0 <= i < |parts| && x in parts[i];
        assert i < n ==> x in parts[..n][i];
      }
      if x in Flat(parts[..n]) {
        var i :| 0 <= i < n && x in parts[..n][i];
        assert x in parts[i];
      }
    }
  }

  lemma FlatFirst(parts: seq<seq<string>>, x: string, y: string)
    requires SeenFirst(Flat(parts), x, y)
    ensures InTurnFirst(parts, x, y)
  {
    var p :| 0 <= p < |Flat(parts)| && Flat(parts)[p] == x && y !in Flat(parts)[..p + 1];
    var i, k := Locate(parts, p);
    FlatElements(parts[..i], y);
    forall j | 0 <= j < i ensures y !in parts[j] {
      assert parts[..i][j] == parts[j];
    }
    assert IsFirstAt(parts, x, y, i, k);
  }

  lemma FirstSeenLists(parts: seq<seq<string>>)
    ensures ListsFirstSeen(FirstSeen(Flat(parts)), parts)
  {
    var list := FirstSeen(Flat(parts));
    FirstSeenElements(Flat(parts));
    hide FirstSeen, Flat;
    forall x ensures x in list <==> exists i :: 0 <= i < |parts| && x in parts[i] {
      FlatElements(parts, x);
    }
    forall a, b | 0 <= a < b < |list| ensures InTurnFirst(parts, list[a], list[b]) {
      FirstSeenOrderAt(Flat(parts), a, b);
      FlatFirst(parts, list[a], list[b]);
    }
  }

  function ThreadsByTurn(notes: seq<TurnNote>): seq<seq<string>> {
    seq(|notes|, i requires 0 <= i < |notes| => notes[i].threads)
  }

  /** Turns that are not notable count for nothing here. */
  function NotableByTurn(notes: seq<TurnNote>): seq<seq<string>> {
    seq(|notes|, i requires 0 <= i < |notes| => if notes[i].notable then notes[i].threads else [])
  }

  function TopicsByTurn(notes: seq<TurnNote>): seq<seq<string>> {
    seq(|notes|, i requires 0 <= i < |notes| => notes[i].topics)
  }

  lemma FlatAppends(parts: seq<seq<string>>, part: seq<string>)
    ensures Flat(parts + [part]) == Flat(parts) + part
  {
    assert (parts + [part])[..|parts|] == parts;
  }

  lemma FlatNothing()
    ensures Flat([]) == []
  {
  }

  lemma {:induction false} ThreadsFlat(notes: seq<TurnNote>)
    ensures ThreadsIn(notes) == Flat(ThreadsByTurn(notes))
    decreases |notes|
  {
    hide Flat;
    if notes == [] {
      FlatNothing();
    } else {
      var init, tn := notes[..|notes| - 1], notes[|notes| - 1];
      ThreadsFlat(init);
      FlatAppends(ThreadsByTurn(init), tn.threads);
      assert ThreadsByTurn(notes) == ThreadsByTurn(init) + [tn.threads];
    }
  }

  lemma {:induction false} TopicsFlat(notes: seq<TurnNote>)
    ensures TopicsIn(notes) == Flat(TopicsByTurn(notes))
    decreases |notes|
  {
    hide Flat;
    if notes == [] {
      FlatNothing();
    } else {
      var init, tn := notes[..|notes| - 1], notes[|notes| - 1];
      TopicsFlat(init);
      FlatAppends(TopicsByTurn(init), tn.topics);
      assert TopicsByTurn(notes) == TopicsByTurn(init) + [tn.topics];
    }
  }

  lemma MentionsAppend(ms: seq<Mention>, tn: TurnNote)
    ensures MentionedThreads(ms + TurnMentions(tn, |tn.threads|)) == MentionedThreads(ms) + tn.threads
  {
  }

  lemma {:induction false} NotableFlat(notes: seq<TurnNote>)
    ensures MentionedThreads(Mentions(notes)) == Flat(NotableByTurn(notes))
    decreases |notes|
  {
    hide Flat, TurnMentions;
    if notes == [] {
      FlatNothing();
    } else {
      var init, tn := notes[..|notes| - 1], notes[|notes| - 1];
      var own := if tn.notable then tn.threads else [];
      NotableFlat(init);
      FlatAppends(NotableByTurn(init), own);
      assert NotableByTurn(notes) == NotableByTurn(init) + [own];
      MentionsAppend(Mentions(init), tn);
      if !tn.notable {
        assert Mentions(notes) == Mentions(init);
        assert Flat(NotableByTurn(init)) + own == Flat(NotableByTurn(init));
      }
    }
  }

  // ---- counting ----

  lemma OneMore(xs: set<int>, ys: set<int>, n: int, more: bool)
    requires n !in xs && ys == (if more then xs + {n} else xs)
    ensures |ys| == |xs| + if more then 1 else 0
  {
  }

  function Places(rs: seq<Register>, r: Register): set<int> {
    set i | 0 <= i < |rs| && rs[i] == r
  }

  lemma PlacesGrow(rs: seq<Register>, r: Register)
    requires rs != []
    ensures var n := |rs| - 1;
            && n !in Places(rs[..n], r)
            && Places(rs, r) == if rs[n] == r then Places(rs[..n], r) + {n} else Places(rs[..n], r)
  {
  }

  lemma {:induction false} CountIsCardinality(rs: seq<Register>, r: Register)
    ensures Count(rs, r) == |Places(rs, r)|
    decreases |rs|
  {
    if rs == [] {
      assert Places(rs, r) == {};
    } else {
      hide Places;
      var n := |rs| - 1;
      CountIsCardinality(rs[..n], r);
      PlacesGrow(rs, r);
      OneMore(Places(rs[..n], r), Places(rs, r), n, rs[n] == r);
    }
  }

  function CorrectedTurns(notes: seq<TurnNote>): set<int> {
    set i | 0 <= i < |notes| && notes[i].corrected
  }

  lemma {:induction false} CorrectionsAreCardinality(notes: seq<TurnNote>)
    ensures Corrections(notes) == |CorrectedTurns(notes)|
    decreases |notes|
  {
    if notes == [] {
      assert CorrectedTurns(notes) == {};
    } else {
      var n := |notes| - 1;
      CorrectionsAreCardinality(notes[..n]);
      assert CorrectedTurns(notes) == CorrectedTurns(notes[..n]) + if notes[n].corrected then {n} else {};
      OneMore(CorrectedTurns(notes[..n]), CorrectedTurns(notes), n, notes[n].corrected);
    }
  }

  /** In how many turns a register was inferred. */
  function Turns(notes: seq<TurnNote>, r: Register): nat {
    |Places(RegistersOf(notes), r)|
  }

  /** The register of most turns; among those of equally many the first inferred. */
  ghost predicate IsDominant(notes: seq<TurnNote>, r: Register) {
    && (exists i :: 0 <= i < |notes| && notes[i].register == r)
    && forall q :: Turns(notes, q) <= Turns(notes, r)
         && (Turns(notes, q) == Turns(notes, r) && q != r ==> SeenFirst(RegistersOf(notes), r, q))
  }

  lemma TurnsAreCount(notes: seq<TurnNote>, r: Register)
    ensures Turns(notes, r) == Count(RegistersOf(notes), r)
    ensures Turns(notes, r) > 0 <==> r in RegistersOf(notes)
  {
    var rs := RegistersOf(notes);
    CountIsCardinality(rs, r);
    var places := Places(rs, r);
    if r in rs {
      var i :| 0 <= i < |rs| && rs[i] == r;
      assert i in places;
    }
    if places != {} {
      var i :| i in places;
      assert rs[i] == r;
    }
  }

  lemma DominantBeats(notes: seq<TurnNote>, q: Register)
    requires notes != []
    ensures Dominant(notes).Some?
    ensures var r := Dominant(notes).value;
            && r in RegistersOf(notes)
            && Turns(notes, q) <= Turns(notes, r)
            && (Turns(notes, q) == Turns(notes, r) && q != r ==> SeenFirst(RegistersOf(notes), r, q))
  {
    hide FirstSeen, Count, Turns, SeenFirst;
    var rs := RegistersOf(notes);
    var keys := FirstSeen(rs);
    FirstSeenElements(rs);
    assert rs[0] in rs;
    var k := MostCommon(rs, keys);
    assert keys[k] in keys;
    TurnsAreCount(notes, keys[k]);
    TurnsAreCount(notes, q);
    if q in rs {
      assert q in keys;
      var j :| 0 <= j < |keys| && keys[j] == q;
      if k < j {
        FirstSeenOrderAt(rs, k, j);
      }
    }
  }

  lemma NoDominant()
    ensures Dominant([]) == None
  {
  }

  lemma DominantIs(notes: seq<TurnNote>)
    ensures match Dominant(notes)
            case None => notes == []
            case Some(r) => IsDominant(notes, r)
  {
    hide Turns, SeenFirst, Dominant;
    if notes == [] {
      NoDominant();
    } else {
      DominantBeats(notes, notes[0].register);
      var r := Dominant(notes).value;
      var i :| 0 <= i < |notes| && RegistersOf(notes)[i] == r;
      assert notes[i].register == r;
      forall q
        ensures Turns(notes, q) <= Turns(notes, r)
        ensures Turns(notes, q) == Turns(notes, r) && q != r ==> SeenFirst(RegistersOf(notes), r, q)
      {
        DominantBeats(notes, q);
      }
    }
  }

  lemma NoMention(tn: TurnNote, thread: string)
    ensures GroupOf(TurnMentions(tn, 0), thread) == []
  {
  }

  lemma MentionNext(tn: TurnNote, k: nat)
    requires k < |tn.threads|
    ensures TurnMentions(tn, k + 1) == TurnMentions(tn, k) + [Mention(tn.threads[k], tn)]
  {
  }

  lemma {:induction false} OwnTurn(last: TurnNote, k: nat, thread: string, tn: TurnNote)
    requires k <= |last.threads|
    ensures tn in GroupOf(TurnMentions(last, k), thread) <==> tn == last && thread in last.threads[..k]
  {
    hide GroupOf, TurnMentions;
    if k == 0 {
      NoMention(last, thread);
    } else {
      OwnTurn(last, k - 1, thread, tn);
      GroupStep(TurnMentions(last, k - 1), Mention(last.threads[k - 1], last), thread);
      MentionNext(last, k - 1);
      assert last.threads[..k] == last.threads[..k - 1] + [last.threads[k - 1]];
    }
  }

  lemma {:induction false} GroupTurns(notes: seq<TurnNote>, thread: string, tn: TurnNote)
    ensures tn in GroupOf(Mentions(notes), thread) <==> tn in notes && tn.notable && thread in tn.threads
    decreases |notes|
  {
    if notes == [] {
    } else {
      hide GroupOf, Mentions;
      var last := notes[|notes| - 1];
      MentionsStep(notes[..|notes| - 1], last);
      GroupTurns(notes[..|notes| - 1], thread, tn);
      assert notes == notes[..|notes| - 1] + [last];
      if last.notable {
        GroupAppends(Mentions(notes[..|notes| - 1]), TurnMentions(last, |last.threads|), thread);
        OwnTurn(last, |last.threads|, thread, tn);
      }
    }
  }

  // ---- the writes of a flush ----

  /** What the session record says of the turns of the session. */
  ghost predicate RecordTells(r: Record<Id>, m: Memory) {
    && ListsFirstSeen(r.threads, ThreadsByTurn(m.notes))
    && ListsFirstSeen(r.topics, TopicsByTurn(m.notes))
    && (match r.dominant case None => m.notes == [] case Some(d) => IsDominant(m.notes, d))
    && |r.arc| == |m.notes|
    && (forall i :: 0 <= i < |m.notes| ==>
          r.arc[i] == ArcEntry(m.notes[i].number, m.notes[i].register, m.notes[i].corrected))
    && r.corrections == |CorrectedTurns(m.notes)|
    && r.artifacts == m.artifacts && r.contradictions == m.contradictions && r.inquiries == m.inquiries
  }

  lemma CompiledTells(m: Memory, handoff: Id)
    ensures RecordTells(Compiled(m, handoff), m)
  {
    hide ListsFirstSeen, FirstSeen, Dominant, Corrections, ThreadsIn, TopicsIn, IsDominant;
    ThreadsFlat(m.notes);
    TopicsFlat(m.notes);
    FirstSeenLists(ThreadsByTurn(m.notes));
    FirstSeenLists(TopicsByTurn(m.notes));
    DominantIs(m.notes);
    CorrectionsAreCardinality(m.notes);
  }

  /** Whatever of a flush is written: co-occurrence update, record and index rows
      list the threads of all turns, and the handoff note those of the notable
      turns, each once and in the order first seen; the record tells the turns,
      topics, registers and corrections of the session as they were. */
  lemma WritesTell(m: Memory, a: Attempt, w: Write)
    requires w in WritesOf(m, a)
    ensures match w
            case Episode(_, session, _, _, _) => session == m.session
            case Cooccurrence(session, threads, artifacts, inquiries) =>
              && session == m.session && artifacts == m.artifacts && inquiries == m.inquiries
              && ListsFirstSeen(threads, ThreadsByTurn(m.notes))
            case Handoff(_, session, threads, _) =>
              session == m.session && ListsFirstSeen(threads, NotableByTurn(m.notes))
            case SessionRecord(_, record) => RecordTells(record, m)
            case ThreadIndex(session, threads) =>
              session == m.session && ListsFirstSeen(threads, ThreadsByTurn(m.notes))
  {
    hide ListsFirstSeen, FirstSeen, ThreadsIn, Mentions, RecordTells, Compiled;
    ThreadsFlat(m.notes);
    NotableFlat(m.notes);
    FirstSeenLists(ThreadsByTurn(m.notes));
    FirstSeenLists(NotableByTurn(m.notes));
    var n := |NotableThreads(m.notes)|;
    CompiledTells(m, Id(a.number, n));
    var i :| 0 <= i < |WritesOf(m, a)| && WritesOf(m, a)[i] == w;
    assert AllWrites(m, a)[i] == w;
  }

  /** Every write of an attempt that has an id has its own, and the record refers to
      the handoff note's. The k-th thread with a notable turn gets the k-th answer
      as its account and its notable turns, and the handoff note the answer after
      them. */
  lemma AnswersInOrder(m: Memory, a: Attempt, k: nat)
    requires k < |WritesOf(m, a)|
    ensures var w, n := WritesOf(m, a)[k], |NotableThreads(m.notes)|;
            && (w.Episode? <==> k < n) && (w.Cooccurrence? <==> k == n) && (w.Handoff? <==> k == n + 1)
            && (w.SessionRecord? <==> k == n + 2) && (w.ThreadIndex? <==> k == n + 3)
            && (w.Episode? ==>
                  && w.id == Id(a.number, k) && w.thread == NotableThreads(m.notes)[k]
                  && w.account == (if k in a.answers then a.answers[k] else "")
                  && forall tn :: tn in w.turns <==> tn in m.notes && tn.notable && w.thread in tn.threads)
            && (w.Handoff? ==>
                  w.id == Id(a.number, n) && w.prose == if n in a.answers then a.answers[n] else "")
            && (w.SessionRecord? ==> w.id == Id(a.number, n + 1) && w.record.handoff == Id(a.number, n))
  {
    hide AllThreads, NotableThreads, GroupOf, Mentions;
    assert WritesOf(m, a)[k] == AllWrites(m, a)[k];
    var n := |NotableThreads(m.notes)|;
    if k < n {
      assert AllWrites(m, a)[k] == Episodes(m, a, n)[k];
      var thread := NotableThreads(m.notes)[k];
      forall tn
        ensures tn in GroupOf(Mentions(m.notes), thread) <==> tn in m.notes && tn.notable && thread in tn.threads
      {
        GroupTurns(m.notes, thread, tn);
      }
    }
  }
}
