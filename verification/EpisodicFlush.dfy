/** The flush of a session's working memory to the memory server, with any of its
    calls failing, and retries. */
module EpisodicFlush {
  import opened Prelude
  import opened WorkingMemory
  import opened SessionRecords

  /** A generated id: the attempt it was generated in, and its place there. */
  datatype Id = Id(attempt: nat, place: nat)

  datatype Write =
    | Episode(id: Id, session: nat, thread: string, turns: seq<TurnNote>, account: string)
    | Cooccurrence(session: nat, threads: seq<string>, artifacts: seq<string>, inquiries: seq<string>)
    | Handoff(id: Id, session: nat, threads: seq<string>, prose: string)
    | SessionRecord(id: Id, record: Record<Id>)
    | ThreadIndex(session: nat, threads: seq<string>)

  /** One attempt: its number, whether there is a preemption context to cooperate
      with, what inference answers in its k-th call, and which call raises, if
      any does. A call that raises has written nothing. */
  datatype Attempt = Attempt(number: nat, context: bool, answers: map<nat, string>, fault: Option<nat>)

  /** The answer of the k-th inference; an empty one if none is given. */
  function Reply(a: Attempt, k: nat): string {
    if k in a.answers then a.answers[k] else ""
  }

  predicate Raises(a: Attempt, call: nat) {
    a.fault == Some(call)
  }

  // ---- the complete record of a session ----

  function EpisodeFor(a: Attempt, session: nat, i: nat, thread: string, turns: seq<TurnNote>): Write {
    Episode(Id(a.number, i), session, thread, turns, Reply(a, i))
  }

  function Episodes(m: Memory, a: Attempt, k: nat): (ws: seq<Write>)
    requires k <= |NotableThreads(m.notes)|
    ensures |ws| == k
  {
    var threads := NotableThreads(m.notes);
    seq(k, i requires 0 <= i < k => EpisodeFor(a, m.session, i, threads[i], GroupOf(Mentions(m.notes), threads[i])))
  }

  /** What a flush writes, in order. */
  function AllWrites(m: Memory, a: Attempt): (ws: seq<Write>)
    ensures |ws| == |NotableThreads(m.notes)| + 4
  {
    var threads := NotableThreads(m.notes);
    var n := |threads|;
    Episodes(m, a, n) +
    [Cooccurrence(m.session, AllThreads(m.notes), m.artifacts, m.inquiries),
     Handoff(Id(a.number, n), m.session, threads, Reply(a, n)),
     SessionRecord(Id(a.number, n + 1), Compiled(m, Id(a.number, n))),
     ThreadIndex(m.session, AllThreads(m.notes))]
  }

  /** The number of calls before the handoff note is synthesized: an inference and
      a write for each thread, the co-occurrence update, and the cooperation. */
  function Checkpoint(n: nat, a: Attempt): nat {
    2 * n + if a.context then 2 else 1
  }

  /** All the calls of an attempt. */
  function CallCount(n: nat, a: Attempt): nat {
    Checkpoint(n, a) + 4
  }

  /** How many writes an attempt completes for `n` notable threads. */
  function Completed(n: nat, a: Attempt): (k: nat)
    ensures k <= n + 4
  {
    if a.fault.None? then n + 4
    else
      var f := a.fault.value;
      if f < n then 0
      else if f <= 2 * n then f - n
      else if f <= Checkpoint(n, a) + 1 then n + 1
      else if f == Checkpoint(n, a) + 2 then n + 2
      else if f == Checkpoint(n, a) + 3 then n + 3
      else n + 4
  }

  function WritesOf(m: Memory, a: Attempt): seq<Write> {
    AllWrites(m, a)[..Completed(|NotableThreads(m.notes)|, a)]
  }

  /** The attempt raises somewhere. */
  predicate Fails(m: Memory, a: Attempt) {
    a.fault.Some? && a.fault.value < CallCount(|NotableThreads(m.notes)|, a)
  }

  // ---- the steps ----

  class MemoryServer {
    var writes: seq<Write>

    constructor ()
      ensures writes == []
    {
      writes := [];
    }

    method Put(w: Write, raises: bool) returns (ok: bool)
      modifies this
      ensures ok == !raises
      ensures writes == old(writes) + if raises then [] else [w]
    {
      if !raises {
        writes := writes + [w];
      }
      ok := !raises;
    }
  }

  datatype FlushResult = FlushResult(session: nat, record: Id, handoff: Id, episodes: nat)

  /** One inference call for each group; nothing is written. */
  method InferEpisodes(session: nat, keys: seq<string>, groups: map<string, seq<TurnNote>>, a: Attempt)
    returns (episodes: Option<seq<Write>>)
    requires forall i :: 0 <= i < |keys| ==> keys[i] in groups
    ensures episodes.None? <==> a.fault.Some? && a.fault.value < |keys|
    ensures episodes.Some? ==> |episodes.value| == |keys|
    ensures episodes.Some? ==>
              forall i :: 0 <= i < |keys| ==> episodes.value[i] == EpisodeFor(a, session, i, keys[i], groups[keys[i]])
  {
    var compiled: seq<Write> := [];
    for i := 0 to |keys|
      invariant |compiled| == i
      invariant forall j :: 0 <= j < i ==> compiled[j] == EpisodeFor(a, session, j, keys[j], groups[keys[j]])
      invariant a.fault.Some? ==> a.fault.value >= i
    {
      if Raises(a, i) {
        return None;
      }
      compiled := compiled + [EpisodeFor(a, session, i, keys[i], groups[keys[i]])];
    }
    episodes := Some(compiled);
  }

  lemma GroupsAsEpisodes(m: Memory, a: Attempt, keys: seq<string>, groups: map<string, seq<TurnNote>>)
    requires Grouped(Mentions(m.notes), keys, groups)
    ensures keys == NotableThreads(m.notes) && forall i :: 0 <= i < |keys| ==> keys[i] in groups
    ensures forall i :: 0 <= i < |keys| ==>
              Episodes(m, a, |keys|)[i] == EpisodeFor(a, m.session, i, keys[i], groups[keys[i]])
  {
    hide FirstSeen, GroupOf;
    assert forall i :: 0 <= i < |keys| ==> keys[i] in keys;
  }

  /** Compiling the thread episodes. */
  method CompileThreadEpisodes(m: Memory, a: Attempt) returns (episodes: Option<seq<Write>>)
    ensures var n := |NotableThreads(m.notes)|;
            && (episodes.None? <==> a.fault.Some? && a.fault.value < n)
            && (episodes.Some? ==> episodes.value == Episodes(m, a, n))
  {
    var keys, groups := GroupNotableTurns(m.notes);
    GroupsAsEpisodes(m, a, keys, groups);
    hide Grouped, NotableThreads, Episodes, EpisodeFor;
    episodes := InferEpisodes(m.session, keys, groups, a);
  }

  method WriteEpisodes(server: MemoryServer, episodes: seq<Write>, a: Attempt) returns (ok: bool)
    requires a.fault.Some? ==> a.fault.value >= |episodes|
    modifies server
    ensures ok <==> a.fault.None? || a.fault.value >= 2 * |episodes|
    ensures server.writes == old(server.writes) + episodes[..if ok then |episodes| else a.fault.value - |episodes|]
  {
    for i := 0 to |episodes|
      invariant server.writes == old(server.writes) + episodes[..i]
      invariant a.fault.Some? ==> a.fault.value >= |episodes| + i
    {
      var put := server.Put(episodes[i], Raises(a, |episodes| + i));
      if !put {
        return false;
      }
    }
    ok := true;
  }

  function LastThree(m: Memory, a: Attempt): (ws: seq<Write>)
    ensures |ws| == 3
  {
    var threads := NotableThreads(m.notes);
    [Handoff(Id(a.number, |threads|), m.session, threads, Reply(a, |threads|)),
     SessionRecord(Id(a.number, |threads| + 1), Compiled(m, Id(a.number, |threads|))),
     ThreadIndex(m.session, AllThreads(m.notes))]
  }

  lemma LastWrites(m: Memory, a: Attempt)
    requires Completed(|NotableThreads(m.notes)|, a) > |NotableThreads(m.notes)|
    ensures var n := |NotableThreads(m.notes)|;
            WritesOf(m, a)[n + 1..] == LastThree(m, a)[..Completed(n, a) - n - 1]
  {
    hide NotableThreads, AllThreads, Compiled;
  }

  lemma Associates<T>(a: seq<T>, b: seq<T>, x: T, c: seq<T>)
    ensures ((a + b) + [x]) + c == a + (b + [x] + c)
  {
  }

  /** The last three writes, after the inference of the handoff note. */
  method WriteLastThree(server: MemoryServer, handoff: Write, record: Write, index: Write, a: Attempt, call: nat)
    returns (done: nat)
    requires a.fault.Some? ==> a.fault.value >= call
    modifies server
    ensures done <= 3 && server.writes == old(server.writes) + [handoff, record, index][..done]
    ensures done == if a.fault.None? || a.fault.value >= call + 4 then 3
                    else if a.fault.value <= call + 1 then 0
                    else a.fault.value - call - 1
  {
    done := 0;
    if Raises(a, call) {
      return;
    }
    var put := server.Put(handoff, Raises(a, call + 1));
    if !put {
      return;
    }
    done := 1;
    put := server.Put(record, Raises(a, call + 2));
    if !put {
      return;
    }
    done := 2;
    put := server.Put(index, Raises(a, call + 3));
    if !put {
      return;
    }
    done := 3;
  }

  /** The writes of an attempt that stops before, or gets beyond, the checkpoint. */
  lemma WritesSplit(m: Memory, a: Attempt)
    ensures var n := |NotableThreads(m.notes)|;
            var k := Completed(n, a);
            && |WritesOf(m, a)| == k && WritesOf(m, a) <= AllWrites(m, a)
            && (k <= n ==> WritesOf(m, a) == Episodes(m, a, n)[..k])
            && (k > n ==> WritesOf(m, a) == Episodes(m, a, n)
                          + [Cooccurrence(m.session, AllThreads(m.notes), m.artifacts, m.inquiries)]
                          + WritesOf(m, a)[n + 1..])
            && (Fails(m, a) <==> k < n + 4)
            && (WritesOf(m, a) == AllWrites(m, a) <==> k == n + 4)
  {
    hide Compiled, NotableThreads, AllThreads, EpisodeFor;
  }

  function EpisodeThread(w: Write): string {
    if w.Episode? then w.thread else ""
  }

  function EpisodeThreads(episodes: seq<Write>): seq<string> {
    seq(|episodes|, i requires 0 <= i < |episodes| => EpisodeThread(episodes[i]))
  }

  lemma EpisodeThreadsAre(m: Memory, a: Attempt)
    ensures EpisodeThreads(Episodes(m, a, |NotableThreads(m.notes)|)) == NotableThreads(m.notes)
  {
  }

  /** The steps after the checkpoint. */
  method WriteSession(server: MemoryServer, m: Memory, a: Attempt, episodes: seq<Write>, allThreads: seq<string>)
    returns (result: Option<FlushResult>)
    requires episodes == Episodes(m, a, |NotableThreads(m.notes)|) && allThreads == AllThreads(m.notes)
    requires a.fault.Some? ==> a.fault.value >= Checkpoint(|episodes|, a)
    modifies server
    ensures server.writes == old(server.writes) + LastThree(m, a)[..Completed(|episodes|, a) - |episodes| - 1]
    ensures result.Some? <==> Completed(|episodes|, a) == |episodes| + 4
    ensures result.Some? ==> result.value.session == m.session
  {
    EpisodeThreadsAre(m, a);
    var n, threads := |episodes|, EpisodeThreads(episodes);
    var done := WriteLastThree(
      server,
      Handoff(Id(a.number, n), m.session, threads, Reply(a, n)),
      SessionRecord(Id(a.number, n + 1), Compiled(m, Id(a.number, n))),
      ThreadIndex(m.session, allThreads),
      a, Checkpoint(n, a));
    result := if done == 3 then Some(FlushResult(m.session, Id(a.number, n + 1), Id(a.number, n), n)) else None;
  }

  /** The steps up to the thread episodes. */
  method FlushEpisodes(server: MemoryServer, m: Memory, a: Attempt) returns (episodes: Option<seq<Write>>)
    modifies server
    ensures episodes.None? <==> a.fault.Some? && a.fault.value < 2 * |NotableThreads(m.notes)|
    ensures episodes.None? ==> server.writes == old(server.writes) + WritesOf(m, a)
    ensures episodes.Some? ==>
              && episodes.value == Episodes(m, a, |NotableThreads(m.notes)|)
              && server.writes == old(server.writes) + episodes.value
  {
    hide WritesOf, AllWrites, Episodes, NotableThreads, AllThreads;
    WritesSplit(m, a);
    episodes := CompileThreadEpisodes(m, a);
    if episodes.None? {
      return;
    }
    var put := WriteEpisodes(server, episodes.value, a);
    if !put {
      return None;
    }
    assert episodes.value[..|episodes.value|] == episodes.value;
  }

  /** The flush. Its writes are a prefix of the complete record, and it returns a
      result exactly if they are all of it. */
  method Flush(server: MemoryServer, m: Memory, a: Attempt) returns (result: Option<FlushResult>)
    modifies server
    ensures server.writes == old(server.writes) + WritesOf(m, a)
    ensures WritesOf(m, a) <= AllWrites(m, a)
    ensures result.Some? <==> WritesOf(m, a) == AllWrites(m, a)
    ensures result.Some? <==> !Fails(m, a)
    ensures result.Some? ==> result.value.session == m.session
  {
    hide WritesOf, AllWrites, LastThree, Episodes, NotableThreads, AllThreads, Fails;
    WritesSplit(m, a);
    var compiled := FlushEpisodes(server, m, a);
    if compiled.None? {
      return None;
    }
    var episodes := compiled.value;
    var n, allThreads := |episodes|, AllThreads(m.notes);
    var cooccurrence := Cooccurrence(m.session, allThreads, m.artifacts, m.inquiries);
    var put := server.Put(cooccurrence, Raises(a, 2 * n));
    if !put {
      assert episodes[..n] == episodes;
      return None;
    }
    LastWrites(m, a);
    assert LastThree(m, a)[..0] == [];
    Associates(old(server.writes), episodes, cooccurrence, LastThree(m, a)[..Completed(n, a) - n - 1]);
    if a.context {
      if Raises(a, 2 * n + 1) {
        return None;
      }
    }
    result := WriteSession(server, m, a, episodes, allThreads);
  }

  // ---- one attempt ----

  /** A failed attempt leaves nothing behind exactly if one of the inferences or
      the first write raises: the flush is not all-or-nothing. */
  lemma FailsCleanlyIff(m: Memory, a: Attempt)
    requires Fails(m, a)
    ensures WritesOf(m, a) == [] <==> a.fault.value <= |NotableThreads(m.notes)|
  {
  }

  /** A failed attempt never writes the index rows. */
  lemma IndexIsLast(m: Memory, a: Attempt)
    ensures (exists i :: 0 <= i < |WritesOf(m, a)| && WritesOf(m, a)[i].ThreadIndex?) <==> !Fails(m, a)
  {
    var n := |NotableThreads(m.notes)|;
    if !Fails(m, a) {
      assert WritesOf(m, a)[n + 3].ThreadIndex?;
    }
  }

  // ---- attempts over the life of the daemon ----

  datatype Flushing = Flushing(memory: Memory, attempt: Attempt)

  function Stored(fs: seq<Flushing>): seq<Write>
    decreases |fs|
  {
    if fs == [] then []
    else Stored(fs[..|fs| - 1]) + WritesOf(fs[|fs| - 1].memory, fs[|fs| - 1].attempt)
  }

  predicate IsHandoffOf(w: Write, r: Record<Id>, session: nat) {
    w.Handoff? && w.id == r.handoff && w.session == session
  }

  /** A record carries no session: it belongs to that of the handoff note it
      refers to. */
  ghost predicate BelongsTo(ws: seq<Write>, r: Record<Id>, session: nat) {
    exists h :: 0 <= h < |ws| && IsHandoffOf(ws[h], r, session)
  }

  /** The record refers to the handoff note `h`, and `l` has told the co-occurrence
      index of that note's session the threads the record lists. */
  ghost predicate RecordBackedBy(ws: seq<Write>, i: nat, h: nat, l: nat)
    requires i < |ws| && h < i && l < i && ws[i].SessionRecord?
  {
    && ws[h].Handoff? && ws[h].id == ws[i].record.handoff
    && ws[l] == Cooccurrence(ws[h].session, ws[i].record.threads, ws[i].record.artifacts, ws[i].record.inquiries)
  }

  /** The index rows list the threads of record `j`, which belongs to their session
      by the handoff note `h`. */
  ghost predicate IndexBackedBy(ws: seq<Write>, i: nat, j: nat, h: nat)
    requires i < |ws| && j < i && h < i && ws[i].ThreadIndex?
  {
    ws[j].SessionRecord? && ws[j].record.threads == ws[i].threads && IsHandoffOf(ws[h], ws[j].record, ws[i].session)
  }

  ghost predicate BackedAt(ws: seq<Write>, i: nat)
    requires i < |ws|
  {
    && (ws[i].SessionRecord? ==> exists h, l :: 0 <= h < i && 0 <= l < i && RecordBackedBy(ws, i, h, l))
    && (ws[i].ThreadIndex? ==> exists j, h :: 0 <= j < i && 0 <= h < i && IndexBackedBy(ws, i, j, h))
  }

  ghost predicate Backed(ws: seq<Write>) {
    forall i :: 0 <= i < |ws| ==> BackedAt(ws, i)
  }

  lemma AttemptBacked(m: Memory, a: Attempt)
    ensures Backed(WritesOf(m, a))
  {
    hide NotableThreads, AllThreads;
    var ws, n := WritesOf(m, a), |NotableThreads(m.notes)|;
    forall i | 0 <= i < |ws| ensures BackedAt(ws, i) {
      if ws[i].SessionRecord? {
        assert i == n + 2 && RecordBackedBy(ws, i, n + 1, n);
      }
      if ws[i].ThreadIndex? {
        assert i == n + 3 && IndexBackedBy(ws, i, n + 2, n + 1);
      }
    }
  }

  lemma RecordShifts(a: seq<Write>, b: seq<Write>, i: nat, h: nat, l: nat)
    requires i < |b| && h < i && l < i && b[i].SessionRecord? && RecordBackedBy(b, i, h, l)
    ensures RecordBackedBy(a + b, |a| + i, |a| + h, |a| + l)
  {
  }

  lemma IndexShifts(a: seq<Write>, b: seq<Write>, i: nat, j: nat, h: nat)
    requires i < |b| && j < i && h < i && b[i].ThreadIndex? && IndexBackedBy(b, i, j, h)
    ensures IndexBackedBy(a + b, |a| + i, |a| + j, |a| + h)
  {
  }

  lemma SuffixBacked(a: seq<Write>, b: seq<Write>, i: nat)
    requires Backed(b) && i < |b|
    ensures BackedAt(a + b, |a| + i)
  {
    hide RecordBackedBy, IndexBackedBy;
    assert BackedAt(b, i) && (a + b)[|a| + i] == b[i];
    if b[i].SessionRecord? {
      var h, l :| 0 <= h < i && 0 <= l < i && RecordBackedBy(b, i, h, l);
      RecordShifts(a, b, i, h, l);
    }
    if b[i].ThreadIndex? {
      var j, h :| 0 <= j < i && 0 <= h < i && IndexBackedBy(b, i, j, h);
      IndexShifts(a, b, i, j, h);
    }
  }

  lemma PrefixBacked(a: seq<Write>, b: seq<Write>, i: nat)
    requires Backed(a) && i < |a|
    ensures BackedAt(a + b, i)
  {
    var ws := a + b;
    assert BackedAt(a, i);
    assert forall j :: 0 <= j < |a| ==> ws[j] == a[j];
    if a[i].SessionRecord? {
      var h, l :| 0 <= h < i && 0 <= l < i && RecordBackedBy(a, i, h, l);
      assert RecordBackedBy(ws, i, h, l);
    }
    if a[i].ThreadIndex? {
      var j, h :| 0 <= j < i && 0 <= h < i && IndexBackedBy(a, i, j, h);
      assert IndexBackedBy(ws, i, j, h);
    }
  }

  lemma BackedAppends(a: seq<Write>, b: seq<Write>)
    requires Backed(a) && Backed(b)
    ensures Backed(a + b)
  {
    hide BackedAt;
    forall i | 0 <= i < |a + b| ensures BackedAt(a + b, i) {
      if i < |a| {
        PrefixBacked(a, b, i);
      } else {
        SuffixBacked(a, b, i - |a|);
      }
    }
  }

  /** Whatever fails in whatever attempts: no record points to a missing handoff
      note or lists threads the co-occurrence index was not given, and no index
      rows come without a record of the same threads. */
  lemma {:induction false} StoreAlwaysBacked(fs: seq<Flushing>)
    ensures Backed(Stored(fs))
    decreases |fs|
  {
    if fs == [] {
    } else {
      var f := fs[|fs| - 1];
      StoreAlwaysBacked(fs[..|fs| - 1]);
      AttemptBacked(f.memory, f.attempt);
      BackedAppends(Stored(fs[..|fs| - 1]), WritesOf(f.memory, f.attempt));
    }
  }

  /** What an attempt writes stays stored. */
  lemma {:induction false} AttemptStaysStored(fs: seq<Flushing>, k: nat, w: Write)
    requires k < |fs| && w in WritesOf(fs[k].memory, fs[k].attempt)
    ensures w in Stored(fs)
    decreases |fs|
  {
    hide WritesOf;
    if k == |fs| - 1 {
    } else {
      AttemptStaysStored(fs[..|fs| - 1], k, w);
    }
  }

  /** A complete flush stores, for every turn of its snapshot, a record of the
      session with the turn in its arc, and the index rows of the session. */
  lemma CompleteFlushRecords(m: Memory, a: Attempt, note: TurnNote)
    requires !Fails(m, a) && note in m.notes
    ensures var n := |NotableThreads(m.notes)|;
            var record := Compiled(m, Id(a.number, n));
            && SessionRecord(Id(a.number, n + 1), record) in WritesOf(m, a)
            && Handoff(Id(a.number, n), m.session, NotableThreads(m.notes), Reply(a, n)) in WritesOf(m, a)
            && ArcEntry(note.number, note.register, note.corrected) in record.arc
            && ThreadIndex(m.session, AllThreads(m.notes)) in WritesOf(m, a)
  {
    hide NotableThreads, AllThreads;
    var n := |NotableThreads(m.notes)|;
    var ws := WritesOf(m, a);
    assert ws[n + 1].Handoff? && ws[n + 2].SessionRecord? && ws[n + 3].ThreadIndex?;
    var i :| 0 <= i < |m.notes| && m.notes[i] == note;
    assert Arc(m.notes)[i] == ArcEntry(note.number, note.register, note.corrected);
  }

  // ---- which session a record belongs to ----

  /** Attempts are numbered as they come: no two generate the same id. */
  ghost predicate Numbered(fs: seq<Flushing>) {
    forall k :: 0 <= k < |fs| ==> fs[k].attempt.number == k
  }

  /** Handoff notes, and the notes records refer to, were generated in the attempt
      that wrote them. */
  lemma AttemptIds(m: Memory, a: Attempt)
    ensures forall w :: w in WritesOf(m, a) ==>
              && (w.Handoff? ==> w.id.attempt == a.number && w.session == m.session)
              && (w.SessionRecord? ==> w.record.handoff.attempt == a.number)
  {
    hide NotableThreads, AllThreads;
    forall w | w in WritesOf(m, a)
      ensures w.Handoff? ==> w.id.attempt == a.number && w.session == m.session
      ensures w.SessionRecord? ==> w.record.handoff.attempt == a.number
    {
      var i :| 0 <= i < |WritesOf(m, a)| && WritesOf(m, a)[i] == w;
    }
  }

  /** The same over all attempts: the number in an id tells whose it is. */
  ghost predicate FromAttempts(ws: seq<Write>, fs: seq<Flushing>) {
    forall w :: w in ws ==>
      && (w.Handoff? ==> w.id.attempt < |fs| && w.session == fs[w.id.attempt].memory.session)
      && (w.SessionRecord? ==> w.record.handoff.attempt < |fs|)
  }

  lemma {:induction false} StoredFromAttempts(fs: seq<Flushing>)
    requires Numbered(fs)
    ensures FromAttempts(Stored(fs), fs)
    decreases |fs|
  {
    hide WritesOf;
    if fs == [] {
    } else {
      var init, f := fs[..|fs| - 1], fs[|fs| - 1];
      StoredFromAttempts(init);
      AttemptIds(f.memory, f.attempt);
    }
  }

  /** Every stored record belongs to one session: that of the attempt its handoff
      note was generated in. */
  lemma BelongsToOne(fs: seq<Flushing>, i: nat, session: nat)
    requires Numbered(fs) && i < |Stored(fs)| && Stored(fs)[i].SessionRecord?
    ensures var r := Stored(fs)[i].record;
            r.handoff.attempt < |fs|
            && (BelongsTo(Stored(fs), r, session) <==> fs[r.handoff.attempt].memory.session == session)
  {
    hide Stored;
    var ws := Stored(fs);
    StoredFromAttempts(fs);
    StoreAlwaysBacked(fs);
    assert ws[i] in ws && BackedAt(ws, i);
    var h, l :| 0 <= h < i && 0 <= l < i && RecordBackedBy(ws, i, h, l);
    assert ws[h] in ws;
    if fs[ws[i].record.handoff.attempt].memory.session == session {
      assert IsHandoffOf(ws[h], ws[i].record, session);
    }
    if BelongsTo(ws, ws[i].record, session) {
      var g :| 0 <= g < |ws| && IsHandoffOf(ws[g], ws[i].record, session);
      assert ws[g] in ws;
    }
  }

  // ---- how often a session is recorded ----

  /** How many of the first `n` writes are records that belong to the session. */
  ghost function RecordCount(ws: seq<Write>, n: nat, session: nat): nat
    requires n <= |ws|
  {
    if n == 0 then 0
    else
      RecordCount(ws, n - 1, session)
      + if ws[n - 1].SessionRecord? && BelongsTo(ws, ws[n - 1].record, session) then 1 else 0
  }

  /** All of them. */
  ghost function Records(ws: seq<Write>, session: nat): nat {
    RecordCount(ws, |ws|, session)
  }

  /** The attempt raises in its very last call, after the record is written. */
  predicate FailsAtIndex(m: Memory, a: Attempt) {
    a.fault == Some(Checkpoint(|NotableThreads(m.notes)|, a) + 3)
  }

  predicate WritesRecord(f: Flushing) {
    !Fails(f.memory, f.attempt) || FailsAtIndex(f.memory, f.attempt)
  }

  /** How many attempts of the session wrote their record: those that completed,
      and those that failed at the index only. */
  function RecordingAttempts(fs: seq<Flushing>, session: nat): nat
    decreases |fs|
  {
    if fs == [] then 0
    else
      var f := fs[|fs| - 1];
      RecordingAttempts(fs[..|fs| - 1], session) + if f.memory.session == session && WritesRecord(f) then 1 else 0
  }

  /** The same count of records, by the attempt in the id. */
  function CountByAttempt(ws: seq<Write>, fs: seq<Flushing>, session: nat): nat
    decreases |ws|
  {
    if ws == [] then 0
    else
      var w := ws[|ws| - 1];
      CountByAttempt(ws[..|ws| - 1], fs, session)
      + if w.SessionRecord? && w.record.handoff.attempt < |fs|
           && fs[w.record.handoff.attempt].memory.session == session then 1 else 0
  }

  lemma {:induction false} CountsAgree(fs: seq<Flushing>, n: nat, session: nat)
    requires Numbered(fs) && n <= |Stored(fs)|
    ensures RecordCount(Stored(fs), n, session) == CountByAttempt(Stored(fs)[..n], fs, session)
    decreases n
  {
    hide Stored, BelongsTo;
    if n == 0 {
    } else {
      CountsAgree(fs, n - 1, session);
      assert Stored(fs)[..n][..n - 1] == Stored(fs)[..n - 1];
      if Stored(fs)[n - 1].SessionRecord? {
        BelongsToOne(fs, n - 1, session);
      }
    }
  }

  lemma {:induction false} CountAppends(a: seq<Write>, b: seq<Write>, fs: seq<Flushing>, session: nat)
    ensures CountByAttempt(a + b, fs, session) == CountByAttempt(a, fs, session) + CountByAttempt(b, fs, session)
    decreases |b|
  {
    if b == [] {
      assert a + b == a;
    } else {
      assert (a + b)[..|a + b| - 1] == a + b[..|b| - 1];
      CountAppends(a, b[..|b| - 1], fs, session);
    }
  }

  /** Later attempts do not change what an id says. */
  lemma {:induction false} CountStays(ws: seq<Write>, init: seq<Flushing>, f: Flushing, session: nat)
    requires FromAttempts(ws, init)
    ensures CountByAttempt(ws, init + [f], session) == CountByAttempt(ws, init, session)
    decreases |ws|
  {
    if ws == [] {
    } else {
      var rest, w := ws[..|ws| - 1], ws[|ws| - 1];
      assert w in ws && forall x :: x in rest ==> x in ws;
      CountStays(rest, init, f, session);
    }
  }

  lemma {:induction false} NoneCounted(ws: seq<Write>, fs: seq<Flushing>, session: nat)
    requires forall i :: 0 <= i < |ws| ==> !ws[i].SessionRecord?
    ensures CountByAttempt(ws, fs, session) == 0
    decreases |ws|
  {
    if ws == [] {
    } else {
      NoneCounted(ws[..|ws| - 1], fs, session);
    }
  }

  lemma OneCounted(before: seq<Write>, w: Write, after: seq<Write>, fs: seq<Flushing>, session: nat)
    requires forall i :: 0 <= i < |before| ==> !before[i].SessionRecord?
    requires forall i :: 0 <= i < |after| ==> !after[i].SessionRecord?
    requires w.SessionRecord? && w.record.handoff.attempt < |fs|
    ensures CountByAttempt(before + [w] + after, fs, session)
            == if fs[w.record.handoff.attempt].memory.session == session then 1 else 0
  {
    NoneCounted(before, fs, session);
    NoneCounted(after, fs, session);
    CountAppends(before + [w], after, fs, session);
    assert (before + [w])[..|before|] == before;
  }

  lemma OnlyThatIsRecord(m: Memory, a: Attempt)
    ensures var ws, n := WritesOf(m, a), |NotableThreads(m.notes)|;
            && (forall i :: 0 <= i < |ws| ==> (ws[i].SessionRecord? <==> i == n + 2))
            && (|ws| > n + 2 ==> ws[n + 2].record.handoff.attempt == a.number)
  {
    hide NotableThreads, AllThreads;
  }

  lemma AttemptCounted(f: Flushing, fs: seq<Flushing>, session: nat)
    requires f.attempt.number < |fs| && fs[f.attempt.number] == f
    ensures CountByAttempt(WritesOf(f.memory, f.attempt), fs, session)
            == if f.memory.session == session && WritesRecord(f) then 1 else 0
  {
    hide WritesOf, AllWrites, NotableThreads, AllThreads, CountByAttempt;
    var ws, n := WritesOf(f.memory, f.attempt), |NotableThreads(f.memory.notes)|;
    OnlyThatIsRecord(f.memory, f.attempt);
    WritesSplit(f.memory, f.attempt);
    if |ws| <= n + 2 {
      NoneCounted(ws, fs, session);
    } else {
      OneCounted(ws[..n + 2], ws[n + 2], ws[n + 3..], fs, session);
      assert ws == ws[..n + 2] + [ws[n + 2]] + ws[n + 3..];
    }
  }

  lemma NothingCounted(session: nat)
    ensures CountByAttempt(Stored([]), [], session) == 0 == RecordingAttempts([], session)
  {
  }

  lemma {:induction false} StoredCounted(fs: seq<Flushing>, session: nat)
    requires Numbered(fs)
    ensures CountByAttempt(Stored(fs), fs, session) == RecordingAttempts(fs, session)
    decreases |fs|
  {
    hide WritesOf, CountByAttempt, WritesRecord;
    if fs == [] {
      NothingCounted(session);
    } else {
      var init, f := fs[..|fs| - 1], fs[|fs| - 1];
      assert fs == init + [f];
      StoredCounted(init, session);
      StoredFromAttempts(init);
      CountStays(Stored(init), init, f, session);
      CountAppends(Stored(init), WritesOf(f.memory, f.attempt), fs, session);
      AttemptCounted(f, fs, session);
    }
  }

  /** Whatever snapshots are flushed and whatever fails: the records stored of a
      session are as many as its attempts that completed or failed at the index
      only. */
  lemma RecordsAreAttempts(fs: seq<Flushing>, session: nat)
    requires Numbered(fs)
    ensures Records(Stored(fs), session) == RecordingAttempts(fs, session)
  {
    hide Stored, RecordCount, CountByAttempt;
    CountsAgree(fs, |Stored(fs)|, session);
    assert Stored(fs)[..|Stored(fs)|] == Stored(fs);
    StoredCounted(fs, session);
  }

  /** No two attempts complete for the same session. */
  ghost predicate CompleteOnce(fs: seq<Flushing>) {
    forall i, j :: 0 <= i < j < |fs| && !Fails(fs[i].memory, fs[i].attempt) && !Fails(fs[j].memory, fs[j].attempt)
      ==> fs[i].memory.session != fs[j].memory.session
  }

  predicate SomeCompletes(fs: seq<Flushing>, session: nat)
    decreases |fs|
  {
    fs != [] &&
    (|| SomeCompletes(fs[..|fs| - 1], session)
     || (fs[|fs| - 1].memory.session == session && !Fails(fs[|fs| - 1].memory, fs[|fs| - 1].attempt)))
  }

  /** An attempt of the session failed at the index only. */
  predicate SomeFailsAtIndex(fs: seq<Flushing>, session: nat)
    decreases |fs|
  {
    fs != [] &&
    (|| SomeFailsAtIndex(fs[..|fs| - 1], session)
     || (fs[|fs| - 1].memory.session == session && FailsAtIndex(fs[|fs| - 1].memory, fs[|fs| - 1].attempt)))
  }

  lemma {:induction false} CompletesWitness(fs: seq<Flushing>, session: nat) returns (k: nat)
    requires SomeCompletes(fs, session)
    ensures k < |fs| && fs[k].memory.session == session && !Fails(fs[k].memory, fs[k].attempt)
    decreases |fs|
  {
    hide Fails;
    if SomeCompletes(fs[..|fs| - 1], session) {
      k := CompletesWitness(fs[..|fs| - 1], session);
    } else {
      k := |fs| - 1;
    }
  }

  lemma IndexFailureFails(m: Memory, a: Attempt)
    ensures FailsAtIndex(m, a) ==> Fails(m, a)
  {
    hide NotableThreads;
  }

  lemma {:induction false} AttemptsSplit(fs: seq<Flushing>, session: nat)
    requires CompleteOnce(fs)
    ensures RecordingAttempts(fs, session) >= (if SomeCompletes(fs, session) then 1 else 0)
                                              + if SomeFailsAtIndex(fs, session) then 1 else 0
    ensures !SomeFailsAtIndex(fs, session) ==>
              RecordingAttempts(fs, session) == if SomeCompletes(fs, session) then 1 else 0
    decreases |fs|
  {
    if fs == [] {
    } else {
      var init, f := fs[..|fs| - 1], fs[|fs| - 1];
      AttemptsSplit(init, session);
      IndexFailureFails(f.memory, f.attempt);
      hide Fails, FailsAtIndex;
      if SomeCompletes(init, session) {
        var k := CompletesWitness(init, session);
        assert fs[k] == init[k];
      }
    }
  }

  /** An episode is stored by some attempt. */
  lemma {:induction false} StoredOrigin(fs: seq<Flushing>, w: Write) returns (k: nat)
    requires w in Stored(fs)
    ensures k < |fs| && w in WritesOf(fs[k].memory, fs[k].attempt)
    decreases |fs|
  {
    hide WritesOf;
    if w in Stored(fs[..|fs| - 1]) {
      k := StoredOrigin(fs[..|fs| - 1], w);
    } else {
      k := |fs| - 1;
    }
  }

  /** When no turn lists a thread twice, every episode an attempt writes is of a
      thread with a notable turn, and holds exactly its notable turns. */
  lemma EpisodesHoldTurns(m: Memory, a: Attempt, w: Write)
    requires ThreadsDistinct(m.notes) && w in WritesOf(m, a) && w.Episode?
    ensures w.session == m.session && w.turns == TurnsOf(m.notes, w.thread) && w.turns != []
  {
    hide AllThreads, GroupOf, TurnsOf, Mentions, ThreadsDistinct, NotableThreads;
    var threads := NotableThreads(m.notes);
    var i :| 0 <= i < |WritesOf(m, a)| && WritesOf(m, a)[i] == w;
    assert i < |threads| && w.thread == threads[i];
    assert w.thread in threads;
    GroupIsTurns(m.notes, w.thread);
    EpisodeIffNotableTurn(m.notes, w.thread);
  }
}
