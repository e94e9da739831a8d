/** The versioned document store: the current file, one archive file per version,
    and the forced reseed that deletes the current file. */
module DaemonSelf {
  import opened Prelude

  /** `stamp` is the moment of writing: no two writes share one. */
  datatype Doc = Doc(version: nat, text: string, stamp: nat)

  /** The current file, and the archive files by the number in their name. */
  datatype Store = Store(current: Option<Doc>, archive: map<nat, Doc>, clock: nat)

  /** A write may fail at its last step, replacing the current file. A reseed
      deletes the current file without archiving it. */
  datatype Op = Write(text: string, fails: bool) | Reseed

  const EMPTY := Store(None, map[], 0)

  function NextDoc(s: Store, text: string): Doc {
    Doc(if s.current.None? then 1 else s.current.value.version + 1, text, s.clock)
  }

  /** An archive file that is already there is never replaced. */
  function Archived(s: Store): map<nat, Doc> {
    if s.current.Some? && s.current.value.version !in s.archive
    then s.archive[s.current.value.version := s.current.value]
    else s.archive
  }

  function Apply(s: Store, op: Op): Store {
    match op
    case Write(text, fails) =>
      Store(if fails then s.current else Some(NextDoc(s, text)), Archived(s), s.clock + 1)
    case Reseed => s.(current := None)
  }

  function After(ops: seq<Op>): Store
    decreases |ops|
  {
    if ops == [] then EMPTY else Apply(After(ops[..|ops| - 1]), ops[|ops| - 1])
  }

  /** The documents the writes of a run returned, in order. */
  function Written(ops: seq<Op>): seq<Doc>
    decreases |ops|
  {
    if ops == [] then []
    else
      var init, op := ops[..|ops| - 1], ops[|ops| - 1];
      Written(init) + if op.Write? && !op.fails then [NextDoc(After(init), op.text)] else []
  }

  // ---- the archive ----

  /** The archived documents numbered 1 to `n`, in that order. */
  function UpTo(archive: map<nat, Doc>, n: nat): seq<Doc> {
    if n == 0 then [] else UpTo(archive, n - 1) + if n in archive then [archive[n]] else []
  }

  /** All archived versions in ascending order; no number exceeds that of the
      writes so far. */
  function History(s: Store): seq<Doc> {
    UpTo(s.archive, s.clock)
  }

  ghost predicate Numbered(s: Store) {
    && (s.current.Some? ==> 1 <= s.current.value.version <= s.clock)
    && forall k :: k in s.archive ==> 1 <= k <= s.clock && s.archive[k].version == k
  }

  lemma {:induction false} NumbersHold(ops: seq<Op>)
    ensures Numbered(After(ops))
    decreases |ops|
  {
    if ops == [] {
    } else {
      NumbersHold(ops[..|ops| - 1]);
    }
  }

  /** Over any run, failing writes and forced reseeds included, no archived version
      ever changes. */
  lemma {:induction false} ArchiveNeverChanges(ops: seq<Op>, k: nat)
    requires k <= |ops|
    ensures forall v :: v in After(ops[..k]).archive ==>
              v in After(ops).archive && After(ops).archive[v] == After(ops[..k]).archive[v]
    decreases |ops|
  {
    if k < |ops| {
      assert ops[..|ops| - 1][..k] == ops[..k];
      ArchiveNeverChanges(ops[..|ops| - 1], k);
    } else {
      assert ops[..k] == ops;
    }
  }

  lemma {:induction false} UpToLists(archive: map<nat, Doc>, n: nat)
    requires forall k :: k in archive ==> 1 <= k && archive[k].version == k
    ensures var h := UpTo(archive, n);
            && (forall i, j :: 0 <= i < j < |h| ==> h[i].version < h[j].version)
            && forall d :: d in h <==> d.version in archive && archive[d.version] == d && d.version <= n
  {
    if n == 0 {
    } else {
      UpToLists(archive, n - 1);
      var init := UpTo(archive, n - 1);
      forall i | 0 <= i < |init| ensures init[i].version < n {
        assert init[i] in init;
      }
    }
  }

  /** The history lists exactly the archived documents, in ascending order. */
  lemma HistoryListsArchive(ops: seq<Op>)
    ensures var h := History(After(ops));
            && (forall i, j :: 0 <= i < j < |h| ==> h[i].version < h[j].version)
            && forall d :: d in h <==> d.version in After(ops).archive && After(ops).archive[d.version] == d
  {
    NumbersHold(ops);
    UpToLists(After(ops).archive, After(ops).clock);
  }

  // ---- without reseeds ----

  ghost predicate NoReseed(ops: seq<Op>) {
    forall i :: 0 <= i < |ops| ==> ops[i].Write?
  }

  /** The archive holds every written version but the last, and perhaps already
      the last, each under its own number. */
  ghost predicate Complete(s: Store, written: seq<Doc>) {
    && (s.current == if written == [] then None else Some(written[|written| - 1]))
    && (forall i :: 0 <= i < |written| ==> written[i].version == i + 1)
    && (forall v :: 1 <= v < |written| ==> v in s.archive)
    && forall v :: v in s.archive ==> 1 <= v <= |written| && s.archive[v] == written[v - 1]
  }

  lemma CompleteStep(s: Store, written: seq<Doc>, op: Op)
    requires Complete(s, written) && op.Write?
    ensures Complete(Apply(s, op), written + if op.fails then [] else [NextDoc(s, op.text)])
  {
  }

  lemma {:induction false} NumberedOneByOne(ops: seq<Op>)
    requires NoReseed(ops)
    ensures Complete(After(ops), Written(ops))
    decreases |ops|
  {
    if ops == [] {
    } else {
      var init := ops[..|ops| - 1];
      NumberedOneByOne(init);
      assert ops[|ops| - 1].Write?;
      CompleteStep(After(init), Written(init), ops[|ops| - 1]);
    }
  }

  ghost predicate NoFailure(ops: seq<Op>) {
    forall i :: 0 <= i < |ops| ==> ops[i].Write? && !ops[i].fails
  }

  lemma {:induction false} OnlyOlder(ops: seq<Op>)
    requires NoFailure(ops)
    ensures |Written(ops)| == |ops| == After(ops).clock
    ensures forall v :: v in After(ops).archive <==> 1 <= v < |ops|
    decreases |ops|
  {
    if ops == [] {
    } else {
      OnlyOlder(ops[..|ops| - 1]);
      NumberedOneByOne(ops[..|ops| - 1]);
    }
  }

  lemma {:induction false} UpToIsPrefix(archive: map<nat, Doc>, written: seq<Doc>, n: nat)
    requires forall v :: v in archive ==> 1 <= v <= |written| && archive[v] == written[v - 1]
    requires n <= |written| && forall v :: 1 <= v <= n ==> v in archive
    ensures UpTo(archive, n) == written[..n]
  {
    if n == 0 {
    } else {
      UpToIsPrefix(archive, written, n - 1);
      assert n in archive;
    }
  }

  /** After n writes the current version is number n and the history is exactly the
      versions written before it, in order. */
  lemma HistoryIsEveryOlderVersion(ops: seq<Op>)
    requires NoFailure(ops) && ops != []
    ensures var written, n := Written(ops), |ops|;
            && |written| == n
            && After(ops).current == Some(written[n - 1])
            && written[n - 1].version == n
            && History(After(ops)) == written[..n - 1]
  {
    hide After, Written;
    NumberedOneByOne(ops);
    OnlyOlder(ops);
    UpToIsPrefix(After(ops).archive, Written(ops), |ops| - 1);
    assert |ops| !in After(ops).archive;
  }

  /** The texts given to the writes that succeeded, in order. */
  function TextsGiven(ops: seq<Op>): seq<string>
    decreases |ops|
  {
    if ops == [] then []
    else TextsGiven(ops[..|ops| - 1])
         + if ops[|ops| - 1].Write? && !ops[|ops| - 1].fails then [ops[|ops| - 1].text] else []
  }

  /** Over any run the documents written hold the texts given, and the current one,
      if there is one, is the last of them. */
  lemma {:induction false} TextsKept(ops: seq<Op>)
    ensures |Written(ops)| == |TextsGiven(ops)|
    ensures forall i :: 0 <= i < |Written(ops)| ==> Written(ops)[i].text == TextsGiven(ops)[i]
    ensures After(ops).current.Some? ==>
              Written(ops) != [] && After(ops).current.value == Written(ops)[|Written(ops)| - 1]
    decreases |ops|
  {
    if ops == [] {
    } else {
      TextsKept(ops[..|ops| - 1]);
    }
  }

  // ---- what a reseed can lose ----

  /** The document is still to be found. */
  ghost predicate Available(s: Store, d: Doc) {
    s.current == Some(d) || (d.version in s.archive && s.archive[d.version] == d)
  }

  /** The operation drops the current document for good: a reseed unless it is
      archived, a write if another document has its number in the archive. */
  predicate Loses(s: Store, op: Op) {
    && s.current.Some?
    && var v := s.current.value.version;
       match op
       case Write(_, fails) => !fails && v in s.archive && s.archive[v] != s.current.value
       case Reseed => v !in s.archive || s.archive[v] != s.current.value
  }

  predicate LosesSomewhere(ops: seq<Op>)
    decreases |ops|
  {
    ops != [] && (LosesSomewhere(ops[..|ops| - 1]) || Loses(After(ops[..|ops| - 1]), ops[|ops| - 1]))
  }

  ghost predicate AllAvailable(s: Store, written: seq<Doc>) {
    forall i :: 0 <= i < |written| ==> Available(s, written[i])
  }

  /** Documents stem from writes of the past. */
  ghost predicate FromThePast(s: Store, written: seq<Doc>) {
    && (s.current.Some? ==> s.current.value in written)
    && (forall d :: d in written ==> d.stamp < s.clock)
  }

  lemma {:induction false} PastHolds(ops: seq<Op>)
    ensures FromThePast(After(ops), Written(ops))
    decreases |ops|
  {
    if ops == [] {
    } else {
      PastHolds(ops[..|ops| - 1]);
    }
  }

  /** Once lost, a document does not come back. */
  lemma LostStaysLost(s: Store, op: Op, d: Doc)
    requires d.stamp < s.clock && !Available(s, d)
    ensures !Available(Apply(s, op), d)
  {
  }

  lemma LossStep(s: Store, op: Op, written: seq<Doc>)
    requires AllAvailable(s, written) && FromThePast(s, written)
    ensures AllAvailable(Apply(s, op), written) <==> !Loses(s, op)
  {
    if Loses(s, op) {
      var i :| 0 <= i < |written| && written[i] == s.current.value;
      assert !Available(Apply(s, op), written[i]);
    } else {
      forall i | 0 <= i < |written| ensures Available(Apply(s, op), written[i]) {
      }
    }
  }

  lemma AppendAvailable(s: Store, written: seq<Doc>, more: seq<Doc>)
    ensures AllAvailable(s, written + more) <==> AllAvailable(s, written) && AllAvailable(s, more)
  {
    var all := written + more;
    if AllAvailable(s, all) {
      forall i | 0 <= i < |written| ensures Available(s, written[i]) { assert all[i] == written[i]; }
      forall i | 0 <= i < |more| ensures Available(s, more[i]) { assert all[|written| + i] == more[i]; }
    }
  }

  /** Everything ever written is current or archived exactly if no step of the run
      dropped a current document: a reseed before it was archived, or a write
      over a number taken before the reseed. */
  lemma {:induction false} NothingLostIff(ops: seq<Op>)
    ensures AllAvailable(After(ops), Written(ops)) <==> !LosesSomewhere(ops)
    decreases |ops|
  {
    if ops == [] {
    } else {
      var init, op := ops[..|ops| - 1], ops[|ops| - 1];
      var s, written := After(init), Written(init);
      NothingLostIff(init);
      PastHolds(init);
      var more := if op.Write? && !op.fails then [NextDoc(s, op.text)] else [];
      AppendAvailable(Apply(s, op), written, more);
      assert AllAvailable(Apply(s, op), more);
      if LosesSomewhere(init) {
        var i :| 0 <= i < |written| && !Available(s, written[i]);
        LostStaysLost(s, op, written[i]);
      } else {
        LossStep(s, op, written);
      }
    }
  }

  // ---- the object ----

  class DaemonSelfStore {
    var current: Option<Doc>
    var archive: map<nat, Doc>
    var clock: nat

    ghost function Value(): Store
      reads this
    {
      Store(current, archive, clock)
    }

    constructor ()
      ensures Value() == EMPTY
    {
      current, archive, clock := None, map[], 0;
    }

    method WriteVersion(text: string, fails: bool) returns (r: Option<Doc>)
      modifies this
      ensures Value() == Apply(old(Value()), Write(text, fails))
      ensures r == if fails then None else Some(NextDoc(old(Value()), text))
    {
      var nextVersion := if current.None? then 1 else current.value.version + 1;
      var ds := Doc(nextVersion, text, clock);
      clock := clock + 1;
      if current.Some? {
        if current.value.version !in archive {
          archive := archive[current.value.version := current.value];
        }
      }
      if fails {
        return None;
      }
      current := Some(ds);
      r := Some(ds);
    }

    method ForceReseed()
      modifies this
      ensures Value() == Apply(old(Value()), Reseed)
    {
      if current.Some? {
        current := None;
      }
    }
  }
}
