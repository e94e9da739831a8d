/** Register inference: structural signals, the prior from past corrections, the
    winning register with its confidence, and the correction pathway. */
module Registers {
  import opened Prelude

  /** A register is a string: one of the four valid ones, or any other. */
  datatype Register = Urgent | Reflective | Exploratory | Casual | Other(name: string)

  const ORDER := [Urgent, Reflective, Exploratory, Casual]

  predicate ValidRegister(r: Register) {
    !r.Other?
  }

  function Name(r: Register): string {
    match r
    case Urgent => "urgent"
    case Reflective => "reflective"
    case Exploratory => "exploratory"
    case Casual => "casual"
    case Other(name) => name
  }

  type Scores = map<Register, real>

  ghost predicate OverRegisters(s: Scores) {
    forall r :: r in s <==> ValidRegister(r)
  }

  datatype Correction = Correction(inferred: Register, corrected: Register)

  const HISTORY_WEIGHT := 0.15

  // ---- the prior from past corrections ----

  function Recent(history: seq<Correction>): (r: seq<Correction>)
    ensures |r| <= 20
  {
    if |history| <= 20 then history else history[|history| - 20..]
  }

  /** How many corrections lead to `r`. */
  function To(cs: seq<Correction>, r: Register): (n: nat)
    ensures n <= |cs|
  {
    if cs == [] then 0
    else To(cs[..|cs| - 1], r) + if cs[|cs| - 1].corrected == r then 1 else 0
  }

  /** How many corrections lead away from `r`. */
  function From(cs: seq<Correction>, r: Register): (n: nat)
    ensures n <= |cs|
  {
    if cs == [] then 0
    else From(cs[..|cs| - 1], r) + if cs[|cs| - 1].inferred == r then 1 else 0
  }

  /** Every score moves by 0.15 for each recent correction to the register less
      those away from it. */
  function Adjusted(base: Scores, history: seq<Correction>): Scores {
    map r | r in base :: base[r] + HISTORY_WEIGHT * (To(Recent(history), r) - From(Recent(history), r)) as real
  }

  /** What one correction adds to the score of `r`. */
  function Step(c: Correction, r: Register): real {
    (if c.corrected == r then HISTORY_WEIGHT else 0.0) - if c.inferred == r then HISTORY_WEIGHT else 0.0
  }

  function Shift(cs: seq<Correction>, r: Register): real {
    if cs == [] then 0.0 else Shift(cs[..|cs| - 1], r) + Step(cs[|cs| - 1], r)
  }

  lemma {:induction false} ShiftCounts(cs: seq<Correction>, r: Register)
    ensures Shift(cs, r) == HISTORY_WEIGHT * (To(cs, r) - From(cs, r)) as real
  {
    if cs == [] {
    } else {
      ShiftCounts(cs[..|cs| - 1], r);
    }
  }

  method ApplyHistoryPrior(base: Scores, history: seq<Correction>) returns (scores: Scores)
    ensures scores == Adjusted(base, history)
  {
    if history == [] {
      return base;
    }
    var recent := Recent(history);
    scores := base;
    for i := 0 to |recent|
      invariant forall r :: r in scores <==> r in base
      invariant forall r :: r in base ==> scores[r] == base[r] + Shift(recent[..i], r)
    {
      var entry := recent[i];
      assert recent[..i + 1][..i] == recent[..i];
      ghost var before := scores;
      if entry.inferred in scores {
        scores := scores[entry.inferred := scores[entry.inferred] - HISTORY_WEIGHT];
      }
      if entry.corrected in scores {
        scores := scores[entry.corrected := scores[entry.corrected] + HISTORY_WEIGHT];
      }
      assert forall r :: r in base ==> scores[r] == before[r] + Step(entry, r);
    }
    assert recent[..|recent|] == recent;
    forall r | r in base ensures scores[r] == Adjusted(base, history)[r] {
      ShiftCounts(recent, r);
    }
  }

  function Total(s: Scores): real
    requires OverRegisters(s)
  {
    s[Urgent] + s[Reflective] + s[Exploratory] + s[Casual]
  }

  function ValidTargets(cs: seq<Correction>): nat {
    if cs == [] then 0
    else ValidTargets(cs[..|cs| - 1]) + if ValidRegister(cs[|cs| - 1].corrected) then 1 else 0
  }

  function ValidSources(cs: seq<Correction>): nat {
    if cs == [] then 0
    else ValidSources(cs[..|cs| - 1]) + if ValidRegister(cs[|cs| - 1].inferred) then 1 else 0
  }

  lemma {:induction false} CountsSum(cs: seq<Correction>)
    ensures To(cs, Urgent) + To(cs, Reflective) + To(cs, Exploratory) + To(cs, Casual) == ValidTargets(cs)
    ensures From(cs, Urgent) + From(cs, Reflective) + From(cs, Exploratory) + From(cs, Casual)
            == ValidSources(cs)
  {
    if cs == [] {
    } else {
      CountsSum(cs[..|cs| - 1]);
    }
  }

  /** The prior conserves the score total exactly if as many recent corrections
      name a register as their target as name one as their source; no score
      moves by more than 3. */
  lemma PriorConservesIff(base: Scores, history: seq<Correction>)
    requires OverRegisters(base)
    ensures var recent := Recent(history);
            && OverRegisters(Adjusted(base, history))
            && (Total(Adjusted(base, history)) == Total(base) <==> ValidTargets(recent) == ValidSources(recent))
            && forall r :: r in base ==> base[r] - 3.0 <= Adjusted(base, history)[r] <= base[r] + 3.0
  {
    CountsSum(Recent(history));
  }

  ghost predicate AllValid(cs: seq<Correction>) {
    forall c :: c in cs ==> ValidRegister(c.inferred) && ValidRegister(c.corrected)
  }

  lemma {:induction false} ValidCounts(cs: seq<Correction>)
    requires AllValid(cs)
    ensures ValidTargets(cs) == |cs| == ValidSources(cs)
  {
    if cs == [] {
    } else {
      ValidCounts(cs[..|cs| - 1]);
    }
  }

  // ---- choosing the register ----

  function Positive(x: real): real {
    if x > 0.0 then x else 0.0
  }

  function TotalPositive(s: Scores): real
    requires OverRegisters(s)
  {
    Positive(s[Urgent]) + Positive(s[Reflective]) + Positive(s[Exploratory]) + Positive(s[Casual])
  }

  function InOrder(s: Scores): seq<real>
    requires OverRegisters(s)
  {
    [s[Urgent], s[Reflective], s[Exploratory], s[Casual]]
  }

  /** `k` is the first place of the greatest value. */
  ghost predicate FirstMax(xs: seq<real>, k: nat) {
    && k < |xs|
    && (forall j :: 0 <= j < |xs| ==> xs[j] <= xs[k])
    && (forall j :: 0 <= j < k ==> xs[j] < xs[k])
  }

  /** The first register of greatest score, in the order they are scored. */
  ghost predicate FirstBest(s: Scores, r: Register)
    requires OverRegisters(s)
  {
    exists k :: 0 <= k < 4 && ORDER[k] == r && FirstMax(InOrder(s), k)
  }

  method Max(xs: seq<real>) returns (k: nat)
    requires xs != []
    ensures FirstMax(xs, k)
  {
    k := 0;
    for i := 1 to |xs|
      invariant FirstMax(xs[..i], k)
    {
      assert xs[..i + 1] == xs[..i] + [xs[i]];
      if xs[i] > xs[k] {
        k := i;
      }
    }
    assert xs[..|xs|] == xs;
  }

  datatype Inference = Inference(register: Register, confidence: real)

  lemma ShareBound(score: real, total: real)
    requires 0.0 < total <= 4.0 * score
    ensures score / total >= 0.25
  {
    assert (score / total) * total == score;
  }

  /** The greatest score is positive exactly if any is, and then makes up at least
      a quarter of the positive total. */
  lemma GreatestShare(s: Scores, k: nat)
    requires OverRegisters(s) && k < 4 && FirstMax(InOrder(s), k)
    ensures TotalPositive(s) > 0.0 <==> s[ORDER[k]] > 0.0
    ensures s[ORDER[k]] > 0.0 <==> exists r :: r in s && s[r] > 0.0
    ensures s[ORDER[k]] > 0.0 ==> s[ORDER[k]] / TotalPositive(s) >= 0.25
  {
    var xs := InOrder(s);
    assert xs[0] <= xs[k] && xs[1] <= xs[k] && xs[2] <= xs[k] && xs[3] <= xs[k];
    if s[ORDER[k]] > 0.0 {
      ShareBound(s[ORDER[k]], TotalPositive(s));
    }
  }

  function Capped(share: real): real {
    if share > 0.95 then 0.95 else share
  }

  /** The register of first-greatest score, with its share of the positive total
      as confidence: between 0.25 and 0.95 exactly when some score is positive,
      and casual at 0.1 otherwise. */
  method ChooseRegister(adjusted: Scores) returns (r: Inference)
    requires OverRegisters(adjusted)
    ensures ValidRegister(r.register)
    ensures if exists x :: x in adjusted && adjusted[x] > 0.0
            then && FirstBest(adjusted, r.register)
                 && 0.25 <= r.confidence <= 0.95
                 && r.confidence == Capped(adjusted[r.register] / TotalPositive(adjusted))
            else r == Inference(Casual, 0.1)
  {
    hide TotalPositive;
    var k := Max(InOrder(adjusted));
    GreatestShare(adjusted, k);
    var bestRegister, bestScore := ORDER[k], adjusted[ORDER[k]];
    if forall r :: r in adjusted ==> adjusted[r] <= 0.0 {
      bestRegister, bestScore := Casual, 0.0;
    }
    var totalPositive := TotalPositive(adjusted);
    var confidence := if totalPositive > 0.0 then Capped(bestScore / totalPositive) else 0.1;
    r := Inference(bestRegister, confidence);
  }

  // ---- a message ----

  /** What inference looks at: how many words of each vocabulary occur, and the
      form of the message. */
  datatype Features = Features(
    urgent: nat, reflective: nat, exploratory: nat, casual: nat,
    words: nat, question: bool, exclamation: bool, composition: Option<real>)

  function BaseScores(f: Features): Scores {
    map[Urgent := f.urgent as real + if f.exclamation then 0.3 else 0.0,
        Reflective := f.reflective as real + (if f.words > 50 then 0.5 else 0.0)
                        + if f.composition.Some? && f.composition.value > 90.0 then 0.5 else 0.0,
        Exploratory := f.exploratory as real + if f.question && f.words < 20 then 0.3 else 0.0,
        Casual := f.casual as real + (if f.words < 5 then 0.5 else 0.0)
                    + if f.composition.Some? && f.composition.value < 4.0 then 0.3 else 0.0]
  }

  method InferRegister(f: Features, history: seq<Correction>) returns (r: Inference)
    ensures ValidRegister(r.register)
    ensures OverRegisters(Adjusted(BaseScores(f), history))
    ensures var s := Adjusted(BaseScores(f), history);
            if exists x :: x in s && s[x] > 0.0
            then FirstBest(s, r.register) && 0.25 <= r.confidence <= 0.95
            else r == Inference(Casual, 0.1)
  {
    var urgent, reflective, exploratory, casual :=
      f.urgent as real, f.reflective as real, f.exploratory as real, f.casual as real;
    if f.words < 5 {
      casual := casual + 0.5;
    }
    if f.words > 50 {
      reflective := reflective + 0.5;
    }
    if f.question && f.words < 20 {
      exploratory := exploratory + 0.3;
    }
    if f.exclamation {
      urgent := urgent + 0.3;
    }
    if f.composition.Some? {
      if f.composition.value < 4.0 {
        casual := casual + 0.3;
      } else if f.composition.value > 90.0 {
        reflective := reflective + 0.5;
      }
    }
    var base := map[Urgent := urgent, Reflective := reflective, Exploratory := exploratory, Casual := casual];
    assert base == BaseScores(f);
    var adjusted := ApplyHistoryPrior(base, history);
    PriorConservesIff(base, history);
    r := ChooseRegister(adjusted);
  }

  lemma BestIsGreatest(s: Scores, best: Register, r: Register)
    requires OverRegisters(s) && ValidRegister(r) && ValidRegister(best)
    ensures FirstBest(s, best) ==> s[r] <= s[best]
  {
    if FirstBest(s, best) {
      var k :| 0 <= k < 4 && ORDER[k] == best && FirstMax(InOrder(s), k);
      var xs := InOrder(s);
      assert xs[0] <= xs[k] && xs[1] <= xs[k] && xs[2] <= xs[k] && xs[3] <= xs[k];
    }
  }

  lemma {:induction false} SameCounts(cs: seq<Correction>, wrong: Register, right: Register)
    requires wrong != right && forall i :: 0 <= i < |cs| ==> cs[i] == Correction(wrong, right)
    ensures To(cs, right) == |cs| == From(cs, wrong) && To(cs, wrong) == 0 == From(cs, right)
  {
    if cs == [] {
    } else {
      SameCounts(cs[..|cs| - 1], wrong, right);
    }
  }

  /** The last twenty corrections, twenty or more, being the same one from `wrong` to
      `right` turn the choice away from `wrong` whenever the message itself put it
      less than six points ahead, whatever came before. */
  lemma RepeatedCorrectionsWin(base: Scores, history: seq<Correction>, wrong: Register, right: Register)
    requires OverRegisters(base) && ValidRegister(wrong) && ValidRegister(right) && wrong != right
    requires |history| >= 20
    requires forall i :: |history| - 20 <= i < |history| ==> history[i] == Correction(wrong, right)
    ensures OverRegisters(Adjusted(base, history))
    ensures FirstBest(Adjusted(base, history), wrong) ==> base[wrong] - base[right] >= 6.0
  {
    var recent := Recent(history);
    SameCounts(recent, wrong, right);
    var s := Adjusted(base, history);
    assert s[right] == base[right] + 3.0 && s[wrong] == base[wrong] - 3.0;
    BestIsGreatest(s, wrong, right);
  }

  // ---- which corrections count, and for how much ----

  /** Nothing but the last twenty corrections counts. */
  lemma OnlyLastTwentyCount(base: Scores, older: seq<Correction>, last: seq<Correction>)
    requires |last| == 20
    ensures Adjusted(base, older + last) == Adjusted(base, last)
  {
    assert Recent(older + last) == last == Recent(last);
  }

  /** No correction changes nothing, and up to twenty each one counts: 0.15 for its
      target, 0.15 off its source. */
  lemma EachCorrectionCounts(base: Scores, history: seq<Correction>, c: Correction, r: Register)
    requires |history| < 20 && r in base
    ensures Adjusted(base, [])[r] == base[r]
    ensures Adjusted(base, history + [c])[r]
            == Adjusted(base, history)[r] + (if c.corrected == r then 0.15 else 0.0)
                                          - if c.inferred == r then 0.15 else 0.0
  {
    assert (history + [c])[..|history|] == history;
    ShiftCounts(history, r);
    ShiftCounts(history + [c], r);
  }

  /** A message of twenty to fifty words without marks or timing scores by its
      keywords alone. */
  lemma PlainMessageScores(f: Features)
    requires 20 <= f.words <= 50 && !f.question && !f.exclamation && f.composition == None
    ensures BaseScores(f) == map[Urgent := f.urgent as real, Reflective := f.reflective as real,
                                 Exploratory := f.exploratory as real, Casual := f.casual as real]
  {
  }

  /** `after` is `before` but for `gain` added to one register. */
  ghost predicate Raised(before: Scores, after: Scores, r: Register, gain: real)
    requires OverRegisters(before) && OverRegisters(after)
  {
    forall q :: ValidRegister(q) ==> after[q] == before[q] + if q == r then gain else 0.0
  }

  /** Marks, length and timing each add to one register, by itself. */
  lemma EveryMarkCounts(f: Features)
    ensures Raised(BaseScores(f.(exclamation := false)), BaseScores(f.(exclamation := true)), Urgent, 0.3)
    ensures Raised(BaseScores(f.(question := false)), BaseScores(f.(question := true)),
                   Exploratory, if f.words < 20 then 0.3 else 0.0)
  {
  }

  lemma LengthCounts(f: Features)
    requires !f.question
    ensures Raised(BaseScores(f.(words := 20)), BaseScores(f), if f.words < 5 then Casual else Reflective,
                   if f.words < 5 || f.words > 50 then 0.5 else 0.0)
  {
  }

  lemma TimingCounts(f: Features)
    requires f.composition.Some?
    ensures Raised(BaseScores(f.(composition := None)), BaseScores(f),
                   if f.composition.value < 4.0 then Casual else Reflective,
                   if f.composition.value < 4.0 then 0.3 else if f.composition.value > 90.0 then 0.5 else 0.0)
  {
  }

  // ---- the correction pathway ----

  /** What a read of the log returns: all of it, or what precedes the entry at
      which reading fails. */
  function Read(entries: seq<Correction>, stops: Option<nat>): (r: seq<Correction>)
    ensures r <= entries
  {
    if stops.Some? && stops.value < |entries| then entries[..stops.value] else entries
  }

  /** Failures of the log are swallowed: a failing append writes nothing, a failing
      read returns what it has read so far. */
  class InferenceLogger {
    var entries: seq<Correction>

    method Append(c: Correction, fails: bool)
      modifies this
      ensures entries == old(entries) + if fails then [] else [c]
    {
      if !fails {
        entries := entries + [c];
      }
    }

    method ReadAll(stops: Option<nat>) returns (r: seq<Correction>)
      ensures r == Read(entries, stops)
    {
      r := [];
      for i := 0 to |entries|
        invariant r == entries[..i] && (stops.Some? ==> i <= stops.value)
      {
        if stops == Some(i) {
          return;
        }
        r := r + [entries[i]];
      }
    }
  }

  class RelationalShadow {
    var corrections: seq<Correction>

    constructor (corrections: seq<Correction>)
      ensures this.corrections == corrections
    {
      this.corrections := corrections;
    }
  }

  datatype Correcting = Acknowledged | InvalidRegister

  datatype CorrectionState = CorrectionState(log: seq<Correction>, shadow: seq<Correction>)

  /** A correction signal, and whether its append to the log fails. */
  datatype Signal = Signal(inferred: Register, corrected: Register, appendFails: bool)

  function CorrectingOutcome(s: Signal): Correcting {
    if !ValidRegister(s.inferred) || !ValidRegister(s.corrected) then InvalidRegister else Acknowledged
  }

  /** The correction a signal makes, if it is a valid one. */
  function CorrectionOf(s: Signal): seq<Correction> {
    if CorrectingOutcome(s) == Acknowledged then [Correction(s.inferred, s.corrected)] else []
  }

  /** What of it reaches the log. */
  function LoggedOf(s: Signal): seq<Correction> {
    if s.appendFails then [] else CorrectionOf(s)
  }

  function Corrected(state: CorrectionState, s: Signal): CorrectionState {
    if CorrectingOutcome(s) != Acknowledged then state
    else
      var c := Correction(s.inferred, s.corrected);
      CorrectionState(if s.appendFails then state.log else state.log + [c], state.shadow + [c])
  }

  method ApplyCorrection(s: Signal, shadow: RelationalShadow, logger: InferenceLogger) returns (r: Correcting)
    modifies shadow, logger
    ensures r == CorrectingOutcome(s)
    ensures CorrectionState(logger.entries, shadow.corrections)
            == Corrected(CorrectionState(old(logger.entries), old(shadow.corrections)), s)
  {
    if !ValidRegister(s.inferred) {
      return InvalidRegister;
    }
    if !ValidRegister(s.corrected) {
      return InvalidRegister;
    }
    logger.Append(Correction(s.inferred, s.corrected), s.appendFails);
    shadow.corrections := shadow.corrections + [Correction(s.inferred, s.corrected)];
    r := Acknowledged;
  }

  function CorrectedAll(state: CorrectionState, signals: seq<Signal>): CorrectionState
    decreases |signals|
  {
    if signals == [] then state
    else Corrected(CorrectedAll(state, signals[..|signals| - 1]), signals[|signals| - 1])
  }

  function CorrectionsOf(signals: seq<Signal>): seq<Correction>
    decreases |signals|
  {
    if signals == [] then []
    else CorrectionsOf(signals[..|signals| - 1]) + CorrectionOf(signals[|signals| - 1])
  }

  function LoggedAll(signals: seq<Signal>): seq<Correction>
    decreases |signals|
  {
    if signals == [] then []
    else LoggedAll(signals[..|signals| - 1]) + LoggedOf(signals[|signals| - 1])
  }

  /** The append of an acknowledged correction failed. */
  predicate AppendLost(signals: seq<Signal>)
    decreases |signals|
  {
    signals != [] &&
    (|| AppendLost(signals[..|signals| - 1])
     || (CorrectingOutcome(signals[|signals| - 1]) == Acknowledged && signals[|signals| - 1].appendFails))
  }

  lemma {:induction false} LoggedUnlessLost(signals: seq<Signal>)
    ensures |LoggedAll(signals)| <= |CorrectionsOf(signals)|
    ensures if AppendLost(signals) then |LoggedAll(signals)| < |CorrectionsOf(signals)|
            else LoggedAll(signals) == CorrectionsOf(signals)
    decreases |signals|
  {
    if signals == [] {
    } else {
      LoggedUnlessLost(signals[..|signals| - 1]);
    }
  }

  lemma {:induction false} LogAndShadowGrow(log: seq<Correction>, signals: seq<Signal>)
    requires AllValid(log)
    ensures var end := CorrectedAll(CorrectionState(log, []), signals);
            && end.log == log + LoggedAll(signals) && AllValid(end.log)
            && end.shadow == CorrectionsOf(signals) && AllValid(end.shadow)
    decreases |signals|
  {
    if signals == [] {
    } else {
      LogAndShadowGrow(log, signals[..|signals| - 1]);
    }
  }

  /** A valid history conserves the score total. */
  lemma ValidHistoryConserves(history: seq<Correction>, base: Scores)
    requires AllValid(history) && OverRegisters(base)
    ensures OverRegisters(Adjusted(base, history)) && Total(Adjusted(base, history)) == Total(base)
  {
    forall c | c in Recent(history) ensures c in history {
    }
    ValidCounts(Recent(history));
    PriorConservesIff(base, history);
  }

  /** Over a session, whatever signals arrive and whichever appends fail: the shadow
      holds every valid correction, the log grows by those whose append succeeded,
      both stay valid, and so the prior conserves the score total. */
  lemma SessionCorrections(log: seq<Correction>, signals: seq<Signal>, base: Scores)
    requires AllValid(log) && OverRegisters(base)
    ensures var end := CorrectedAll(CorrectionState(log, []), signals);
            && end.log == log + LoggedAll(signals) && end.shadow == CorrectionsOf(signals) && AllValid(end.log)
            && OverRegisters(Adjusted(base, end.log))
            && Total(Adjusted(base, end.log)) == Total(base)
  {
    LogAndShadowGrow(log, signals);
    ValidHistoryConserves(CorrectedAll(CorrectionState(log, []), signals).log, base);
  }

  /** The log grows by exactly the shadow if and only if no append of an
      acknowledged correction failed. */
  lemma LogGrowsByShadowIff(log: seq<Correction>, signals: seq<Signal>)
    requires AllValid(log)
    ensures var end := CorrectedAll(CorrectionState(log, []), signals);
            end.log == log + end.shadow <==> !AppendLost(signals)
  {
    LogAndShadowGrow(log, signals);
    LoggedUnlessLost(signals);
    var end := CorrectedAll(CorrectionState(log, []), signals);
    assert |log + LoggedAll(signals)| == |log| + |LoggedAll(signals)|;
    assert |log + CorrectionsOf(signals)| == |log| + |CorrectionsOf(signals)|;
  }

  /** With the log out of reach one valid signal is acknowledged and enters the
      shadow, and the log stays as it was. */
  lemma UnwritableLogFallsBehind(log: seq<Correction>)
    ensures var s := Signal(Casual, Reflective, true);
            CorrectingOutcome(s) == Acknowledged
            && Corrected(CorrectionState(log, []), s) == CorrectionState(log, [Correction(Casual, Reflective)])
  {
  }
}
