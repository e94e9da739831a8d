/** The conversation prompt and the split that takes it apart again. */
module Prompt {
  import opened Prelude

  const USER_MARKER := "\n\nUser: "
  const RESPONSE_MARKER := "\n\nResponse:"

  // ---- substrings ----

  predicate At(s: string, p: string, i: nat) {
    i + |p| <= |s| && s[i..i + |p|] == p
  }

  ghost predicate Contains(s: string, p: string) {
    exists i: nat :: At(s, p, i)
  }

  /** The first occurrence of `p` in `s` at `from` or later. */
  function FindFrom(s: string, p: string, from: nat): (r: Option<nat>)
    requires from <= |s|
    ensures r.Some? ==> from <= r.value && At(s, p, r.value) && forall i: nat :: from <= i < r.value ==> !At(s, p, i)
    ensures r.None? ==> forall i: nat :: from <= i ==> !At(s, p, i)
    decreases |s| - from
  {
    if At(s, p, from) then Some(from)
    else if from == |s| then None
    else FindFrom(s, p, from + 1)
  }

  function Find(s: string, p: string): Option<nat> {
    FindFrom(s, p, 0)
  }

  /** What precedes the first occurrence of `p`: all of `s` if there is none. */
  function Before(s: string, p: string): string {
    match Find(s, p)
    case Some(i) => s[..i]
    case None => s
  }

  // ---- printing and splitting ----

  datatype Chat = SystemAndUser(system: string, user: string) | UserOnly(text: string)

  function FullPrompt(system: string, message: string): string {
    system + USER_MARKER + message + RESPONSE_MARKER
  }

  function SplitPrompt(prompt: string): Chat {
    match Find(prompt, USER_MARKER)
    case None => UserOnly(prompt)
    case Some(i) =>
      if Find(prompt, RESPONSE_MARKER).None? then UserOnly(prompt)
      else SystemAndUser(prompt[..i], Before(prompt[i + |USER_MARKER|..], RESPONSE_MARKER))
  }

  // ---- markers have no border ----

  /** No proper nonempty prefix of `p` is also a suffix. */
  ghost predicate BorderFree(p: string) {
    forall k :: 0 < k < |p| ==> p[..k] != p[|p| - k..]
  }

  /** A pattern whose last character occurs nowhere else in it has no border. */
  lemma UniqueLastIsBorderFree(p: string)
    requires p != [] && forall i :: 0 <= i < |p| - 1 ==> p[i] != p[|p| - 1]
    ensures BorderFree(p)
  {
    forall k | 0 < k < |p| ensures p[..k] != p[|p| - k..] {
      assert p[..k][k - 1] == p[k - 1];
      assert p[|p| - k..][k - 1] == p[|p| - 1];
    }
  }

  lemma MarkersBorderFree()
    ensures BorderFree(USER_MARKER) && BorderFree(RESPONSE_MARKER)
  {
    UniqueLastIsBorderFree(USER_MARKER);
    UniqueLastIsBorderFree(RESPONSE_MARKER);
  }

  /** Two overlapping occurrences make a border. */
  lemma OverlapIsBorder(s: string, p: string, i: nat, j: nat)
    requires At(s, p, i) && At(s, p, j) && i < j < i + |p|
    ensures var k := i + |p| - j; p[..k] == p[|p| - k..]
  {
    var k := i + |p| - j;
    assert s[j..j + |p|][..k] == s[j..i + |p|];
    assert s[i..i + |p|][|p| - k..] == s[j..i + |p|];
  }

  /** No occurrence of a border-free separator straddles its left boundary: those
      that start in `a` lie in `a`. */
  lemma NoStraddle(a: string, p: string, b: string, i: nat)
    requires BorderFree(p) && i < |a|
    ensures At(a + p + b, p, i) <==> At(a, p, i)
  {
    var s := a + p + b;
    assert At(s, p, |a|);
    if At(s, p, i) {
      if i + |p| > |a| { OverlapIsBorder(s, p, i, |a|); }
      assert s[i..i + |p|] == a[i..i + |p|];
    }
    if At(a, p, i) {
      assert s[i..i + |p|] == a[i..i + |p|];
    }
  }

  /** In `a + p + b` what precedes the first occurrence of a border-free `p` is
      `a` up to the first occurrence in `a`. */
  lemma BeforeSeparator(a: string, p: string, b: string)
    requires BorderFree(p) && p != []
    ensures Find(a + p + b, p) == Some(|Before(a, p)|)
    ensures Before(a + p + b, p) == Before(a, p)
  {
    var s := a + p + b;
    assert At(s, p, |a|);
    forall i: nat | i < |a| ensures At(s, p, i) <==> At(a, p, i) {
      NoStraddle(a, p, b, i);
    }
    assert Find(s, p).value == |Before(a, p)|;
  }

  lemma BeforeIsWholeIff(s: string, p: string)
    requires p != []
    ensures Before(s, p) == s <==> !Contains(s, p)
  {
    if Contains(s, p) {
      var i: nat :| At(s, p, i);
      assert Find(s, p).Some?;
    }
  }

  // ---- the round trip ----

  /** Splitting a conversation prompt whose system text has no user marker gives
      back the system text, and the message up to its first response marker: a
      user marker in the message does no harm. */
  lemma SplitGivesBack(system: string, message: string)
    requires !Contains(system, USER_MARKER)
    ensures SplitPrompt(FullPrompt(system, message))
            == SystemAndUser(system, Before(message, RESPONSE_MARKER))
  {
    MarkersBorderFree();
    BeforeIsWholeIff(system, USER_MARKER);
    var prompt := FullPrompt(system, message);
    assert prompt == system + USER_MARKER + (message + RESPONSE_MARKER);
    BeforeSeparator(system, USER_MARKER, message + RESPONSE_MARKER);
    assert prompt == (system + USER_MARKER + message) + RESPONSE_MARKER + "";
    BeforeSeparator(system + USER_MARKER + message, RESPONSE_MARKER, "");
    var rest := prompt[|system| + |USER_MARKER|..];
    assert rest == message + RESPONSE_MARKER + "";
    BeforeSeparator(message, RESPONSE_MARKER, "");
  }

  /** A user marker in the system text cuts the system text there. */
  lemma SplitCutsSystem(system: string, message: string)
    requires Contains(system, USER_MARKER)
    ensures var chat := SplitPrompt(FullPrompt(system, message));
            chat.SystemAndUser? && |chat.system| < |system| && chat.system == Before(system, USER_MARKER)
  {
    MarkersBorderFree();
    BeforeIsWholeIff(system, USER_MARKER);
    var prompt := FullPrompt(system, message);
    assert prompt == system + USER_MARKER + (message + RESPONSE_MARKER);
    BeforeSeparator(system, USER_MARKER, message + RESPONSE_MARKER);
    assert prompt == (system + USER_MARKER + message) + RESPONSE_MARKER + "";
    BeforeSeparator(system + USER_MARKER + message, RESPONSE_MARKER, "");
  }

  /** Splitting undoes printing exactly when the system text has no user marker
      and the message no response marker. */
  lemma RoundTripIff(system: string, message: string)
    ensures SplitPrompt(FullPrompt(system, message)) == SystemAndUser(system, message)
            <==> !Contains(system, USER_MARKER) && !Contains(message, RESPONSE_MARKER)
  {
    if Contains(system, USER_MARKER) {
      SplitCutsSystem(system, message);
    } else {
      SplitGivesBack(system, message);
      BeforeIsWholeIff(message, RESPONSE_MARKER);
    }
  }

  /** A prompt is taken whole exactly if it lacks one of the markers. */
  lemma TakenWholeIff(prompt: string)
    ensures SplitPrompt(prompt) == UserOnly(prompt)
            <==> !Contains(prompt, USER_MARKER) || !Contains(prompt, RESPONSE_MARKER)
    ensures SplitPrompt(prompt).UserOnly? ==> SplitPrompt(prompt) == UserOnly(prompt)
  {
    if Contains(prompt, USER_MARKER) {
      var i: nat :| At(prompt, USER_MARKER, i);
      assert Find(prompt, USER_MARKER).Some?;
    }
    if Contains(prompt, RESPONSE_MARKER) {
      var i: nat :| At(prompt, RESPONSE_MARKER, i);
      assert Find(prompt, RESPONSE_MARKER).Some?;
    }
  }
}
