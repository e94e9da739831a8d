/** Small vocabulary shared by the other modules: optional values, and what it
    means for a sequence to list the elements of a set. */
module Prelude {

  datatype Option<+T> = None | Some(value: T)

  /** No value occurs twice in `s`. */
  ghost predicate NoDup<T>(s: seq<T>) {
    forall i, j :: 0 <= i < j < |s| ==> s[i] != s[j]
  }

  /** `s` lists every element of `xs` exactly once, in some order: what
      iterating over a Python set produces. */
  ghost predicate Enumerates<T>(s: seq<T>, xs: set<T>) {
    && NoDup(s)
    && (forall x :: x in s ==> x in xs)
    && (forall x :: x in xs ==> x in s)
  }

  lemma {:induction false} EnumerationExists<T>(xs: set<T>) returns (s: seq<T>)
    ensures Enumerates(s, xs)
    decreases xs
  {
    if xs == {} {
      s := [];
    } else {
      var x :| x in xs;
      var rest := EnumerationExists(xs - {x});
      s := [x] + rest;
    }
  }

  /** The elements of `s` without repetition, in the order of first occurrence:
      the keys of a dictionary filled in that order. */
  function FirstSeen<T(==)>(s: seq<T>): seq<T>
    decreases |s|
  {
    if s == [] then []
    else
      var x := s[|s| - 1];
      var r := FirstSeen(s[..|s| - 1]);
      if x in r then r else r + [x]
  }

  lemma {:induction false} FirstSeenElements<T(!new)>(s: seq<T>)
    ensures NoDup(FirstSeen(s)) && forall x :: x in FirstSeen(s) <==> x in s
    decreases |s|
  {
    if s == [] {
    } else {
      FirstSeenElements(s[..|s| - 1]);
    }
  }

  lemma FirstSeenAppends<T(!new)>(s: seq<T>, x: T)
    ensures FirstSeen(s + [x]) == if x in s then FirstSeen(s) else FirstSeen(s) + [x]
  {
    assert (s + [x])[..|s|] == s;
    FirstSeenElements(s);
  }
}
