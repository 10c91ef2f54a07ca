/**
  The name filter the plugin applies to clouds and to folders: an option
  holding a list of names restricts a list of records to those whose name
  is in it, and an empty option leaves the list as it is.
*/
module NameFilter {

  /** The records of `xs` whose name is in `allowed`, in their original order. */
  function Matching<T>(xs: seq<T>, name: T -> string, allowed: seq<string>): (r: seq<T>)
    ensures |r| <= |xs|
    ensures forall i :: 0 <= i < |r| ==> name(r[i]) in allowed
    decreases |xs|
  {
    if xs == [] then []
    else if name(xs[0]) in allowed then [xs[0]] + Matching(xs[1..], name, allowed)
    else Matching(xs[1..], name, allowed)
  }

  /** The filter as the plugin applies it: only a non-empty (truthy) option filters. */
  function FilterByName<T>(xs: seq<T>, name: T -> string, allowed: seq<string>): (r: seq<T>)
    ensures allowed == [] ==> r == xs
    ensures allowed != [] ==> forall i :: 0 <= i < |r| ==> r[i] in xs && name(r[i]) in allowed
    ensures allowed != [] ==> forall i :: 0 <= i < |xs| && name(xs[i]) in allowed ==> xs[i] in r
  {
    if allowed != [] then
      MatchingMembers(xs, name, allowed);
      Matching(xs, name, allowed)
    else xs
  }

  /** `r` is `xs` with some elements dropped and the rest kept in order. */
  ghost predicate IsSubsequence<T>(r: seq<T>, xs: seq<T>)
    decreases |xs|
  {
    r == [] ||
    (xs != [] &&
     ((r[0] == xs[0] && IsSubsequence(r[1..], xs[1..])) || IsSubsequence(r, xs[1..])))
  }

  lemma {:induction false} SubsequenceOfItself<T>(xs: seq<T>)
    ensures IsSubsequence(xs, xs)
    decreases |xs|
  {
    if xs != [] {
      SubsequenceOfItself(xs[1..]);
    }
  }

  /** Each record occurs in the result as often as in the input when its name is allowed, and not at all otherwise. */
  lemma {:induction false} MatchingCount<T>(xs: seq<T>, name: T -> string, allowed: seq<string>)
    ensures forall x :: multiset(Matching(xs, name, allowed))[x] ==
                        if name(x) in allowed then multiset(xs)[x] else 0
    decreases |xs|
  {
    if xs != [] {
      MatchingCount(xs[1..], name, allowed);
      assert xs == [xs[0]] + xs[1..];
    }
  }

  /** A record is kept exactly when it is in the input and its name is allowed. */
  lemma {:induction false} MatchingMembers<T>(xs: seq<T>, name: T -> string, allowed: seq<string>)
    ensures forall x :: x in Matching(xs, name, allowed) ==> x in xs && name(x) in allowed
    ensures forall x :: x in xs && name(x) in allowed ==> x in Matching(xs, name, allowed)
    decreases |xs|
  {
    if xs != [] {
      MatchingMembers(xs[1..], name, allowed);
      assert xs == [xs[0]] + xs[1..];
    }
  }

  /** When no name is allowed, nothing is kept. */
  lemma {:induction false} MatchingNone<T>(xs: seq<T>, name: T -> string, allowed: seq<string>)
    requires forall i :: 0 <= i < |xs| ==> name(xs[i]) !in allowed
    ensures Matching(xs, name, allowed) == []
    decreases |xs|
  {
    if xs != [] {
      MatchingNone(xs[1..], name, allowed);
    }
  }

  /** The kept records come in the order of the input. */
  lemma {:induction false} MatchingIsSubsequence<T>(xs: seq<T>, name: T -> string, allowed: seq<string>)
    ensures IsSubsequence(Matching(xs, name, allowed), xs)
    decreases |xs|
  {
    if xs != [] {
      MatchingIsSubsequence(xs[1..], name, allowed);
      var r := Matching(xs, name, allowed);
      if name(xs[0]) in allowed {
        assert r[0] == xs[0] && r[1..] == Matching(xs[1..], name, allowed);
      }
    }
  }

  /** The filter semantics in full: identity on an empty option; otherwise exactly the allowed records, in order, and no error when nothing matches. */
  lemma FilterSemantics<T>(xs: seq<T>, name: T -> string, allowed: seq<string>)
    ensures allowed == [] ==> FilterByName(xs, name, allowed) == xs
    ensures IsSubsequence(FilterByName(xs, name, allowed), xs)
    ensures allowed != [] ==>
      forall x :: multiset(FilterByName(xs, name, allowed))[x] ==
                  if name(x) in allowed then multiset(xs)[x] else 0
    ensures allowed != [] && (forall i :: 0 <= i < |xs| ==> name(xs[i]) !in allowed) ==>
      FilterByName(xs, name, allowed) == []
  {
    if allowed != [] {
      MatchingCount(xs, name, allowed);
      MatchingIsSubsequence(xs, name, allowed);
      if forall i :: 0 <= i < |xs| ==> name(xs[i]) !in allowed {
        MatchingNone(xs, name, allowed);
      }
    } else {
      SubsequenceOfItself(xs);
    }
  }
}
