/** Facts about sequences that the proofs call by name. */
module Sequences {

  lemma Assoc<T>(a: seq<T>, b: seq<T>, c: seq<T>)
    ensures (a + b) + c == a + (b + c)
  {
  }

  lemma Units<T>(a: seq<T>)
    ensures a + [] == a && [] + a == a
  {
  }

  /** The head and the rest of a concatenation. */
  lemma Uncons<T>(a: seq<T>, b: seq<T>)
    requires a != []
    ensures a + b != [] && (a + b)[0] == a[0] && (a + b)[1..] == a[1..] + b
  {
  }

  /** The last element of a concatenation and what comes before. */
  lemma Unsnoc<T>(a: seq<T>, b: seq<T>)
    requires b != []
    ensures a + b != [] && (a + b)[|a + b| - 1] == b[|b| - 1] && (a + b)[..|a + b| - 1] == a + b[..|b| - 1]
  {
  }

  lemma HeadTail<T>(x: T, s: seq<T>)
    ensures ([x] + s)[0] == x && ([x] + s)[1..] == s
  {
  }

  lemma FrontLast<T>(s: seq<T>, x: T)
    ensures (s + [x])[|s|] == x && (s + [x])[..|s|] == s
  {
  }

  /** One step of a walk: what is left, and what is done. */
  lemma DropStep<T>(s: seq<T>, i: nat)
    requires i < |s|
    ensures s[i..] == [s[i]] + s[i + 1..] && s[i..][0] == s[i] && s[i..][1..] == s[i + 1..]
  {
  }

  lemma TakeStep<T>(s: seq<T>, i: nat)
    requires i < |s|
    ensures s[..i + 1] == s[..i] + [s[i]] && s[..i + 1][..i] == s[..i] && s[..i + 1][i] == s[i]
  {
  }

  lemma Whole<T>(s: seq<T>)
    ensures s[..|s|] == s && s[0..] == s && s[|s|..] == []
  {
  }

  lemma TakeNone<T>(s: seq<T>)
    ensures s[..0] == []
  {
  }

  lemma MovedToFront<T>(s: seq<T>, k: nat)
    requires k < |s|
    ensures multiset([s[k]] + s[..k] + s[k + 1..]) == multiset(s)
  {
    assert s == s[..k] + [s[k]] + s[k + 1..];
  }

  lemma Without<T>(s: seq<T>, i: nat)
    requires i < |s|
    ensures multiset(s[..i] + s[i + 1..]) == multiset(s) - multiset{s[i]}
  {
    assert s == s[..i] + [s[i]] + s[i + 1..];
  }

  lemma SuffixAppend<T>(s: seq<T>, x: T, k: nat)
    requires k <= |s|
    ensures (s + [x])[|s| - k..] == s[|s| - k..] + [x]
    ensures k < |s| ==> (s + [x])[|s| - k - 1] == s[|s| - k - 1]
  {
  }
}
