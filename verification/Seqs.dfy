/** Facts about sequences that the solver is slow to find for itself. */
module Seqs {
  lemma Assoc<T>(a: seq<T>, b: seq<T>, c: seq<T>)
    ensures a + b + c == a + (b + c)
  {
  }

  lemma TakeDrop<T>(s: seq<T>, i: nat)
    requires i <= |s|
    ensures s[..i] + s[i..] == s
  {
  }

  lemma HeadTail<T>(s: seq<T>)
    requires s != []
    ensures s == [s[0]] + s[1..]
  {
  }

  lemma InitLast<T>(s: seq<T>)
    requires s != []
    ensures s == s[..|s| - 1] + [s[|s| - 1]]
  {
  }

  lemma TailAppend<T>(a: seq<T>, b: seq<T>)
    requires a != []
    ensures (a + b)[0] == a[0] && (a + b)[1..] == a[1..] + b
  {
  }

  lemma TakeSnoc<T>(s: seq<T>, k: nat)
    requires k < |s|
    ensures s[..k + 1] == s[..k] + [s[k]]
    ensures s[..k + 1][..k] == s[..k]
  {
  }

  /** `whole` appended to `start` is `soFar` with `rest` still to be appended. */
  ghost predicate Extends<T>(start: seq<T>, whole: seq<T>, soFar: seq<T>, rest: seq<T>) {
    start + whole == soFar + rest
  }

  lemma ExtendsStep<T>(start: seq<T>, whole: seq<T>, soFar: seq<T>, next: seq<T>, rest: seq<T>)
    requires Extends(start, whole, soFar, next + rest)
    ensures Extends(start, whole, soFar + next, rest)
  {
    Assoc(soFar, next, rest);
  }

  lemma ExtendsNothing<T>(start: seq<T>, whole: seq<T>, soFar: seq<T>)
    requires Extends(start, whole, soFar, [])
    ensures soFar == start + whole
  {
    assert soFar + [] == soFar;
  }

  lemma SplitBehind<T>(a: seq<T>, b: seq<T>, n: nat)
    requires n <= |b|
    ensures (a + b)[..|a| + n] == a + b[..n]
    ensures (a + b)[|a| + n..] == b[n..]
  {
  }
}
