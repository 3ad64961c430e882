/** Facts about concatenation that the other modules use by name, so that their own proofs stay small. */
module Sequences {

  lemma Associative<T>(a: seq<T>, b: seq<T>, c: seq<T>)
    ensures a + (b + c) == (a + b) + c
  {
  }

  lemma HeadAndTail<T>(s: seq<T>, t: seq<T>)
    requires s != []
    ensures s[0] == (s + t)[0]
    ensures [s[0]] + (s[1..] + t) == s + t
    ensures (s + t)[1..] == s[1..] + t
  {
  }

  lemma SplitAt<T>(s: seq<T>, n: nat)
    requires n <= |s|
    ensures s[..n] + s[n..] == s
  {
  }

  lemma TakeFirst<T>(s: seq<T>, n: nat, x: T, t: seq<T>)
    requires n <= |s| && s[n..] == [x] + t
    ensures n < |s| && s[n] == x && s[n + 1..] == t
  {
    assert s[n..][0] == x && s[n..][1..] == t;
  }

  lemma MiddleOf<T>(a: seq<T>, b: seq<T>, s: seq<T>)
    requires a + b <= s
    ensures a <= s && |a| + |b| <= |s| && s[|a|..|a| + |b|] == b
  {
    assert s[..|a| + |b|] == a + b;
    assert (a + b)[..|a|] == a && (a + b)[|a|..] == b;
  }

  lemma IndexInMiddle<T>(a: seq<T>, b: seq<T>, c: seq<T>, i: nat)
    requires i < |b|
    ensures var s, k := a + (b + c), |a| + i;
            && s[k] == b[i]
            && (k + 1 < |s| <==> i + 1 < |b| || c != [])
            && (k + 1 < |s| ==> s[k + 1] == if i + 1 < |b| then b[i + 1] else c[0])
  {
  }

  lemma Units<T>(s: seq<T>)
    ensures s + [] == s && [] + s == s
  {
  }
}
