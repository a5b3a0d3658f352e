/** Small facts about sequences that the ports and the graph share. */
module Seqs {

  /** How many times `x` occurs in `s`. */
  function Count<T(==)>(s: seq<T>, x: T): (n: nat)
    ensures n <= |s|
  {
    if |s| == 0 then 0
    else Count(s[..|s| - 1], x) + (if s[|s| - 1] == x then 1 else 0)
  }

  /** An element occurs exactly when it is counted at least once. */
  lemma {:induction false} CountPositive<T>(s: seq<T>, x: T)
    ensures x in s <==> Count(s, x) > 0
  {
    if |s| > 0 {
      CountPositive(s[..|s| - 1], x);
      assert s == s[..|s| - 1] + [s[|s| - 1]];
    }
  }

  lemma CountAppend<T>(s: seq<T>, y: T, x: T)
    ensures Count(s + [y], x) == Count(s, x) + (if y == x then 1 else 0)
  {
    assert (s + [y])[..|s|] == s;
  }

  lemma CountPrefixStep<T>(s: seq<T>, i: nat)
    requires i < |s|
    ensures forall x :: Count(s[..i + 1], x) == Count(s[..i], x) + (if s[i] == x then 1 else 0)
  {
    assert s[..i + 1] == s[..i] + [s[i]];
    forall x
      ensures Count(s[..i + 1], x) == Count(s[..i], x) + (if s[i] == x then 1 else 0)
    {
      CountAppend(s[..i], s[i], x);
    }
  }

  /** `n` copies of `x`. */
  function Repeat<T>(x: T, n: nat): (r: seq<T>)
    ensures |r| == n
  {
    if n == 0 then [] else Repeat(x, n - 1) + [x]
  }

  /**
   * One round of adding `v` for `s[i]`: a sequence holding `base` plus one
   * `v` per occurrence of `x` among the first `i` elements holds one per
   * occurrence among the first `i + 1` once `v` is added for `x = s[i]`.
   */
  lemma RepeatRound<T, U>(v: U, s: seq<T>, i: nat, x: T, base: seq<U>, before: seq<U>, after: seq<U>)
    requires i < |s|
    requires before == base + Repeat(v, Count(s[..i], x))
    requires s[i] == x ==> after == before + [v]
    requires s[i] != x ==> after == before
    ensures after == base + Repeat(v, Count(s[..i + 1], x))
    ensures Count(s[..i + 1], x) > 0 <==> Count(s[..i], x) > 0 || s[i] == x
  {
    CountAppend(s[..i], s[i], x);
    assert s[..i + 1] == s[..i] + [s[i]];
  }

  /** `s` concatenated `n` times. */
  function Copies<T>(s: seq<T>, n: nat): seq<T> {
    if n == 0 then [] else Copies(s, n - 1) + s
  }

  /**
   * One round of adding `t` for `s[i]`: a sequence holding `base` plus a copy
   * of `t` per occurrence of `x` among the first `i` elements holds one per
   * occurrence among the first `i + 1` once `t` is added for `x = s[i]`.
   */
  lemma CopiesRound<T, U>(t: seq<U>, s: seq<T>, i: nat, x: T, base: seq<U>, before: seq<U>, after: seq<U>)
    requires i < |s|
    requires before == base + Copies(t, Count(s[..i], x))
    requires s[i] == x ==> after == before + t
    requires s[i] != x ==> after == before
    ensures after == base + Copies(t, Count(s[..i + 1], x))
  {
    CountAppend(s[..i], s[i], x);
    assert s[..i + 1] == s[..i] + [s[i]];
  }

  /**
   * JavaScript's `indexOf`: the first position of `x` in `xs`, or -1 when
   * `x` does not occur.
   */
  function IndexOf<T(==)>(xs: seq<T>, x: T): (i: int)
    ensures -1 <= i < |xs|
    ensures i == -1 <==> x !in xs
    ensures 0 <= i ==> xs[i] == x && x !in xs[..i]
  {
    if |xs| == 0 then -1
    else if xs[0] == x then 0
    else
      var k := IndexOf(xs[1..], x);
      assert k >= 0 ==> xs[..k + 1] == [xs[0]] + xs[1..][..k];
      if k < 0 then -1 else k + 1
  }
}
