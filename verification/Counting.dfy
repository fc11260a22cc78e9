/** Counting the integers of a half-open range that satisfy a predicate. */
module Counting {

  ghost function Count(p: int -> bool, a: int, b: int): (n: nat)
    ensures a <= b ==> n <= b - a
    decreases b - a
  {
    if b <= a then 0 else Count(p, a, b - 1) + if p(b - 1) then 1 else 0
  }

  lemma {:induction false} CountSplit(p: int -> bool, a: int, m: int, b: int)
    requires a <= m <= b
    ensures Count(p, a, b) == Count(p, a, m) + Count(p, m, b)
    decreases b - m
  {
    if m < b {
      CountSplit(p, a, m, b - 1);
    }
  }

  lemma {:induction false} CountSame(p: int -> bool, q: int -> bool, a: int, b: int)
    requires forall x :: a <= x < b ==> p(x) == q(x)
    ensures Count(p, a, b) == Count(q, a, b)
    decreases b - a
  {
    if a < b {
      CountSame(p, q, a, b - 1);
    }
  }

  lemma {:induction false} CountNone(p: int -> bool, a: int, b: int)
    ensures Count(p, a, b) == 0 <==> forall x :: a <= x < b ==> !p(x)
    decreases b - a
  {
    if a < b {
      CountNone(p, a, b - 1);
      assert Count(p, a, b) == 0 ==> !p(b - 1);
    }
  }

  lemma {:induction false} CountAll(p: int -> bool, a: int, b: int)
    requires a <= b
    ensures Count(p, a, b) == b - a <==> forall x :: a <= x < b ==> p(x)
    decreases b - a
  {
    if a < b {
      CountAll(p, a, b - 1);
      assert Count(p, a, b) == b - a ==> p(b - 1);
    }
  }

  /** The length of [lo, hi) clipped to [a, b). */
  function Clip(lo: int, hi: int, a: int, b: int): (n: nat) {
    var s, e := if lo > a then lo else a, if hi < b then hi else b;
    if e > s then e - s else 0
  }

  /** Adding one block to a set that the block does not meet adds its clipped length. */
  lemma {:induction false} CountBlock(p: int -> bool, q: int -> bool, lo: int, hi: int, a: int, b: int)
    requires forall x :: a <= x < b ==> (p(x) <==> q(x) || lo <= x < hi)
    requires forall x :: a <= x < b && lo <= x < hi ==> !q(x)
    ensures Count(p, a, b) == Count(q, a, b) + Clip(lo, hi, a, b)
    decreases b - a
  {
    if a < b {
      CountBlock(p, q, lo, hi, a, b - 1);
    }
  }

  lemma CountMonotone(p: int -> bool, a: int, b: int, c: int)
    requires b <= c
    ensures Count(p, a, b) <= Count(p, a, c)
  {
    if a <= b {
      CountSplit(p, a, b, c);
    }
  }
}
