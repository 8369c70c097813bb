/**
 The 32-bit unsigned words of the wire format. The program keeps sequence numbers in `Uint32` and
 lets them wrap; here a word is an `int` in range and every wrapping operation is written out. The
 window of 64 numbers, DEFAULT_WINDOW_COUNT, is written as the literal.
 */
module Words {

  type u32 = x: int | 0 <= x < 0x1_0000_0000

  type Bytes = seq<bv8>

  datatype Option<+T> = None | Some(value: T)

  /** The word that carries the number `n`. */
  function W(n: int): u32 {
    n % 0x1_0000_0000
  }

  /** Unsigned 32-bit subtraction. */
  function Sub(a: u32, b: u32): u32 {
    W(a - b)
  }

  lemma SubOfW(a: int, b: int)
    ensures Sub(W(a), W(b)) == W(a - b)
  {
  }

  lemma ShortDistance(a: int, b: int)
    requires 0 <= b - a < 0x1_0000_0000
    ensures Sub(W(b), W(a)) == b - a
  {
    SubOfW(b, a);
  }

  /** Adding one to the word is adding one to the number it carries. */
  lemma SuccOfW(n: int)
    ensures W(W(n) + 1) == W(n + 1)
  {
  }

  /** Stepping a word towards another one shortens the 32-bit distance. */
  lemma StepsToward(target: u32, w: u32)
    requires w != target
    ensures Sub(target, W(w + 1)) == Sub(target, w) - 1
  {
  }

  /** A ring index survives the wrap because 64 divides 2^32. */
  lemma SlotOfW(n: int)
    ensures W(n) % 64 == n % 64
  {
    var q := n / 0x1_0000_0000;
    assert n == W(n) + 64 * (0x400_0000 * q);
    AddMultiple(W(n), 0x400_0000 * q);
  }

  lemma AddMultiple(x: int, k: int)
    ensures (x + 64 * k) % 64 == x % 64
  {
  }

  lemma WInjective(a: int, b: int)
    requires W(a) == W(b)
    requires -0x1_0000_0000 < a - b < 0x1_0000_0000
    ensures a == b
  {
  }

  /**
   Can a receiver standing at `r` tell from the word alone how far off `n` is? Not if `n` is a
   window or more away and yet its word falls within a window of the receiver's.
   */
  predicate Unambiguous(r: nat, n: nat) {
    -64 < n - r < 64 || 64 <= W(n - r) <= 0x1_0000_0000 - 64
  }

  /** Every number within 2^32 - 64 of `r` is unambiguous. */
  lemma NearIsUnambiguous(r: nat, n: nat)
    requires -(0x1_0000_0000 - 64) <= n - r <= 0x1_0000_0000 - 64
    ensures Unambiguous(r, n)
  {
  }

  /** The word of a small distance, ahead or back. */
  lemma WOfSmall(d: int)
    requires -64 < d < 64
    ensures W(d) == if d < 0 then d + 0x1_0000_0000 else d
  {
  }

  lemma WOfNegative(d: int)
    ensures W(-d) == if W(d) == 0 then 0 else 0x1_0000_0000 - W(d)
  {
  }

  lemma StepBack(d: int)
    requires W(d) == 1
    ensures W(d - 1) == 0
  {
  }

  lemma NoDistance(a: u32, b: u32)
    requires Sub(a, b) == 0
    ensures a == b
  {
  }

  lemma WIsOne(r: int, n: int)
    ensures W(n) == W(r + 1) <==> W(n - r) == 1
  {
    SubOfW(n, r);
    SubOfW(r + 1, r);
    if W(n - r) == 1 {
      StepBack(n - r);
      SubOfW(n, r + 1);
      NoDistance(W(n), W(r + 1));
    }
  }

  /** 32-bit distances sort an unambiguous number exactly as true distances would. */
  lemma Distances(r: nat, n: nat)
    requires Unambiguous(r, n)
    ensures Sub(W(r), W(n)) < 64 <==> 0 <= r - n < 64
    ensures W(n) == W(W(r) + 1) <==> n == r + 1
    ensures Sub(W(n), W(r)) < 64 <==> 0 <= n - r < 64
    ensures 0 <= n - r < 64 ==> Sub(W(n), W(r)) == n - r
  {
    var d := n - r;
    SubOfW(r, n);
    SubOfW(n, r);
    WOfNegative(d);
    SuccOfW(r);
    WIsOne(r, n);
    if -64 < d < 64 {
      WOfSmall(d);
    }
  }

  /** An ambiguous number always looks close enough to be acknowledged. */
  lemma AmbiguousLooksNear(r: nat, n: nat)
    requires !Unambiguous(r, n)
    ensures n < r ==> r - n >= 64
    ensures n > r ==> n - r >= 64
    ensures Sub(W(r), W(n)) < 64 || W(n) == W(W(r) + 1) || Sub(W(n), W(r)) < 64
  {
    SubOfW(r, n);
    SubOfW(n, r);
  }

  /** A 64-bit mask shifted right by one; element `i` is bit `i`. */
  function ShiftRight(mask: seq<bool>): (r: seq<bool>)
    requires |mask| == 64
    ensures |r| == 64
  {
    mask[1..] + [false]
  }

  /** Two numbers less than a window apart share a slot only if they are equal. */
  lemma SlotInjective(a: int, b: int)
    requires a % 64 == b % 64
    requires -64 < a - b < 64
    ensures a == b
  {
  }

  /** The number from `first` on, and within a window of it, whose ring index is `i`. */
  ghost function AtSlot(first: nat, i: nat): (n: nat)
    requires i < 64
    ensures first <= n < first + 64 && n % 64 == i
  {
    first + (i - first) % 64
  }
}
