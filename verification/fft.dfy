/** The index arithmetic of the monitor's radix-2 FFT: the power-of-two
    guard on the input length, and the bit-reversal pass that reorders the
    samples in place before the butterflies. The butterflies themselves are
    floating-point numerics and are not modelled. */
module Fft {

  function Pow2(e: nat): (p: nat)
    ensures p >= 1
  {
    if e == 0 then 1 else 2 * Pow2(e - 1)
  }

  /** `n` is 1, 2, 4, 8, ... */
  predicate IsPow2(n: nat)
  {
    n == 1 || (n >= 2 && n % 2 == 0 && IsPow2(n / 2))
  }

  /** The exponent of a power of two. */
  function Log2(n: nat): (e: nat)
    requires IsPow2(n)
    ensures Pow2(e) == n
  {
    if n == 1 then 0 else 1 + Log2(n / 2)
  }

  lemma {:induction false} Pow2IsPow2(e: nat)
    ensures IsPow2(Pow2(e))
  {
    if e > 0 {
      Pow2IsPow2(e - 1);
      assert Pow2(e) / 2 == Pow2(e - 1);
    }
  }

  // ---------------------------------------------------------------------
  // The guard

  /** Bitwise AND of two naturals, bit by bit from the bottom. */
  function And(a: nat, b: nat): nat
  {
    if a == 0 || b == 0 then 0
    else 2 * And(a / 2, b / 2) + (if a % 2 == 1 && b % 2 == 1 then 1 else 0)
  }

  lemma {:induction false} AndSelf(a: nat)
    ensures And(a, a) == a
  {
    if a > 0 {
      AndSelf(a / 2);
    }
  }

  /** `_fft` refuses `n` when `n & (n - 1) != 0`; for `n == 0` that is
      `0 & -1`, which is 0, so the empty input passes. */
  predicate GuardPasses(n: nat)
  {
    n == 0 || And(n, n - 1) == 0
  }

  /** The guard lets through exactly the powers of two, and 0. */
  lemma {:induction false} GuardIsPowerOfTwo(n: nat)
    ensures GuardPasses(n) <==> n == 0 || IsPow2(n)
  {
    if n >= 2 {
      var m := n / 2;
      if n % 2 == 0 {
        assert (n - 1) / 2 == m - 1 && (n - 1) % 2 == 1;
        assert And(n, n - 1) == 2 * And(m, m - 1);
        GuardIsPowerOfTwo(m);
      } else {
        assert (n - 1) / 2 == m && (n - 1) % 2 == 0;
        AndSelf(m);
        assert And(n, n - 1) == 2 * m;
      }
    }
  }

  // ---------------------------------------------------------------------
  // Bit reversal

  /** The `L`-bit reversal of `k`: its lowest bit becomes the highest. */
  function Rev(k: nat, L: nat): (r: nat)
    ensures r < Pow2(L)
  {
    if L == 0 then 0
    else (if k % 2 == 1 then Pow2(L - 1) else 0) + Rev(k / 2, L - 1)
  }

  /** Only the all-ones index reverses to all ones. */
  lemma {:induction false} RevBelowTop(k: nat, L: nat)
    requires k + 1 < Pow2(L)
    ensures Rev(k, L) + 1 < Pow2(L)
  {
    if L == 1 {
    } else if L > 1 {
      if k % 2 == 1 {
        RevBelowTop(k / 2, L - 1);
      }
    }
  }

  /** The inner `while` of the pass: clear the set bits from `bit` down
      while they are set, then set the first clear one. This adds one to
      the reversed counter. */
  function IncRev(j: nat, bit: nat): nat
    decreases bit
  {
    if bit == 0 then j
    else if j >= bit then IncRev(j - bit, bit / 2)
    else j + bit
  }

  /** Incrementing in reversed bit order carries from the top bit down. */
  lemma {:induction false} RevIncrement(k: nat, L: nat)
    requires L >= 1 && k + 1 < Pow2(L)
    ensures Rev(k + 1, L) == IncRev(Rev(k, L), Pow2(L - 1))
  {
    var m := k / 2;
    if k % 2 == 0 {
      assert (k + 1) / 2 == m && (k + 1) % 2 == 1;
    } else {
      assert (k + 1) / 2 == m + 1 && (k + 1) % 2 == 0;
      assert L >= 2;
      assert Pow2(L - 1) / 2 == Pow2(L - 2);
      RevIncrement(m, L - 1);
    }
  }

  /** Dividing and taking the remainder by `p == 2 * q` can be done one
      bit at a time. */
  lemma DivModStep(k: nat, q: nat, p: nat)
    requires q >= 1 && p == 2 * q
    ensures (k % p) % 2 == k % 2
    ensures (k % p) / 2 == (k / 2) % q
    ensures (k / 2) / q == k / p
  {
    var a, b := k / p, k % p;
    assert k == p * a + b && 0 <= b < p;
    var c, d := b / 2, b % 2;
    assert b == 2 * c + d && 0 <= c < q;
    assert p * a == 2 * (q * a);
    assert k == 2 * (q * a + c) + d;
    DivModUnique(k, 2, q * a + c, d);
    DivModUnique(k / 2, q, a, c);
  }

  /** The quotient and remainder are the only ones. */
  lemma DivModUnique(n: int, d: int, q: int, r: int)
    requires d > 0 && 0 <= r < d && n == d * q + r
    ensures n / d == q && n % d == r
  {
    var q', r' := n / d, n % d;
    assert n == d * q' + r';
    if q' > q {
      assert d * q' >= d * (q + 1) by { MulMono(d, q + 1, q'); }
    } else if q' < q {
      assert d * q >= d * (q' + 1) by { MulMono(d, q' + 1, q); }
    }
  }

  lemma MulMono(d: int, a: int, b: int)
    requires d > 0 && a <= b
    ensures d * a <= d * b
  {
  }

  /** Reversal read from the top bit: the top bit of `k` becomes the lowest
      bit of the result. */
  lemma {:induction false} RevFromTop(k: nat, L: nat)
    requires L >= 1 && k < Pow2(L)
    ensures Rev(k, L) == 2 * Rev(k % Pow2(L - 1), L - 1) + k / Pow2(L - 1)
  {
    if L >= 2 {
      var q := Pow2(L - 2);
      var P := Pow2(L - 1);
      var h := k / 2;
      DivModStep(k, q, P);
      RevFromTop(h, L - 1);
      var low := Rev(h % q, L - 2);
      assert Rev(h, L - 1) == 2 * low + k / P;
      if k % 2 == 0 {
        assert Rev(k % P, L - 1) == low;
        assert Rev(k, L) == Rev(h, L - 1);
      } else {
        assert Rev(k % P, L - 1) == q + low;
        assert Rev(k, L) == P + Rev(h, L - 1);
      }
    }
  }

  /** Reversing twice gives the index back. */
  lemma {:induction false} RevInvolution(k: nat, L: nat)
    requires k < Pow2(L)
    ensures Rev(Rev(k, L), L) == k
  {
    if L >= 1 {
      var m, t := k / 2, k % 2;
      var P := Pow2(L - 1);
      var r := Rev(m, L - 1);
      var R := Rev(k, L);
      assert R == t * P + r;
      DivModUnique(R, P, t, r);
      RevFromTop(R, L);
      RevInvolution(m, L - 1);
    }
  }

  /** Where the sample at position `k` comes from once the pass has handled
      the indices below `i`: a pair (k, Rev(k)) is exchanged as soon as its
      smaller index has been handled. */
  function Source(k: nat, L: nat, i: nat): nat
  {
    if k < i || Rev(k, L) < i then Rev(k, L) else k
  }

  /** The inner `while` of the pass and the `j += bit` after it: starting
      from `bit = n >> 1`, clear the leading set bits of `j`, then set the
      first clear one. The loop stops before `bit` reaches 0 because `j` is
      never all ones. */
  method ReversedSuccessor(j0: nat, bit0: nat, ghost e0: nat) returns (j: nat)
    requires bit0 == Pow2(e0) && j0 + 1 < 2 * bit0
    ensures j == IncRev(j0, bit0)
  {
    j := j0;
    var bit := bit0;
    ghost var e := e0;
    while j >= bit
      invariant bit == Pow2(e) && j + 1 < 2 * bit
      invariant IncRev(j, bit) == IncRev(j0, bit0)
      decreases bit
    {
      j := j - bit;
      bit := bit / 2;
      e := e - 1;
    }
    j := j + bit;
  }

  /** The input rearranged as it is once the pass has handled the indices
      below `i`. */
  function Arranged(x: seq<real>, L: nat, i: nat): (a: seq<real>)
    requires |x| == Pow2(L)
    ensures |a| == |x|
  {
    seq(|x|, k requires 0 <= k < |x| => x[Source(k, L, i)])
  }

  /** The start of `_fft`: the guard, which raises ValueError (`ok` false)
      unless the length passes, then a copy of the input with its samples
      in bit-reversed order, and all-zero imaginary parts. */
  method BitReverse(x: seq<real>) returns (ok: bool, re: array<real>, im: array<real>)
    ensures ok <==> |x| == 0 || IsPow2(|x|)
    ensures ok ==> fresh(re) && fresh(im) && re.Length == |x| && im.Length == |x|
    ensures ok ==> forall k :: 0 <= k < |x| ==> re[k] == x[Rev(k, Log2(|x|))]
    ensures ok ==> multiset(re[..]) == multiset(x)
    ensures ok ==> forall k :: 0 <= k < |x| ==> im[k] == 0.0
  {
    var n := |x|;
    GuardIsPowerOfTwo(n);
    if n != 0 && And(n, n - 1) != 0 {
      return false, new real[0], new real[0];
    }
    ok := true;
    re := new real[n](k requires 0 <= k < n => x[k]);
    im := new real[n](k => 0.0);
    assert re[..] == x;
    if n == 0 {
      return;
    }
    ghost var L := Log2(n);
    Reorder(re, L);
    ArrangedAtEnd(x, L);
    ArrangedSamples(x, L, n);
  }

  /** The loop of the pass over `a`, which holds `Pow2(L)` samples. */
  method Reorder(a: array<real>, ghost L: nat)
    requires a.Length == Pow2(L)
    modifies a
    ensures a[..] == Arranged(old(a[..]), L, a.Length)
  {
    ghost var x := a[..];
    var n := a.Length;
    var j: nat := 0;
    RevZero(L);
    ArrangedAtStart(x, L);
    for i := 1 to n
      invariant j == Rev(i - 1, L)
      invariant a[..] == Arranged(x, L, i)
    {
      assert n / 2 == Pow2(L - 1);
      RevBelowTop(i - 1, L);
      RevIncrement(i - 1, L);
      j := ReversedSuccessor(j, n / 2, L - 1);
      assert j == Rev(i, L);
      ArrangedStep(x, L, i);
      if i < j {
        a[i], a[j] := a[j], a[i];
      }
    }
  }

  /** `s` with the elements at `i` and `j` exchanged. */
  function Swap(s: seq<real>, i: nat, j: nat): (t: seq<real>)
    requires i < |s| && j < |s|
    ensures |t| == |s| && t[i] == s[j] && t[j] == s[i]
    ensures forall k :: 0 <= k < |s| && k != i && k != j ==> t[k] == s[k]
  {
    s[i := s[j]][j := s[i]]
  }

  /** Before the loop nothing has moved. */
  lemma ArrangedAtStart(x: seq<real>, L: nat)
    requires |x| == Pow2(L)
    ensures Arranged(x, L, 1) == x
  {
    RevZero(L);
    forall k | 0 <= k < |x|
      ensures Source(k, L, 1) == k
    {
      if Rev(k, L) == 0 {
        RevInvolution(k, L);
      }
    }
  }

  /** Handling index `i` swaps positions `i` and `Rev(i)` when `i` is the
      smaller one, and changes nothing otherwise. */
  lemma ArrangedStep(x: seq<real>, L: nat, i: nat)
    requires |x| == Pow2(L) && i < |x|
    ensures Arranged(x, L, i + 1) ==
      if i < Rev(i, L) then Swap(Arranged(x, L, i), i, Rev(i, L)) else Arranged(x, L, i)
  {
    SourceStep(|x|, L, i);
  }

  /** At every stage the pass holds the same samples as its input. */
  lemma {:induction false} ArrangedSamples(x: seq<real>, L: nat, i: nat)
    requires |x| == Pow2(L) && 1 <= i <= |x|
    ensures multiset(Arranged(x, L, i)) == multiset(x)
  {
    if i == 1 {
      ArrangedAtStart(x, L);
    } else {
      var s := Arranged(x, L, i - 1);
      var t := Arranged(x, L, i);
      ArrangedSamples(x, L, i - 1);
      ArrangedStep(x, L, i - 1);
      var r := Rev(i - 1, L);
      if i - 1 < r {
        assert t == Swap(s, i - 1, r);
        SwapSamples(s, i - 1, r);
      } else {
        assert t == s;
      }
    }
  }

  /** Exchanging two samples keeps the same samples. */
  lemma SwapSamples(s: seq<real>, i: nat, j: nat)
    requires i < |s| && j < |s|
    ensures multiset(Swap(s, i, j)) == multiset(s)
  {
  }

  /** Once all indices are handled, every position holds the sample from
      its reversed index. */
  lemma ArrangedAtEnd(x: seq<real>, L: nat)
    requires |x| == Pow2(L)
    ensures forall k :: 0 <= k < |x| ==> Arranged(x, L, |x|)[k] == x[Rev(k, L)]
  {
  }

  lemma {:induction false} RevZero(L: nat)
    ensures Rev(0, L) == 0
  {
    if L > 0 {
      RevZero(L - 1);
    }
  }

  /** Handling index `i` moves only positions `i` and `Rev(i)`. */
  lemma SourceStep(n: nat, L: nat, i: nat)
    requires n == Pow2(L) && i < n
    ensures forall k :: 0 <= k < n && k != i && k != Rev(i, L) ==>
      Source(k, L, i + 1) == Source(k, L, i)
    ensures Source(i, L, i + 1) == Rev(i, L)
    ensures Rev(i, L) > i ==> Source(Rev(i, L), L, i + 1) == i && Source(Rev(i, L), L, i) == Rev(i, L) && Source(i, L, i) == i
    ensures Rev(i, L) <= i ==> Source(i, L, i) == Rev(i, L)
    ensures forall k :: 0 <= k < n ==> Source(k, L, i) < n && Source(k, L, i + 1) < n
  {
    RevInvolution(i, L);
    forall k | 0 <= k < n
      ensures Source(k, L, i) < n && Source(k, L, i + 1) < n
      ensures k != i && k != Rev(i, L) ==> Source(k, L, i + 1) == Source(k, L, i)
    {
      RevInvolution(k, L);
    }
  }
}
