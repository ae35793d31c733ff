/**
 * Polynomials over GF(2), division by x^16 + x^12 + x^5 + 1, and the shift register that divides bit by bit.
 * A polynomial is its coefficients, highest power first.
 */
module Gf2 {

  type Bits = seq<bool>

  function Zeros(n: nat): Bits {
    seq(n, _ => false)
  }

  function Ones(n: nat): Bits {
    seq(n, _ => true)
  }

  /** Addition of polynomials. */
  function Xor(a: Bits, b: Bits): (c: Bits)
    requires |a| == |b|
    ensures |c| == |a|
  {
    seq(|a|, i requires 0 <= i < |a| => a[i] != b[i])
  }

  /** The generator below its leading term: coefficients of x^15 down to x^0. */
  function Tail(): Bits {
    [false, false, false, true, false, false, false, false, false, false, true, false, false, false, false, true]
  }

  type Register = r: Bits | |r| == 16 witness Zeros(16)

  // ---------- The shift register ----------

  function Step(r: Register): Register {
    Xor(r[1..] + [false], if r[0] then Tail() else Zeros(16))
  }

  function Steps(r: Register, n: nat): Register
    decreases n
  {
    if n == 0 then r else Steps(Step(r), n - 1)
  }

  /** Take in one bit of the message. */
  function Take(r: Register, b: bool): Register {
    Step(r[0 := r[0] != b])
  }

  function TakeAll(r: Register, bits: Bits): Register {
    if bits == [] then r else Take(TakeAll(r, bits[..|bits|-1]), bits[|bits|-1])
  }

  lemma {:induction false} TakeAllSplits(r: Register, xs: Bits, ys: Bits)
    ensures TakeAll(r, xs + ys) == TakeAll(TakeAll(r, xs), ys)
  {
    if ys == [] {
      assert xs + ys == xs;
    } else {
      assert (xs + ys)[..|xs + ys|-1] == xs + ys[..|ys|-1];
      TakeAllSplits(r, xs, ys[..|ys|-1]);
    }
  }

  /** One step is linear. */
  lemma StepIsLinear(a: Register, b: Register)
    ensures Step(Xor(a, b)) == Xor(Step(a), Step(b))
  {
  }

  /** One step is injective, hence a bijection of the 2^16 registers. */
  lemma StepIsInjective(a: Register, b: Register)
    requires Step(a) == Step(b)
    ensures a == b
  {
    assert Step(a)[15] == a[0] && Step(b)[15] == b[0];
    forall i | 1 <= i < 16 ensures a[i] == b[i] {
      assert Step(a)[i-1] == (a[i] != (a[0] && Tail()[i-1]));
      assert Step(b)[i-1] == (b[i] != (b[0] && Tail()[i-1]));
    }
  }

  /** Every register has a predecessor. */
  lemma StepIsSurjective(r: Register)
    ensures exists p: Register :: Step(p) == r
  {
    var p: Register := [r[15]] + Xor(r[..15], if r[15] then Tail()[..15] else Zeros(15));
    assert Step(p) == r;
  }

  lemma {:induction false} StepsAreLinear(a: Register, b: Register, n: nat)
    ensures Steps(Xor(a, b), n) == Xor(Steps(a, n), Steps(b, n))
    decreases n
  {
    if n > 0 {
      StepIsLinear(a, b);
      StepsAreLinear(Step(a), Step(b), n - 1);
    }
  }

  lemma {:induction false} StepsAreInjective(a: Register, b: Register, n: nat)
    requires Steps(a, n) == Steps(b, n)
    ensures a == b
    decreases n
  {
    if n > 0 {
      StepsAreInjective(Step(a), Step(b), n - 1);
      StepIsInjective(a, b);
    }
  }

  lemma TakeIsInjective(a: Register, b: Register, bit: bool)
    requires Take(a, bit) == Take(b, bit)
    ensures a == b
  {
    var c, d := a[0 := a[0] != bit], b[0 := b[0] != bit];
    StepIsInjective(c, d);
    assert forall i | 1 <= i < 16 :: a[i] == c[i] && b[i] == d[i];
    assert c[0] == d[0];
  }

  lemma {:induction false} TakeAllIsInjective(a: Register, b: Register, bits: Bits)
    requires TakeAll(a, bits) == TakeAll(b, bits)
    ensures a == b
  {
    if bits != [] {
      var p := bits[..|bits|-1];
      TakeIsInjective(TakeAll(a, p), TakeAll(b, p), bits[|bits|-1]);
      TakeAllIsInjective(a, b, p);
    }
  }

  lemma FirstBitMoves(r: Register, b: bool, rest: Bits)
    requires |rest| == 15
    ensures Xor(r, [b] + rest) == Xor(r[0 := r[0] != b], [false] + rest)
  {
  }

  lemma StepWithoutTop(rest: Bits)
    requires |rest| == 15
    ensures Step([false] + rest) == rest + [false]
  {
    assert ([false] + rest)[1..] == rest;
  }

  lemma TakeOne(r: Register, b: bool)
    ensures TakeAll(r, [b]) == Take(r, b)
  {
    assert [b][..0] == [];
  }

  /** Up to sixteen bits may be added to the register at once, before the shifts. */
  lemma {:induction false} TakeAtOnce(r: Register, bits: Bits)
    requires |bits| <= 16
    ensures TakeAll(r, bits) == Steps(Xor(r, bits + Zeros(16 - |bits|)), |bits|)
    decreases bits
  {
    if bits == [] {
      assert Xor(r, [] + Zeros(16)) == r;
    } else {
      var b, rest := bits[0], bits[1..];
      var padded := rest + Zeros(16 - |bits|);
      assert bits + Zeros(16 - |bits|) == [b] + padded;
      FirstBitMoves(r, b, padded);
      StepIsLinear(r[0 := r[0] != b], [false] + padded);
      StepWithoutTop(padded);
      assert padded + [false] == rest + Zeros(16 - |rest|);
      assert bits == [b] + rest;
      TakeAllSplits(r, [b], rest);
      TakeOne(r, b);
      TakeAtOnce(Take(r, b), rest);
    }
  }

  /** Bursts of at most sixteen bits that leave the same register are equal. */
  lemma ShortIsInjective(r: Register, m: Bits, n: Bits)
    requires |m| == |n| <= 16 && TakeAll(r, m) == TakeAll(r, n)
    ensures m == n
  {
    TakeAtOnce(r, m);
    TakeAtOnce(r, n);
    var x, y := m + Zeros(16 - |m|), n + Zeros(16 - |n|);
    StepsAreInjective(Xor(r, x), Xor(r, y), |m|);
    forall i | 0 <= i < |m| ensures m[i] == n[i] {
      assert Xor(r, x)[i] == (r[i] != m[i]) && Xor(r, y)[i] == (r[i] != n[i]);
    }
  }

  /** Messages that differ only within sixteen consecutive bits leave different registers. */
  lemma BurstsAreDetected(r: Register, head: Bits, m: Bits, n: Bits, tail: Bits)
    requires |m| == |n| <= 16 && m != n
    ensures TakeAll(r, head + m + tail) != TakeAll(r, head + n + tail)
  {
    TakeAllSplits(r, head + m, tail);
    TakeAllSplits(r, head + n, tail);
    TakeAllSplits(r, head, m);
    TakeAllSplits(r, head, n);
    var t := TakeAll(r, head);
    if TakeAll(r, head + m + tail) == TakeAll(r, head + n + tail) {
      TakeAllIsInjective(TakeAll(t, m), TakeAll(t, n), tail);
      ShortIsInjective(t, m, n);
    }
  }

  // ---------- Division ----------

  /** A bit times the generator. */
  function Leading(c: bool): (g: Bits)
    ensures |g| == 17
  {
    if c then [true] + Tail() else Zeros(17)
  }

  /** m x + c g: one step of Horner's rule. */
  function Grown(m: Bits, c: bool): (p: Bits)
    requires |m| >= 16
    ensures |p| == |m| + 1
  {
    Xor(m + [false], Zeros(|m| - 16) + Leading(c))
  }

  /** The product of q and the generator, by Horner's rule. */
  function TimesGenerator(q: Bits): (p: Bits)
    ensures |p| == |q| + 16
  {
    if q == [] then Zeros(16) else Grown(TimesGenerator(q[..|q|-1]), q[|q|-1])
  }

  lemma TimesGrows(p: Bits, c: bool)
    ensures TimesGenerator(p + [c]) == Grown(TimesGenerator(p), c)
  {
    assert (p + [c])[..|p|] == p;
  }

  lemma GrownAt(m: Bits, c: bool, i: nat)
    requires |m| >= 16 && i <= |m|
    ensures Grown(m, c)[i] ==
            if i < |m| - 16 then m[i]
            else if i < |m| then m[i] != Leading(c)[i - (|m| - 16)]
            else Leading(c)[16]
  {
  }

  /** r is a remainder of a: their difference is a multiple of the generator. */
  ghost predicate IsRemainder(a: Bits, r: Register)
    requires |a| >= 16
  {
    exists q: Bits :: |q| == |a| - 16 && a == Xor(TimesGenerator(q), Zeros(|q|) + r)
  }

  /** message times x^16, with the initial register added to the top sixteen coefficients. */
  function Augmented(initial: Register, bits: Bits): (a: Bits)
    ensures |a| == |bits| + 16
  {
    Xor(bits + Zeros(16), initial + Zeros(|bits|))
  }

  /** The quotient the register leaves behind. */
  function Quotient(initial: Register, bits: Bits): (q: Bits)
    ensures |q| == |bits|
  {
    if bits == [] then []
    else
      var n := |bits| - 1;
      Quotient(initial, bits[..n]) + [TakeAll(initial, bits[..n])[0] != bits[n]]
  }

  /** One more bit: multiply by x and add the bit at x^16. */
  lemma AugmentedGrows(initial: Register, p: Bits, b: bool)
    ensures Augmented(initial, p + [b]) == Xor(Augmented(initial, p) + [false], Zeros(|p|) + [b] + Zeros(16))
  {
    var lhs, rhs := Augmented(initial, p + [b]), Xor(Augmented(initial, p) + [false], Zeros(|p|) + [b] + Zeros(16));
    forall i | 0 <= i < |lhs| ensures lhs[i] == rhs[i] {
      if i < |p| {
      } else if i == |p| {
      } else if i < |p| + 16 {
      } else {
      }
    }
  }

  lemma TakenAt(r: Register, b: bool, i: nat)
    requires i < 16
    ensures Take(r, b)[i] == ((i < 15 && r[i + 1]) != Leading(r[0] != b)[i + 1])
  {
  }

  lemma SumAt(m: Bits, n: nat, r: Register, i: nat)
    requires |m| == n + 16 && i < |m|
    ensures Xor(m, Zeros(n) + r)[i] == (m[i] != (i >= n && r[i - n]))
  {
  }

  lemma BitAddedAt(m: Bits, n: nat, b: bool, i: nat)
    requires |m| == n + 16 && i <= |m|
    ensures Xor(m + [false], Zeros(n) + [b] + Zeros(16))[i] == ((i < |m| && m[i]) != (i == n && b))
  {
  }

  /** One step of long division: the register takes the bit, the quotient its top coefficient. */
  lemma DivideOne(m: Bits, n: nat, r: Register, b: bool)
    requires |m| == n + 16
    ensures Xor(Xor(m, Zeros(n) + r) + [false], Zeros(n) + [b] + Zeros(16)) ==
            Xor(Grown(m, r[0] != b), Zeros(n + 1) + Take(r, b))
  {
    var c := r[0] != b;
    var lhs := Xor(Xor(m, Zeros(n) + r) + [false], Zeros(n) + [b] + Zeros(16));
    var rhs := Xor(Grown(m, c), Zeros(n + 1) + Take(r, b));
    forall i: nat | i < n + 17 ensures lhs[i] == rhs[i] {
      BitAddedAt(Xor(m, Zeros(n) + r), n, b, i);
      SumAt(Grown(m, c), n + 1, Take(r, b), i);
      GrownAt(m, c, i);
      if i < n + 16 {
        SumAt(m, n, r, i);
      }
      if i > n {
        TakenAt(r, b, i - n - 1);
      }
    }
  }

  lemma QuotientGrows(initial: Register, p: Bits, b: bool)
    ensures Quotient(initial, p + [b]) == Quotient(initial, p) + [TakeAll(initial, p)[0] != b]
    ensures TakeAll(initial, p + [b]) == Take(TakeAll(initial, p), b)
  {
    assert (p + [b])[..|p|] == p;
  }

  /** One more bit keeps the message equal to quotient times generator plus register. */
  lemma DivideMore(initial: Register, p: Bits, b: bool, q: Bits, r: Register)
    requires q == Quotient(initial, p) && r == TakeAll(initial, p)
    requires Augmented(initial, p) == Xor(TimesGenerator(q), Zeros(|p|) + r)
    ensures Augmented(initial, p + [b]) == Xor(TimesGenerator(q + [r[0] != b]), Zeros(|p| + 1) + Take(r, b))
  {
    AugmentedGrows(initial, p, b);
    DivideOne(TimesGenerator(q), |p|, r, b);
    TimesGrows(q, r[0] != b);
  }

  lemma {:induction false} RegisterDivides(initial: Register, bits: Bits)
    ensures Augmented(initial, bits) ==
            Xor(TimesGenerator(Quotient(initial, bits)), Zeros(|bits|) + TakeAll(initial, bits))
  {
    if bits == [] {
      assert Augmented(initial, []) == initial;
      assert Xor(Zeros(16), Zeros(0) + initial) == initial;
    } else {
      var p, b := bits[..|bits|-1], bits[|bits|-1];
      assert bits == p + [b];
      RegisterDivides(initial, p);
      QuotientGrows(initial, p, b);
      DivideMore(initial, p, b, Quotient(initial, p), TakeAll(initial, p));
    }
  }

  ghost predicate Vanishes(m: Bits, n: nat)
    requires n <= |m|
  {
    forall i | 0 <= i < n :: !m[i]
  }

  lemma GrowNothing(m: Bits)
    requires |m| >= 16 && Vanishes(m, |m|)
    ensures Vanishes(Grown(m, false), |m| + 1)
  {
    forall i: nat | i <= |m| ensures !Grown(m, false)[i] {
      GrownAt(m, false, i);
    }
  }

  lemma VanishesBefore(m: Bits, c: bool)
    requires |m| >= 16 && Vanishes(Grown(m, c), |m| - 15)
    ensures Vanishes(m, |m| - 16)
    ensures !m[|m|-16] ==> !c
  {
    forall i: nat | i < |m| - 16 ensures !m[i] {
      GrownAt(m, c, i);
    }
    GrownAt(m, c, |m| - 16);
    assert Leading(c)[0] == c;
    assert !Grown(m, c)[|m|-16];
  }

  /** A multiple of the generator whose coefficients vanish above x^15 is zero. */
  lemma {:induction false} SmallMultipleIsZero(q: Bits)
    requires Vanishes(TimesGenerator(q), |q|)
    ensures Vanishes(TimesGenerator(q), |q| + 16)
  {
    if q != [] {
      var p, c := q[..|q|-1], q[|q|-1];
      assert q == p + [c];
      TimesGrows(p, c);
      VanishesBefore(TimesGenerator(p), c);
      SmallMultipleIsZero(p);
      GrowNothing(TimesGenerator(p));
    }
  }

  lemma GrownIsLinear(m: Bits, u: Bits, c: bool, d: bool)
    requires |m| == |u| >= 16
    ensures Grown(Xor(m, u), c != d) == Xor(Grown(m, c), Grown(u, d))
  {
    forall i: nat | i <= |m| ensures Grown(Xor(m, u), c != d)[i] == Xor(Grown(m, c), Grown(u, d))[i] {
      GrownAt(Xor(m, u), c != d, i);
      GrownAt(m, c, i);
      GrownAt(u, d, i);
      assert forall k | 0 <= k < 17 :: Leading(c != d)[k] == (Leading(c)[k] != Leading(d)[k]);
    }
  }

  lemma {:induction false} TimesIsLinear(q: Bits, t: Bits)
    requires |q| == |t|
    ensures TimesGenerator(Xor(q, t)) == Xor(TimesGenerator(q), TimesGenerator(t))
  {
    if q != [] {
      var n := |q| - 1;
      TimesIsLinear(q[..n], t[..n]);
      assert Xor(q, t)[..n] == Xor(q[..n], t[..n]);
      GrownIsLinear(TimesGenerator(q[..n]), TimesGenerator(t[..n]), q[n], t[n]);
    }
  }

  lemma SumsCancel(x: Bits, y: Bits, u: Bits, v: Bits)
    requires |x| == |y| == |u| == |v| && Xor(x, y) == Xor(u, v)
    ensures Xor(x, u) == Xor(y, v)
  {
    forall i | 0 <= i < |x| ensures (x[i] != u[i]) == (y[i] != v[i]) {
      assert Xor(x, y)[i] == Xor(u, v)[i];
    }
  }

  lemma DifferenceAt(n: nat, r: Register, t: Register, i: nat)
    requires i < n + 16
    ensures Xor(Zeros(n) + r, Zeros(n) + t)[i] == (i >= n && r[i - n] != t[i - n])
  {
  }

  lemma DifferenceBelow(d: Bits, n: nat, r: Register, t: Register)
    requires |d| == n + 16 && d == Xor(Zeros(n) + r, Zeros(n) + t)
    ensures Vanishes(d, n)
  {
    forall i: nat | i < n ensures !d[i] {
      DifferenceAt(n, r, t, i);
    }
  }

  lemma NoDifference(d: Bits, n: nat, r: Register, t: Register)
    requires |d| == n + 16 && d == Xor(Zeros(n) + r, Zeros(n) + t) && Vanishes(d, n + 16)
    ensures r == t
  {
    forall i: nat | i < 16 ensures r[i] == t[i] {
      DifferenceAt(n, r, t, n + i);
    }
  }

  /** Remainders are unique. */
  lemma RemainderIsUnique(a: Bits, r: Register, t: Register)
    requires |a| >= 16 && IsRemainder(a, r) && IsRemainder(a, t)
    ensures r == t
  {
    var n := |a| - 16;
    var q: Bits :| |q| == n && a == Xor(TimesGenerator(q), Zeros(n) + r);
    var u: Bits :| |u| == n && a == Xor(TimesGenerator(u), Zeros(n) + t);
    SumsCancel(TimesGenerator(q), Zeros(n) + r, TimesGenerator(u), Zeros(n) + t);
    TimesIsLinear(q, u);
    var d := TimesGenerator(Xor(q, u));
    DifferenceBelow(d, n, r, t);
    SmallMultipleIsZero(Xor(q, u));
    NoDifference(d, n, r, t);
  }

  /** What the register holds after a message is the one remainder of the augmented message. */
  lemma RegisterIsTheRemainder(initial: Register, bits: Bits, r: Register)
    ensures IsRemainder(Augmented(initial, bits), r) <==> r == TakeAll(initial, bits)
  {
    RegisterDivides(initial, bits);
    assert |Quotient(initial, bits)| == |Augmented(initial, bits)| - 16;
    assert IsRemainder(Augmented(initial, bits), TakeAll(initial, bits));
    if IsRemainder(Augmented(initial, bits), r) {
      RemainderIsUnique(Augmented(initial, bits), r, TakeAll(initial, bits));
    }
  }
}
