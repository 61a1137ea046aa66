/** Colour masks on 32-bit words: the field under a mask and its scaling to a byte. */
module DibMasks {
  import opened Wrappers

  type Word = w: int | 0 <= w < 0x1_0000_0000

  // ---------- bits ----------

  /** Bitwise and. */
  function And(x: nat, y: nat): (r: nat)
    ensures r <= x && r <= y
  {
    if x == 0 || y == 0 then 0
    else 2 * And(x / 2, y / 2) + if x % 2 == 1 && y % 2 == 1 then 1 else 0
  }

  /** Shifting right is halving, once for each place. */
  function Shift(v: nat, places: nat): (r: nat)
    ensures r <= v
  {
    if places == 0 then v else Shift(v / 2, places - 1)
  }

  /** The number whose binary digits are `n` ones. */
  function Ones(n: nat): (r: nat)
    ensures r >= n
  {
    if n == 0 then 0 else 2 * Ones(n - 1) + 1
  }

  function TrailingZeros(mask: nat): nat
    requires mask > 0
  {
    if mask % 2 == 1 then 0 else 1 + TrailingZeros(mask / 2)
  }

  function OnesCount(mask: nat): (n: nat)
    ensures mask > 0 ==> n > 0
  {
    if mask == 0 then 0 else mask % 2 + OnesCount(mask / 2)
  }

  /** The product is one of 32-bit words, and the byte is what is left of the quotient or the shift. */
  function ScaleMask(v: Word, mask: Word): Byte {
    if mask == 0 then 0
    else
      var n := OnesCount(mask);
      var raw := Shift(And(v, mask), TrailingZeros(mask));
      if n >= 8 then Shift(raw, n - 8) % 256
      else raw * 255 % 0x1_0000_0000 / Ones(n) % 256
  }

  // ---------- masks without gaps ----------

  /** `n` ones above `s` zeros. */
  function Run(s: nat, n: nat): nat
    decreases s + n
  {
    if s > 0 then 2 * Run(s - 1, n) else Ones(n)
  }

  /** The value of the lowest `n` bits. */
  function Low(v: nat, n: nat): nat {
    if n == 0 then 0 else 2 * Low(v / 2, n - 1) + v % 2
  }

  /** The value of the bits of `v` under the run. */
  function Field(v: nat, s: nat, n: nat): nat {
    Low(Shift(v, s), n)
  }

  lemma DoubleShape(m: nat)
    requires m > 0
    ensures TrailingZeros(2 * m) == TrailingZeros(m) + 1 && OnesCount(2 * m) == OnesCount(m)
  {
    var d := 2 * m;
    assert d % 2 == 0 && d / 2 == m;
  }

  lemma {:induction false} RunShape(s: nat, n: nat)
    requires n > 0
    ensures Run(s, n) > 0 && TrailingZeros(Run(s, n)) == s && OnesCount(Run(s, n)) == n
    decreases s
  {
    if s > 0 {
      RunShape(s - 1, n);
      DoubleShape(Run(s - 1, n));
    } else {
      OnesCounted(n);
      OnesIsOdd(n);
    }
  }

  lemma OnesIsOdd(n: nat)
    requires n > 0
    ensures Ones(n) > 0 && Ones(n) % 2 == 1 && TrailingZeros(Ones(n)) == 0
  {
  }

  lemma {:induction false} OnesCounted(n: nat)
    ensures OnesCount(Ones(n)) == n
  {
    if n > 0 {
      OnesCounted(n - 1);
      assert Ones(n) / 2 == Ones(n - 1) && Ones(n) % 2 == 1;
    }
  }

  lemma {:induction false} AndOnes(v: nat, n: nat)
    ensures And(v, Ones(n)) == Low(v, n)
    decreases n
  {
    if n > 0 {
      AndOnes(v / 2, n - 1);
      assert Ones(n) / 2 == Ones(n - 1);
      if v == 0 {
        LowOfZero(n);
      }
    }
  }

  lemma {:induction false} LowOfZero(n: nat)
    ensures Low(0, n) == 0
  {
    if n > 0 {
      LowOfZero(n - 1);
    }
  }

  lemma {:induction false} ShiftOfZero(s: nat)
    ensures Shift(0, s) == 0
  {
    if s > 0 {
      ShiftOfZero(s - 1);
    }
  }

  lemma AndDouble(v: nat, mask: nat)
    ensures And(v, 2 * mask) == 2 * And(v / 2, mask)
  {
    assert 2 * mask / 2 == mask && 2 * mask % 2 == 0;
  }

  /** What stands under a run, shifted down, is the field. */
  lemma {:induction false} AndRun(v: nat, s: nat, n: nat)
    requires n > 0
    ensures Shift(And(v, Run(s, n)), s) == Field(v, s, n)
    decreases s
  {
    if s == 0 {
      AndOnes(v, n);
    } else {
      AndRun(v / 2, s - 1, n);
      AndDouble(v, Run(s - 1, n));
      var under := And(v / 2, Run(s - 1, n));
      assert Shift(2 * under, s) == Shift(under, s - 1);
    }
  }

  lemma {:induction false} LowBound(v: nat, n: nat)
    ensures Low(v, n) <= Ones(n)
  {
    if n > 0 {
      LowBound(v / 2, n - 1);
    }
  }

  lemma {:induction false} ShiftMonotone(a: nat, b: nat, s: nat)
    requires a <= b
    ensures Shift(a, s) <= Shift(b, s)
  {
    if s > 0 {
      ShiftMonotone(a / 2, b / 2, s - 1);
    }
  }

  lemma {:induction false} ShiftOfOnes(n: nat, s: nat)
    requires s <= n
    ensures Shift(Ones(n), s) == Ones(n - s)
  {
    if s > 0 {
      assert Ones(n) / 2 == Ones(n - 1);
      ShiftOfOnes(n - 1, s - 1);
    }
  }

  /** A field of `n` bits as a byte. */
  function Scaled(f: nat, n: nat): int
    requires n > 0
  {
    if n >= 8 then Shift(f, n - 8) else f * 255 / Ones(n)
  }

  lemma OnesTable()
    ensures Ones(1) == 1 && Ones(2) == 3 && Ones(3) == 7 && Ones(4) == 15
    ensures Ones(5) == 31 && Ones(6) == 63 && Ones(7) == 127 && Ones(8) == 255
  {
  }

  lemma DivMonotone(x: nat, y: nat, d: nat)
    requires d > 0 && x <= y
    ensures x / d <= y / d
  {
    var a, b := x / d, y / d;
    assert x == d * a + x % d && y == d * b + y % d;
    if a > b {
      TimesMore(d, a, b);
    }
  }

  lemma TimesMore(d: nat, a: nat, b: nat)
    requires a > b
    ensures d * a >= d * b + d
  {
    assert d * a == d * b + d * (a - b);
    assert d * (a - b) == d * (a - b - 1) + d;
  }

  lemma DivExact(q: nat, d: nat)
    requires d > 0
    ensures d * q / d == q
  {
    var a := d * q / d;
    assert d * q == d * a + d * q % d;
    if a > q {
      TimesMore(d, a, q);
    } else if q > a {
      TimesMore(d, q, a);
    }
  }

  lemma ScaledShort(f: nat, g: nat, n: nat)
    requires 0 < n < 8 && f <= g <= Ones(n)
    ensures Scaled(f, n) <= Scaled(g, n) <= 255 && Scaled(0, n) == 0 && Scaled(Ones(n), n) == 255
  {
    DivMonotone(f * 255, g * 255, Ones(n));
    DivMonotone(g * 255, Ones(n) * 255, Ones(n));
    DivExact(255, Ones(n));
    DivExact(0, Ones(n));
  }

  /** Scaling is monotone, takes nothing to 0 and everything to 255. */
  lemma ScaledMonotone(f: nat, g: nat, n: nat)
    requires n > 0 && f <= g <= Ones(n)
    ensures Scaled(f, n) <= Scaled(g, n) <= 255 && Scaled(0, n) == 0 && Scaled(Ones(n), n) == 255
  {
    if n < 8 {
      ScaledShort(f, g, n);
    } else {
      OnesTable();
      ShiftMonotone(f, g, n - 8);
      ShiftMonotone(g, Ones(n), n - 8);
      ShiftOfOnes(n, n - 8);
      ShiftOfZero(n - 8);
    }
  }

  /** A field of less than eight bits does not overflow the word when it is multiplied. */
  lemma NoOverflow(f: nat, n: nat)
    requires 0 < n < 8 && f <= Ones(n)
    ensures f * 255 % 0x1_0000_0000 / Ones(n) % 256 == Scaled(f, n)
  {
    OnesTable();
    assert Ones(n) <= 127;
    ScaledShort(f, f, n);
    ByteOfSmall(f * 255, Ones(n));
  }

  lemma ByteOfSmall(x: nat, d: nat)
    requires x < 0x1_0000_0000 && d > 0 && x / d <= 255
    ensures x % 0x1_0000_0000 / d % 256 == x / d
  {
    assert x % 0x1_0000_0000 == x;
    var q := x / d;
    assert q % 256 == q;
  }

  /** For a mask without gaps the scaled mask is the scaled field. */
  lemma ScaleMaskOfRun(v: Word, mask: Word, s: nat, n: nat)
    requires n > 0 && mask == Run(s, n)
    ensures Field(v, s, n) <= Ones(n) && ScaleMask(v, mask) == Scaled(Field(v, s, n), n)
  {
    RunShape(s, n);
    AndRun(v, s, n);
    LowBound(Shift(v, s), n);
    if n < 8 {
      NoOverflow(Field(v, s, n), n);
    } else {
      ScaledMonotone(Field(v, s, n), Field(v, s, n), n);
    }
  }

  /**
   For every mask without gaps scaling is monotone in the field, takes the empty field to 0 and the full
   one to 255.
   */
  lemma ScaleMaskMonotone(v: Word, w: Word, mask: Word, s: nat, n: nat)
    requires n > 0 && mask == Run(s, n)
    ensures Field(v, s, n) <= Field(w, s, n) ==> ScaleMask(v, mask) <= ScaleMask(w, mask)
    ensures Field(v, s, n) == 0 ==> ScaleMask(v, mask) == 0
    ensures Field(v, s, n) == Ones(n) ==> ScaleMask(v, mask) == 255
  {
    ScaleMaskOfRun(v, mask, s, n);
    ScaleMaskOfRun(w, mask, s, n);
    var f, g := Field(v, s, n), Field(w, s, n);
    if f <= g {
      ScaledMonotone(f, g, n);
    } else {
      ScaledMonotone(f, f, n);
    }
  }

  // ---------- masks with gaps ----------

  /** The bit of `v` at place `i`. */
  function Bit(v: nat, i: nat): nat {
    Shift(v, i) % 2
  }

  lemma {:induction false} ShiftTwice(v: nat, a: nat, b: nat)
    ensures Shift(Shift(v, a), b) == Shift(v, a + b)
    decreases a
  {
    if a > 0 {
      ShiftTwice(v / 2, a - 1, b);
    }
  }

  /** The lowest `n` bits are all ones exactly when each of them is. */
  lemma {:induction false} AllOnes(x: nat, n: nat)
    ensures Low(x, n) == Ones(n) <==> forall i :: 0 <= i < n ==> Bit(x, i) == 1
    decreases n
  {
    if n > 0 {
      AllOnes(x / 2, n - 1);
      LowBound(x / 2, n - 1);
      assert forall i :: 0 < i < n ==> Bit(x, i) == Bit(x / 2, i - 1);
      assert Bit(x, 0) == x % 2;
      if forall i :: 0 <= i < n ==> Bit(x, i) == 1 {
        forall i | 0 <= i < n - 1 ensures Bit(x / 2, i) == 1 {
          assert Bit(x, i + 1) == 1;
        }
      }
    }
  }

  lemma Doubled(p: int, q: int)
    ensures (2 * p) * q == 2 * (p * q)
  {
  }

  lemma {:induction false} LowIsRest(x: nat, n: nat) returns (q: nat)
    ensures x == (Ones(n) + 1) * q + Low(x, n)
    decreases n
  {
    if n == 0 {
      q := x;
    } else {
      q := LowIsRest(x / 2, n - 1);
      Doubled(Ones(n - 1) + 1, q);
      assert Ones(n) + 1 == 2 * (Ones(n - 1) + 1);
    }
  }

  lemma LowByte(x: nat)
    ensures Low(x, 8) == x % 256
  {
    OnesTable();
    LowBound(x, 8);
    var q := LowIsRest(x, 8);
  }

  /** A number in base `d`, and its quotient in base 256. */
  lemma Digits(x: nat, d: nat) returns (h: nat, l: nat, r: nat)
    requires d > 0
    ensures x == (256 * d) * h + (d * l + r) && r < d && l < 256 && x / d % 256 == l
  {
    var q := x / d;
    h, l, r := q / 256, q % 256, x % d;
    assert x == d * q + r && q == 256 * h + l;
    Regroup(d, h, l);
  }

  lemma DigitBound(d: nat, l: nat, r: nat)
    requires l < 256 && r < d
    ensures 0 <= d * l + r < 256 * d && (d * l + r >= 255 * d <==> l == 255)
  {
    if l < 255 {
      TimesMore(d, 255, l);
    }
    assert 255 * d == d * 255;
    assert 0 <= d * l;
  }

  /** The byte of a quotient is the last one exactly when the remainder by 256 divisors is in the last divisor. */
  lemma LastByte(x: nat, d: nat)
    requires d > 0
    ensures x / d % 256 == 255 <==> x % (256 * d) >= 255 * d
  {
    var h, l, r := Digits(x, d);
    DigitBound(d, l, r);
    RemainderIs(x, 256 * d, h, d * l + r);
  }

  lemma Regroup(d: int, h: int, l: int)
    ensures d * (256 * h + l) == (256 * d) * h + d * l
  {
  }

  lemma RemainderIs(x: nat, d: nat, q: nat, r: nat)
    requires x == d * q + r && r < d
    ensures x % d == r
  {
    var a, b := x / d, x % d;
    assert x == d * a + b;
    if a > q {
      TimesMore(d, a, q);
    } else if q > a {
      TimesMore(d, q, a);
    }
  }

  lemma BitsAbove(m: nat, from: nat, n: nat)
    ensures (forall i :: 0 <= i < n ==> Bit(Shift(m, from), i) == 1) <==> forall i :: from <= i < from + n ==> Bit(m, i) == 1
  {
    forall i | 0 <= i < n ensures Bit(Shift(m, from), i) == Bit(m, from + i) {
      ShiftTwice(m, from, i);
    }
    if forall i :: 0 <= i < n ==> Bit(Shift(m, from), i) == 1 {
      forall i | from <= i < from + n ensures Bit(m, i) == 1 {
        assert Bit(Shift(m, from), i - from) == Bit(m, from + (i - from));
      }
    }
  }

  /** The eight places that are kept of `n` ones are ones. */
  ghost predicate KeepsOnes(m: nat, n: nat) {
    forall i :: 0 <= n - 8 <= i < n ==> Bit(m, i) == 1
  }

  lemma FullLong(m: nat, n: nat)
    requires n >= 8
    ensures Shift(m, n - 8) % 256 == 255 <==> KeepsOnes(m, n)
  {
    var x := Shift(m, n - 8);
    OnesTable();
    LowByte(x);
    AllOnes(x, 8);
    BitsAbove(m, n - 8, 8);
  }

  /**
   For every mask, gaps or none, all bits under it scale to 255 exactly when, with the mask shifted down
   to bit 0: of eight ones or more, the eight places that are kept are all ones; of fewer, the product
   leaves a remainder in the last of 256 divisors.
   */
  lemma FullIff(v: Word, mask: Word)
    requires mask > 0 && And(v, mask) == mask
    ensures var n, m := OnesCount(mask), Shift(mask, TrailingZeros(mask));
      ScaleMask(v, mask) == 255 <==>
      if n >= 8 then KeepsOnes(m, n)
      else m * 255 % 0x1_0000_0000 % (256 * Ones(n)) >= 255 * Ones(n)
  {
    var n, m := OnesCount(mask), Shift(mask, TrailingZeros(mask));
    ScaleOfFull(v, mask, n, m);
    if n >= 8 {
      FullLong(m, n);
    } else {
      FullShort(m, n);
    }
  }

  lemma ScaleOfFull(v: Word, mask: Word, n: nat, m: nat)
    requires mask > 0 && And(v, mask) == mask && n == OnesCount(mask) && m == Shift(mask, TrailingZeros(mask))
    ensures n > 0
    ensures ScaleMask(v, mask) as int == if n >= 8 then Shift(m, n - 8) % 256 else m * 255 % 0x1_0000_0000 / Ones(n) % 256
  {
  }

  lemma FullShort(m: nat, n: nat)
    requires n > 0
    ensures m * 255 % 0x1_0000_0000 / Ones(n) % 256 == 255 <==> m * 255 % 0x1_0000_0000 % (256 * Ones(n)) >= 255 * Ones(n)
  {
    LastByte(m * 255 % 0x1_0000_0000, Ones(n));
  }

  lemma {:induction false} AndSelf(v: nat)
    ensures And(v, v) == v
  {
    if v > 0 {
      AndSelf(v / 2);
    }
  }

  lemma ScaleOfShort(mask: Word, n: nat)
    requires mask % 2 == 1 && OnesCount(mask) == n < 8 && mask * 255 < 0x1_0000_0000
    ensures And(mask, mask) == mask && ScaleMask(mask, mask) == mask * 255 / Ones(n) % 256
  {
    AndSelf(mask);
    assert mask * 255 % 0x1_0000_0000 == mask * 255;
  }

  lemma GapAtTwo()
    ensures And(0x5, 0x5) == 0x5 && ScaleMask(0x5, 0x5) == 169
  {
    OnesTable();
    assert OnesCount(1) == 1 && OnesCount(2) == 1 && OnesCount(5) == 2;
    ScaleOfShort(0x5, 2);
  }

  /** Gaps decide nothing by themselves: 101 does not scale to 255, and 1001111101 does. */
  lemma GapsEitherWay()
    ensures And(0x5, 0x5) == 0x5 && ScaleMask(0x5, 0x5) == 169
    ensures And(0x27d, 0x27d) == 0x27d && ScaleMask(0x27d, 0x27d) == 255
  {
    OnesTable();
    GapAtTwo();
    assert OnesCount(4) == 1 && OnesCount(9) == 2 && OnesCount(19) == 3 && OnesCount(39) == 4;
    assert OnesCount(79) == 5 && OnesCount(159) == 6 && OnesCount(318) == 6 && OnesCount(637) == 7;
    ScaleOfShort(0x27d, 7);
  }
}
