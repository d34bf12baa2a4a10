/** Bytes, fixed-width integers in both byte orders, and the bit operations of the firmware code. */
module Bytes {

  newtype byte = x: int | 0 <= x < 0x100

  const TWO32: nat := 0x1_0000_0000

  function Smaller(a: nat, b: nat): nat { if a < b then a else b }

  /** `binary.LittleEndian.PutUint16(_, uint16(x))`: the low 16 bits of x. */
  function PutU16Le(x: nat): (r: seq<byte>)
    ensures |r| == 2
  {
    [(x % 0x100) as byte, (x / 0x100 % 0x100) as byte]
  }

  function GetU16Le(s: seq<byte>): (r: nat)
    requires |s| == 2
    ensures r < 0x1_0000
  {
    s[0] as nat + 0x100 * s[1] as nat
  }

  /** `binary.LittleEndian.PutUint32(_, uint32(x))`: the low 32 bits of x. */
  function PutU32Le(x: nat): (r: seq<byte>)
    ensures |r| == 4
  {
    PutU16Le(x) + PutU16Le(x / 0x1_0000)
  }

  /** `binary.LittleEndian.Uint32(s[at:])`. */
  function U32LeAt(s: seq<byte>, at: nat): (r: nat)
    requires at + 4 <= |s|
    ensures r < TWO32
  {
    s[at] as nat + 0x100 * s[at + 1] as nat + 0x1_0000 * s[at + 2] as nat + 0x100_0000 * s[at + 3] as nat
  }

  function GetU32Le(s: seq<byte>): (r: nat)
    requires |s| == 4
    ensures r < TWO32
  {
    U32LeAt(s, 0)
  }

  /** Four bytes, most significant first, as the image container writes them. */
  function PutU32Be(x: nat): (r: seq<byte>)
    ensures |r| == 4
  {
    [(x / 0x100_0000 % 0x100) as byte, (x / 0x1_0000 % 0x100) as byte, (x / 0x100 % 0x100) as byte, (x % 0x100) as byte]
  }

  function GetU32Be(s: seq<byte>): (r: nat)
    requires |s| == 4
    ensures r < TWO32
  {
    0x100_0000 * s[0] as nat + 0x1_0000 * s[1] as nat + 0x100 * s[2] as nat + s[3] as nat
  }

  lemma U16LeRoundTrip(x: nat)
    ensures GetU16Le(PutU16Le(x)) == x % 0x1_0000
  {
    var low, q := x % 0x100, x / 0x100;
    var mid, high := q % 0x100, q / 0x100;
    assert x == 0x1_0000 * high + (0x100 * mid + low);
  }

  lemma Halves(low: seq<byte>, high: seq<byte>)
    requires |low| == 2 && |high| == 2
    ensures GetU32Le(low + high) == GetU16Le(low) + 0x1_0000 * GetU16Le(high)
  {
  }

  lemma WordSplit(x: nat)
    ensures x % 0x1_0000 + 0x1_0000 * (x / 0x1_0000 % 0x1_0000) == x % TWO32
  {
    var q := x / 0x1_0000;
    assert x == TWO32 * (q / 0x1_0000) + (0x1_0000 * (q % 0x1_0000) + x % 0x1_0000);
  }

  lemma U32LeRoundTrip(x: nat)
    ensures GetU32Le(PutU32Le(x)) == x % TWO32
  {
    U16LeRoundTrip(x);
    U16LeRoundTrip(x / 0x1_0000);
    Halves(PutU16Le(x), PutU16Le(x / 0x1_0000));
    WordSplit(x);
  }

  lemma U32LeExact(x: nat)
    requires x < TWO32
    ensures GetU32Le(PutU32Le(x)) == x
  {
    U32LeRoundTrip(x);
  }

  lemma U32LeBytes(s: seq<byte>)
    requires |s| == 4
    ensures PutU32Le(GetU32Le(s)) == s
  {
    FourDigits(s[0] as nat, s[1] as nat, s[2] as nat, s[3] as nat);
  }

  lemma FourDigits(a: nat, b: nat, c: nat, d: nat)
    requires a < 0x100 && b < 0x100 && c < 0x100 && d < 0x100
    ensures var x := a + 0x100 * b + 0x1_0000 * c + 0x100_0000 * d;
            && x % 0x100 == a && x / 0x100 % 0x100 == b
            && x / 0x1_0000 % 0x100 == c && x / 0x100_0000 % 0x100 == d
  {
    var x := a + 0x100 * b + 0x1_0000 * c + 0x100_0000 * d;
    assert x / 0x100 == b + 0x100 * c + 0x1_0000 * d;
    assert x / 0x1_0000 == c + 0x100 * d;
    assert x / 0x100_0000 == d;
  }

  lemma U32BeRoundTrip(x: nat)
    requires x < TWO32
    ensures GetU32Be(PutU32Be(x)) == x
  {
    var q := x / 0x100;
    var r := q / 0x100;
    assert x / 0x1_0000 == r && x / 0x100_0000 == r / 0x100;
    assert r / 0x100 % 0x100 == r / 0x100;
  }

  lemma U32BeBytes(s: seq<byte>)
    requires |s| == 4
    ensures PutU32Be(GetU32Be(s)) == s
  {
    var a, b, c, d := s[0] as nat, s[1] as nat, s[2] as nat, s[3] as nat;
    var x := GetU32Be(s);
    assert x / 0x100 == 0x1_0000 * a + 0x100 * b + c;
    assert x / 0x1_0000 == 0x100 * a + b;
    assert x / 0x100_0000 == a;
  }

  /** The byte orders: least significant byte first, and most significant byte first. */
  lemma ByteOrders(s: seq<byte>)
    requires |s| == 4
    ensures GetU32Le([s[0], 0, 0, 0]) == s[0] as nat && GetU32Le([0, 0, 0, s[3]]) == 0x100_0000 * s[3] as nat
    ensures GetU32Be([0, 0, 0, s[3]]) == s[3] as nat && GetU32Be([s[0], 0, 0, 0]) == 0x100_0000 * s[0] as nat
    ensures PutU16Le(0x0102) == [0x02, 0x01] && PutU32Le(0x01020304) == [0x04, 0x03, 0x02, 0x01]
    ensures PutU32Be(0x01020304) == [0x01, 0x02, 0x03, 0x04]
  {
  }

  // Bit operations on unsigned words, bit by bit from the lowest.

  function And(a: nat, b: nat): (r: nat)
    ensures r <= a && r <= b
  {
    if a == 0 || b == 0 then 0
    else (if a % 2 == 1 && b % 2 == 1 then 1 else 0) + 2 * And(a / 2, b / 2)
  }

  function Or(a: nat, b: nat): nat
    decreases a + b
  {
    if a == 0 && b == 0 then 0
    else (if a % 2 == 1 || b % 2 == 1 then 1 else 0) + 2 * Or(a / 2, b / 2)
  }

  function Xor(a: nat, b: nat): nat
    decreases a + b
  {
    if a == 0 && b == 0 then 0
    else (if a % 2 == b % 2 then 0 else 1) + 2 * Xor(a / 2, b / 2)
  }

  lemma {:induction false} XorInjective(a: nat, b: nat, c: nat)
    requires Xor(a, c) == Xor(b, c) || Xor(c, a) == Xor(c, b)
    ensures a == b
    decreases a + b + c
  {
    if a + b + c > 0 {
      XorInjective(a / 2, b / 2, c / 2);
    }
  }

  lemma AndBits(a: nat, b: nat)
    ensures And(a, b) / 2 == And(a / 2, b / 2)
    ensures And(a, b) % 2 == if a % 2 == 1 && b % 2 == 1 then 1 else 0
  {
  }

  lemma OrBits(a: nat, b: nat)
    ensures Or(a, b) / 2 == Or(a / 2, b / 2)
    ensures Or(a, b) % 2 == if a % 2 == 1 || b % 2 == 1 then 1 else 0
  {
  }

  function Pow2(n: nat): nat {
    if n == 0 then 1 else 2 * Pow2(n - 1)
  }

  lemma {:induction false} OrBelow(a: nat, b: nat, n: nat)
    requires a < Pow2(n) && b < Pow2(n)
    ensures Or(a, b) < Pow2(n)
  {
    if n > 0 {
      OrBelow(a / 2, b / 2, n - 1);
    }
  }

  lemma OrByte(a: nat, b: nat)
    requires a < 0x100 && b < 0x100
    ensures Or(a, b) < 0x100
  {
    Pow2Of8();
    OrBelow(a, b, 8);
  }

  lemma Pow2Of8()
    ensures Pow2(8) == 0x100
  {
    assert Pow2(4) == 16;
  }

  /** A mask set again over a masked word with the same bits added changes nothing. */
  lemma {:induction false} MaskAbsorbs(b: nat, mask: nat, s: nat)
    ensures Or(And(Or(And(b, mask), s), mask), s) == Or(And(b, mask), s)
    decreases b + mask + s
  {
    if b + mask + s > 0 {
      MaskAbsorbs(b / 2, mask / 2, s / 2);
      AndBits(b, mask);
      OrBits(And(b, mask), s);
      AndBits(Or(And(b, mask), s), mask);
      OrBits(And(Or(And(b, mask), s), mask), s);
    }
  }

  /** Disjoint masks: what one keeps, the other drops. */
  lemma {:induction false} MaskDrops(b: nat, m: nat, s: nat, k: nat)
    requires And(m, k) == 0
    ensures And(Or(And(b, m), s), k) == And(s, k)
    decreases b + m + s + k
  {
    if b + m + s + k > 0 {
      AndBits(m, k);
      MaskDrops(b / 2, m / 2, s / 2, k / 2);
      AndBits(b, m);
      OrBits(And(b, m), s);
      AndBits(Or(And(b, m), s), k);
      AndBits(s, k);
    }
  }

  lemma {:induction false} OrZero(a: nat)
    ensures Or(a, 0) == a
  {
    if a > 0 {
      OrZero(a / 2);
    }
  }

  lemma {:induction false} MaskedOr(a: nat, m: nat, q: nat)
    ensures And(Or(And(a, m), q), m) == Or(And(a, m), And(q, m))
    decreases a + m + q
  {
    if a + m + q > 0 {
      MaskedOr(a / 2, m / 2, q / 2);
      AndBits(a, m);
      AndBits(q, m);
      OrBits(And(a, m), q);
      AndBits(Or(And(a, m), q), m);
      OrBits(And(a, m), And(q, m));
    }
  }

  /** Two masks that share no bit and cover the low n bits split every n-bit word. */
  lemma {:induction false} MasksSplit(v: nat, m: nat, k: nat, n: nat)
    requires v < Pow2(n) && m + k == Pow2(n) - 1 && And(m, k) == 0
    ensures And(v, m) + And(v, k) == v
    decreases n
  {
    if n > 0 {
      AndBits(m, k);
      assert m % 2 + k % 2 == 1;
      assert m / 2 + k / 2 == Pow2(n - 1) - 1;
      MasksSplit(v / 2, m / 2, k / 2, n - 1);
      AndBits(v, m);
      AndBits(v, k);
      assert And(v, m) == 2 * And(v / 2, m / 2) + And(v, m) % 2;
      assert And(v, k) == 2 * And(v / 2, k / 2) + And(v, k) % 2;
    }
  }

  lemma AndOdd(v: nat, m: nat)
    requires m % 2 == 1
    ensures And(v, m) == 2 * And(v / 2, m / 2) + v % 2
  {
  }

  lemma LowTwo(v: nat)
    ensures v % 4 == 2 * (v / 2 % 2) + v % 2
  {
    var q, r := v / 4, v % 4;
    assert v == 4 * q + r && v / 2 == 2 * q + r / 2;
  }

  lemma LowThree(v: nat)
    ensures v % 8 == 2 * (v / 2 % 4) + v % 2
  {
    var q, r := v / 8, v % 8;
    assert v == 8 * q + r && v / 2 == 4 * q + r / 2;
  }

  lemma LowFour(v: nat)
    ensures v % 16 == 2 * (v / 2 % 8) + v % 2
  {
    var q, r := v / 16, v % 16;
    assert v == 16 * q + r && v / 2 == 8 * q + r / 2;
  }

  lemma AndLowTwo(v: nat)
    ensures And(v, 3) == v % 4
  {
    AndOdd(v, 3);
    AndOdd(v / 2, 1);
    LowTwo(v);
  }

  lemma AndLowThree(v: nat)
    ensures And(v, 7) == v % 8
  {
    AndOdd(v, 7);
    AndLowTwo(v / 2);
    LowThree(v);
  }

  /** The low nibble of a word. */
  lemma AndLowNibble(v: nat)
    ensures And(v, 0x0F) == v % 16
  {
    AndOdd(v, 0x0F);
    AndLowThree(v / 2);
    LowFour(v);
  }

  /** What two masks without a common bit keep has no common bit. */
  lemma {:induction false} AndMasked(a: nat, m: nat, b: nat, k: nat)
    requires And(m, k) == 0
    ensures And(And(a, m), And(b, k)) == 0
    decreases a + m + b + k
  {
    if a + m + b + k > 0 {
      AndBits(m, k);
      AndMasked(a / 2, m / 2, b / 2, k / 2);
      AndBits(a, m);
      AndBits(b, k);
      AndBits(And(a, m), And(b, k));
    }
  }

  /** Words that share no bit are added by or. */
  lemma {:induction false} OrDisjoint(a: nat, b: nat)
    requires And(a, b) == 0
    ensures Or(a, b) == a + b
    decreases a + b
  {
    if a + b > 0 {
      AndBits(a, b);
      OrDisjoint(a / 2, b / 2);
    }
  }

  /** The concatenation of a list of byte strings, in order. */
  function Concat(parts: seq<seq<byte>>): (r: seq<byte>)
  {
    if parts == [] then [] else parts[0] + Concat(parts[1..])
  }
}
