/**
 What the checksum is, said without the shift register: the remainder of dividing the message by
 x^16 + x^12 + x^5 + 1 over GF(2), the message being shifted by 16 places and the 16 leading places
 of what results inverted.
 */
module Crc16Division {
  import opened Bytes
  import opened Crc16

  /** A polynomial over GF(2): the coefficient of x^0 first. */
  type Poly = seq<bool>

  function Coef(p: Poly, i: int): bool {
    0 <= i < |p| && p[i]
  }

  ghost predicate Same(p: Poly, q: Poly) {
    forall i: nat :: Coef(p, i) == Coef(q, i)
  }

  function Plus(p: Poly, q: Poly): Poly {
    seq(if |p| > |q| then |p| else |q|, i => Coef(p, i) != Coef(q, i))
  }

  /** Multiplication by x^k. */
  function Shift(p: Poly, k: nat): Poly {
    seq(k, i => false) + p
  }

  function Times(p: Poly, q: Poly): Poly {
    if p == [] then [] else Plus(if p[0] then q else [], Shift(Times(p[1..], q), 1))
  }

  function Generator(): Poly {
    seq(17, i => i == 0 || i == 5 || i == 12 || i == 16)
  }

  /** Bit `b` of a number. */
  function Bit(n: nat, b: nat): bool {
    if b == 0 then n % 2 == 1 else Bit(n / 2, b - 1)
  }

  /** A message as a polynomial: the last bit of the last byte is the coefficient of x^0. */
  function Message(s: Bytes): Poly {
    seq(8 * |s|, i requires 0 <= i < 8 * |s| => Bit(s[|s| - 1 - i / 8], i % 8))
  }

  function Number(v: nat): Poly {
    seq(16, i requires 0 <= i < 16 => Bit(v, i))
  }

  /** Dividing the shifted message with its leading 16 places inverted leaves `v`. */
  ghost predicate Leaves(s: Bytes, quotient: Poly, v: nat) {
    Same(Plus(Times(quotient, Generator()), Number(v)), Plus(Shift(Message(s), 16), Shift(ONES, 8 * |s|)))
  }

  // ------------------------------------------------------------- coefficients

  lemma PlusCoef(p: Poly, q: Poly, i: nat)
    ensures Coef(Plus(p, q), i) == (Coef(p, i) != Coef(q, i))
  {
  }

  lemma ShiftCoef(p: Poly, k: nat, i: nat)
    ensures Coef(Shift(p, k), i) == Coef(p, i - k)
  {
  }

  function Tail(p: Poly): Poly {
    if p == [] then [] else p[1..]
  }

  /** One row of a long multiplication. */
  lemma TimesStep(p: Poly, g: Poly, i: nat)
    ensures Coef(Times(p, g), i) == ((Coef(p, 0) && Coef(g, i)) != Coef(Times(Tail(p), g), i - 1))
  {
    if p != [] {
      var row := if p[0] then g else [];
      PlusCoef(row, Shift(Times(p[1..], g), 1), i);
      ShiftCoef(Times(p[1..], g), 1, i);
    }
  }

  lemma GeneratorCoef(i: nat)
    ensures Coef(Generator(), i) == (i == 0 || i == 5 || i == 12 || i == 16)
  {
  }

  // ----------------------------------------------------- the register divides

  /** The last bit of a transmission is the coefficient of x^0. */
  function Backwards(bits: seq<bool>): Poly {
    seq(|bits|, i requires 0 <= i < |bits| => bits[|bits| - 1 - i])
  }

  function Quotient(start: Register, bits: seq<bool>): Poly {
    if bits == [] then []
    else
      var k := |bits| - 1;
      [ClockAll(start, bits[..k])[15] != bits[k]] + Quotient(start, bits[..k])
  }

  /** A clock multiplies by x, takes in a bit at x^16 and subtracts the generator if x^16 is left. */
  lemma ClockCoef(r: Register, bit: bool, i: nat)
    ensures var f := r[15] != bit;
            Coef(Clock(r, bit), i) == ((Coef(r, i - 1) != (f && Coef(Generator(), i))) != (bit && i == 16))
  {
    GeneratorCoef(i);
  }

  lemma BackwardsCoef(bits: seq<bool>, i: nat)
    requires bits != []
    ensures Coef(Backwards(bits), i) == if i == 0 then bits[|bits| - 1] else Coef(Backwards(bits[..|bits| - 1]), i - 1)
  {
  }

  lemma QuotientCoef(start: Register, bits: seq<bool>, i: nat)
    requires bits != []
    ensures var k := |bits| - 1;
            Coef(Times(Quotient(start, bits), Generator()), i) ==
            (((ClockAll(start, bits[..k])[15] != bits[k]) && Coef(Generator(), i)) != Coef(Times(Quotient(start, bits[..k]), Generator()), i - 1))
  {
    TimesStep(Quotient(start, bits), Generator(), i);
    assert Tail(Quotient(start, bits)) == Quotient(start, bits[..|bits| - 1]);
  }

  /** Every coefficient of quotient times generator plus register is that of the message and the initial
      value. */
  predicate Balanced(start: Register, bits: seq<bool>, i: int) {
    Agree(Times(Quotient(start, bits), Generator()), ClockAll(start, bits), Backwards(bits), start, |bits|, i)
  }

  /** The coefficients of x^i in a + b and in c * x^16 + d * x^k are the same. */
  predicate Agree(a: Poly, b: Poly, c: Poly, d: Poly, k: nat, i: int) {
    (Coef(a, i) != Coef(b, i)) == (Coef(c, i - 16) != Coef(d, i - k))
  }

  /** The sum over one clock, coefficient by coefficient. */
  lemma Regroup(product: bool, register: bool, message: bool, start: bool, fg: bool, enters: bool)
    requires (product != register) == (message != start)
    ensures ((fg != product) != ((register != fg) != enters)) == ((message != enters) != start)
  {
  }

  lemma BackwardsMoved(bits: seq<bool>, i: nat)
    requires bits != []
    ensures var k := |bits| - 1;
            Coef(Backwards(bits), i - 16) == (Coef(Backwards(bits[..k]), i - 17) != (bits[k] && i == 16))
  {
    if i >= 16 {
      BackwardsCoef(bits, i - 16);
    }
  }

  lemma ClockAllSnoc(r: Register, bits: seq<bool>, bit: bool)
    ensures ClockAll(r, bits + [bit]) == Clock(ClockAll(r, bits), bit)
  {
    ClockAllAppend(r, bits, [bit]);
    assert [bit][1..] == [];
  }

  lemma ClockAllLast(r: Register, bits: seq<bool>, k: nat)
    requires |bits| == k + 1
    ensures ClockAll(r, bits) == Clock(ClockAll(r, bits[..k]), bits[k])
  {
    ClockAllSnoc(r, bits[..k], bits[k]);
    assert bits == bits[..k] + [bits[k]];
  }

  lemma DividesStep(start: Register, bits: seq<bool>, i: nat)
    requires bits != [] && Balanced(start, bits[..|bits| - 1], i - 1)
    ensures Balanced(start, bits, i)
  {
    var k := |bits| - 1;
    var r, bit := ClockAll(start, bits[..k]), bits[k];
    ClockAllLast(start, bits, k);
    QuotientCoef(start, bits, i);
    ClockCoef(r, bit, i);
    BackwardsMoved(bits, i);
    Regroup(Coef(Times(Quotient(start, bits[..k]), Generator()), i - 1), Coef(r, i - 1), Coef(Backwards(bits[..k]), i - 17),
            Coef(start, i - 1 - k), (r[15] != bit) && Coef(Generator(), i), bit && i == 16);
  }

  lemma {:induction false} Divides(start: Register, bits: seq<bool>, i: int)
    ensures Balanced(start, bits, i)
    decreases |bits|
  {
    if bits != [] && i >= 0 {
      Divides(start, bits[..|bits| - 1], i - 1);
      DividesStep(start, bits, i);
    }
  }

  // ------------------------------------------------------------ bits and bytes

  lemma {:induction false} BitsFromAt(n: nat, k: nat, t: nat)
    requires t < k
    ensures BitsFrom(n, k)[t] == Bit(n, k - 1 - t)
  {
    if t < k - 1 {
      BitsFromAt(n / 2, k - 1, t);
    }
  }

  lemma {:induction false} BitsAt(s: Bytes, j: nat, t: nat)
    requires j < |s| && t < 8
    ensures Bits(s)[8 * j + t] == Bit(s[j], 7 - t)
  {
    if j == 0 {
      BitsFromAt(s[0], 8, t);
    } else {
      BitsAt(s[1..], j - 1, t);
      assert Bits(s)[8 * j + t] == Bits(s[1..])[8 * (j - 1) + t];
    }
  }

  lemma Place(m: nat, i: nat)
    requires i < 8 * m
    ensures i / 8 < m && 8 * m - 1 - i == 8 * (m - 1 - i / 8) + (7 - i % 8)
  {
  }

  /** The transmission of a message, read backwards, is its polynomial. */
  lemma MessageIsBackwards(s: Bytes)
    ensures Message(s) == Backwards(Bits(s))
  {
    forall i | 0 <= i < 8 * |s|
      ensures Message(s)[i] == Backwards(Bits(s))[i]
    {
      Place(|s|, i);
      BitsAt(s, |s| - 1 - i / 8, 7 - i % 8);
    }
  }

  lemma {:induction false} BitOfValue(r: seq<bool>, i: nat)
    requires i < |r|
    ensures Bit(Value(r), i) == r[i]
  {
    if i > 0 {
      BitOfValue(r[1..], i - 1);
      assert Value(r) / 2 == Value(r[1..]);
    }
  }

  lemma NumberOfRegister(r: Register)
    ensures Number(Value(r)) == r
  {
    forall i | 0 <= i < 16
      ensures Number(Value(r))[i] == r[i]
    {
      BitOfValue(r, i);
    }
  }

  lemma SidesSame(a: Poly, b: Poly, c: Poly, d: Poly, k: nat)
    requires forall i: nat :: Agree(a, b, c, d, k, i)
    ensures Same(Plus(a, b), Plus(Shift(c, 16), Shift(d, k)))
  {
    forall i: nat
      ensures Coef(Plus(a, b), i) == Coef(Plus(Shift(c, 16), Shift(d, k)), i)
    {
      assert Agree(a, b, c, d, k, i);
      PlusCoef(a, b, i);
      PlusCoef(Shift(c, 16), Shift(d, k), i);
      ShiftCoef(c, 16, i);
      ShiftCoef(d, k, i);
    }
  }

  /** From any start, the register ends as what the division leaves. */
  lemma RegisterRemains(start: Register, bits: seq<bool>)
    ensures Same(Plus(Times(Quotient(start, bits), Generator()), ClockAll(start, bits)),
                 Plus(Shift(Backwards(bits), 16), Shift(start, |bits|)))
  {
    var a, b, c := Times(Quotient(start, bits), Generator()), ClockAll(start, bits), Backwards(bits);
    forall i: nat
      ensures Agree(a, b, c, start, |bits|, i)
    {
      Divides(start, bits, i);
    }
    SidesSame(a, b, c, start, |bits|);
  }

  lemma NumberOfCrc(s: Bytes, start: Register)
    requires start == INIT
    ensures Number(Crc(s)) == ClockAll(start, Bits(s))
  {
    NumberOfRegister(ClockAll(start, Bits(s)));
  }

  /** The checksum of any bytes is what the division leaves. */
  lemma CrcIsRemainder(s: Bytes, start: Register) returns (quotient: Poly)
    requires start == ONES
    ensures Leaves(s, quotient, Crc(s))
  {
    quotient := Quotient(start, Bits(s));
    RegisterRemains(start, Bits(s));
    MessageIsBackwards(s);
    NumberOfCrc(s, start);
  }

  // ------------------------------------------------------------- uniqueness

  lemma TailPlus(p: Poly, q: Poly)
    ensures Tail(Plus(p, q)) == Plus(Tail(p), Tail(q))
  {
  }

  lemma RowsAdd(a: bool, b: bool, g: bool)
    ensures ((a != b) && g) == ((a && g) != (b && g))
  {
  }

  lemma {:induction false} TimesPlus(p: Poly, q: Poly, g: Poly, i: nat)
    ensures Coef(Times(Plus(p, q), g), i) == (Coef(Times(p, g), i) != Coef(Times(q, g), i))
    decreases |p| + |q|
  {
    if p != [] || q != [] {
      TimesStep(p, g, i);
      TimesStep(q, g, i);
      TimesStep(Plus(p, q), g, i);
      PlusCoef(p, q, 0);
      TailPlus(p, q);
      if i > 0 {
        TimesPlus(Tail(p), Tail(q), g, i - 1);
      }
      RowsAdd(Coef(p, 0), Coef(q, 0), Coef(g, i));
    }
  }

  /** No coefficient from `k` on. */
  ghost predicate Below(p: Poly, k: nat) {
    forall i: nat :: k <= i ==> !Coef(p, i)
  }

  lemma TailBelow(p: Poly, k: nat)
    requires Below(p, k)
    ensures Below(Tail(p), if k == 0 then 0 else k - 1)
  {
    forall i: nat | k <= i + 1
      ensures !Coef(Tail(p), i)
    {
      assert !Coef(p, i + 1);
    }
  }

  lemma {:induction false} ZeroTimes(p: Poly, g: Poly, i: nat)
    requires Below(p, 0)
    ensures !Coef(Times(p, g), i)
    decreases |p|
  {
    if p != [] {
      TimesStep(p, g, i);
      assert !Coef(p, 0);
      TailBelow(p, 0);
      if i > 0 {
        ZeroTimes(Tail(p), g, i - 1);
      }
    }
  }

  /** A product with the generator has its highest power 16 above that of the other factor. */
  lemma {:induction false} HighestPower(p: Poly, k: nat)
    requires Coef(p, k) && Below(p, k + 1)
    ensures Coef(Times(p, Generator()), k + 16)
    decreases k
  {
    TimesStep(p, Generator(), k + 16);
    GeneratorCoef(k + 16);
    TailBelow(p, k + 1);
    if k == 0 {
      ZeroTimes(Tail(p), Generator(), 15);
    } else {
      HighestPower(Tail(p), k - 1);
    }
  }

  lemma {:induction false} BelowSteps(p: Poly, k: nat)
    requires Below(p, k) && Below(Times(p, Generator()), 16)
    ensures Below(p, 0)
    decreases k
  {
    if k > 0 {
      if Coef(p, k - 1) {
        HighestPower(p, k - 1);
      }
      assert !Coef(p, k - 1);
      BelowSteps(p, k - 1);
    }
  }

  lemma {:induction false} ValueOfNumber(v: nat, k: nat, p: Poly)
    requires v < Pow2(k) && |p| == k && forall i :: 0 <= i < k ==> p[i] == Bit(v, i)
    ensures Value(p) == v
    decreases k
  {
    if k > 0 {
      forall i | 0 <= i < k - 1
        ensures p[1..][i] == Bit(v / 2, i)
      {
        assert p[i + 1] == Bit(v, i + 1);
      }
      ValueOfNumber(v / 2, k - 1, p[1..]);
      assert p[0] == Bit(v, 0);
    }
  }

  /** Two divisions of one message leave the same coefficients. */
  lemma SameRemainder(s: Bytes, q: Poly, q': Poly, v: nat, v': nat)
    requires Leaves(s, q, v) && Leaves(s, q', v')
    ensures Number(v) == Number(v')
  {
    var g, d := Generator(), Plus(q, q');
    forall i: nat
      ensures Coef(Times(d, g), i) == (Coef(Number(v), i) != Coef(Number(v'), i))
    {
      TimesPlus(q, q', g, i);
      PlusCoef(Times(q, g), Number(v), i);
      PlusCoef(Times(q', g), Number(v'), i);
      assert Coef(Plus(Times(q, g), Number(v)), i) == Coef(Plus(Times(q', g), Number(v')), i);
    }
    assert Below(Times(d, g), 16);
    BelowSteps(d, |d|);
    forall i | 0 <= i < 16
      ensures Number(v)[i] == Number(v')[i]
    {
      ZeroTimes(d, g, i);
      assert Coef(Number(v), i) == Coef(Number(v'), i);
    }
  }

  /** The checksum is the one number of 16 bits that the division can leave. */
  lemma CrcIff(s: Bytes, v: nat)
    requires v < 0x1_0000
    ensures v == Crc(s) <==> exists quotient :: Leaves(s, quotient, v)
  {
    var q := CrcIsRemainder(s, ONES);
    if quotient :| Leaves(s, quotient, v) {
      SameRemainder(s, q, quotient, Crc(s), v);
      CrcFits(s);
      Pow2Values();
      ValueOfNumber(v, 16, Number(v));
      ValueOfNumber(Crc(s), 16, Number(Crc(s)));
    }
  }
}
