/** The finite field GF(256) of extension/src/qr.ts: bytes under XOR, multiplied through a table of
    powers of x and its inverse, modulo x^8 + x^4 + x^3 + x^2 + 1.

    The reference definition is `Shift`, repeated multiplication by x. The tables are proved to hold
    its powers, and the table product is proved to be a field multiplication. */
module Gf256 {
  import opened Wrappers

  /** Addition, and subtraction: XOR. */
  function Add(a: bv8, b: bv8): bv8 {
    a ^ b
  }

  lemma AddLaws(a: bv8, b: bv8)
    ensures Add(a, b) == Add(b, a)
    ensures Add(a, 0) == a && Add(0, a) == a && Add(a, a) == 0
    ensures Add(a, Add(a, b)) == b
    ensures Add(a, b) == 0 <==> a == b
  {
  }

  lemma AddAssociates(a: bv8, b: bv8, c: bv8)
    ensures Add(Add(a, b), c) == Add(a, Add(b, c))
  {
  }

  /** (a + b) + (c + d) == (a + c) + (b + d) */
  lemma AddSwap(a: bv8, b: bv8, c: bv8, d: bv8)
    ensures Add(Add(a, b), Add(c, d)) == Add(Add(a, c), Add(b, d))
  {
    hide Add;
    AddAssociates(a, b, Add(c, d));
    AddAssociates(b, c, d);
    AddLaws(b, c);
    AddAssociates(c, b, d);
    AddAssociates(a, c, Add(b, d));
  }

  /** Multiplication by x. */
  function Xtime(b: bv8): bv8 {
    (b << 1) ^ (if b & 0x80 == 0 then 0 else 0x1d)
  }

  /** b times x^n. */
  function Shift(b: bv8, n: nat): bv8 {
    if n == 0 then b else Xtime(Shift(b, n - 1))
  }

  /** x^n, for every n: what `gexp(n)` reads from its table at n % 255. */
  function Exp(n: nat): bv8 {
    Shift(1, n)
  }

  lemma XtimeXor(a: bv8, b: bv8)
    ensures Xtime(Add(a, b)) == Add(Xtime(a), Xtime(b))
  {
    assert (a ^ b) << 1 == (a << 1) ^ (b << 1);
    if a & 0x80 == 0 {
      if b & 0x80 == 0 {
        assert (a ^ b) & 0x80 == 0;
      } else {
        assert (a ^ b) & 0x80 != 0;
      }
    } else {
      if b & 0x80 == 0 {
        assert (a ^ b) & 0x80 != 0;
      } else {
        assert (a ^ b) & 0x80 == 0;
      }
    }
  }

  lemma XtimeInjective(a: bv8, b: bv8)
    requires Xtime(a) == Xtime(b)
    ensures a == b
  {
  }

  lemma {:induction false} ShiftXor(a: bv8, b: bv8, n: nat)
    ensures Shift(Add(a, b), n) == Add(Shift(a, n), Shift(b, n))
  {
    hide Add, Xtime;
    if n > 0 {
      ShiftXor(a, b, n - 1);
      XtimeXor(Shift(a, n - 1), Shift(b, n - 1));
    }
  }

  lemma {:induction false} ShiftInjective(a: bv8, b: bv8, n: nat)
    requires Shift(a, n) == Shift(b, n)
    ensures a == b
  {
    if n > 0 {
      XtimeInjective(Shift(a, n - 1), Shift(b, n - 1));
      ShiftInjective(a, b, n - 1);
    }
  }

  lemma {:induction false} ShiftAdd(b: bv8, m: nat, n: nat)
    ensures Shift(Shift(b, m), n) == Shift(b, m + n)
  {
    if n > 0 {
      ShiftAdd(b, m, n - 1);
    }
  }

  lemma {:induction false} ShiftZero(n: nat)
    ensures Shift(0, n) == 0
  {
    if n > 0 {
      ShiftZero(n - 1);
    }
  }

  lemma ExpNonzero(n: nat)
    ensures Exp(n) != 0
  {
    ShiftZero(n);
    if Exp(n) == 0 {
      ShiftInjective(1, 0, n);
    }
  }

  // ---- x has order 255

  function Xtime5(b: bv8): bv8 {
    Xtime(Xtime(Xtime(Xtime(Xtime(b)))))
  }

  function Xtime17(b: bv8): bv8 {
    Xtime(Xtime(Xtime5(Xtime5(Xtime5(b)))))
  }

  lemma ExpPlus5(n: nat)
    ensures Exp(n + 5) == Xtime5(Exp(n))
  {
    assert Exp(n + 1) == Xtime(Exp(n));
    assert Exp(n + 2) == Xtime(Exp(n + 1));
    assert Exp(n + 3) == Xtime(Exp(n + 2));
    assert Exp(n + 4) == Xtime(Exp(n + 3));
  }

  lemma ExpPlus17(n: nat)
    ensures Exp(n + 17) == Xtime17(Exp(n))
  {
    ExpPlus5(n);
    ExpPlus5(n + 5);
    ExpPlus5(n + 10);
    assert Exp(n + 16) == Xtime(Exp(n + 15));
  }

  lemma ExpValues()
    ensures Exp(15) != 1 && Exp(51) != 1 && Exp(85) != 1 && Exp(255) == 1
  {
    ExpPlus5(0);
    ExpPlus5(5);
    ExpPlus5(10);
    assert Exp(0) == 1;
    ExpPlus17(0); assert Exp(17) == 0x98;
    ExpPlus17(17); assert Exp(34) == 0x4e;
    ExpPlus17(34); assert Exp(51) == 0x0a;
    ExpPlus17(51); assert Exp(68) == 0x99;
    ExpPlus17(68); assert Exp(85) == 0xd6;
    ExpPlus17(85); assert Exp(102) == 0x44;
    ExpPlus17(102); assert Exp(119) == 0x93;
    ExpPlus17(119); assert Exp(136) == 0x4f;
    ExpPlus17(136); assert Exp(153) == 0x92;
    ExpPlus17(153); assert Exp(170) == 0xd7;
    ExpPlus17(170); assert Exp(187) == 0xdc;
    ExpPlus17(187); assert Exp(204) == 0xdd;
    ExpPlus17(204); assert Exp(221) == 0x45;
    ExpPlus17(221); assert Exp(238) == 0x0b;
    ExpPlus17(238); assert Exp(255) == 0x01;
  }

  lemma {:induction false} ExpMultiple(m: nat, k: nat)
    requires Exp(m) == 1
    ensures Exp(m * k) == 1
  {
    if k > 0 {
      ExpMultiple(m, k - 1);
      ShiftAdd(1, m * (k - 1), m);
      assert m * (k - 1) + m == m * k;
    }
  }

  lemma ExpCongruent(n: nat, m: nat)
    requires 0 < m && Exp(m) == 1
    ensures Exp(n) == Exp(n % m)
  {
    ExpMultiple(m, n / m);
    ShiftAdd(1, m * (n / m), n % m);
    assert m * (n / m) + n % m == n;
  }

  /** No power below 255 is 1: a least such one would divide 255. */
  lemma {:induction false} NoSmallOrder(d: nat)
    requires 0 < d < 255
    ensures Exp(d) != 1
    decreases d
  {
    assert Exp(0) == 1;
    hide Shift;
    ExpValues();
    if Exp(d) == 1 {
      ExpCongruent(255, d);
      if 255 % d != 0 {
        NoSmallOrder(255 % d);
      } else {
        DivisorsOf255(d);
        ExpCongruent(15, d);
        ExpCongruent(51, d);
        ExpCongruent(85, d);
      }
    }
  }

  lemma DivisorsOf255(d: nat)
    requires 0 < d < 255 && 255 % d == 0
    ensures 15 % d == 0 || 51 % d == 0 || 85 % d == 0
  {
    var q := 255 / d;
    assert q * d == 255;
    if d > 15 {
      assert q <= 15;
    }
    assert d in {1, 3, 5, 15, 17, 51, 85};
  }

  /** The exponents whose power is 1 are exactly the multiples of 255. */
  lemma OrderIs255(d: nat)
    ensures Exp(d) == 1 <==> d % 255 == 0
  {
    assert Exp(0) == 1;
    hide Shift;
    ExpValues();
    ExpCongruent(d, 255);
    if d % 255 != 0 {
      NoSmallOrder(d % 255);
    }
  }

  lemma ExpInjective(i: nat, j: nat)
    requires i <= j < 255 && Exp(i) == Exp(j)
    ensures i == j
  {
    if i < j {
      ShiftAdd(1, j - i, i);
      ShiftInjective(1, Exp(j - i), i);
      OrderIs255(j - i);
    }
  }

  // ---- every non-zero byte is a power of x

  function Code(b: bv8): (c: int)
    ensures 0 <= c < 256
    ensures c == 0 <==> b == 0
  {
    b as int
  }

  lemma CodeInjective(a: bv8, b: bv8)
    requires Code(a) == Code(b)
    ensures a == b
  {
  }

  ghost function Powers(n: nat): set<int> {
    set i | 0 <= i < n :: Code(Exp(i))
  }

  lemma {:induction false} PowersSize(n: nat)
    requires n <= 255
    ensures |Powers(n)| == n
  {
    hide Shift, Code;
    if n == 0 {
      assert Powers(0) == {};
    } else {
      PowersSize(n - 1);
      assert Powers(n) == Powers(n - 1) + {Code(Exp(n - 1))};
      if Code(Exp(n - 1)) in Powers(n - 1) {
        var i: nat :| i < n - 1 && Code(Exp(i)) == Code(Exp(n - 1));
        CodeInjective(Exp(i), Exp(n - 1));
        ExpInjective(i, n - 1);
      }
    }
  }

  lemma {:induction false} IntervalSize(s: set<int>, n: nat)
    requires forall c :: c in s ==> 0 < c <= n
    ensures |s| <= n
    ensures |s| == n ==> forall c :: 0 < c <= n ==> c in s
  {
    if n == 0 {
      forall c | c in s
        ensures false
      {
      }
    } else {
      IntervalSize(s - {n}, n - 1);
    }
  }

  lemma ExpOnto(b: bv8)
    requires b != 0
    ensures exists n :: 0 <= n < 255 && Exp(n) == b
  {
    hide Shift, Code;
    PowersSize(255);
    forall c | c in Powers(255)
      ensures 0 < c <= 255
    {
      var n: nat :| n < 255 && c == Code(Exp(n));
      ExpNonzero(n);
    }
    IntervalSize(Powers(255), 255);
    assert Code(b) in Powers(255);
    var n: nat :| n < 255 && Code(Exp(n)) == Code(b);
    CodeInjective(Exp(n), b);
  }

  // ---- the table lookups and the product

  /** `gexp`: the table has period 255. */
  function Gexp(n: nat): (e: bv8)
    ensures e == Exp(n)
  {
    ExpValues();
    ExpCongruent(n, 255);
    Exp(n % 255)
  }

  /** `glog`: the one exponent below 255 of a non-zero byte. */
  function Glog(b: bv8): (n: nat)
    requires b != 0
    ensures n < 255 && Exp(n) == b
    ensures forall i: nat :: i < 255 && Exp(i) == b ==> i == n
  {
    ExpOnto(b);
    forall i: nat, j: nat | i < 255 && j < 255 && Exp(i) == b && Exp(j) == b
      ensures i == j
    {
      if i <= j {
        ExpInjective(i, j);
      } else {
        ExpInjective(j, i);
      }
    }
    var n: nat :| n < 255 && Exp(n) == b;
    n
  }

  /** The term product of polyMul and polyMod. The logarithm of 0 is undefined there, which makes the
      whole product read as 0. */
  function Mul(a: bv8, b: bv8): bv8 {
    if a == 0 || b == 0 then 0 else Gexp(Glog(a) + Glog(b))
  }

  /** The table product by x^n is n multiplications by x. */
  lemma MulExp(n: nat, b: bv8)
    ensures Mul(Exp(n), b) == Shift(b, n)
  {
    if b == 0 {
      ShiftZero(n);
    } else {
      // Exp(k + g) == Exp(n + g) because k and n name the same power
      ExpNonzero(n);
      var k, g := Glog(Exp(n)), Glog(b);
      ShiftAdd(1, k, g);
      ShiftAdd(1, n, g);
      ShiftAdd(1, g, n);
    }
  }

  lemma MulCommutes(a: bv8, b: bv8)
    ensures Mul(a, b) == Mul(b, a)
  {
  }

  lemma MulUnit(a: bv8)
    ensures Mul(1, a) == a && Mul(a, 1) == a && Mul(0, a) == 0 && Mul(a, 0) == 0
  {
    MulExp(0, a);
    MulCommutes(1, a);
  }

  lemma MulNoZeroDivisors(a: bv8, b: bv8)
    ensures Mul(a, b) == 0 <==> a == 0 || b == 0
  {
    if a != 0 && b != 0 {
      ExpNonzero(Glog(a) + Glog(b));
    }
  }

  lemma MulAssociates(a: bv8, b: bv8, c: bv8)
    ensures Mul(Mul(a, b), c) == Mul(a, Mul(b, c))
  {
    hide Shift;
    if a != 0 && b != 0 && c != 0 {
      var i, j, k := Glog(a), Glog(b), Glog(c);
      MulExp(i + j, c);
      MulExp(j, c);
      MulExp(i, Shift(c, j));
      ShiftAdd(c, j, i);
    }
  }

  lemma MulDistributes(a: bv8, b: bv8, c: bv8)
    ensures Mul(a, Add(b, c)) == Add(Mul(a, b), Mul(a, c))
    ensures Mul(Add(b, c), a) == Add(Mul(b, a), Mul(c, a))
  {
    hide Add, Xtime;
    AddLaws(0, 0);
    if a != 0 {
      var i := Glog(a);
      MulExp(i, Add(b, c));
      MulExp(i, b);
      MulExp(i, c);
      ShiftXor(b, c, i);
    }
    MulCommutes(a, Add(b, c));
    MulCommutes(a, b);
    MulCommutes(a, c);
  }

  lemma MulExpExp(i: nat, j: nat)
    ensures Mul(Exp(i), Exp(j)) == Exp(i + j)
  {
    MulExp(i, Exp(j));
    ShiftAdd(1, j, i);
  }

  // ---- the loops that fill the tables

  lemma LowPowers()
    ensures Exp(0) == 1 && Exp(1) == 2 && Exp(2) == 4 && Exp(3) == 8
    ensures Exp(4) == 16 && Exp(5) == 32 && Exp(6) == 64 && Exp(7) == 128
    ensures Exp(8) == Add(Add(Add(Exp(4), Exp(3)), Exp(2)), Exp(0))
  {
    assert Exp(1) == Xtime(Exp(0)) && Exp(2) == Xtime(Exp(1)) && Exp(3) == Xtime(Exp(2));
    assert Exp(4) == Xtime(Exp(3)) && Exp(5) == Xtime(Exp(4)) && Exp(6) == Xtime(Exp(5));
    assert Exp(7) == Xtime(Exp(6)) && Exp(8) == Xtime(Exp(7));
  }

  lemma LowPowerIsBit(i: nat)
    requires i < 8
    ensures (1 as bv8) << i == Exp(i)
  {
    LowPowers();
    assert i == 0 || i == 1 || i == 2 || i == 3 || i == 4 || i == 5 || i == 6 || i == 7;
  }

  lemma ExpRecurrence(n: nat)
    requires n >= 8
    ensures Exp(n) == Add(Add(Add(Exp(n - 4), Exp(n - 5)), Exp(n - 6)), Exp(n - 8))
  {
    hide Add, Xtime;
    LowPowers();
    var k := n - 8;
    ShiftAdd(1, 8, k);
    ShiftAdd(1, 4, k);
    ShiftAdd(1, 3, k);
    ShiftAdd(1, 2, k);
    ShiftXor(Exp(4), Exp(3), k);
    ShiftXor(Add(Exp(4), Exp(3)), Exp(2), k);
    ShiftXor(Add(Add(Exp(4), Exp(3)), Exp(2)), Exp(0), k);
  }

  /** The module-level table construction. Entry 0 of the logarithm table stays undefined. */
  method BuildTables() returns (exp: array<bv8>, log: array<Option<nat>>)
    ensures exp.Length == 256 && log.Length == 256
    ensures forall i :: 0 <= i < 256 ==> exp[i] == Gexp(i)
    ensures log[0] == None
    ensures forall b: bv8 :: b != 0 ==> log[Code(b)] == Some(Glog(b))
  {
    hide Add, Shift, Code;
    exp := new bv8[256](_ => 0);
    log := new Option<nat>[256](_ => None);
    for i := 0 to 8
      modifies exp
      invariant forall k :: 0 <= k < i ==> exp[k] == Exp(k)
    {
      LowPowerIsBit(i);
      exp[i] := 1 << i;
    }
    for i := 8 to 256
      modifies exp
      invariant forall k :: 0 <= k < i ==> exp[k] == Exp(k)
    {
      ExpRecurrence(i);
      exp[i] := Add(Add(Add(exp[i - 4], exp[i - 5]), exp[i - 6]), exp[i - 8]);
    }
    for i := 0 to 255
      modifies log
      invariant log[0] == None
      invariant forall b: bv8 :: b != 0 && Glog(b) < i ==> log[Code(b)] == Some(Glog(b))
    {
      ExpNonzero(i);
      forall b: bv8 | b != 0 && Code(b) == Code(exp[i])
        ensures Glog(b) == i
      {
        CodeInjective(b, exp[i]);
      }
      log[Code(exp[i])] := Some(i);
    }
  }
}
