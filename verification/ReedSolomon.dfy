/** The Reed-Solomon arithmetic of extension/src/qr.ts. Polynomials are coefficient sequences, highest
    degree first.

    The loops are proved against recursive specifications (`Times`, `Reduce`, `Generator`). The main
    results say what those mean: a block with its correction bytes is a multiple of the generator, it
    vanishes at x^0 .. x^(k-1), no other correction bytes do, and two such blocks of at most 255 bytes
    that differ at all differ in more than k places. */
module ReedSolomon {
  import opened Gf256

  type Poly = seq<bv8>

  // ---- specification

  function Zeros(n: nat): (z: Poly)
    ensures |z| == n && forall i :: 0 <= i < n ==> z[i] == 0
  {
    seq(n, _ => 0)
  }

  function Plus(p: Poly, q: Poly): (r: Poly)
    requires |p| == |q|
    ensures |r| == |p| && forall i :: 0 <= i < |p| ==> r[i] == Add(p[i], q[i])
  {
    seq(|p|, i requires 0 <= i < |p| => Add(p[i], q[i]))
  }

  function Scale(c: bv8, p: Poly): (r: Poly)
    ensures |r| == |p| && forall i :: 0 <= i < |p| ==> r[i] == Mul(c, p[i])
  {
    seq(|p|, i requires 0 <= i < |p| => Mul(c, p[i]))
  }

  /** The product, one row of the long multiplication at a time. */
  function Times(a: Poly, b: Poly): (r: Poly)
    requires |b| > 0
    ensures |r| == |a| + |b| - 1
  {
    if a == [] then Zeros(|b| - 1)
    else Plus(Scale(a[0], b) + Zeros(|a| - 1), [0] + Times(a[1..], b))
  }

  function Pow(x: bv8, n: nat): bv8 {
    if n == 0 then 1 else Mul(x, Pow(x, n - 1))
  }

  function Eval(p: Poly, x: bv8): bv8 {
    if p == [] then 0 else Add(Mul(p[0], Pow(x, |p| - 1)), Eval(p[1..], x))
  }

  function Strip(p: Poly): Poly {
    if p != [] && p[0] == 0 then Strip(p[1..]) else p
  }

  /** One step of long division: subtract the multiple of g that clears the leading coefficient, then
      drop that coefficient. */
  function Step(p: Poly, g: Poly): (r: Poly)
    requires 0 < |g| <= |p|
    ensures |r| == |p| - 1
  {
    Plus(p, Scale(p[0], g) + Zeros(|p| - |g|))[1..]
  }

  function Reduce(p: Poly, g: Poly): (r: Poly)
    requires |g| > 0
    ensures |r| == if |p| < |g| then |p| else |g| - 1
    decreases |p|
  {
    if |p| < |g| then p else Reduce(Step(p, g), g)
  }

  function Quotient(p: Poly, g: Poly): (q: Poly)
    requires |g| > 0
    ensures |q| == if |p| < |g| then 0 else |p| - |g| + 1
    decreases |p|
  {
    if |p| < |g| then [] else [p[0]] + Quotient(Step(p, g), g)
  }

  function Generator(k: nat): (g: Poly)
    ensures |g| == k + 1
  {
    if k == 0 then [1] else Times(Generator(k - 1), [1, Gexp(k - 1)])
  }

  function EcOf(data: Poly, k: nat): (ec: Poly)
    ensures |ec| == k
  {
    Reduce(data + Zeros(k), Generator(k))
  }

  predicate IsCodeword(p: Poly, k: nat) {
    forall i :: 0 <= i < k ==> Eval(p, Exp(i)) == 0
  }

  // ---- evaluation is a ring homomorphism

  lemma {:induction false} PowAdd(x: bv8, m: nat, n: nat)
    ensures Pow(x, m + n) == Mul(Pow(x, m), Pow(x, n))
  {
    hide Mul;
    if m == 0 {
      MulUnit(Pow(x, n));
    } else {
      PowAdd(x, m - 1, n);
      MulAssociates(x, Pow(x, m - 1), Pow(x, n));
    }
  }

  lemma {:induction false} PowOne(n: nat)
    ensures Pow(1, n) == 1
  {
    hide Mul;
    if n > 0 {
      PowOne(n - 1);
      MulUnit(1);
    }
  }

  lemma {:induction false} PowExp(i: nat, n: nat)
    ensures Pow(Exp(i), n) == Exp(i * n)
  {
    if n == 0 {
      assert Exp(0) == 1;
      assert i * n == 0;
    } else {
      hide Mul, Exp, Shift;
      PowExp(i, n - 1);
      var m := i * (n - 1);
      assert i + m == i * n;
      MulExpExp(i, m);
    }
  }

  lemma {:induction false} EvalPlus(p: Poly, q: Poly, x: bv8)
    requires |p| == |q|
    ensures Eval(Plus(p, q), x) == Add(Eval(p, x), Eval(q, x))
  {
    hide Add, Mul, Pow;
    if p == [] {
      AddLaws(0, 0);
    } else {
      EvalPlus(p[1..], q[1..], x);
      assert Plus(p, q)[1..] == Plus(p[1..], q[1..]);
      var w := Pow(x, |p| - 1);
      MulDistributes(w, p[0], q[0]);
      AddSwap(Mul(p[0], w), Mul(q[0], w), Eval(p[1..], x), Eval(q[1..], x));
    }
  }

  lemma {:induction false} EvalScale(c: bv8, p: Poly, x: bv8)
    ensures Eval(Scale(c, p), x) == Mul(c, Eval(p, x))
  {
    hide Add, Mul, Pow;
    if p == [] {
      MulUnit(c);
    } else {
      EvalScale(c, p[1..], x);
      assert Scale(c, p)[1..] == Scale(c, p[1..]);
      var w := Pow(x, |p| - 1);
      MulAssociates(c, p[0], w);
      MulDistributes(c, Mul(p[0], w), Eval(p[1..], x));
    }
  }

  lemma {:induction false} EvalZeros(n: nat, x: bv8)
    ensures Eval(Zeros(n), x) == 0
  {
    hide Add, Mul, Pow;
    if n > 0 {
      EvalZeros(n - 1, x);
      assert Zeros(n)[1..] == Zeros(n - 1);
      MulUnit(Pow(x, n - 1));
      AddLaws(0, 0);
    }
  }

  lemma {:induction false} EvalConcat(p: Poly, q: Poly, x: bv8)
    ensures Eval(p + q, x) == Add(Mul(Eval(p, x), Pow(x, |q|)), Eval(q, x))
  {
    hide Add, Mul, Pow;
    var t := Pow(x, |q|);
    if p == [] {
      assert p + q == q;
      MulUnit(t);
      AddLaws(Eval(q, x), 0);
    } else {
      EvalConcat(p[1..], q, x);
      assert (p + q)[1..] == p[1..] + q;
      var w := Pow(x, |p| - 1);
      PowAdd(x, |p| - 1, |q|);
      MulAssociates(p[0], w, t);
      MulDistributes(t, Mul(p[0], w), Eval(p[1..], x));
      AddAssociates(Mul(Mul(p[0], w), t), Mul(Eval(p[1..], x), t), Eval(q, x));
    }
  }

  lemma EvalPadded(p: Poly, n: nat, x: bv8)
    ensures Eval(p + Zeros(n), x) == Mul(Eval(p, x), Pow(x, n))
    ensures Eval(Zeros(n) + p, x) == Eval(p, x)
  {
    hide Add, Mul, Pow, Eval;
    EvalConcat(p, Zeros(n), x);
    EvalConcat(Zeros(n), p, x);
    EvalZeros(n, x);
    AddLaws(Mul(Eval(p, x), Pow(x, n)), 0);
    AddLaws(Eval(p, x), 0);
    MulUnit(Pow(x, |p|));
  }

  lemma {:induction false} EvalTimes(a: Poly, b: Poly, x: bv8)
    requires |b| > 0
    ensures Eval(Times(a, b), x) == Mul(Eval(a, x), Eval(b, x))
  {
    hide Add, Mul, Pow;
    var e := Eval(b, x);
    if a == [] {
      EvalZeros(|b| - 1, x);
      MulUnit(e);
    } else {
      var w := Pow(x, |a| - 1);
      EvalTimes(a[1..], b, x);
      EvalPlus(Scale(a[0], b) + Zeros(|a| - 1), [0] + Times(a[1..], b), x);
      EvalPadded(Scale(a[0], b), |a| - 1, x);
      EvalScale(a[0], b, x);
      assert [0] == Zeros(1);
      EvalPadded(Times(a[1..], b), 1, x);
      MulAssociates(a[0], e, w);
      MulCommutes(e, w);
      MulAssociates(a[0], w, e);
      MulDistributes(e, Mul(a[0], w), Eval(a[1..], x));
    }
  }

  // ---- division

  /** The division is exact: p is the quotient times g, plus the remainder. */
  lemma {:induction false} DivisionIdentity(p: Poly, g: Poly)
    requires |g| > 0 && g[0] == 1 && |p| >= |g| - 1
    ensures p == Plus(Times(Quotient(p, g), g), Zeros(|Quotient(p, g)|) + Reduce(p, g))
    decreases |p|
  {
    hide Add, Mul, Times, Step, Plus, Zeros;
    if |p| < |g| {
      NothingToDivide(p, g);
    } else {
      var p' := Step(p, g);
      var q', r := Quotient(p', g), Reduce(p', g);
      DivisionIdentity(p', g);
      DivisionStep(p, g, q', r);
    }
  }

  lemma DivisionStep(p: Poly, g: Poly, q: Poly, r: Poly)
    requires 0 < |g| <= |p| && g[0] == 1 && |q| == |p| - |g| && |r| == |g| - 1
    requires Step(p, g) == Plus(Times(q, g), Zeros(|q|) + r)
    ensures p == Plus(Times([p[0]] + q, g), Zeros(|q| + 1) + r)
  {
    hide Add, Mul, Times;
    var row, rest, tail := Scale(p[0], g) + Zeros(|q|), Times(q, g), Zeros(|q|) + r;
    TimesCons(p[0], q, g);
    MulUnit(p[0]);
    RowThenRest(p, row, Step(p, g), rest, tail);
    assert [0] + tail == Zeros(|q| + 1) + r;
  }

  lemma TimesCons(c: bv8, t: Poly, b: Poly)
    requires |b| > 0
    ensures Times([c] + t, b) == Plus(Scale(c, b) + Zeros(|t|), [0] + Times(t, b))
  {
    hide Add, Mul;
    assert ([c] + t)[1..] == t;
  }

  lemma NothingToDivide(p: Poly, g: Poly)
    requires |p| == |g| - 1
    ensures p == Plus(Times(Quotient(p, g), g), Zeros(|Quotient(p, g)|) + Reduce(p, g))
  {
    forall i | 0 <= i < |p| { AddLaws(p[i], 0); }
    assert Zeros(0) + p == p;
  }

  lemma RowThenRest(p: Poly, row: Poly, p': Poly, rest: Poly, tail: Poly)
    requires |p| == |row| == |p'| + 1 && |p'| == |rest| == |tail|
    requires row[0] == p[0] && p' == Plus(p, row)[1..] && p' == Plus(rest, tail)
    ensures p == Plus(Plus(row, [0] + rest), [0] + tail)
  {
    hide Add, Zeros, Scale;
    forall i | 0 <= i < |p|
      ensures p[i] == Add(Add(row[i], ([0] + rest)[i]), ([0] + tail)[i])
    {
      AddLaws(p[i], 0);
      if i > 0 {
        assert p'[i - 1] == Add(p[i], row[i]) == Add(rest[i - 1], tail[i - 1]);
        AddAssociates(row[i], rest[i - 1], tail[i - 1]);
        AddLaws(p[i], row[i]);
        AddLaws(row[i], p[i]);
      }
    }
  }

  // ---- the generator

  /** The generator of degree k is monic. */
  lemma {:induction false} GeneratorMonic(k: nat)
    ensures Generator(k)[0] == 1
  {
    hide Add, Mul;
    if k > 0 {
      var g, f := Generator(k - 1), [1, Gexp(k - 1)];
      GeneratorMonic(k - 1);
      MulUnit(1);
      AddLaws(1, 0);
      assert Times(g, f)[0] == Add(Mul(g[0], f[0]), 0);
    }
  }

  lemma EvalLinear(r: bv8, x: bv8)
    ensures Eval([1, r], x) == Add(x, r)
  {
    hide Add, Mul;
    MulUnit(x);
    MulUnit(r);
    MulUnit(1);
    AddLaws(r, 0);
    assert [1, r][1..] == [r];
    assert Pow(x, 1) == Mul(x, Pow(x, 0));
    assert Eval([r], x) == Add(Mul(r, Pow(x, 0)), Eval([], x));
  }

  /** Its roots are exactly x^0 .. x^(k-1). */
  lemma {:induction false} GeneratorRoots(k: nat, x: bv8)
    ensures Eval(Generator(k), x) == 0 <==> exists i :: 0 <= i < k && x == Exp(i)
  {
    hide Add, Mul, Shift;
    if k == 0 {
      EvalLinear(0, x);
      MulUnit(1);
      AddLaws(1, 0);
      assert Pow(x, 0) == 1;
      assert Eval([1], x) == Add(Mul(1, 1), Eval([], x));
    } else {
      var f := [1, Gexp(k - 1)];
      GeneratorRoots(k - 1, x);
      EvalTimes(Generator(k - 1), f, x);
      EvalLinear(Gexp(k - 1), x);
      AddLaws(x, Exp(k - 1));
      MulNoZeroDivisors(Eval(Generator(k - 1), x), Eval(f, x));
    }
  }

  // ---- correction bytes

  /** Data followed by its correction bytes is a multiple of the generator. */
  lemma CodewordIsMultiple(data: Poly, k: nat)
    ensures data + EcOf(data, k) == Times(Quotient(data + Zeros(k), Generator(k)), Generator(k))
  {
    hide Add, Mul, Times, Quotient, Reduce, Generator;
    var p, g := data + Zeros(k), Generator(k);
    var q, ec := Quotient(p, g), EcOf(data, k);
    GeneratorMonic(k);
    DivisionIdentity(p, g);
    assert |q| == |data|;
    forall i | 0 <= i < |p|
      ensures (data + ec)[i] == Times(q, g)[i]
    {
      var t, e := Times(q, g)[i], (Zeros(|data|) + ec)[i];
      assert p[i] == Add(t, e);
      AddLaws(t, e);
      AddLaws(e, t);
      AddLaws(t, 0);
    }
  }

  /** ... so it vanishes at x^0 .. x^(k-1). */
  lemma CodewordVanishes(data: Poly, k: nat)
    ensures IsCodeword(data + EcOf(data, k), k)
  {
    hide Add, Mul, Times;
    CodewordIsMultiple(data, k);
    var g := Generator(k);
    forall i | 0 <= i < k
      ensures Eval(data + EcOf(data, k), Exp(i)) == 0
    {
      GeneratorRoots(k, Exp(i));
      EvalTimes(Quotient(data + Zeros(k), g), g, Exp(i));
      MulUnit(Eval(Quotient(data + Zeros(k), g), Exp(i)));
    }
  }

  // ---- the correction bytes are unique, and the code has distance k + 1

  function Weight(p: Poly): nat {
    if p == [] then 0 else (if p[0] == 0 then 0 else 1) + Weight(p[1..])
  }

  /** Coefficient j times (X_j - c), where X_j = x^(|p|-1-j) is the point position j is weighted by. */
  function Twist(p: Poly, c: bv8): (r: Poly)
    ensures |r| == |p|
  {
    if p == [] then [] else [Mul(p[0], Add(Exp(|p| - 1), c))] + Twist(p[1..], c)
  }

  /** Twisting trades one power sum for the next: it drops one equation. */
  lemma {:induction false} EvalTwist(p: Poly, c: bv8, i: nat)
    ensures Eval(Twist(p, c), Exp(i)) == Add(Eval(p, Exp(i + 1)), Mul(c, Eval(p, Exp(i))))
  {
    hide Add, Mul, Exp, Pow;
    if p == [] {
      MulUnit(c);
      AddLaws(0, 0);
    } else {
      var m := |p| - 1;
      var w, w' := Pow(Exp(i), m), Pow(Exp(i + 1), m);
      EvalTwist(p[1..], c, i);
      assert Twist(p, c)[1..] == Twist(p[1..], c);
      TwistedTerm(p[0], c, i, m);
      MulDistributes(c, Mul(p[0], w), Eval(p[1..], Exp(i)));
      AddSwap(Mul(p[0], w'), Mul(c, Mul(p[0], w)), Eval(p[1..], Exp(i + 1)), Mul(c, Eval(p[1..], Exp(i))));
    }
  }

  lemma TwistedTerm(a: bv8, c: bv8, i: nat, m: nat)
    ensures Mul(Mul(a, Add(Exp(m), c)), Pow(Exp(i), m))
         == Add(Mul(a, Pow(Exp(i + 1), m)), Mul(c, Mul(a, Pow(Exp(i), m))))
  {
    hide Add, Mul, Exp, Pow;
    var w := Pow(Exp(i), m);
    PowExp(i, m);
    PowExp(i + 1, m);
    var im := i * m;
    assert m + im == (i + 1) * m;
    MulExpExp(m, im);
    MulAssociates(a, Add(Exp(m), c), w);
    MulDistributes(w, Exp(m), c);
    MulDistributes(a, Mul(Exp(m), w), Mul(c, w));
    MulAssociates(a, c, w);
    MulAssociates(c, a, w);
    MulCommutes(a, c);
  }

  /** Twisting by the point of a non-zero position clears that position and no other. */
  lemma {:induction false} TwistWeight(p: Poly, e: nat)
    requires |p| <= 255 && e < 255
    ensures Weight(Twist(p, Exp(e))) == Weight(p) - (if e < |p| && p[|p| - 1 - e] != 0 then 1 else 0)
  {
    hide Add, Mul, Exp;
    if p != [] {
      var m := |p| - 1;
      TwistWeight(p[1..], e);
      assert Twist(p, Exp(e))[1..] == Twist(p[1..], Exp(e));
      assert e < m ==> p[1..][m - 1 - e] == p[m - e];
      AddLaws(Exp(m), Exp(e));
      MulNoZeroDivisors(p[0], Add(Exp(m), Exp(e)));
      if m != e && Exp(m) == Exp(e) {
        if m < e { ExpInjective(m, e); } else { ExpInjective(e, m); }
      }
    }
  }

  lemma {:induction false} NonzeroPosition(p: Poly) returns (j: nat)
    requires Weight(p) > 0
    ensures j < |p| && p[j] != 0
  {
    if p[0] != 0 {
      j := 0;
    } else {
      j := NonzeroPosition(p[1..]);
      j := j + 1;
    }
  }

  /** A block of weight one does not vanish at x^0. */
  lemma {:induction false} EvalAtOne(p: Poly)
    ensures Weight(p) == 0 ==> Eval(p, 1) == 0
    ensures Weight(p) == 1 ==> Eval(p, 1) != 0
  {
    hide Add, Mul;
    if p != [] {
      EvalAtOne(p[1..]);
      PowOne(|p| - 1);
      MulUnit(p[0]);
      AddLaws(p[0], 0);
      AddLaws(Eval(p[1..], 1), 0);
    }
  }

  /** A non-zero codeword of at most 255 bytes has more than k non-zero bytes. */
  lemma {:induction false} CodewordWeight(p: Poly, k: nat)
    requires |p| <= 255 && IsCodeword(p, k)
    ensures Weight(p) == 0 || Weight(p) > k
    decreases k
  {
    if k > 0 && Weight(p) > 0 {
      var j := NonzeroPosition(p);
      var e := |p| - 1 - j;
      var p' := Twist(p, Exp(e));
      TwistWeight(p, e);
      forall i | 0 <= i < k - 1
        ensures Eval(p', Exp(i)) == 0
      {
        hide Add, Mul, Exp, Eval;
        EvalTwist(p, Exp(e), i);
        MulUnit(Exp(e));
        AddLaws(0, 0);
      }
      CodewordWeight(p', k - 1);
      assert Exp(0) == 1;
      assert Eval(p, Exp(0)) == 0;
      EvalAtOne(p);
    }
  }

  /** How many places two blocks differ in. */
  function Distance(p: Poly, q: Poly): nat
    requires |p| == |q|
  {
    Weight(Plus(p, q))
  }

  lemma {:induction false} DistanceZero(p: Poly, q: Poly)
    requires |p| == |q|
    ensures Distance(p, q) == 0 <==> p == q
  {
    hide Add;
    if p != [] {
      AddLaws(p[0], q[0]);
      DistanceZero(p[1..], q[1..]);
      assert Plus(p, q)[1..] == Plus(p[1..], q[1..]);
      assert p == [p[0]] + p[1..] && q == [q[0]] + q[1..];
    }
  }

  /** Two different codewords differ in more than k places, so k/2 damaged bytes can be corrected. */
  lemma CodeDistance(p: Poly, q: Poly, k: nat)
    requires |p| == |q| <= 255 && IsCodeword(p, k) && IsCodeword(q, k)
    ensures p == q || Distance(p, q) > k
  {
    forall i | 0 <= i < k
      ensures Eval(Plus(p, q), Exp(i)) == 0
    {
      EvalPlus(p, q, Exp(i));
    }
    CodewordWeight(Plus(p, q), k);
    DistanceZero(p, q);
  }

  lemma {:induction false} WeightOfPadded(n: nat, p: Poly)
    ensures Weight(Zeros(n) + p) == Weight(p) <= |p|
    decreases n + |p|
  {
    if n > 0 {
      WeightOfPadded(n - 1, p);
      assert (Zeros(n) + p)[1..] == Zeros(n - 1) + p;
    } else {
      assert Zeros(0) + p == p;
      if p != [] {
        WeightOfPadded(0, p[1..]);
        assert Zeros(0) + p[1..] == p[1..];
      }
    }
  }

  /** The correction bytes are the only ones that complete the data to a codeword. */
  lemma CorrectionIsUnique(data: Poly, ec: Poly, k: nat)
    requires |ec| == k && |data| + k <= 255
    ensures IsCodeword(data + ec, k) <==> ec == EcOf(data, k)
  {
    CodewordVanishes(data, k);
    var c, c' := data + ec, data + EcOf(data, k);
    if IsCodeword(c, k) {
      CodeDistance(c, c', k);
      var d := Plus(ec, EcOf(data, k));
      forall i | 0 <= i < |data|
        ensures Plus(c, c')[i] == 0
      {
        AddLaws(data[i], data[i]);
      }
      assert Plus(c, c') == Zeros(|data|) + d;
      WeightOfPadded(|data|, d);
      assert c[|data|..] == ec && c'[|data|..] == EcOf(data, k);
    }
  }

  // ---- the loops

  lemma {:induction false} StripDrop(p: Poly, n: nat)
    requires n <= |p| && forall i :: 0 <= i < n ==> p[i] == 0
    ensures Strip(p) == Strip(p[n..])
  {
    if n > 0 {
      StripDrop(p[1..], n - 1);
      assert p[1..][n - 1..] == p[n..];
    } else {
      assert p[0..] == p;
    }
  }

  method StripLeadingZeros(poly: Poly) returns (r: Poly)
    ensures r == Strip(poly)
    ensures |r| <= |poly| && (r == [] || r[0] != 0)
  {
    var i := 0;
    while i < |poly| && poly[i] == 0
      invariant i <= |poly| && forall j :: 0 <= j < i ==> poly[j] == 0
    {
      i := i + 1;
    }
    StripDrop(poly, i);
    r := poly[i..];
  }

  method PolyMul(a: Poly, b: Poly) returns (r: Poly)
    requires a != [] && b != []
    ensures r == Times(a, b)
  {
    hide Add, Mul, Times, Remaining;
    assert forall k :: 0 <= k < |a| + |b| - 1 ==> Remaining(a, b, 0, k) == Times(a, b)[k] by { RemainingEnds(a, b); }
    var n := |a| + |b| - 1;
    var out := new bv8[n](_ => 0);
    forall k | 0 <= k < n { AddLaws(Times(a, b)[k], 0); }
    for i := 0 to |a|
      invariant forall k :: 0 <= k < n ==> Add(out[k], Remaining(a, b, i, k)) == Times(a, b)[k]
    {
      ghost var before := out[..];
      for j := 0 to |b|
        invariant forall k :: 0 <= k < n ==>
          out[k] == (if i <= k < i + j then Add(before[k], Mul(a[i], b[k - i])) else before[k])
      {
        out[i + j] := Add(out[i + j], Mul(a[i], b[j]));
      }
      forall k | 0 <= k < n
        ensures Add(out[k], Remaining(a, b, i + 1, k)) == Times(a, b)[k]
      {
        RemainingStep(a, b, i, k);
        AddLaws(Remaining(a, b, i + 1, k), 0);
        if i <= k < i + |b| {
          AddAssociates(before[k], Mul(a[i], b[k - i]), Remaining(a, b, i + 1, k));
        }
      }
    }
    r := out[..];
    RemainingEnds(a, b);
    forall k | 0 <= k < n { AddLaws(r[k], 0); }
  }

  /** Coefficient k of what rows i and later still contribute. */
  ghost function Remaining(a: Poly, b: Poly, i: nat, k: nat): bv8
    requires b != [] && i <= |a| && k < |a| + |b| - 1
  {
    if k < i then 0 else Times(a[i..], b)[k - i]
  }

  lemma RemainingEnds(a: Poly, b: Poly)
    requires a != [] && b != []
    ensures forall k :: 0 <= k < |a| + |b| - 1 ==> Remaining(a, b, 0, k) == Times(a, b)[k]
    ensures forall k :: 0 <= k < |a| + |b| - 1 ==> Remaining(a, b, |a|, k) == 0
  {
    assert a[0..] == a && a[|a|..] == [];
  }

  lemma RemainingStep(a: Poly, b: Poly, i: nat, k: nat)
    requires b != [] && i < |a| && k < |a| + |b| - 1
    ensures Remaining(a, b, i, k) ==
      Add(if i <= k < i + |b| then Mul(a[i], b[k - i]) else 0, Remaining(a, b, i + 1, k))
  {
    hide Add, Mul;
    AddLaws(0, 0);
    assert a[i..][1..] == a[i + 1..] && a[i..][0] == a[i];
    var row := Scale(a[i], b) + Zeros(|a| - i - 1);
    if k >= i {
      assert row[k - i] == if k < i + |b| then Mul(a[i], b[k - i]) else 0;
    }
  }

  method RsGeneratorPoly(ecCount: nat) returns (poly: Poly)
    ensures poly == Generator(ecCount)
  {
    poly := [1];
    for i := 0 to ecCount
      invariant poly == Generator(i)
    {
      poly := PolyMul(poly, [1, Gexp(i)]);
    }
  }

  lemma {:induction false} ReduceStripped(p: Poly, g: Poly)
    requires g != []
    ensures Strip(Reduce(p, g)) == Strip(Reduce(Strip(p), g))
    decreases |p|
  {
    hide Add, Mul;
    if p != [] && p[0] == 0 {
      ReduceStripped(p[1..], g);
      if |p| >= |g| {
        var row := Scale(p[0], g) + Zeros(|p| - |g|);
        forall i | 1 <= i < |p|
          ensures Plus(p, row)[i] == p[i]
        {
          if i < |g| { MulUnit(g[i]); }
          AddLaws(p[i], 0);
        }
        assert Step(p, g) == p[1..];
      }
    }
  }

  /** The remainder, without leading zeros. */
  method PolyMod(dividend: Poly, divisor: Poly) returns (rem: Poly)
    requires divisor != [] && divisor[0] == 1
    ensures rem == Strip(Reduce(dividend, divisor))
  {
    hide Add, Mul;
    rem := StripLeadingZeros(dividend);
    ReduceStripped(dividend, divisor);
    while |rem| >= |divisor|
      invariant rem == [] || rem[0] != 0
      invariant Strip(Reduce(rem, divisor)) == Strip(Reduce(dividend, divisor))
      decreases |rem|
    {
      var out := SubtractMultiple(rem, divisor);
      SubtractedMultiple(rem, divisor, out);
      rem := StripLeadingZeros(out);
    }
  }

  /** One pass of polyMod's loop: clear the leading coefficient of rem. */
  method SubtractMultiple(rem: Poly, divisor: Poly) returns (r: Poly)
    requires 0 < |divisor| <= |rem|
    ensures |r| == |rem|
    ensures forall k :: 0 <= k < |divisor| ==> r[k] == Add(rem[k], Mul(divisor[k], rem[0]))
    ensures forall k :: |divisor| <= k < |rem| ==> r[k] == rem[k]
  {
    hide Add, Mul;
    var out := new bv8[|rem|](_ => 0);
    for i := 0 to |divisor|
      invariant forall k :: 0 <= k < i ==> out[k] == Add(rem[k], Mul(divisor[k], rem[0]))
    {
      out[i] := Add(rem[i], Mul(divisor[i], rem[0]));
    }
    for i := |divisor| to |rem|
      invariant forall k :: 0 <= k < |divisor| ==> out[k] == Add(rem[k], Mul(divisor[k], rem[0]))
      invariant forall k :: |divisor| <= k < i ==> out[k] == rem[k]
    {
      out[i] := rem[i];
    }
    r := out[..];
  }

  lemma SubtractedMultiple(rem: Poly, g: Poly, out: Poly)
    requires 0 < |g| <= |rem| == |out| && g[0] == 1
    requires forall k :: 0 <= k < |g| ==> out[k] == Add(rem[k], Mul(g[k], rem[0]))
    requires forall k :: |g| <= k < |rem| ==> out[k] == rem[k]
    ensures |Strip(out)| < |rem|
    ensures Strip(Reduce(Strip(out), g)) == Strip(Reduce(rem, g))
  {
    hide Add, Mul;
    var full := Plus(rem, Scale(rem[0], g) + Zeros(|rem| - |g|));
    forall k | 0 <= k < |rem|
      ensures out[k] == full[k]
    {
      if k < |g| { MulCommutes(g[k], rem[0]); } else { AddLaws(rem[k], 0); }
    }
    MulUnit(rem[0]);
    AddLaws(rem[0], rem[0]);
    assert out == full && out[0] == 0;
    assert out[1..] == Step(rem, g);
    StripShortens(out[1..]);
    ReduceStripped(Step(rem, g), g);
  }

  lemma {:induction false} StripShortens(p: Poly)
    ensures |Strip(p)| <= |p|
    ensures p == Zeros(|p| - |Strip(p)|) + Strip(p)
  {
    if p != [] && p[0] == 0 {
      StripShortens(p[1..]);
      assert p == [p[0]] + p[1..];
    }
  }

  /** The k correction bytes, the stripped remainder padded back to k. */
  method RsEcCodewords(data: Poly, ecCount: nat) returns (ec: Poly)
    ensures ec == EcOf(data, ecCount)
  {
    hide Reduce, Generator, Exp, Strip;
    var gen := RsGeneratorPoly(ecCount);
    GeneratorMonic(ecCount);
    var dividend := data + Zeros(ecCount);
    var rem := PolyMod(dividend, gen);
    StripShortens(EcOf(data, ecCount));
    var out := new bv8[ecCount](_ => 0);
    for i := 0 to |rem|
      invariant forall k :: 0 <= k < ecCount - |rem| ==> out[k] == 0
      invariant forall k :: 0 <= k < i ==> out[ecCount - |rem| + k] == rem[k]
    {
      out[ecCount - |rem| + i] := rem[i];
    }
    ec := out[..];
    assert ec == Zeros(ecCount - |rem|) + rem;
  }
}
