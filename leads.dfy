/** Lead derivation over reals: baseline removal of the three measured
    leads, the augmented leads aVR, aVL and aVF, and the second baseline
    pass over the augmented leads (systolic.py:298-314, main.py:217-233).
    The two revisions differ in the scale applied to the measured leads
    (x1000 against none) and in the divisor of aVL and aVF (2 against -2),
    so both are one derivation with those two parameters. */
module Leads {

  function Sum(s: seq<real>): real
  {
    if |s| == 0 then 0.0 else Sum(s[..|s| - 1]) + s[|s| - 1]
  }

  /** np.average of a row.  numpy gives NaN for an empty row; that value is
      only ever used inside loops over the empty range, so 0 stands in. */
  function Mean(s: seq<real>): real
  {
    if |s| == 0 then 0.0 else Sum(s) / (|s| as real)
  }

  /** One slot of the first pass: (value - average) * scale. */
  function Deviation(x: real, average: real, scale: real): real
  {
    (x - average) * scale
  }

  /** (row[i] - average) * scale, for every slot. */
  function Center(s: seq<real>, scale: real): (r: seq<real>)
    ensures |r| == |s|
  {
    seq(|s|, i requires 0 <= i < |s| => Deviation(s[i], Mean(s), scale))
  }

  /** row[i] - offset, for every slot (the second pass). */
  function Shift(s: seq<real>, offset: real): (r: seq<real>)
    ensures |r| == |s|
  {
    seq(|s|, i requires 0 <= i < |s| => s[i] - offset)
  }

  /** aVR = -1 * (I + II) / 2 */
  function Avr(lead1: seq<real>, lead2: seq<real>): (r: seq<real>)
    requires |lead1| == |lead2|
    ensures |r| == |lead1|
  {
    seq(|lead1|, i requires 0 <= i < |lead1| => -1.0 * (lead1[i] + lead2[i]) / 2.0)
  }

  function Quotient(x: real, divisor: real): real
    requires divisor != 0.0
  {
    x / divisor
  }

  /** aVL = (I - II) / divisor */
  function Avl(lead1: seq<real>, lead2: seq<real>, divisor: real): (r: seq<real>)
    requires |lead1| == |lead2| && divisor != 0.0
    ensures |r| == |lead1|
  {
    seq(|lead1|, i requires 0 <= i < |lead1| => Quotient(lead1[i] - lead2[i], divisor))
  }

  /** aVF = (II - I) / divisor */
  function Avf(lead1: seq<real>, lead2: seq<real>, divisor: real): (r: seq<real>)
    requires |lead1| == |lead2| && divisor != 0.0
    ensures |r| == |lead1|
  {
    seq(|lead1|, i requires 0 <= i < |lead1| => Quotient(lead2[i] - lead1[i], divisor))
  }

  predicate IsLeadSet(rows: seq<seq<real>>, n: nat)
  {
    forall r :: 0 <= r < |rows| ==> |rows[r]| == n
  }

  /** The six rows after the first loop: I, II, III centred and scaled,
      then aVR, aVL, aVF of the centred I and II. */
  function FirstPass(raw: seq<seq<real>>, scale: real, divisor: real): (rows: seq<seq<real>>)
    requires |raw| == 3 && IsLeadSet(raw, |raw[0]|) && divisor != 0.0
    ensures |rows| == 6 && IsLeadSet(rows, |raw[0]|)
  {
    var c0, c1, c2 := Center(raw[0], scale), Center(raw[1], scale), Center(raw[2], scale);
    [c0, c1, c2, Avr(c0, c1), Avl(c0, c1, divisor), Avf(c0, c1, divisor)]
  }

  /** The second loop: rows 3-5 each minus its own average. */
  function SecondPass(rows: seq<seq<real>>): (r: seq<seq<real>>)
    requires |rows| == 6
    ensures |r| == 6 && r[..3] == rows[..3]
    ensures forall k :: 0 <= k < 6 ==> |r[k]| == |rows[k]|
  {
    [rows[0], rows[1], rows[2],
     Shift(rows[3], Mean(rows[3])), Shift(rows[4], Mean(rows[4])), Shift(rows[5], Mean(rows[5]))]
  }

  /** The six rows the derivation leaves in y_vals, from the three measured
      rows: both passes. */
  function Derive(raw: seq<seq<real>>, scale: real, divisor: real): (rows: seq<seq<real>>)
    requires |raw| == 3 && IsLeadSet(raw, |raw[0]|) && divisor != 0.0
    ensures |rows| == 6 && IsLeadSet(rows, |raw[0]|)
  {
    SecondPass(FirstPass(raw, scale, divisor))
  }

  const SystolicScale: real := 1000.0
  const SystolicDivisor: real := 2.0
  const MainScale: real := 1.0
  const MainDivisor: real := -2.0

  // ---------------------------------------------------------------------
  // Sums of linear combinations

  function Combine(s: seq<real>, t: seq<real>, p: real, q: real, k: real): (r: seq<real>)
    requires |s| == |t|
    ensures |r| == |s|
  {
    seq(|s|, i requires 0 <= i < |s| => p * s[i] + q * t[i] + k)
  }

  /** p * s[i], for every slot. */
  function Scaled(s: seq<real>, p: real): (r: seq<real>)
    ensures |r| == |s|
  {
    seq(|s|, i requires 0 <= i < |s| => p * s[i])
  }

  /** s[i] + t[i], for every slot. */
  function Added(s: seq<real>, t: seq<real>): (r: seq<real>)
    requires |s| == |t|
    ensures |r| == |s|
  {
    seq(|s|, i requires 0 <= i < |s| => s[i] + t[i])
  }

  /** n slots holding k. */
  function Repeated(n: nat, k: real): (r: seq<real>)
    ensures |r| == n
  {
    seq(n, _ => k)
  }

  lemma {:induction false} SumAdded(s: seq<real>, t: seq<real>)
    requires |s| == |t|
    ensures Sum(Added(s, t)) == Sum(s) + Sum(t)
    decreases |s|
  {
    if |s| > 0 {
      var last := |s| - 1;
      assert Added(s, t)[..last] == Added(s[..last], t[..last]);
      SumAdded(s[..last], t[..last]);
    }
  }

  lemma {:induction false} SumScaled(s: seq<real>, p: real)
    ensures Sum(Scaled(s, p)) == p * Sum(s)
    decreases |s|
  {
    if |s| > 0 {
      var last := |s| - 1;
      var s', prefix := s[..last], Scaled(s, p)[..last];
      forall i | 0 <= i < last
        ensures prefix[i] == Scaled(s', p)[i]
      {
        assert s'[i] == s[i];
      }
      assert prefix == Scaled(s', p);
      SumScaled(s', p);
      ScaleSum(Sum(s'), s[last], p);
    }
  }

  /** The slot count comes in as a real, so that no product mixes an integer
      and a real. */
  lemma {:induction false} SumRepeated(n: nat, k: real, count: real)
    requires count == n as real
    ensures Sum(Repeated(n, k)) == k * count
  {
    if n > 0 {
      assert Repeated(n, k)[..n - 1] == Repeated(n - 1, k);
      SumRepeated(n - 1, k, count - 1.0);
      ScaleSum(count - 1.0, 1.0, k);
    }
  }

  lemma ScaleSum(a: real, b: real, p: real)
    ensures p * a + p * b == p * (a + b)
  {
  }

  lemma CombineSplit(s: seq<real>, t: seq<real>, p: real, q: real, k: real)
    requires |s| == |t|
    ensures Combine(s, t, p, q, k) == Added(Added(Scaled(s, p), Scaled(t, q)), Repeated(|s|, k))
  {
  }

  lemma SumCombineParts(s: seq<real>, t: seq<real>, p: real, q: real, k: real)
    requires |s| == |t|
    ensures Sum(Combine(s, t, p, q, k)) == Sum(Scaled(s, p)) + Sum(Scaled(t, q)) + Sum(Repeated(|s|, k))
  {
    var u, v, w := Scaled(s, p), Scaled(t, q), Repeated(|s|, k);
    CombineSplit(s, t, p, q, k);
    var uv, c := Added(u, v), Combine(s, t, p, q, k);
    assert Sum(c) == Sum(uv) + Sum(w) by { SumAdded(uv, w); }
    assert Sum(uv) == Sum(u) + Sum(v) by { SumAdded(u, v); }
  }

  /** The sum of p * s + q * t + k, slot by slot, over count slots. */
  lemma SumCombine(s: seq<real>, t: seq<real>, p: real, q: real, k: real, count: real)
    requires |s| == |t| && count == |s| as real
    ensures Sum(Combine(s, t, p, q, k)) == p * Sum(s) + q * Sum(t) + k * count
  {
    SumCombineParts(s, t, p, q, k);
    SumScaled(s, p);
    SumScaled(t, q);
    SumRepeated(|s|, k, count);
  }

  /** A row centred on its own mean sums to zero, whatever the scale. */
  lemma CenterSumsToZero(s: seq<real>, scale: real)
    ensures Sum(Center(s, scale)) == 0.0
  {
    var m, n := Mean(s), |s| as real;
    CenterAsCombine(s, scale, m);
    SumCombine(s, s, scale, 0.0, -m * scale, n);
    if |s| > 0 {
      CentredTotal(Sum(s), n, m, scale);
    }
  }

  lemma CenterAsCombine(s: seq<real>, scale: real, m: real)
    requires m == Mean(s)
    ensures Center(s, scale) == Combine(s, s, scale, 0.0, -m * scale)
  {
    forall i | 0 <= i < |s|
      ensures Center(s, scale)[i] == Combine(s, s, scale, 0.0, -m * scale)[i]
    {
      Distribute(s[i], m, scale);
    }
  }

  lemma CentredTotal(sum: real, n: real, m: real, scale: real)
    requires n > 0.0 && m == sum / n
    ensures scale * sum + 0.0 * sum + -m * scale * n == 0.0
  {
    assert m * n == sum;
  }

  lemma Distribute(a: real, b: real, c: real)
    ensures (a - b) * c == c * a + 0.0 * a + -b * c
  {
  }

  lemma DivideDifference(a: real, b: real, d: real)
    requires d != 0.0
    ensures (a - b) / d == (1.0 / d) * a + (-1.0 / d) * b + 0.0
  {
  }

  lemma ShiftByZero(s: seq<real>)
    ensures Shift(s, 0.0) == s
  {
  }

  // ---------------------------------------------------------------------
  // Properties of the derivation

  /** After the first pass each measured lead is scale * (raw - mean) and has
      zero mean. */
  lemma MeasuredLeadsCentred(raw: seq<seq<real>>, scale: real, divisor: real)
    requires |raw| == 3 && IsLeadSet(raw, |raw[0]|) && divisor != 0.0
    ensures var rows := Derive(raw, scale, divisor);
      rows[0] == Center(raw[0], scale) && rows[1] == Center(raw[1], scale) && rows[2] == Center(raw[2], scale)
    ensures var rows := Derive(raw, scale, divisor);
      Mean(rows[0]) == 0.0 && Mean(rows[1]) == 0.0 && Mean(rows[2]) == 0.0
  {
    CenterSumsToZero(raw[0], scale);
    CenterSumsToZero(raw[1], scale);
    CenterSumsToZero(raw[2], scale);
  }

  /** A combination of two zero-sum rows with no constant term has zero mean. */
  lemma CombineMeanZero(s: seq<real>, t: seq<real>, p: real, q: real)
    requires |s| == |t| && Sum(s) == 0.0 && Sum(t) == 0.0
    ensures Mean(Combine(s, t, p, q, 0.0)) == 0.0
  {
    var c := Combine(s, t, p, q, 0.0);
    assert Sum(c) == 0.0 by {
      SumCombine(s, t, p, q, 0.0, |s| as real);
    }
    if |c| > 0 {
      assert Mean(c) == 0.0 / (|c| as real);
    }
  }

  /** (s - t) / d, slot by slot, as a linear combination. */
  lemma QuotientAsCombine(s: seq<real>, t: seq<real>, d: real)
    requires |s| == |t| && d != 0.0
    ensures Avl(s, t, d) == Combine(s, t, 1.0 / d, -1.0 / d, 0.0)
  {
    forall i | 0 <= i < |s|
      ensures Avl(s, t, d)[i] == Combine(s, t, 1.0 / d, -1.0 / d, 0.0)[i]
    {
      DivideDifference(s[i], t[i], d);
    }
  }

  /** Augmented leads combined from two zero-sum rows have zero mean. */
  lemma AugmentedSumsToZero(c0: seq<real>, c1: seq<real>, divisor: real)
    requires |c0| == |c1| && divisor != 0.0
    requires Sum(c0) == 0.0 && Sum(c1) == 0.0
    ensures Mean(Avr(c0, c1)) == 0.0
    ensures Mean(Avl(c0, c1, divisor)) == 0.0
    ensures Mean(Avf(c0, c1, divisor)) == 0.0
  {
    assert Avr(c0, c1) == Combine(c0, c1, -0.5, -0.5, 0.0);
    CombineMeanZero(c0, c1, -0.5, -0.5);
    var p, q := 1.0 / divisor, -1.0 / divisor;
    QuotientAsCombine(c0, c1, divisor);
    assert Avl(c0, c1, divisor) == Combine(c0, c1, p, q, 0.0);
    CombineMeanZero(c0, c1, p, q);
    QuotientAsCombine(c1, c0, divisor);
    assert Avf(c0, c1, divisor) == Combine(c1, c0, p, q, 0.0);
    CombineMeanZero(c1, c0, p, q);
  }

  /** The augmented leads built from centred leads already have zero mean,
      so the second pass subtracts 0 and leaves them as derived. */
  lemma SecondPassSubtractsZero(raw: seq<seq<real>>, scale: real, divisor: real)
    requires |raw| == 3 && IsLeadSet(raw, |raw[0]|) && divisor != 0.0
    ensures var c0, c1 := Center(raw[0], scale), Center(raw[1], scale);
      Mean(Avr(c0, c1)) == 0.0 && Mean(Avl(c0, c1, divisor)) == 0.0 && Mean(Avf(c0, c1, divisor)) == 0.0
    ensures var c0, c1 := Center(raw[0], scale), Center(raw[1], scale);
      var rows := Derive(raw, scale, divisor);
      rows[3] == Avr(c0, c1) && rows[4] == Avl(c0, c1, divisor) && rows[5] == Avf(c0, c1, divisor)
  {
    var c0, c1 := Center(raw[0], scale), Center(raw[1], scale);
    CenterSumsToZero(raw[0], scale);
    CenterSumsToZero(raw[1], scale);
    AugmentedSumsToZero(c0, c1, divisor);
    ShiftByZero(Avr(c0, c1));
    ShiftByZero(Avl(c0, c1, divisor));
    ShiftByZero(Avf(c0, c1, divisor));
  }

  /** Every one of the six derived leads has zero mean. */
  lemma DerivedLeadsCentred(raw: seq<seq<real>>, scale: real, divisor: real)
    requires |raw| == 3 && IsLeadSet(raw, |raw[0]|) && divisor != 0.0
    ensures forall r :: 0 <= r < 6 ==> Mean(Derive(raw, scale, divisor)[r]) == 0.0
  {
    MeasuredLeadsCentred(raw, scale, divisor);
    SecondPassSubtractsZero(raw, scale, divisor);
  }

  /** Slot by slot, in the final rows: aVR = -(I + II) / 2,
      aVL = (I - II) / divisor and aVF = (II - I) / divisor. */
  lemma AugmentedLeadIdentities(raw: seq<seq<real>>, scale: real, divisor: real)
    requires |raw| == 3 && IsLeadSet(raw, |raw[0]|) && divisor != 0.0
    ensures var rows := Derive(raw, scale, divisor);
      forall i :: 0 <= i < |raw[0]| ==>
        rows[3][i] == -(rows[0][i] + rows[1][i]) / 2.0 &&
        rows[4][i] == (rows[0][i] - rows[1][i]) / divisor &&
        rows[5][i] == (rows[1][i] - rows[0][i]) / divisor
  {
    SecondPassSubtractsZero(raw, scale, divisor);
  }

  /** Slot by slot, aVL = -aVF; hence aVR + aVL + aVF = aVR, which is not
      zero in general. */
  lemma AvlOpposesAvf(raw: seq<seq<real>>, scale: real, divisor: real)
    requires |raw| == 3 && IsLeadSet(raw, |raw[0]|) && divisor != 0.0
    ensures var rows := Derive(raw, scale, divisor);
      forall i :: 0 <= i < |raw[0]| ==>
        rows[4][i] == -rows[5][i] && rows[3][i] + rows[4][i] + rows[5][i] == rows[3][i]
  {
    SecondPassSubtractsZero(raw, scale, divisor);
    var rows := Derive(raw, scale, divisor);
    var c0, c1 := Center(raw[0], scale), Center(raw[1], scale);
    forall i | 0 <= i < |raw[0]| ensures rows[4][i] == -rows[5][i] {
      assert rows[4][i] == Quotient(c0[i] - c1[i], divisor);
      assert rows[5][i] == Quotient(c1[i] - c0[i], divisor);
      QuotientNegate(c0[i] - c1[i], divisor);
    }
  }

  lemma QuotientNegate(x: real, d: real)
    requires d != 0.0
    ensures Quotient(x, d) == -Quotient(-x, d)
  {
  }

  /** The sum of the augmented leads is not zero in general: one unit
      pulse on lead I leaves -1/4 in slot 0. */
  lemma AugmentedSumNotZero()
    ensures var rows := Derive([[1.0, 0.0], [0.0, 0.0], [0.0, 0.0]], 1.0, 2.0);
      rows[3][0] + rows[4][0] + rows[5][0] == -0.25
  {
    var raw := [[1.0, 0.0], [0.0, 0.0], [0.0, 0.0]];
    var rows := Derive(raw, 1.0, 2.0);
    assert Sum(raw[0]) == 1.0 by {
      assert raw[0][..1] == [1.0] && [1.0][..0] == [];
    }
    assert Sum(raw[1]) == 0.0 by {
      assert raw[1][..1] == [0.0] && [0.0][..0] == [];
    }
    MeasuredLeadsCentred(raw, 1.0, 2.0);
    AugmentedLeadIdentities(raw, 1.0, 2.0);
    AvlOpposesAvf(raw, 1.0, 2.0);
    assert rows[0][0] == Center(raw[0], 1.0)[0] == 0.5;
    assert rows[1][0] == Center(raw[1], 1.0)[0] == 0.0;
  }

  /** main.py's aVL (divisor -2) is systolic.py's aVF (divisor 2) on the same
      centred leads, and main.py's aVF is systolic.py's aVL. */
  lemma RevisionSignConvention(raw: seq<seq<real>>, scale: real)
    requires |raw| == 3 && IsLeadSet(raw, |raw[0]|)
    ensures Derive(raw, scale, MainDivisor)[4] == Derive(raw, scale, SystolicDivisor)[5]
    ensures Derive(raw, scale, MainDivisor)[5] == Derive(raw, scale, SystolicDivisor)[4]
    ensures Derive(raw, scale, MainDivisor)[3] == Derive(raw, scale, SystolicDivisor)[3]
  {
    SecondPassSubtractsZero(raw, scale, MainDivisor);
    SecondPassSubtractsZero(raw, scale, SystolicDivisor);
    var c0, c1 := Center(raw[0], scale), Center(raw[1], scale);
    assert Avl(c0, c1, MainDivisor) == Avf(c0, c1, SystolicDivisor);
    assert Avf(c0, c1, MainDivisor) == Avl(c0, c1, SystolicDivisor);
  }

  predicate Constant(s: seq<real>)
  {
    forall i :: 0 <= i < |s| ==> s[i] == s[0]
  }

  lemma {:induction false} SumConstant(s: seq<real>)
    requires |s| > 0 && Constant(s)
    ensures Sum(s) == s[0] * (|s| as real)
  {
    if |s| > 1 {
      SumConstant(s[..|s| - 1]);
    }
  }

  /** A constant row centres to zeros. */
  lemma CenterConstant(s: seq<real>, scale: real)
    requires Constant(s)
    ensures forall i :: 0 <= i < |s| ==> Center(s, scale)[i] == 0.0
  {
    if |s| > 0 {
      SumConstant(s);
      assert Mean(s) == s[0];
    }
  }

  /** When every measured row holds one value in all its slots, all six
      derived rows are zero. */
  lemma ConstantLeadsVanish(raw: seq<seq<real>>, scale: real, divisor: real)
    requires |raw| == 3 && IsLeadSet(raw, |raw[0]|) && divisor != 0.0
    requires Constant(raw[0]) && Constant(raw[1]) && Constant(raw[2])
    ensures var rows := Derive(raw, scale, divisor);
      forall r, i :: 0 <= r < 6 && 0 <= i < |raw[0]| ==> rows[r][i] == 0.0
  {
    SecondPassSubtractsZero(raw, scale, divisor);
    var c0, c1 := Center(raw[0], scale), Center(raw[1], scale);
    CenterConstant(raw[0], scale);
    CenterConstant(raw[1], scale);
    CenterConstant(raw[2], scale);
    var rows := Derive(raw, scale, divisor);
    forall r, i | 0 <= r < 6 && 0 <= i < |raw[0]| ensures rows[r][i] == 0.0 {
      assert c0[i] == 0.0 && c1[i] == 0.0;
    }
  }
}
