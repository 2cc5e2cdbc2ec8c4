/** The lead buffer y_vals as a 6 x N array, and the two in-place passes of
    ecg_read that turn rows 0-2 into the six leads (systolic.py:298-314 with
    scale 1000 and divisor 2; main.py:217-233 with scale 1 and divisor -2). */
module Buffer {
  import opened Leads

  /** Row r of the buffer as a sequence. */
  function Row(y: array2<real>, r: nat): (s: seq<real>)
    requires r < y.Length0
    reads y
    ensures |s| == y.Length1 && forall j :: 0 <= j < y.Length1 ==> s[j] == y[r, j]
  {
    seq(y.Length1, j requires 0 <= j < y.Length1 reads y => y[r, j])
  }

  /** All six rows of the buffer. */
  function Rows(y: array2<real>): (rows: seq<seq<real>>)
    requires y.Length0 == 6
    reads y
    ensures |rows| == 6 && forall r :: 0 <= r < 6 ==> rows[r] == Row(y, r)
  {
    [Row(y, 0), Row(y, 1), Row(y, 2), Row(y, 3), Row(y, 4), Row(y, 5)]
  }

  /** Rows 0-2 of the buffer, the three measured leads. */
  function Measured(y: array2<real>): (raw: seq<seq<real>>)
    requires y.Length0 == 6
    reads y
    ensures |raw| == 3 && IsLeadSet(raw, y.Length1)
  {
    [Row(y, 0), Row(y, 1), Row(y, 2)]
  }

  /** A row whose slots are (s[j] - Mean(s)) * scale is Center(s, scale). */
  lemma CentredRow(s: seq<real>, t: seq<real>, scale: real)
    requires |t| == |s|
    requires forall j :: 0 <= j < |s| ==> t[j] == Deviation(s[j], Mean(s), scale)
    ensures t == Center(s, scale)
  {
  }

  /** Rows built slot by slot from lead I and lead II are aVR, aVL, aVF. */
  lemma AugmentedRows(l1: seq<real>, l2: seq<real>, r3: seq<real>, r4: seq<real>, r5: seq<real>, divisor: real)
    requires |l2| == |l1| && |r3| == |l1| && |r4| == |l1| && |r5| == |l1| && divisor != 0.0
    requires forall j :: 0 <= j < |l1| ==> r3[j] == -1.0 * (l1[j] + l2[j]) / 2.0
    requires forall j :: 0 <= j < |l1| ==> r4[j] == Quotient(l1[j] - l2[j], divisor)
    requires forall j :: 0 <= j < |l1| ==> r5[j] == Quotient(l2[j] - l1[j], divisor)
    ensures r3 == Avr(l1, l2) && r4 == Avl(l1, l2, divisor) && r5 == Avf(l1, l2, divisor)
  {
  }

  /** First loop (systolic.py:301-307): rows 0-2 centred and scaled
      against the averages taken before it, rows 3-5 built slot by slot
      from the new values of rows 0 and 1. */
  method CentreAndAugment(y: array2<real>, scale: real, divisor: real)
    requires y.Length0 == 6 && divisor != 0.0
    modifies y
    ensures Rows(y) == FirstPass(old(Measured(y)), scale, divisor)
  {
    ghost var raw := Measured(y);
    var averageI, averageII, averageIII := Mean(Row(y, 0)), Mean(Row(y, 1)), Mean(Row(y, 2));
    FirstPassLoop(y, averageI, averageII, averageIII, scale, divisor);
    ghost var rows := Rows(y);
    CentredRow(raw[0], rows[0], scale);
    CentredRow(raw[1], rows[1], scale);
    CentredRow(raw[2], rows[2], scale);
    AugmentedRows(rows[0], rows[1], rows[3], rows[4], rows[5], divisor);
  }

  /** The loop of the first pass, slot by slot, against averages taken
      before it. */
  method FirstPassLoop(y: array2<real>, averageI: real, averageII: real, averageIII: real, scale: real, divisor: real)
    requires y.Length0 == 6 && divisor != 0.0
    modifies y
    ensures forall j :: 0 <= j < y.Length1 ==> y[0, j] == Deviation(old(y[0, j]), averageI, scale)
    ensures forall j :: 0 <= j < y.Length1 ==> y[1, j] == Deviation(old(y[1, j]), averageII, scale)
    ensures forall j :: 0 <= j < y.Length1 ==> y[2, j] == Deviation(old(y[2, j]), averageIII, scale)
    ensures forall j :: 0 <= j < y.Length1 ==> y[3, j] == -1.0 * (y[0, j] + y[1, j]) / 2.0
    ensures forall j :: 0 <= j < y.Length1 ==> y[4, j] == Quotient(y[0, j] - y[1, j], divisor)
    ensures forall j :: 0 <= j < y.Length1 ==> y[5, j] == Quotient(y[1, j] - y[0, j], divisor)
  {
    var n := y.Length1;
    for i := 0 to n
      invariant forall j :: 0 <= j < i ==> y[0, j] == Deviation(old(y[0, j]), averageI, scale)
      invariant forall j :: 0 <= j < i ==> y[1, j] == Deviation(old(y[1, j]), averageII, scale)
      invariant forall j :: 0 <= j < i ==> y[2, j] == Deviation(old(y[2, j]), averageIII, scale)
      invariant forall j :: 0 <= j < i ==> y[3, j] == -1.0 * (y[0, j] + y[1, j]) / 2.0
      invariant forall j :: 0 <= j < i ==> y[4, j] == Quotient(y[0, j] - y[1, j], divisor)
      invariant forall j :: 0 <= j < i ==> y[5, j] == Quotient(y[1, j] - y[0, j], divisor)
      invariant forall r, j :: 0 <= r < 3 && i <= j < n ==> y[r, j] == old(y[r, j])
    {
      FirstPassSlot(y, i, averageI, averageII, averageIII, scale, divisor);
    }
  }

  /** The body of the first loop for slot i; no other slot changes. */
  method FirstPassSlot(y: array2<real>, i: nat, averageI: real, averageII: real, averageIII: real, scale: real, divisor: real)
    requires y.Length0 == 6 && i < y.Length1 && divisor != 0.0
    modifies y
    ensures forall r, j :: 0 <= r < 6 && 0 <= j < y.Length1 && j != i ==> y[r, j] == old(y[r, j])
    ensures y[0, i] == Deviation(old(y[0, i]), averageI, scale)
    ensures y[1, i] == Deviation(old(y[1, i]), averageII, scale)
    ensures y[2, i] == Deviation(old(y[2, i]), averageIII, scale)
    ensures y[3, i] == -1.0 * (y[0, i] + y[1, i]) / 2.0
    ensures y[4, i] == Quotient(y[0, i] - y[1, i], divisor)
    ensures y[5, i] == Quotient(y[1, i] - y[0, i], divisor)
  {
    y[0, i] := Deviation(y[0, i], averageI, scale);
    y[1, i] := Deviation(y[1, i], averageII, scale);
    y[2, i] := Deviation(y[2, i], averageIII, scale);
    y[3, i] := -1.0 * (y[0, i] + y[1, i]) / 2.0;
    y[4, i] := Quotient(y[0, i] - y[1, i], divisor);
    y[5, i] := Quotient(y[1, i] - y[0, i], divisor);
  }

  /** Second loop (systolic.py:311-314): rows 3-5 minus their own
      averages; rows 0-2 untouched. */
  method RecentreAugmented(y: array2<real>)
    requires y.Length0 == 6
    modifies y
    ensures Rows(y) == SecondPass(old(Rows(y)))
  {
    ghost var before := Rows(y);
    var averageAvr, averageAvl, averageAvf := Mean(Row(y, 3)), Mean(Row(y, 4)), Mean(Row(y, 5));
    SecondPassLoop(y, averageAvr, averageAvl, averageAvf);
    ghost var rows := Rows(y);
    assert rows[0] == before[0] && rows[1] == before[1] && rows[2] == before[2];
    assert rows[3] == Shift(before[3], averageAvr);
    assert rows[4] == Shift(before[4], averageAvl);
    assert rows[5] == Shift(before[5], averageAvf);
  }

  /** The loop of the second pass, slot by slot, against averages taken
      before it. */
  method SecondPassLoop(y: array2<real>, averageAvr: real, averageAvl: real, averageAvf: real)
    requires y.Length0 == 6
    modifies y
    ensures forall r, j :: 0 <= r < 3 && 0 <= j < y.Length1 ==> y[r, j] == old(y[r, j])
    ensures forall j :: 0 <= j < y.Length1 ==> y[3, j] == old(y[3, j]) - averageAvr
    ensures forall j :: 0 <= j < y.Length1 ==> y[4, j] == old(y[4, j]) - averageAvl
    ensures forall j :: 0 <= j < y.Length1 ==> y[5, j] == old(y[5, j]) - averageAvf
  {
    var n := y.Length1;
    for i := 0 to n
      invariant forall r, j :: 0 <= r < 3 && 0 <= j < n ==> y[r, j] == old(y[r, j])
      invariant forall j :: 0 <= j < i ==> y[3, j] == old(y[3, j]) - averageAvr
      invariant forall j :: 0 <= j < i ==> y[4, j] == old(y[4, j]) - averageAvl
      invariant forall j :: 0 <= j < i ==> y[5, j] == old(y[5, j]) - averageAvf
      invariant forall r, j :: 3 <= r < 6 && i <= j < n ==> y[r, j] == old(y[r, j])
    {
      y[3, i] := y[3, i] - averageAvr;
      y[4, i] := y[4, i] - averageAvl;
      y[5, i] := y[5, i] - averageAvf;
    }
  }

  /** Both loops: the buffer ends holding Derive of the measured rows it
      started with. */
  method DeriveLeads(y: array2<real>, scale: real, divisor: real)
    requires y.Length0 == 6 && divisor != 0.0
    modifies y
    ensures Rows(y) == Derive(old(Measured(y)), scale, divisor)
  {
    CentreAndAugment(y, scale, divisor);
    RecentreAugmented(y);
  }
}
