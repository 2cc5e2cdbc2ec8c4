/** The acquisition loop of ecg_read: the serial port is a sequence of read
    chunks; for every buffer slot the loop polls chunks until one, after
    strip, holds a digit, splits it at commas and fills the slot of rows 0-2
    from its first three fields (systolic.py:272-291; main.py:193-213 polls
    and raises the same way).  The polling loop has no exit of its own
    (stop is never set), so running out of chunks is reported as Stalled:
    the device would be polled forever. */
module Acquisition {
  import opened Text
  import opened Calibration
  import opened Leads
  import opened Buffer

  /** A chunk the loop acts on: after strip it holds a digit. */
  predicate IsReading(chunk: string) { HasNumbers(Strip(chunk)) }

  /** The comma fields of a reading. */
  function Fields(chunk: string): (r: seq<string>)
    ensures |r| >= 1
  {
    Split(Strip(chunk), ',')
  }

  datatype Outcome = Completed | IndexError | Stalled

  /** How a collection run ends: the field lists of the slots filled, in
      slot order, and why it stopped. */
  datatype Collection = Collection(fields: seq<seq<string>>, outcome: Outcome)

  /** The loop of lines 272-291 as a function of the chunks still to read
      and the number of slots still to fill.  A reading with fewer than
      three fields stops the run with IndexError at data[1] or data[2]: the
      split is never the thing that raises. */
  function Collect(chunks: seq<string>, n: nat): (r: Collection)
    ensures |r.fields| <= n
    ensures r.outcome == Completed <==> |r.fields| == n
    decreases |chunks|
  {
    if n == 0 then Collection([], Completed)
    else if |chunks| == 0 then Collection([], Stalled)
    else if !IsReading(chunks[0]) then Collect(chunks[1..], n)
    else if |Fields(chunks[0])| < 3 then Collection([], IndexError)
    else
      var rest := Collect(chunks[1..], n - 1);
      Collection([Fields(chunks[0])] + rest.fields, rest.outcome)
  }

  /** The stripped readings among the chunks, in arrival order. */
  function Readings(chunks: seq<string>): (r: seq<string>)
    ensures |r| <= |chunks|
  {
    if |chunks| == 0 then []
    else if IsReading(chunks[0]) then [Strip(chunks[0])] + Readings(chunks[1..])
    else Readings(chunks[1..])
  }

  /** A run that had already filled the slots of prefix, then went on as c. */
  function Extend(prefix: seq<seq<string>>, c: Collection): (r: Collection)
    ensures r.outcome == c.outcome && |r.fields| == |prefix| + |c.fields|
  {
    Collection(prefix + c.fields, c.outcome)
  }

  lemma ExtendTwice(p: seq<seq<string>>, q: seq<seq<string>>, c: Collection)
    ensures Extend(p, Extend(q, c)) == Extend(p + q, c)
  {
    assert p + (q + c.fields) == (p + q) + c.fields;
  }

  lemma ExtendEmpty(p: seq<seq<string>>, outcome: Outcome)
    ensures Extend(p, Collection([], outcome)) == Collection(p, outcome)
  {
    assert p + [] == p;
  }

  /** A run that filled p and goes on as now, where now fills f and goes
      on as later, filled p + [f] and goes on as later. */
  lemma ExtendStep(total: Collection, p: seq<seq<string>>, now: Collection, f: seq<string>, later: Collection)
    requires total == Extend(p, now) && now == Extend([f], later)
    ensures total == Extend(p + [f], later)
  {
    ExtendTwice(p, [f], later);
  }

  /** A run that filled p and goes on to stop at once has filled p. */
  lemma ExtendStop(total: Collection, p: seq<seq<string>>, now: Collection, outcome: Outcome)
    requires total == Extend(p, now) && now == Collection([], outcome)
    ensures total == Collection(p, outcome)
  {
    ExtendEmpty(p, outcome);
  }

  /** r is what filling n slots from the readings a gives. */
  predicate TakesReadings(r: Collection, a: seq<string>, n: nat)
  {
    |r.fields| <= |a| &&
    (forall j :: 0 <= j < |r.fields| ==>
       r.fields[j] == Split(a[j], ',') && |r.fields[j]| >= 3) &&
    (r.outcome == IndexError ==>
       |r.fields| < n && |r.fields| < |a| && |Split(a[|r.fields|], ',')| < 3) &&
    (r.outcome == Stalled ==> |r.fields| == |a| < n)
  }

  lemma TakesReadingsCons(s: string, rest: Collection, a: seq<string>, n: nat)
    requires n > 0 && |Split(s, ',')| >= 3 && TakesReadings(rest, a, n - 1)
    ensures TakesReadings(Collection([Split(s, ',')] + rest.fields, rest.outcome), [s] + a, n)
  {
    var r := Collection([Split(s, ',')] + rest.fields, rest.outcome);
    forall j | 0 <= j < |r.fields|
      ensures r.fields[j] == Split(([s] + a)[j], ',') && |r.fields[j]| >= 3
    {
      if j > 0 {
        assert r.fields[j] == rest.fields[j - 1];
        assert ([s] + a)[j] == a[j - 1];
      }
    }
    if r.outcome == IndexError {
      assert ([s] + a)[|r.fields|] == a[|rest.fields|];
    }
  }

  /** The polling loop for one slot (while not stop, lines 273-291 of
      systolic.py and 194-213 of main.py): consume chunks until one holds
      a digit after strip and return it stripped, with the position after
      it; None when the chunks run out.  For k slots still to fill, what
      Collect does from pos is decided by that reading. */
  method Poll(chunks: seq<string>, pos: nat, ghost k: nat) returns (next: nat, reading: Option<string>)
    requires pos <= |chunks| && k > 0
    ensures pos <= next <= |chunks|
    ensures reading.None? ==> Collect(chunks[pos..], k) == Collection([], Stalled)
    ensures reading.Some? ==> (HasNumbers(reading.value) &&
      Collect(chunks[pos..], k) ==
        if |Split(reading.value, ',')| < 3 then Collection([], IndexError)
        else Extend([Split(reading.value, ',')], Collect(chunks[next..], k - 1)))
  {
    next := pos;
    while true
      invariant pos <= next <= |chunks|
      invariant Collect(chunks[pos..], k) == Collect(chunks[next..], k)
      decreases |chunks| - next
    {
      if next == |chunks| {
        return next, None;
      }
      var data := Strip(chunks[next]);
      assert chunks[next..][1..] == chunks[next + 1..];
      next := next + 1;
      if HasNumbers(data) {
        return next, Some(data);
      }
    }
  }

  /** Slot j gets the j-th reading, nothing else: noise chunks are skipped
      without using up a slot, every filled slot came from a reading of at
      least three fields, the run completes exactly when n such readings
      arrive, raises at the first short one, and stalls only when the
      readings run out. */
  lemma {:induction false} CollectTakesReadingsInOrder(chunks: seq<string>, n: nat)
    ensures TakesReadings(Collect(chunks, n), Readings(chunks), n)
    decreases |chunks|
  {
    if n > 0 && |chunks| > 0 {
      if !IsReading(chunks[0]) {
        CollectTakesReadingsInOrder(chunks[1..], n);
      } else if |Fields(chunks[0])| >= 3 {
        CollectTakesReadingsInOrder(chunks[1..], n - 1);
        TakesReadingsCons(Strip(chunks[0]), Collect(chunks[1..], n - 1), Readings(chunks[1..]), n);
      } else {
        assert Readings(chunks)[0] == Strip(chunks[0]);
      }
    }
  }

  /** Enough well-formed readings always fill every slot. */
  lemma {:induction false} CollectCompletes(chunks: seq<string>, n: nat)
    requires n <= |Readings(chunks)|
    requires forall j :: 0 <= j < n ==> |Split(Readings(chunks)[j], ',')| >= 3
    ensures Collect(chunks, n).outcome == Completed
  {
    CollectTakesReadingsInOrder(chunks, n);
  }

  /** A run of noise chunks anywhere in the input changes nothing. */
  lemma {:induction false} NoiseIgnored(pre: seq<string>, noise: seq<string>, post: seq<string>, n: nat)
    requires forall k :: 0 <= k < |noise| ==> !IsReading(noise[k])
    ensures Collect(pre + noise + post, n) == Collect(pre + post, n)
    decreases |pre| + |noise|
  {
    if n > 0 {
      if |pre| > 0 {
        assert (pre + noise + post)[1..] == pre[1..] + noise + post;
        assert (pre + post)[1..] == pre[1..] + post;
        NoiseIgnored(pre[1..], noise, post, n);
        if IsReading(pre[0]) && |Fields(pre[0])| >= 3 {
          NoiseIgnored(pre[1..], noise, post, n - 1);
        }
      } else if |noise| > 0 {
        assert (pre + noise + post)[1..] == [] + noise[1..] + post;
        NoiseIgnored([], noise[1..], post, n);
        assert pre + post == [] + post;
      } else {
        assert pre + noise + post == pre + post;
      }
    }
  }

  // ---------------------------------------------------------------------
  // A reading as the device sends it

  /** The line the device prints for one sample: three codes in decimal. */
  function DeviceLine(a: int, b: int, c: int): string
  {
    DecimalString(a) + "," + DecimalString(b) + "," + DecimalString(c)
  }

  lemma DecimalStringShape(n: int)
    ensures var s := DecimalString(n);
      |s| > 0 && ',' !in s && !IsSpace(s[0]) && IsDigit(s[|s| - 1])
  {
    var d := Numeral(if n < 0 then -n else n, 10);
    NumeralRoundTrip(if n < 0 then -n else n, 10);
    DigitsOnly(d);
    var s := DecimalString(n);
    assert s[|s| - 1] == d[|d| - 1];
    if n < 0 {
      assert s == "-" + d;
    }
  }

  /** A decimal numeral has no comma, and its characters are digits. */
  lemma DigitsOnly(d: string)
    requires IsNumeral(d, 10)
    ensures ',' !in d && forall i :: 0 <= i < |d| ==> IsDigit(d[i])
  {
    forall i | 0 <= i < |d| ensures IsDigit(d[i]) {
      assert DigitValue(d[i]) < 10;
    }
  }

  /** A device line, however padded with whitespace, is a reading whose
      three fields are the three printed codes. */
  lemma DeviceLineFields(left: string, a: int, b: int, c: int, right: string)
    requires AllSpace(left) && AllSpace(right)
    ensures IsReading(left + DeviceLine(a, b, c) + right)
    ensures Fields(left + DeviceLine(a, b, c) + right) == [DecimalString(a), DecimalString(b), DecimalString(c)]
  {
    var sa, sb, sc := DecimalString(a), DecimalString(b), DecimalString(c);
    DecimalStringShape(a);
    DecimalStringShape(b);
    DecimalStringShape(c);
    var line := DeviceLine(a, b, c);
    assert line[|line| - 1] == sc[|sc| - 1];
    StripPadded(left, line, right);
    assert IsDigit(line[|line| - 1]);
    SplitWhole(sc, ',');
    SplitAtSeparator(sb, ',', sc);
    assert line == sa + [','] + (sb + [','] + sc);
    SplitAtSeparator(sa, ',', sb + [','] + sc);
  }

  /** One sample of systolic.py: the calibrated first three fields. */
  datatype Sample = Sample(lead1: real, lead2: real, lead3: real)

  function SampleOf(fields: seq<string>, adcMax: int): Sample
    requires |fields| >= 3
  {
    Sample(AdcVoltage(fields[0], adcMax), AdcVoltage(fields[1], adcMax), AdcVoltage(fields[2], adcMax))
  }

  /** A padded device line fills its slot with the three codes calibrated
      by the formula. */
  lemma DeviceLineSample(left: string, a: int, b: int, c: int, right: string, adcMax: int)
    requires AllSpace(left) && AllSpace(right) && adcMax != 0
    ensures var chunk := left + DeviceLine(a, b, c) + right;
      IsReading(chunk) && |Fields(chunk)| == 3 &&
      SampleOf(Fields(chunk), adcMax) ==
        Sample(Calibrate(a as real, adcMax), Calibrate(b as real, adcMax), Calibrate(c as real, adcMax))
  {
    DeviceLineFields(left, a, b, c, right);
    AdcVoltageOfCode(a, adcMax);
    AdcVoltageOfCode(b, adcMax);
    AdcVoltageOfCode(c, adcMax);
  }

  /** A chunk holding a digit but no comma is not skipped: it stops the
      run with IndexError. */
  lemma ShortReadingRaises(chunk: string, rest: seq<string>, n: nat)
    requires n > 0 && IsReading(chunk) && ',' !in Strip(chunk)
    ensures Collect([chunk] + rest, n) == Collection([], IndexError)
  {
    SplitWhole(Strip(chunk), ',');
    assert ([chunk] + rest)[0] == chunk;
  }

  // ---------------------------------------------------------------------
  // The loop over the buffer

  /** The leads one field position decodes to, slot by slot. */
  function FieldRow(fields: seq<seq<string>>, k: nat, decode: string -> real): (row: seq<real>)
    requires k < 3 && forall j :: 0 <= j < |fields| ==> |fields[j]| >= 3
    ensures |row| == |fields| && forall j :: 0 <= j < |fields| ==> row[j] == decode(fields[j][k])
  {
    seq(|fields|, j requires 0 <= j < |fields| => decode(fields[j][k]))
  }

  /** The three measured rows the collected field lists decode to. */
  function FieldRows(fields: seq<seq<string>>, decode: string -> real): (rows: seq<seq<real>>)
    requires forall j :: 0 <= j < |fields| ==> |fields[j]| >= 3
    ensures |rows| == 3 && IsLeadSet(rows, |fields|)
  {
    [FieldRow(fields, 0, decode), FieldRow(fields, 1, decode), FieldRow(fields, 2, decode)]
  }

  /** One more slot decoded. */
  lemma FieldRowSnoc(fields: seq<seq<string>>, f: seq<string>, k: nat, decode: string -> real)
    requires k < 3 && |f| >= 3 && forall j :: 0 <= j < |fields| ==> |fields[j]| >= 3
    ensures forall j :: 0 <= j < |fields + [f]| ==> |(fields + [f])[j]| >= 3
    ensures FieldRow(fields + [f], k, decode) == FieldRow(fields, k, decode) + [decode(f[k])]
  {
    assert forall j :: 0 <= j < |fields| ==> (fields + [f])[j] == fields[j];
  }

  /** The buffer rows once the slots of fields are filled over before:
      rows 0-2 start with the decoded fields, everything else is as it was. */
  function FilledRows(fields: seq<seq<string>>, decode: string -> real, before: seq<seq<real>>): (rows: seq<seq<real>>)
    requires forall j :: 0 <= j < |fields| ==> |fields[j]| >= 3
    requires |before| == 6 && |fields| <= |before[0]| && |fields| <= |before[1]| && |fields| <= |before[2]|
    ensures |rows| == 6
  {
    [FieldRow(fields, 0, decode) + before[0][|fields|..],
     FieldRow(fields, 1, decode) + before[1][|fields|..],
     FieldRow(fields, 2, decode) + before[2][|fields|..],
     before[3], before[4], before[5]]
  }

  /** What a filled buffer holds: in rows 0-2, slot j is field k of the
      j-th field list decoded and the unfilled slots are as before; rows
      3-5 are as before. */
  lemma FilledRowsContents(fields: seq<seq<string>>, decode: string -> real, before: seq<seq<real>>)
    requires forall j :: 0 <= j < |fields| ==> |fields[j]| >= 3
    requires |before| == 6 && |fields| <= |before[0]| && |fields| <= |before[1]| && |fields| <= |before[2]|
    ensures var rows := FilledRows(fields, decode, before);
      (forall r :: 3 <= r < 6 ==> rows[r] == before[r]) &&
      (forall k :: 0 <= k < 3 ==> |rows[k]| == |before[k]| && rows[k][|fields|..] == before[k][|fields|..]) &&
      (forall k, j :: 0 <= k < 3 && 0 <= j < |fields| ==> |fields| <= |rows[k]| && rows[k][j] == decode(fields[j][k]))
  {
  }

  /** Before any slot is filled the buffer is as it was. */
  lemma FilledRowsEmpty(decode: string -> real, before: seq<seq<real>>)
    requires |before| == 6
    ensures FilledRows([], decode, before) == before
  {
    assert FieldRow([], 0, decode) + before[0][0..] == before[0];
    assert FieldRow([], 1, decode) + before[1][0..] == before[1];
    assert FieldRow([], 2, decode) + before[2][0..] == before[2];
    assert before == [before[0], before[1], before[2], before[3], before[4], before[5]];
  }

  /** Once every slot is filled, rows 0-2 are the decoded fields alone. */
  lemma FilledRowsComplete(fields: seq<seq<string>>, decode: string -> real, before: seq<seq<real>>)
    requires forall j :: 0 <= j < |fields| ==> |fields[j]| >= 3
    requires |before| == 6 && |fields| == |before[0]| == |before[1]| == |before[2]|
    ensures FilledRows(fields, decode, before)[..3] == FieldRows(fields, decode)
  {
    var rows := FilledRows(fields, decode, before);
    assert rows[0] == FieldRow(fields, 0, decode) + [] == FieldRow(fields, 0, decode);
    assert rows[1] == FieldRow(fields, 1, decode) + [] == FieldRow(fields, 1, decode);
    assert rows[2] == FieldRow(fields, 2, decode) + [] == FieldRow(fields, 2, decode);
    assert rows[..3] == [rows[0], rows[1], rows[2]];
  }

  /** Slot i of rows 0-2 set to the decoded first three fields. */
  function WriteSlot(rows: seq<seq<real>>, i: nat, fields: seq<string>, decode: string -> real): (r: seq<seq<real>>)
    requires |rows| == 6 && |fields| >= 3 && i < |rows[0]| && i < |rows[1]| && i < |rows[2]|
  {
    [rows[0][i := decode(fields[0])], rows[1][i := decode(fields[1])], rows[2][i := decode(fields[2])],
     rows[3], rows[4], rows[5]]
  }

  /** Writing slot i of a row whose first i slots are done. */
  lemma WriteNext(done: seq<real>, rest: seq<real>, i: nat, v: real)
    requires |done| == i < |rest|
    ensures (done + rest[i..])[i := v] == (done + [v]) + rest[i + 1..]
  {
  }

  /** Filling the next slot extends the filled prefix by one field list. */
  lemma FilledRowsSnoc(fields: seq<seq<string>>, f: seq<string>, decode: string -> real, before: seq<seq<real>>)
    requires forall j :: 0 <= j < |fields| ==> |fields[j]| >= 3
    requires |f| >= 3 && |before| == 6
    requires |fields| < |before[0]| && |fields| < |before[1]| && |fields| < |before[2]|
    ensures forall j :: 0 <= j < |fields + [f]| ==> |(fields + [f])[j]| >= 3
    ensures WriteSlot(FilledRows(fields, decode, before), |fields|, f, decode) == FilledRows(fields + [f], decode, before)
  {
    var i := |fields|;
    FieldRowSnoc(fields, f, 0, decode);
    FieldRowSnoc(fields, f, 1, decode);
    FieldRowSnoc(fields, f, 2, decode);
    WriteNext(FieldRow(fields, 0, decode), before[0], i, decode(f[0]));
    WriteNext(FieldRow(fields, 1, decode), before[1], i, decode(f[1]));
    WriteNext(FieldRow(fields, 2, decode), before[2], i, decode(f[2]));
  }

  /** Lines 283-289 of systolic.py for slot i: the first three fields
      decoded into rows 0-2; nothing else changes. */
  method WriteSample(y: array2<real>, i: nat, fields: seq<string>, decode: string -> real)
    requires y.Length0 == 6 && i < y.Length1 && |fields| >= 3
    modifies y
    ensures Rows(y) == WriteSlot(old(Rows(y)), i, fields, decode)
  {
    var lead1, lead2, lead3 := decode(fields[0]), decode(fields[1]), decode(fields[2]);
    y[0, i] := lead1;
    y[1, i] := lead2;
    y[2, i] := lead3;
    assert Row(y, 0) == old(Row(y, 0))[i := lead1];
    assert Row(y, 1) == old(Row(y, 1))[i := lead2];
    assert Row(y, 2) == old(Row(y, 2))[i := lead3];
    assert Row(y, 3) == old(Row(y, 3)) && Row(y, 4) == old(Row(y, 4)) && Row(y, 5) == old(Row(y, 5));
  }

  /** One pass of the outer loop's body for slot i: poll for a reading;
      stop on a stall or a short reading (the buffer untouched), or decode
      the reading into slot i.  With k slots left, Collect from pos is
      decided by what happens here. */
  method FillSlot(chunks: seq<string>, pos: nat, decode: string -> real, y: array2<real>, i: nat, ghost k: nat)
    returns (next: nat, stopped: Option<Outcome>, fields: seq<string>)
    requires y.Length0 == 6 && i < y.Length1 && pos <= |chunks| && k > 0
    modifies y
    ensures pos <= next <= |chunks|
    ensures stopped.Some? ==> Collect(chunks[pos..], k) == Collection([], stopped.value)
    ensures stopped.Some? ==> Rows(y) == old(Rows(y))
    ensures stopped.None? ==> |fields| >= 3 && Collect(chunks[pos..], k) == Extend([fields], Collect(chunks[next..], k - 1))
    ensures stopped.None? ==> Rows(y) == WriteSlot(old(Rows(y)), i, fields, decode)
  {
    var reading;
    next, reading := Poll(chunks, pos, k);
    if reading.None? {
      return next, Some(Stalled), [];
    }
    fields := Split(reading.value, ',');
    if |fields| < 3 {
      return next, Some(IndexError), fields;
    }
    WriteSample(y, i, fields, decode);
    stopped := None;
  }

  /** What the collection loop keeps: slots 0..|got| filled from the
      field lists got, the run as a whole being got followed by what
      Collect does from pos with the remaining slots. */
  predicate Progress(y: array2<real>, chunks: seq<string>, pos: nat, got: seq<seq<string>>,
                     total: Collection, decode: string -> real, before: seq<seq<real>>)
    requires y.Length0 == 6 && |before| == 6
    requires |before[0]| == |before[1]| == |before[2]| == y.Length1
    reads y
  {
    pos <= |chunks| && |got| <= y.Length1 &&
    (forall j :: 0 <= j < |got| ==> |got[j]| >= 3) &&
    total == Extend(got, Collect(chunks[pos..], y.Length1 - |got|)) &&
    Rows(y) == FilledRows(got, decode, before)
  }

  /** Slot |got| of the loop: FillSlot, then the bookkeeping that keeps
      Progress, or the outcome the run stopped with. */
  method Step(chunks: seq<string>, pos: nat, decode: string -> real, y: array2<real>, i: nat,
              ghost got: seq<seq<string>>, ghost total: Collection, ghost before: seq<seq<real>>)
    returns (next: nat, stopped: Option<Outcome>, ghost got': seq<seq<string>>)
    requires y.Length0 == 6 && |before| == 6
    requires |before[0]| == |before[1]| == |before[2]| == y.Length1
    requires i == |got| < y.Length1 && Progress(y, chunks, pos, got, total, decode, before)
    modifies y
    ensures stopped.Some? ==> total == Collection(got, stopped.value) && Rows(y) == FilledRows(got, decode, before)
    ensures stopped.None? ==> |got'| == |got| + 1 && Progress(y, chunks, next, got', total, decode, before)
  {
    var fields;
    ghost var k := y.Length1 - i;
    next, stopped, fields := FillSlot(chunks, pos, decode, y, i, k);
    got' := got;
    if stopped.Some? {
      ExtendStop(total, got, Collect(chunks[pos..], k), stopped.value);
      return;
    }
    ghost var later := Collect(chunks[next..], k - 1);
    ExtendStep(total, got, Collect(chunks[pos..], k), fields, later);
    FilledRowsSnoc(got, fields, decode, before);
    got' := got + [fields];
    assert y.Length1 - |got'| == k - 1;
  }

  /** The collection loop (systolic.py:272-291, main.py:193-213): for each
      slot, poll chunks until one holds a digit after strip, split it, and
      decode its first three fields into the slot.  Ends as Collect says;
      the slots filled hold the decoded readings, and nothing else in the
      buffer changes.  The two revisions differ only in decode. */
  method CollectSamples(chunks: seq<string>, decode: string -> real, y: array2<real>) returns (outcome: Outcome)
    requires y.Length0 == 6
    modifies y
    ensures var c := Collect(chunks, y.Length1);
      outcome == c.outcome &&
      (forall j :: 0 <= j < |c.fields| ==> |c.fields[j]| >= 3) &&
      Rows(y) == FilledRows(c.fields, decode, old(Rows(y)))
  {
    var pos: nat := 0;
    ghost var before := Rows(y);
    ghost var total := Collect(chunks, y.Length1);
    ghost var got: seq<seq<string>> := [];
    assert chunks[0..] == chunks;
    assert Extend([], total) == total;
    FilledRowsEmpty(decode, before);
    for i := 0 to y.Length1
      invariant |got| == i && Progress(y, chunks, pos, got, total, decode, before)
    {
      var stopped;
      pos, stopped, got := Step(chunks, pos, decode, y, i, got, total, before);
      if stopped.Some? {
        outcome := stopped.value;
        return;
      }
    }
    ExtendStop(total, got, Collect(chunks[pos..], 0), Completed);
    outcome := Completed;
  }

  /** After a completed collection, the derivation of lines 298-314 leaves
      in the buffer Derive of the decoded readings. */
  method DeriveCollected(y: array2<real>, ghost fields: seq<seq<string>>, ghost decode: string -> real,
                         ghost before: seq<seq<real>>, scale: real, divisor: real)
    requires y.Length0 == 6 && divisor != 0.0
    requires forall j :: 0 <= j < |fields| ==> |fields[j]| >= 3
    requires |before| == 6 && |fields| == |before[0]| == |before[1]| == |before[2]| == y.Length1
    requires Rows(y) == FilledRows(fields, decode, before)
    modifies y
    ensures Rows(y) == Derive(FieldRows(fields, decode), scale, divisor)
  {
    FilledRowsComplete(fields, decode, before);
    assert Measured(y) == Rows(y)[..3];
    DeriveLeads(y, scale, divisor);
  }
}
