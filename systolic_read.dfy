/** ecg_read of systolic.py (lines 263-314): start the device, fill rows
    0-2 of a fresh 6 x N buffer from the readings, stop the device, then
    derive the six leads in place. */
module SystolicRead {
  import opened Text
  import opened Calibration
  import opened Registers
  import opened Leads
  import opened Buffer
  import opened Acquisition

  /** How systolic.py decodes a field: adcVoltage(field, ADCMax). */
  function Calibrated(adcMax: int): string -> real
  {
    field => AdcVoltage(field, adcMax)
  }

  /** ecg_read(ADCMax, ser, DATA_LIM).  The start frame is sent first; when
      every slot fills, the stop frame follows and the buffer holds the six
      derived leads of the calibrated readings (x1000, aVL and aVF over 2).
      An IndexError leaves the function before the stop frame, so the
      device is never told to stop; a stall never returns at all. */
  method EcgRead(adcMax: int, chunks: seq<string>, dataLim: nat)
    returns (outcome: Outcome, y: array2<real>, sent: seq<string>)
    ensures fresh(y) && y.Length0 == 6 && y.Length1 == dataLim
    ensures outcome == Collect(chunks, dataLim).outcome
    ensures sent == if outcome == Completed then [StartFrame, StopFrame] else [StartFrame]
    ensures outcome == Completed ==> (var fields := Collect(chunks, dataLim).fields;
      (forall j :: 0 <= j < |fields| ==> |fields[j]| >= 3) &&
      Rows(y) == Derive(FieldRows(fields, Calibrated(adcMax)), SystolicScale, SystolicDivisor))
  {
    y := new real[6, dataLim];
    sent := [StartFrame];
    ghost var before := Rows(y);
    outcome := CollectSamples(chunks, Calibrated(adcMax), y);
    if outcome != Completed {
      return;
    }
    sent := sent + [StopFrame];
    DeriveCollected(y, Collect(chunks, dataLim).fields, Calibrated(adcMax), before, SystolicScale, SystolicDivisor);
  }

  /** On a completed read the three measured leads and the three augmented
      leads all have zero mean, and aVL is -aVF slot by slot. */
  lemma CompletedReadIsCentred(fields: seq<seq<string>>, adcMax: int)
    requires forall j :: 0 <= j < |fields| ==> |fields[j]| >= 3
    ensures var rows := Derive(FieldRows(fields, Calibrated(adcMax)), SystolicScale, SystolicDivisor);
      (forall r :: 0 <= r < 6 ==> Mean(rows[r]) == 0.0) &&
      (forall j :: 0 <= j < |fields| ==> rows[4][j] == -rows[5][j])
  {
    var raw := FieldRows(fields, Calibrated(adcMax));
    DerivedLeadsCentred(raw, SystolicScale, SystolicDivisor);
    AvlOpposesAvf(raw, SystolicScale, SystolicDivisor);
  }

  /** A field column that repeats the first slot's code decodes to a
      constant row. */
  lemma RepeatedColumnConstant(fields: seq<seq<string>>, k: nat, decode: string -> real)
    requires k < 3 && forall j :: 0 <= j < |fields| ==> |fields[j]| >= 3
    requires forall j :: 0 <= j < |fields| ==> fields[j][k] == fields[0][k]
    ensures Constant(FieldRow(fields, k, decode))
  {
  }

  /** A device that sends the same three codes for every slot yields six
      leads that are zero in every slot. */
  lemma RepeatedReadingVanishes(fields: seq<seq<string>>, adcMax: int)
    requires forall j :: 0 <= j < |fields| ==> |fields[j]| >= 3
    requires forall j :: 0 <= j < |fields| ==>
      fields[j][0] == fields[0][0] && fields[j][1] == fields[0][1] && fields[j][2] == fields[0][2]
    ensures var rows := Derive(FieldRows(fields, Calibrated(adcMax)), SystolicScale, SystolicDivisor);
      forall r, i :: 0 <= r < 6 && 0 <= i < |fields| ==> rows[r][i] == 0.0
  {
    RepeatedColumnConstant(fields, 0, Calibrated(adcMax));
    RepeatedColumnConstant(fields, 1, Calibrated(adcMax));
    RepeatedColumnConstant(fields, 2, Calibrated(adcMax));
    ConstantLeadsVanish(FieldRows(fields, Calibrated(adcMax)), SystolicScale, SystolicDivisor);
  }
}
