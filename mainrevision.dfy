/** The older revision, main.py.  Its encoders, frame, hasNumbers and
    adcvoltage are the ones of systolic.py (Registers, Calibration); what is
    its own is ecg_read (main.py:180-236) over the module globals y_vals and
    index, modelled here as the fields of a Session object. */
module MainRevision {
  import opened Text
  import opened Calibration
  import opened Registers
  import opened Leads
  import opened Buffer
  import opened Acquisition

  /** DATA_LIM, the number of slots per lead. */
  const DataLim: nat := 500

  /** How main.py's loop decodes a field: it does not look at the field and
      stores adcvoltage(ADCMax) with the default full-scale code, ADCMax
      being the integer the caller parsed (float(ADCMax) is its value). */
  function FixedReading(adcMax: int): string -> real
  {
    _ => AdcVoltage(DecimalString(adcMax), DefaultAdcMax)
  }

  /** Every field reads the calibration of ADCMax itself. */
  lemma FixedReadingValue(adcMax: int, field: string)
    ensures FixedReading(adcMax)(field) == Calibrate(adcMax as real, DefaultAdcMax)
  {
    AdcVoltageOfCode(adcMax, DefaultAdcMax);
  }

  /** The readings main.py collects are one value repeated: whatever the
      device sent, each slot of rows 0-2 holds Calibrate(ADCMax). */
  lemma FieldsIgnored(fields: seq<seq<string>>, adcMax: int)
    requires forall j :: 0 <= j < |fields| ==> |fields[j]| >= 3
    ensures var raw := FieldRows(fields, FixedReading(adcMax));
      forall k, j :: 0 <= k < 3 && 0 <= j < |fields| ==> raw[k][j] == Calibrate(adcMax as real, DefaultAdcMax)
  {
    var raw := FieldRows(fields, FixedReading(adcMax));
    forall k, j | 0 <= k < 3 && 0 <= j < |fields|
      ensures raw[k][j] == Calibrate(adcMax as real, DefaultAdcMax)
    {
      FixedReadingValue(adcMax, fields[j][k]);
    }
  }

  /** Consequently main.py's derivation (no scaling, divisor -2) leaves all
      six leads at zero in every slot. */
  lemma MainReadVanishes(fields: seq<seq<string>>, adcMax: int)
    requires forall j :: 0 <= j < |fields| ==> |fields[j]| >= 3
    ensures var rows := Derive(FieldRows(fields, FixedReading(adcMax)), MainScale, MainDivisor);
      forall r, i :: 0 <= r < 6 && 0 <= i < |fields| ==> rows[r][i] == 0.0
  {
    var raw := FieldRows(fields, FixedReading(adcMax));
    FieldsIgnored(fields, adcMax);
    assert Constant(raw[0]) && Constant(raw[1]) && Constant(raw[2]);
    ConstantLeadsVanish(raw, MainScale, MainDivisor);
  }

  /** The module state of main.py: the lead buffer y_vals and index. */
  class Session {
    var yVals: array2<real>
    var index: int

    predicate Valid()
      reads this
    {
      yVals.Length0 == 6 && yVals.Length1 == DataLim
    }

    /** Module load: y_vals = np.empty([6, DATA_LIM]) (contents unspecified)
        and index = 0. */
    constructor ()
      ensures Valid() && fresh(yVals) && index == 0
    {
      yVals := new real[6, DataLim];
      index := 0;
    }

    /** ecg_read(ADCMax, bandwidth).  The start frame goes out first; the
        collection loop runs over the same chunks as systolic.py's, storing
        the fixed reading.  On completion the stop frame is sent, index is
        reset, and y_vals holds the derivation, which is zero everywhere.
        An IndexError leaves before the stop frame, with index untouched
        and the slots filled so far written. */
    method EcgRead(adcMax: int, chunks: seq<string>) returns (outcome: Outcome, sent: seq<string>)
      requires Valid()
      modifies this, yVals
      ensures Valid() && yVals == old(yVals)
      ensures outcome == Collect(chunks, DataLim).outcome
      ensures sent == if outcome == Completed then [StartFrame, StopFrame] else [StartFrame]
      ensures var c := Collect(chunks, DataLim); forall j :: 0 <= j < |c.fields| ==> |c.fields[j]| >= 3
      ensures outcome == Completed ==> (index == 0 &&
        Rows(yVals) == Derive(FieldRows(Collect(chunks, DataLim).fields, FixedReading(adcMax)), MainScale, MainDivisor))
      ensures outcome == Completed ==> forall r, i :: 0 <= r < 6 && 0 <= i < DataLim ==> yVals[r, i] == 0.0
      ensures outcome != Completed ==> (index == old(index) &&
        Rows(yVals) == FilledRows(Collect(chunks, DataLim).fields, FixedReading(adcMax), old(Rows(yVals))))
    {
      sent := [StartFrame];
      ghost var before := Rows(yVals);
      outcome := CollectSamples(chunks, FixedReading(adcMax), yVals);
      if outcome != Completed {
        return;
      }
      sent := sent + [StopFrame];
      index := 0;
      ghost var fields := Collect(chunks, DataLim).fields;
      DeriveCollected(yVals, fields, FixedReading(adcMax), before, MainScale, MainDivisor);
      MainReadVanishes(fields, adcMax);
      forall r, i | 0 <= r < 6 && 0 <= i < DataLim ensures yVals[r, i] == 0.0 {
        assert yVals[r, i] == Rows(yVals)[r][i];
      }
    }
  }
}
