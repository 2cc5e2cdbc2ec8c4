/** Sample calibration: an ADC code, as text received from the device, is
    turned into a voltage against the full-scale code (systolic.py:248-260;
    main.py:165-177 is the same code). */
module Calibration {
  import opened Text

  /** hasNumbers: the text holds at least one decimal digit. */
  predicate HasNumbers(s: string) { exists i :: 0 <= i < |s| && IsDigit(s[i]) }

  /** adcmax's default, the ADS1293's full-scale code at 24-bit resolution. */
  const DefaultAdcMax: int := 0x800000

  const Gain: real := 4.8
  const Divisor: real := 3.5

  /** The calibration formula of adcVoltage for a code that parsed. */
  function Calibrate(code: real, adcMax: int): real
    requires adcMax != 0
  {
    (code / (adcMax as real) - 0.5) * Gain / Divisor
  }

  /** adcVoltage(rawdata, adcmax): float(rawdata) / adcmax inside a try, so
      text that does not parse and a zero adcmax (ZeroDivisionError) both
      give 0; otherwise the calibration formula. */
  function AdcVoltage(raw: string, adcMax: int): real
  {
    match ParseNumber(raw)
    case None => 0.0
    case Some(x) => if adcMax == 0 then 0.0 else Calibrate(x, adcMax)
  }

  /** A code printed in decimal calibrates to the formula's value, and to 0
      when the full-scale code is 0. */
  lemma AdcVoltageOfCode(code: int, adcMax: int)
    ensures adcMax != 0 ==> AdcVoltage(DecimalString(code), adcMax) == Calibrate(code as real, adcMax)
    ensures adcMax == 0 ==> AdcVoltage(DecimalString(code), adcMax) == 0.0
  {
    ParseDecimalString(code);
  }

  lemma DivideIncreasing(x: real, y: real, m: real)
    requires m > 0.0 && x < y
    ensures x / m < y / m
  {
    assert y / m - x / m == (y - x) / m;
  }

  /** With a positive full-scale code the calibration is strictly increasing. */
  lemma CalibrateIncreasing(x: real, y: real, adcMax: int)
    requires adcMax > 0 && x < y
    ensures Calibrate(x, adcMax) < Calibrate(y, adcMax)
  {
    DivideIncreasing(x, y, adcMax as real);
    var a, b := x / (adcMax as real) - 0.5, y / (adcMax as real) - 0.5;
    assert a < b;
    assert a * Gain < b * Gain;
    DivideIncreasing(a * Gain, b * Gain, Divisor);
  }

  /** adcVoltage is strictly increasing in the code it is sent. */
  lemma AdcVoltageIncreasing(c1: int, c2: int, adcMax: int)
    requires adcMax > 0 && c1 < c2
    ensures AdcVoltage(DecimalString(c1), adcMax) < AdcVoltage(DecimalString(c2), adcMax)
  {
    AdcVoltageOfCode(c1, adcMax);
    AdcVoltageOfCode(c2, adcMax);
    CalibrateIncreasing(c1 as real, c2 as real, adcMax);
  }

  /** Code 0 reads -24/35, half scale reads 0, full scale reads 24/35
      (that is, -/+ 0.5 * 4.8 / 3.5). */
  lemma CalibrationPoints(adcMax: int)
    requires adcMax != 0
    ensures Calibrate(0.0, adcMax) == -24.0 / 35.0
    ensures Calibrate(adcMax as real / 2.0, adcMax) == 0.0
    ensures Calibrate(adcMax as real, adcMax) == 24.0 / 35.0
  {
    var m := adcMax as real;
    assert (m / 2.0) / m == 0.5;
    assert m / m == 1.0;
  }

  /** Codes between 0 and full scale read between -24/35 and 24/35. */
  lemma CalibrationRange(code: real, adcMax: int)
    requires adcMax > 0 && 0.0 <= code <= adcMax as real
    ensures -24.0 / 35.0 <= Calibrate(code, adcMax) <= 24.0 / 35.0
  {
    CalibrationPoints(adcMax);
    if code > 0.0 {
      CalibrateIncreasing(0.0, code, adcMax);
    }
    if code < adcMax as real {
      CalibrateIncreasing(code, adcMax as real, adcMax);
    }
  }

  /** A field without a decimal digit, such as "abc" or "", does not parse
      and reads 0. */
  lemma NoDigitReadsZero(raw: string, adcMax: int)
    requires !HasNumbers(raw)
    ensures AdcVoltage(raw, adcMax) == 0.0
  {
    var t := Strip(raw);
    var digits := if |t| > 0 && (t[0] == '-' || t[0] == '+') then t[1..] else t;
    if IsNumeral(digits, 10) {
      var c := digits[0];
      assert DigitValue(c) < 10;
      assert IsDigit(c);
      assert c in t;
      StripKeeps(raw);
      assert false;
    }
  }
}
