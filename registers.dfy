/** Encoding of the ADS1293 configuration registers and the command frames
    that carry them over the serial link (systolic.py:29-37, 120-245;
    main.py:18-26, 31-162 holds the same code). The encoders build a
    string of '0'/'1' characters piece by piece and print it with
    bin_to_hex. */
module Registers {
  import opened Text

  // Register addresses, as the strings the program sends
  const ConfigReg := "0x00"
  const R2Reg := "0x21"
  const R3Ch1Reg := "0x22"
  const R3Ch2Reg := "0x23"
  const R3Ch3Reg := "0x24"
  const CmReg := "0x0B"
  const RldReg := "0x0C"
  const AfeReg := "0x13"
  const FilterReg := "0x26"

  /** The four-character lowercase form "0xHH" of a byte value. */
  function HexByte(v: nat): (r: string)
    requires v < 256
    ensures |r| == 4 && r[..2] == "0x"
    ensures IsNumeral(r[2..], 16) && NumeralValue(r[2..], 16) == v
    ensures forall i :: 2 <= i < 4 ==> '0' <= r[i] <= '9' || 'a' <= r[i] <= 'f'
  {
    var hi, lo := DigitChar(v / 16), DigitChar(v % 16);
    var r := "0x" + [hi, lo];
    assert r[2..] == [hi, lo] && [hi, lo][..1] == [hi] && [hi][..0] == [];
    assert NumeralValue([hi], 16) == DigitValue(hi);
    NumeralSnoc([hi, lo], 16);
    DivMod(v, 16);
    r
  }

  /** bin_to_hex: read b in base 2, print it as hex() does, zero-pad the
      digits to at least two, prefix "0x".  int(b, 2) raises on anything
      but a binary numeral; every caller passes one. */
  function BinToHex(b: string): string
    requires IsNumeral(b, 2)
  {
    "0x" + ZFill(Numeral(NumeralValue(b, 2), 16), 2)
  }

  /** bin_to_hex prints "0x" and at least two hex digits whose value is that
      of the binary input; a value below 256 prints as one byte. */
  lemma BinToHexValue(b: string)
    requires IsNumeral(b, 2)
    ensures var r := BinToHex(b);
      |r| >= 4 && r[..2] == "0x" && IsNumeral(r[2..], 16) && NumeralValue(r[2..], 16) == NumeralValue(b, 2)
    ensures NumeralValue(b, 2) < 256 ==> BinToHex(b) == HexByte(NumeralValue(b, 2))
  {
    var v := NumeralValue(b, 2);
    var digits := Numeral(v, 16);
    NumeralRoundTrip(v, 16);
    ZFillValue(digits, 2, 16);
    var r := BinToHex(b);
    assert r[2..] == ZFill(digits, 2);
    PrintedByte(v);
  }

  lemma PrintedByte(v: nat)
    ensures v < 256 ==> "0x" + ZFill(Numeral(v, 16), 2) == HexByte(v)
  {
    if v < 256 {
      DivMod(v, 16);
      if v >= 16 {
        assert Numeral(v / 16, 16) == [DigitChar(v / 16)];
      }
    }
  }

  /** A binary numeral of at most eight digits prints as exactly one byte. */
  lemma BinToHexOfByte(b: string)
    requires IsNumeral(b, 2) && |b| <= 8
    ensures NumeralValue(b, 2) < 256
    ensures BinToHex(b) == HexByte(NumeralValue(b, 2)) && |BinToHex(b)| == 4
  {
    NumeralBound(b, 2);
    PowMonotone(2, |b|, 8);
    BinToHexValue(b);
  }

  lemma {:induction false} PowMonotone(b: nat, i: nat, j: nat)
    requires b >= 1 && i <= j
    ensures Pow(b, i) <= Pow(b, j)
    decreases j
  {
    if i < j {
      PowMonotone(b, i, j - 1);
      assert Pow(b, j - 1) <= b * Pow(b, j - 1);
    }
  }

  // ---------------------------------------------------------------------
  // Decimation rates (systolic.py:127-154, main.py:38-65)

  /** R2_to_Hex: one-hot code of the R2 decimation rate; None (Python's
      implicit return) for any other rate.  The callers pass float(text).
      OneHot(k) is the eight-digit literal the source writes out, with only
      bit k set ('00000001' is OneHot(0), '10000000' is OneHot(7)). */
  function R2ToHex(x: real): Option<string>
  {
    if x == 4.0 then Some(BinToHex(OneHot(0)))
    else if x == 5.0 then Some(BinToHex(OneHot(1)))
    else if x == 6.0 then Some(BinToHex(OneHot(2)))
    else if x == 8.0 then Some(BinToHex(OneHot(3)))
    else None
  }

  /** R3_to_Hex: one-hot code of the R3 decimation rate, or None. */
  function R3ToHex(x: real): Option<string>
  {
    if x == 4.0 then Some(BinToHex(OneHot(0)))
    else if x == 6.0 then Some(BinToHex(OneHot(1)))
    else if x == 8.0 then Some(BinToHex(OneHot(2)))
    else if x == 12.0 then Some(BinToHex(OneHot(3)))
    else if x == 16.0 then Some(BinToHex(OneHot(4)))
    else if x == 32.0 then Some(BinToHex(OneHot(5)))
    else if x == 64.0 then Some(BinToHex(OneHot(6)))
    else if x == 128.0 then Some(BinToHex(OneHot(7)))
    else None
  }

  const R2Rates: seq<real> := [4.0, 5.0, 6.0, 8.0]
  const R3Rates: seq<real> := [4.0, 6.0, 8.0, 12.0, 16.0, 32.0, 64.0, 128.0]

  /** R2_to_Hex answers exactly for the R2 rates. */
  lemma R2ToHexDomain(x: real)
    ensures R2ToHex(x).Some? <==> x in R2Rates
  {
  }

  /** The k-th R2 rate is encoded as bit k alone. */
  lemma R2ToHexOneHot(k: nat)
    requires k < |R2Rates|
    ensures R2ToHex(R2Rates[k]) == Some(HexByte(BitWeight(k)))
  {
    R2ToHexTable(k);
    OneHotValue(k);
  }

  lemma R2ToHexTable(k: nat)
    requires k < |R2Rates|
    ensures R2ToHex(R2Rates[k]) == Some(BinToHex(OneHot(k)))
  {
    if k == 0 {} else if k == 1 {} else if k == 2 {} else {}
  }

  /** R3_to_Hex answers exactly for the R3 rates. */
  lemma R3ToHexDomain(x: real)
    ensures R3ToHex(x).Some? <==> x in R3Rates
  {
  }

  /** The k-th R3 rate is encoded as bit k alone. */
  lemma R3ToHexOneHot(k: nat)
    requires k < |R3Rates|
    ensures R3ToHex(R3Rates[k]) == Some(HexByte(BitWeight(k)))
  {
    R3ToHexTable(k);
    OneHotValue(k);
  }

  lemma R3ToHexTable(k: nat)
    requires k < |R3Rates|
    ensures R3ToHex(R3Rates[k]) == Some(BinToHex(OneHot(k)))
  {
    var x := R3Rates[k];
    if k == 0 { assert x == 4.0; }
    else if k == 1 { assert x == 6.0; }
    else if k == 2 { assert x == 8.0; }
    else if k == 3 { assert x == 12.0; }
    else if k == 4 { assert x == 16.0; }
    else if k == 5 { assert x == 32.0; }
    else if k == 6 { assert x == 64.0; }
    else { assert x == 128.0; }
  }

  /** The eight-digit binary text with only bit k set. */
  function OneHot(k: nat): (b: string)
    requires k < 8
    ensures IsNumeral(b, 2) && |b| == 8
  {
    Zeros(7 - k) + "1" + Zeros(k)
  }

  /** 2^k for a bit position k of a byte. */
  function BitWeight(k: nat): (w: nat)
    requires k < 8
    ensures w < 256 && w == Pow(2, k)
  {
    PowMonotone(2, k, 7);
    Pow(2, k)
  }

  lemma OneHotNumeral(k: nat)
    requires k < 8
    ensures NumeralValue(OneHot(k), 2) == Pow(2, k)
  {
    var head := Zeros(7 - k) + Bit(true);
    assert OneHot(k) == head + Zeros(k);
    ZerosValue(7 - k, 2);
    BitValue(Zeros(7 - k), true);
    assert NumeralValue(head, 2) == 1;
    ZerosValue(k, 2);
    NumeralAppend(head, Zeros(k), 2);
  }

  lemma OneHotValue(k: nat)
    requires k < 8
    ensures BinToHex(OneHot(k)) == HexByte(BitWeight(k))
  {
    OneHotNumeral(k);
    BinToHexOfByte(OneHot(k));
  }

  // ---------------------------------------------------------------------
  // Bit-packed configuration registers (systolic.py:157-232)

  function Bit(c: bool): string { if c then "1" else "0" }

  /** The two drive bits; a drive outside 0..3 appends nothing. */
  function DriveBits(drive: int): string
  {
    if drive == 0 then "00"
    else if drive == 1 then "01"
    else if drive == 2 then "10"
    else if drive == 3 then "11"
    else ""
  }

  function B(c: bool): nat { if c then 1 else 0 }

  lemma BitValue(s: string, c: bool)
    ensures NumeralValue(s + Bit(c), 2) == 2 * NumeralValue(s, 2) + B(c)
  {
    NumeralAppend(s, Bit(c), 2);
  }

  lemma DriveValue(s: string, drive: int)
    ensures 0 <= drive <= 3 ==> NumeralValue(s + DriveBits(drive), 2) == 4 * NumeralValue(s, 2) + drive
    ensures !(0 <= drive <= 3) ==> s + DriveBits(drive) == s
  {
    if 0 <= drive <= 3 {
      var hi, lo := drive >= 2, drive % 2 == 1;
      assert DriveBits(drive) == Bit(hi) + Bit(lo);
      assert s + DriveBits(drive) == s + Bit(hi) + Bit(lo);
      BitValue(s, hi);
      BitValue(s + Bit(hi), lo);
    }
  }


  function CmBits(bandwidth: bool, drive: int): (b: string)
    ensures IsNumeral(b, 2) && |b| <= 8
  {
    "00000" + Bit(bandwidth) + DriveBits(drive)
  }

  /** CM_to_Hex: common-mode detector bandwidth and drive current. */
  function CmToHex(bandwidth: bool, drive: int): string
  {
    BinToHex(CmBits(bandwidth, drive))
  }

  /** The value of a bandwidth bit followed by the drive bits:
      4*bandwidth + drive, or the bandwidth bit alone for a drive outside
      0..3 (which appends no bits). */
  function BandwidthDrive(bandwidth: bool, drive: int): nat
  {
    if 0 <= drive <= 3 then 4 * B(bandwidth) + drive else B(bandwidth)
  }

  lemma BandwidthDriveValue(zeros: nat, bandwidth: bool, drive: int)
    ensures NumeralValue(Zeros(zeros) + Bit(bandwidth) + DriveBits(drive), 2) == BandwidthDrive(bandwidth, drive)
  {
    ZerosValue(zeros, 2);
    BitValue(Zeros(zeros), bandwidth);
    DriveValue(Zeros(zeros) + Bit(bandwidth), drive);
  }

  /** The CM byte is 4*bandwidth + drive; with a drive outside 0..3 only the
      bandwidth bit is left, in bit 0. */
  lemma CmToHexCode(bandwidth: bool, drive: int)
    ensures CmToHex(bandwidth, drive) == HexByte(BandwidthDrive(bandwidth, drive))
  {
    assert "00000" == Zeros(5);
    BandwidthDriveValue(5, bandwidth, drive);
    BinToHexOfByte(CmBits(bandwidth, drive));
  }

  function RldBits(toggle: bool, bandwidth: bool, drive: int): (b: string)
    ensures IsNumeral(b, 2) && |b| <= 8
  {
    "0" + Bit(bandwidth) + DriveBits(drive) + (if toggle then "0" else "1") + "100"
  }

  /** RLD_to_Hex: right-leg drive bandwidth, drive, shutdown (when toggle is
      off) and the fixed input IN4. */
  function RldToHex(toggle: bool, bandwidth: bool, drive: int): string
  {
    BinToHex(RldBits(toggle, bandwidth, drive))
  }

  /** Shutdown bit, IN4 selection: four more bits after the head. */
  lemma RldTailValue(head: string, toggle: bool)
    ensures NumeralValue(head + Bit(!toggle) + Bit(true) + Bit(false) + Bit(false), 2) ==
      16 * NumeralValue(head, 2) + 8 * B(!toggle) + 4
  {
    BitValue(head, !toggle);
    BitValue(head + Bit(!toggle), true);
    BitValue(head + Bit(!toggle) + Bit(true), false);
    BitValue(head + Bit(!toggle) + Bit(true) + Bit(false), false);
  }

  lemma RldValue(toggle: bool, bandwidth: bool, drive: int)
    ensures NumeralValue(RldBits(toggle, bandwidth, drive), 2) == 16 * BandwidthDrive(bandwidth, drive) + 8 * B(!toggle) + 4
  {
    var head := "0" + Bit(bandwidth) + DriveBits(drive);
    assert RldBits(toggle, bandwidth, drive) == head + Bit(!toggle) + Bit(true) + Bit(false) + Bit(false);
    assert "0" == Zeros(1);
    BandwidthDriveValue(1, bandwidth, drive);
    RldTailValue(head, toggle);
  }

  /** The RLD byte is 64*bandwidth + 16*drive + 8*(not toggle) + 4; with a
      drive outside 0..3 the bandwidth bit lands in bit 4 instead. */
  lemma RldToHexCode(toggle: bool, bandwidth: bool, drive: int)
    ensures RldToHex(toggle, bandwidth, drive) == HexByte(16 * BandwidthDrive(bandwidth, drive) + 8 * B(!toggle) + 4)
  {
    RldValue(toggle, bandwidth, drive);
    BinToHexOfByte(RldBits(toggle, bandwidth, drive));
  }

  /** Bit 2 (IN4) of the RLD byte is always set and bit 7 always clear. */
  lemma RldFixedBits(toggle: bool, bandwidth: bool, drive: int)
    ensures NumeralValue(RldBits(toggle, bandwidth, drive), 2) < 128
    ensures NumeralValue(RldBits(toggle, bandwidth, drive), 2) / 4 % 2 == 1
  {
    RldValue(toggle, bandwidth, drive);
    var h := BandwidthDrive(bandwidth, drive);
    var v := 16 * h + 8 * B(!toggle) + 4;
    assert v / 4 == 4 * h + 2 * B(!toggle) + 1;
  }

  function AfeBits(c1: bool, c2: bool, c3: bool): (b: string)
    ensures IsNumeral(b, 2) && |b| <= 8
  {
    "00" + "000" + Bit(c1) + Bit(c2) + Bit(c3)
  }

  /** AFE_to_Hex: one shutdown bit per channel, channel 1 most significant. */
  function AfeToHex(c1: bool, c2: bool, c3: bool): string
  {
    BinToHex(AfeBits(c1, c2, c3))
  }

  lemma AfeToHexCode(c1: bool, c2: bool, c3: bool)
    ensures AfeToHex(c1, c2, c3) == HexByte(4 * B(c1) + 2 * B(c2) + B(c3))
  {
    ZerosValue(5, 2);
    assert "00" + "000" == Zeros(5);
    BitValue("00" + "000", c1);
    BitValue("00" + "000" + Bit(c1), c2);
    BitValue("00" + "000" + Bit(c1) + Bit(c2), c3);
    BinToHexOfByte(AfeBits(c1, c2, c3));
  }

  function FilterBits(c1: bool, c2: bool, c3: bool): (b: string)
    ensures IsNumeral(b, 2) && |b| <= 8
  {
    "00000" + (if c3 then "0" else "1") + (if c2 then "0" else "1") + (if c1 then "0" else "1")
  }

  /** Filter_to_Hex: one filter-disable bit per channel, channel 3 most
      significant, set when the channel's filter is off. */
  function FilterToHex(c1: bool, c2: bool, c3: bool): string
  {
    BinToHex(FilterBits(c1, c2, c3))
  }

  lemma FilterValue(c1: bool, c2: bool, c3: bool)
    ensures NumeralValue(FilterBits(c1, c2, c3), 2) == 4 * B(!c3) + 2 * B(!c2) + B(!c1)
  {
    assert FilterBits(c1, c2, c3) == "00000" + Bit(!c3) + Bit(!c2) + Bit(!c1);
    ZerosValue(5, 2);
    assert "00000" == Zeros(5);
    BitValue("00000", !c3);
    BitValue("00000" + Bit(!c3), !c2);
    BitValue("00000" + Bit(!c3) + Bit(!c2), !c1);
  }

  /** The filter byte holds the AFE byte's three bits inverted and in
      reverse order: 4*(not c3) + 2*(not c2) + (not c1). */
  lemma FilterToHexCode(c1: bool, c2: bool, c3: bool)
    ensures FilterToHex(c1, c2, c3) == HexByte(4 * B(!c3) + 2 * B(!c2) + B(!c1))
    ensures FilterToHex(c1, c2, c3) == AfeToHex(!c3, !c2, !c1)
  {
    FilterValue(c1, c2, c3);
    BinToHexOfByte(FilterBits(c1, c2, c3));
    AfeToHexCode(!c3, !c2, !c1);
  }

  // ---------------------------------------------------------------------
  // Command frames (systolic.py:235-245, main.py:146-162)

  /** The Python values the program hands to sendData: strings, the int 0
      (main.py's initial self.CM) and None (an unmatched rate). */
  datatype PyValue = Str(s: string) | Int(i: int) | NoneValue

  /** str(value) */
  function PyStr(v: PyValue): string
  {
    match v
    case Str(s) => s
    case Int(i) => DecimalString(i)
    case NoneValue => "None"
  }

  /** The text sendData writes: str(register) + "," + str(value) + "\r\n". */
  function Frame(register: PyValue, value: PyValue): string
  {
    PyStr(register) + "," + PyStr(value) + "\r\n"
  }

  /** A frame ends in CR LF, and while neither part holds a comma, splitting
      the line before CR LF at commas gives back register and value. */
  lemma FrameLayout(register: PyValue, value: PyValue)
    ensures var f := Frame(register, value);
      |f| == |PyStr(register)| + |PyStr(value)| + 3 && f[|f| - 2..] == "\r\n"
    ensures var f := Frame(register, value);
      ',' !in PyStr(register) && ',' !in PyStr(value) ==>
        Split(f[..|f| - 2], ',') == [PyStr(register), PyStr(value)]
  {
    var f := Frame(register, value);
    var reg, val := PyStr(register), PyStr(value);
    assert f[..|f| - 2] == reg + [','] + val;
    if ',' !in reg && ',' !in val {
      SplitAtSeparator(reg, ',', val);
      SplitWhole(val, ',');
    }
  }

  /** The frame of two four-character strings, character by character. */
  lemma FrameOfBytes(reg: string, val: string)
    requires |reg| == 4 && |val| == 4
    ensures Frame(Str(reg), Str(val)) ==
      [reg[0], reg[1], reg[2], reg[3], ',', val[0], val[1], val[2], val[3], '\r', '\n']
  {
  }

  /** The start-conversion command of ecg_read, as sent. */
  const StartFrame: string := "0x00,0x01\r\n"

  /** The stop-conversion command of ecg_read, as sent. */
  const StopFrame: string := "0x00,0x00\r\n"

  /** sendData(ConfigReg, bin_to_hex('00000001')) writes StartFrame. */
  lemma StartFrameEncodes()
    ensures Frame(Str(ConfigReg), Str(BinToHex(OneHot(0)))) == StartFrame
  {
    OneHotValue(0);
    var hex := HexByte(1);
    assert hex == "0x01";
    FrameOfBytes(ConfigReg, hex);
  }

  /** The register addresses the program writes to. */
  const Addresses: seq<string> :=
    [ConfigReg, R2Reg, R3Ch1Reg, R3Ch2Reg, R3Ch3Reg, CmReg, RldReg, AfeReg, FilterReg]

  /** Writing an encoded byte to any register sends eleven characters, and
      the line before CR LF splits back into the address and the byte. */
  lemma RegisterFrame(k: nat, v: nat)
    requires k < |Addresses| && v < 256
    ensures var f := Frame(Str(Addresses[k]), Str(HexByte(v)));
      |f| == 11 && Split(f[..9], ',') == [Addresses[k], HexByte(v)]
  {
    var reg, val := Addresses[k], HexByte(v);
    assert |reg| == 4 && reg[..2] == "0x";
    assert ',' !in reg;
    assert val[..2] == "0x" && forall i :: 2 <= i < 4 ==> val[i] != ',';
    assert ',' !in val by {
      forall i | 0 <= i < 4 ensures val[i] != ',' {
        if i < 2 {
          assert val[i] == val[..2][i];
        }
      }
    }
    FrameLayout(Str(reg), Str(val));
  }

  /** sendData(ConfigReg, bin_to_hex('00000000')) writes StopFrame. */
  lemma StopFrameEncodes()
    ensures Frame(Str(ConfigReg), Str(BinToHex(Zeros(8)))) == StopFrame
  {
    BinToHexOfByte(Zeros(8));
    ZerosValue(8, 2);
    var hex := HexByte(0);
    assert hex == "0x00";
    FrameOfBytes(ConfigReg, hex);
  }
}
