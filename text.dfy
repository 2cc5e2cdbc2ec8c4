/** Character and string primitives that the Python code gets from its
    built-ins: whitespace stripping, comma splitting, numerals in base 2,
    10 and 16 (int(s, 2), hex(), str(int), float() on integer text) and
    zfill. Only the ASCII behaviour the program relies on is modelled. */
module Text {

  datatype Option<T> = None | Some(value: T)

  /** str.isdigit, restricted to ASCII */
  predicate IsDigit(c: char) { '0' <= c <= '9' }

  /** str.isspace, restricted to ASCII: space, \t, \n, \v, \f, \r and
      the four separators \x1c-\x1f */
  predicate IsSpace(c: char) { c == ' ' || (9 <= c as int <= 13) || (28 <= c as int <= 31) }

  predicate AllSpace(s: string) { forall i :: 0 <= i < |s| ==> IsSpace(s[i]) }

  function TrimLeft(s: string): (r: string)
    ensures |r| <= |s|
    ensures |r| > 0 ==> !IsSpace(r[0])
  {
    if |s| > 0 && IsSpace(s[0]) then TrimLeft(s[1..]) else s
  }

  function TrimRight(s: string): (r: string)
    ensures |r| <= |s| && r == s[..|r|]
    ensures |r| > 0 ==> !IsSpace(r[|r| - 1])
  {
    if |s| > 0 && IsSpace(s[|s| - 1]) then TrimRight(s[..|s| - 1]) else s
  }

  /** str.strip(): drop leading and trailing whitespace */
  function Strip(s: string): (r: string)
    ensures |r| <= |s|
    ensures |r| > 0 ==> !IsSpace(r[0]) && !IsSpace(r[|r| - 1])
  {
    TrimRight(TrimLeft(s))
  }

  /** Stripping only removes characters: what is left came from the text. */
  lemma {:induction false} TrimLeftKeeps(s: string)
    ensures forall c :: c in TrimLeft(s) ==> c in s
  {
    if |s| > 0 && IsSpace(s[0]) {
      TrimLeftKeeps(s[1..]);
    }
  }

  lemma StripKeeps(s: string)
    ensures forall c :: c in Strip(s) ==> c in s
  {
    TrimLeftKeeps(s);
  }

  lemma TrimLeftOfSolid(s: string)
    requires |s| > 0 && !IsSpace(s[0])
    ensures TrimLeft(s) == s
  {
  }

  lemma TrimRightOfSolid(s: string)
    requires |s| > 0 && !IsSpace(s[|s| - 1])
    ensures TrimRight(s) == s
  {
  }

  lemma {:induction false} TrimLeftPadded(pad: string, s: string)
    requires AllSpace(pad) && |s| > 0 && !IsSpace(s[0])
    ensures TrimLeft(pad + s) == s
  {
    if pad == [] {
      assert pad + s == s;
    } else {
      assert (pad + s)[1..] == pad[1..] + s;
      TrimLeftPadded(pad[1..], s);
    }
  }

  lemma {:induction false} TrimRightPadded(s: string, pad: string)
    requires AllSpace(pad) && |s| > 0 && !IsSpace(s[|s| - 1])
    ensures TrimRight(s + pad) == s
  {
    if pad == [] {
      assert s + pad == s;
    } else {
      assert (s + pad)[..|s + pad| - 1] == s + pad[..|pad| - 1];
      TrimRightPadded(s, pad[..|pad| - 1]);
    }
  }

  /** Strip removes exactly the whitespace padding around a solid text. */
  lemma StripPadded(left: string, s: string, right: string)
    requires AllSpace(left) && AllSpace(right)
    requires |s| > 0 && !IsSpace(s[0]) && !IsSpace(s[|s| - 1])
    ensures Strip(left + s + right) == s
  {
    assert left + s + right == left + (s + right);
    TrimLeftPadded(left, s + right);
    TrimRightPadded(s, right);
  }

  /** str.split(sep): the fields between separators, in order. */
  function Split(s: string, sep: char): (r: seq<string>)
    ensures |r| >= 1
    ensures forall k :: 0 <= k < |r| ==> sep !in r[k]
  {
    if |s| == 0 then [""]
    else
      var rest := Split(s[1..], sep);
      if s[0] == sep then [""] + rest
      else [[s[0]] + rest[0]] + rest[1..]
  }

  /** Rejoining the fields with the separator gives back the text. */
  function Join(fields: seq<string>, sep: char): string
    requires |fields| >= 1
  {
    if |fields| == 1 then fields[0] else fields[0] + [sep] + Join(fields[1..], sep)
  }

  lemma {:induction false} SplitJoin(s: string, sep: char)
    ensures Join(Split(s, sep), sep) == s
  {
    if |s| > 0 {
      var rest := Split(s[1..], sep);
      SplitJoin(s[1..], sep);
      assert [s[0]] + s[1..] == s;
      if s[0] == sep {
        var r := [""] + rest;
        assert Split(s, sep) == r && r[1..] == rest;
        assert Join(r, sep) == "" + [sep] + Join(rest, sep);
      } else {
        var head := [s[0]] + rest[0];
        var r := [head] + rest[1..];
        assert Split(s, sep) == r;
        if |rest| == 1 {
          assert Join(r, sep) == head;
        } else {
          assert r[1..] == rest[1..];
          assert Join(r, sep) == head + [sep] + Join(rest[1..], sep);
          assert Join(rest, sep) == rest[0] + [sep] + Join(rest[1..], sep);
        }
      }
    }
  }

  /** A separator-free text followed by a separator is one whole field. */
  lemma {:induction false} SplitAtSeparator(a: string, sep: char, b: string)
    requires sep !in a
    ensures Split(a + [sep] + b, sep) == [a] + Split(b, sep)
  {
    if a == [] {
      assert a + [sep] + b == [sep] + b;
      assert ([sep] + b)[1..] == b;
    } else {
      var s := a + [sep] + b;
      assert s[0] == a[0] && s[0] != sep;
      assert s[1..] == a[1..] + [sep] + b;
      SplitAtSeparator(a[1..], sep, b);
      var rest := Split(s[1..], sep);
      assert rest[0] == a[1..] && rest[1..] == Split(b, sep);
      assert [a[0]] + a[1..] == a;
    }
  }

  /** A separator-free text is one field on its own. */
  lemma {:induction false} SplitWhole(a: string, sep: char)
    requires sep !in a
    ensures Split(a, sep) == [a]
  {
    if a != [] {
      SplitWhole(a[1..], sep);
      assert [a[0]] + a[1..] == a;
    }
  }

  // ---------------------------------------------------------------------
  // Numerals

  /** Value of one digit character of base 16 or less ('0'-'9', 'a'-'f',
      'A'-'F'); 16 for anything else. */
  function DigitValue(c: char): (v: nat)
    ensures v <= 16
  {
    if '0' <= c <= '9' then c as int - '0' as int
    else if 'a' <= c <= 'f' then c as int - 'a' as int + 10
    else if 'A' <= c <= 'F' then c as int - 'A' as int + 10
    else 16
  }

  /** The lowercase digit character for d, as hex() and str() print it. */
  function DigitChar(d: nat): (c: char)
    requires d < 16
    ensures DigitValue(c) == d
    ensures '0' <= c <= '9' || 'a' <= c <= 'f'
  {
    if d < 10 then (('0' as int) + d) as char else (('a' as int) + d - 10) as char
  }

  /** Every character is a digit of the base, and there is at least one. */
  predicate IsNumeral(s: string, base: nat)
  {
    |s| > 0 && forall i :: 0 <= i < |s| ==> DigitValue(s[i]) < base
  }

  /** Positional value of a numeral, most significant digit first. */
  function NumeralValue(s: string, base: nat): nat
  {
    if |s| == 0 then 0
    else NumeralValue(s[..|s| - 1], base) * base + DigitValue(s[|s| - 1])
  }

  function Pow(b: nat, e: nat): (r: nat)
    ensures b > 0 ==> r > 0
  {
    if e == 0 then 1 else b * Pow(b, e - 1)
  }

  /** Canonical numeral of v without leading zeros, "0" for zero: what
      hex(v)[2:] gives for base 16 and str(v) for base 10. */
  function Numeral(v: nat, base: nat): (r: string)
    requires 2 <= base <= 16
    ensures |r| > 0
    decreases v
  {
    if v < base then [DigitChar(v)]
    else Numeral(v / base, base) + [DigitChar(v % base)]
  }

  lemma DivMod(v: nat, base: nat)
    requires base >= 2
    ensures v == (v / base) * base + v % base
    ensures v >= base ==> 0 < v / base < v
  {
  }

  /** Numeral prints lowercase digits of the base, without leading zeros,
      and reading it back gives v. */
  lemma {:induction false} NumeralRoundTrip(v: nat, base: nat)
    requires 2 <= base <= 16
    ensures IsNumeral(Numeral(v, base), base)
    ensures NumeralValue(Numeral(v, base), base) == v
    ensures |Numeral(v, base)| > 1 ==> Numeral(v, base)[0] != '0'
    ensures forall i :: 0 <= i < |Numeral(v, base)| ==>
              '0' <= Numeral(v, base)[i] <= '9' || 'a' <= Numeral(v, base)[i] <= 'f'
    decreases v
  {
    if v >= base {
      DivMod(v, base);
      var p := Numeral(v / base, base);
      NumeralRoundTrip(v / base, base);
      var r := p + [DigitChar(v % base)];
      assert r == Numeral(v, base);
      assert r[..|r| - 1] == p;
      assert NumeralValue(r, base) == NumeralValue(p, base) * base + v % base;
    }
  }

  lemma Distribute(a: int, p: int, c: int, b: int)
    ensures (a * p + c) * b == a * (p * b) + c * b
  {
  }

  lemma NumeralSnoc(s: string, base: nat)
    requires |s| > 0
    ensures NumeralValue(s, base) == NumeralValue(s[..|s| - 1], base) * base + DigitValue(s[|s| - 1])
  {
  }

  lemma {:induction false} NumeralAppend(s: string, t: string, base: nat)
    ensures NumeralValue(s + t, base) == NumeralValue(s, base) * Pow(base, |t|) + NumeralValue(t, base)
    decreases |t|
  {
    if |t| == 0 {
      assert s + t == s;
    } else {
      var t' := t[..|t| - 1];
      var d := DigitValue(t[|t| - 1]);
      assert (s + t)[..|s + t| - 1] == s + t';
      assert (s + t)[|s + t| - 1] == t[|t| - 1];
      NumeralAppend(s, t', base);
      var a, p, c := NumeralValue(s, base), Pow(base, |t'|), NumeralValue(t', base);
      NumeralSnoc(s + t, base);
      NumeralSnoc(t, base);
      assert NumeralValue(s + t, base) == (a * p + c) * base + d;
      Distribute(a, p, c, base);
      assert Pow(base, |t|) == base * p;
    }
  }

  lemma BoundStep(a: int, p: int, d: int, base: int)
    requires 0 <= a < p && 0 <= d < base
    ensures a * base + d < p * base
  {
    assert (a + 1) * base <= p * base;
  }

  /** A numeral of k digits is below base^k. */
  lemma {:induction false} NumeralBound(s: string, base: nat)
    requires forall i :: 0 <= i < |s| ==> DigitValue(s[i]) < base
    ensures NumeralValue(s, base) < Pow(base, |s|)
  {
    if |s| > 0 {
      var s' := s[..|s| - 1];
      NumeralBound(s', base);
      NumeralSnoc(s, base);
      BoundStep(NumeralValue(s', base), Pow(base, |s| - 1), DigitValue(s[|s| - 1]), base);
    }
  }

  function Zeros(k: nat): (r: string)
    ensures |r| == k && forall i :: 0 <= i < k ==> r[i] == '0'
  {
    if k == 0 then "" else "0" + Zeros(k - 1)
  }

  lemma {:induction false} ZerosValue(k: nat, base: nat)
    ensures NumeralValue(Zeros(k), base) == 0
  {
    if k > 0 {
      assert Zeros(k)[..k - 1] == Zeros(k - 1);
      ZerosValue(k - 1, base);
    }
  }

  /** str.zfill(width) on a sign-free text: left-pad with '0'. */
  function ZFill(s: string, width: nat): (r: string)
    ensures |r| == if |s| < width then width else |s|
    ensures r == Zeros(|r| - |s|) + s
  {
    if |s| < width then Zeros(width - |s|) + s else Zeros(0) + s
  }

  /** Leading zeros do not change a numeral's value. */
  lemma ZFillValue(s: string, width: nat, base: nat)
    ensures NumeralValue(ZFill(s, width), base) == NumeralValue(s, base)
  {
    var r := ZFill(s, width);
    NumeralAppend(Zeros(|r| - |s|), s, base);
    ZerosValue(|r| - |s|, base);
  }

  /** str(n) for a Python int. */
  function DecimalString(n: int): (r: string)
  {
    if n < 0 then "-" + Numeral(-n, 10) else Numeral(n, 10)
  }

  // ---------------------------------------------------------------------
  // Number parsing

  /** float(s) restricted to integer text: surrounding whitespace, an
      optional sign and at least one decimal digit.  Any other text fails. */
  function ParseNumber(s: string): (r: Option<real>)
  {
    var t := Strip(s);
    var neg := |t| > 0 && t[0] == '-';
    var digits := if |t| > 0 && (t[0] == '-' || t[0] == '+') then t[1..] else t;
    if IsNumeral(digits, 10) then
      Some(if neg then -(NumeralValue(digits, 10) as real) else NumeralValue(digits, 10) as real)
    else None
  }

  /** float(str(n)) == n: reading a printed integer gives it back. */
  lemma ParseDecimalString(n: int)
    ensures ParseNumber(DecimalString(n)) == Some(n as real)
  {
    var s := DecimalString(n);
    DecimalStringSolid(n);
    NumeralRoundTrip(if n < 0 then -n else n, 10);
    if n < 0 {
      assert s[1..] == Numeral(-n, 10);
    }
  }

  /** str(n) has no surrounding whitespace to strip. */
  lemma DecimalStringSolid(n: int)
    ensures Strip(DecimalString(n)) == DecimalString(n)
  {
    var s := DecimalString(n);
    var d := Numeral(if n < 0 then -n else n, 10);
    NumeralRoundTrip(if n < 0 then -n else n, 10);
    assert s[|s| - 1] == d[|d| - 1];
    assert !IsSpace(s[0]) && !IsSpace(s[|s| - 1]);
    TrimLeftOfSolid(s);
    TrimRightOfSolid(s);
  }
}
