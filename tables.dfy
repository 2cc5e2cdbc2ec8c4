/** Row-level table logic over rows of CSV fields: the two valLookup
    revisions (systolic.py:344-354, main.py:239-251) and the rows saveData
    writes (systolic.py:95-117).  Opening, reading and writing the files is
    not part of this model; a table is the sequence of rows csv.reader
    yields, and a write is the sequence of rows handed to writerow. */
module Tables {
  import opened Text
  import opened Leads

  /** What a lookup ends with: the fields it returns, the end of the table
      without a match, or an IndexError on a row too short to index. */
  datatype Lookup<T> = Found(value: T) | NotFound | IndexError

  // ---------------------------------------------------------------------
  // valLookup(bw), systolic.py:344-354

  /** The five fields systolic.py returns: R2, R3, ADCMax, ODR and noise
      (the caller unpacks them so at line 546). */
  datatype Settings = Settings(r2: string, r3: string, adcMax: string, odr: string, noise: string)

  /** The scan from row k on: a row shorter than 5 fields raises at row[4],
      a matching row shorter than 7 raises at row[6]. */
  function ScanSettings(table: seq<seq<string>>, bw: string, k: nat): Lookup<Settings>
    decreases |table| - k
  {
    if k >= |table| then NotFound
    else
      var row := table[k];
      if |row| < 5 then IndexError
      else if row[4] == bw then
        if |row| < 7 then IndexError else Found(Settings(row[0], row[1], row[2], row[3], row[6]))
      else ScanSettings(table, bw, k + 1)
  }

  /** The header row is skipped: the lookup starts at row 1.  Falling off
      the end returns None. */
  function SettingsFor(table: seq<seq<string>>, bw: string): Lookup<Settings>
  {
    ScanSettings(table, bw, 1)
  }

  /** The loop: x counts the rows read, and only the first (x == 0) is
      passed over. */
  method SystolicValLookup(table: seq<seq<string>>, bw: string) returns (r: Lookup<Settings>)
    ensures r == SettingsFor(table, bw)
  {
    var x := 0;
    for k := 0 to |table|
      invariant x == k
      invariant k > 0 ==> SettingsFor(table, bw) == ScanSettings(table, bw, k)
    {
      var row := table[k];
      if x == 0 {
        x := 1;
        continue;
      }
      if |row| < 5 {
        return IndexError;
      }
      if row[4] == bw {
        if |row| < 7 {
          return IndexError;
        }
        return Found(Settings(row[0], row[1], row[2], row[3], row[6]));
      }
      x := x + 1;
    }
    return NotFound;
  }

  /** Every row after the header has the seven columns of the rate table. */
  predicate SettingsTable(table: seq<seq<string>>)
  {
    forall k :: 1 <= k < |table| ==> |table[k]| >= 7
  }

  /** In a well-formed table the lookup returns the first row after the
      header whose column 4 is bw. */
  lemma {:induction false} SettingsFirstMatch(table: seq<seq<string>>, bw: string, from: nat, k: nat)
    requires SettingsTable(table) && 1 <= from <= k < |table| && table[k][4] == bw
    requires forall j :: from <= j < k ==> table[j][4] != bw
    ensures var row := table[k];
      ScanSettings(table, bw, from) == Found(Settings(row[0], row[1], row[2], row[3], row[6]))
    decreases k - from
  {
    if from < k {
      SettingsFirstMatch(table, bw, from + 1, k);
    }
  }

  /** In a well-formed table the lookup finds nothing exactly when no row
      after the header has bw in column 4. */
  lemma {:induction false} SettingsNoMatch(table: seq<seq<string>>, bw: string, from: nat)
    requires SettingsTable(table) && 1 <= from
    ensures ScanSettings(table, bw, from) == NotFound <==> forall j :: from <= j < |table| ==> table[j][4] != bw
    decreases |table| - from
  {
    if from < |table| {
      SettingsNoMatch(table, bw, from + 1);
    }
  }

  /** The header row is never returned, even when its column 4 is bw. */
  lemma HeaderSkipped(header: seq<string>, rows: seq<seq<string>>, bw: string)
    requires |header| >= 7 && header[4] == bw
    requires forall j :: 0 <= j < |rows| ==> |rows[j]| >= 7 && rows[j][4] != bw
    ensures SettingsFor([header] + rows, bw) == NotFound
  {
    var table := [header] + rows;
    assert forall j :: 1 <= j < |table| ==> table[j] == rows[j - 1];
    SettingsNoMatch(table, bw, 1);
  }

  // ---------------------------------------------------------------------
  // valLookup(R2, R3), main.py:239-251

  /** The three fields main.py returns: ADCMax, ODR and bandwidth. */
  datatype Parameters = Parameters(adcMax: string, odr: string, bandwidth: string)

  /** The scan from row k on.  row[0] == R2 and row[1] == R3 short-circuits,
      so row[1] is indexed only when row[0] matches; a matching row
      shorter than 5 fields raises at row[4]. */
  function ScanParameters(table: seq<seq<string>>, r2: string, r3: string, k: nat): Lookup<Parameters>
    decreases |table| - k
  {
    if k >= |table| then NotFound
    else
      var row := table[k];
      if |row| < 1 then IndexError
      else if row[0] != r2 then ScanParameters(table, r2, r3, k + 1)
      else if |row| < 2 then IndexError
      else if row[1] != r3 then ScanParameters(table, r2, r3, k + 1)
      else if |row| < 5 then IndexError
      else Found(Parameters(row[2], row[3], row[4]))
  }

  /** No header is skipped; NotFound is the (0, 0, 0) of line 251. */
  function ParametersFor(table: seq<seq<string>>, r2: string, r3: string): Lookup<Parameters>
  {
    ScanParameters(table, r2, r3, 0)
  }

  method MainValLookup(table: seq<seq<string>>, r2: string, r3: string) returns (r: Lookup<Parameters>)
    ensures r == ParametersFor(table, r2, r3)
  {
    for k := 0 to |table|
      invariant ParametersFor(table, r2, r3) == ScanParameters(table, r2, r3, k)
    {
      var row := table[k];
      if |row| < 1 {
        return IndexError;
      }
      if row[0] == r2 {
        if |row| < 2 {
          return IndexError;
        }
        if row[1] == r3 {
          if |row| < 5 {
            return IndexError;
          }
          return Found(Parameters(row[2], row[3], row[4]));
        }
      }
    }
    return NotFound;
  }

  predicate Matches(row: seq<string>, r2: string, r3: string)
  {
    |row| >= 2 && row[0] == r2 && row[1] == r3
  }

  /** Every row has the five columns of the lookup table. */
  predicate ParametersTable(table: seq<seq<string>>)
  {
    forall k :: 0 <= k < |table| ==> |table[k]| >= 5
  }

  /** In a well-formed table the lookup returns columns 2-4 of the first row
      whose columns 0 and 1 are (R2, R3). */
  lemma {:induction false} ParametersFirstMatch(table: seq<seq<string>>, r2: string, r3: string, from: nat, k: nat)
    requires ParametersTable(table) && from <= k < |table| && Matches(table[k], r2, r3)
    requires forall j :: from <= j < k ==> !Matches(table[j], r2, r3)
    ensures ScanParameters(table, r2, r3, from) == Found(Parameters(table[k][2], table[k][3], table[k][4]))
    decreases k - from
  {
    if from < k {
      assert !Matches(table[from], r2, r3);
      ParametersFirstMatch(table, r2, r3, from + 1, k);
    }
  }

  /** In a well-formed table the lookup gives (0, 0, 0) exactly when no row
      matches. */
  lemma {:induction false} ParametersNoMatch(table: seq<seq<string>>, r2: string, r3: string, from: nat)
    requires ParametersTable(table)
    ensures ScanParameters(table, r2, r3, from) == NotFound <==>
      forall j :: from <= j < |table| ==> !Matches(table[j], r2, r3)
    decreases |table| - from
  {
    if from < |table| {
      ParametersNoMatch(table, r2, r3, from + 1);
    }
  }

  /** Unlike systolic.py, row 0 takes part: a first row that matches is
      returned. */
  lemma FirstRowTakesPart(row: seq<string>, rows: seq<seq<string>>)
    requires |row| >= 5
    ensures ParametersFor([row] + rows, row[0], row[1]) == Found(Parameters(row[2], row[3], row[4]))
  {
  }

  /** A one-field row whose field is not R2 is passed over, since row[1] is
      never looked at; the same row whose field is R2 raises. */
  lemma ShortCircuit(field: string, rows: seq<seq<string>>, r2: string, r3: string)
    ensures field != r2 ==> ParametersFor([[field]] + rows, r2, r3) == ScanParameters(rows, r2, r3, 0)
    ensures field == r2 ==> ParametersFor([[field]] + rows, r2, r3) == IndexError
  {
    if field != r2 {
      SkipFirst([field], rows, r2, r3, 0);
    }
  }

  /** Scanning behind a row that does not match is scanning the rest. */
  lemma {:induction false} SkipFirst(row: seq<string>, rows: seq<seq<string>>, r2: string, r3: string, k: nat)
    requires |row| >= 1 && row[0] != r2
    ensures ScanParameters([row] + rows, r2, r3, k + 1) == ScanParameters(rows, r2, r3, k)
    decreases |rows| - k
  {
    var table := [row] + rows;
    if k < |rows| {
      assert table[k + 1] == rows[k];
      SkipFirst(row, rows, r2, r3, k + 1);
    }
  }

  // ---------------------------------------------------------------------
  // saveData(name, headers, data, samplingRate), systolic.py:95-117

  /** A CSV cell: a header or label, or a number. */
  datatype Cell = Label(text: string) | Number(value: real)

  /** What a call leaves in the file: nothing (the file is not even opened)
      or the rows written, and whether an IndexError cut the writing
      short. */
  datatype FileWrite = Untouched | Written(rows: seq<seq<Cell>>, raised: bool)

  /** The shortest row of the data. */
  function MinLength(data: seq<seq<real>>): (m: nat)
    requires |data| > 0
    ensures forall r :: 0 <= r < |data| ==> m <= |data[r]|
  {
    if |data| == 1 then |data[0]|
    else var rest := MinLength(data[1..]);
      if |data[0]| <= rest then |data[0]| else rest
  }

  lemma {:induction false} MinLengthAttained(data: seq<seq<real>>, c: nat)
    requires |data| > 0 && forall r :: 0 <= r < |data| ==> c < |data[r]|
    ensures c < MinLength(data)
  {
    if |data| > 1 {
      MinLengthAttained(data[1..], c);
    }
  }

  function TextRow(headers: seq<string>): (row: seq<Cell>)
    ensures |row| == |headers|
  {
    seq(|headers|, i requires 0 <= i < |headers| => Label(headers[i]))
  }

  /** Row 0 of the file: ['samplingRate', samplingRate]. */
  function SettingsRow(rate: real): seq<Cell>
  {
    [Label("samplingRate"), Number(rate)]
  }

  /** Column c of the data as a row: [data[r][c] for each row r]. */
  function Column(data: seq<seq<real>>, c: nat): (row: seq<Cell>)
    requires forall r :: 0 <= r < |data| ==> c < |data[r]|
    ensures |row| == |data|
  {
    seq(|data|, r requires 0 <= r < |data| => Number(data[r][c]))
  }

  /** The first k data rows of the file, one per column of the data. */
  function Columns(data: seq<seq<real>>, k: nat): (rows: seq<seq<Cell>>)
    requires |data| > 0 && k <= MinLength(data)
    ensures |rows| == k
  {
    seq(k, c requires 0 <= c < k => Column(data, c))
  }

  /** The file saveData leaves.  data[0] raises on empty data after the two
      header rows; otherwise column c is written for each c below the
      length of data[0], and the first column some row is too short for
      raises.  So exactly MinLength(data) columns are written. */
  function SaveLayout(headers: seq<string>, data: Option<seq<seq<real>>>, rate: real): FileWrite
  {
    if data.None? then Untouched
    else
      var d := data.value;
      var head := [SettingsRow(rate), TextRow(headers)];
      if |d| == 0 then Written(head, true)
      else Written(head + Columns(d, MinLength(d)), MinLength(d) < |d[0]|)
  }

  /** The nested loops of lines 113-117: rowData gathers column c across
      the rows and is written once complete. */
  method SaveData(headers: seq<string>, data: Option<seq<seq<real>>>, rate: real) returns (file: FileWrite)
    ensures file == SaveLayout(headers, data, rate)
  {
    if data.None? {
      return Untouched;
    }
    var d := data.value;
    var written := [SettingsRow(rate), TextRow(headers)];
    if |d| == 0 {
      return Written(written, true);
    }
    ghost var head := written;
    for c := 0 to |d[0]|
      invariant c <= MinLength(d)
      invariant written == head + Columns(d, c)
    {
      var rowData: seq<Cell> := [];
      for r := 0 to |d|
        invariant forall i :: 0 <= i < r ==> c < |d[i]|
        invariant rowData == seq(r, i requires 0 <= i < r => Number(d[i][c]))
      {
        if c >= |d[r]| {
          assert Columns(d, c) == Columns(d, MinLength(d));
          return Written(written, true);
        }
        rowData := rowData + [Number(d[r][c])];
      }
      MinLengthAttained(d, c);
      assert rowData == Column(d, c);
      assert Columns(d, c + 1) == Columns(d, c) + [Column(d, c)];
      written := written + [rowData];
    }
    return Written(written, false);
  }

  /** Rectangular data (rows of one length n > 0) is written whole: 2 + n
      rows, and reading cell r of file row 2 + c gives data[r][c] back. */
  lemma SavedTransposes(headers: seq<string>, data: seq<seq<real>>, n: nat, rate: real)
    requires |data| > 0 && IsLeadSet(data, n)
    ensures var w := SaveLayout(headers, Some(data), rate);
      w.Written? && !w.raised && |w.rows| == 2 + n &&
      w.rows[0] == SettingsRow(rate) && w.rows[1] == TextRow(headers) &&
      forall c, r :: 0 <= c < n && 0 <= r < |data| ==> |w.rows[2 + c]| == |data| && w.rows[2 + c][r] == Number(data[r][c])
  {
    if n > 0 {
      MinLengthAttained(data, n - 1);
    }
  }

  /** The write is cut short exactly when some row is shorter than the
      first one. */
  lemma JaggedRaises(headers: seq<string>, data: seq<seq<real>>, rate: real)
    requires |data| > 0
    ensures SaveLayout(headers, Some(data), rate).raised <==> exists r :: 0 <= r < |data| && |data[r]| < |data[0]|
  {
    if MinLength(data) < |data[0]| {
      if forall r :: 0 <= r < |data| ==> |data[r]| >= |data[0]| {
        if |data[0]| > 0 {
          MinLengthAttained(data, |data[0]| - 1);
        }
        assert false;
      }
    }
  }
}
