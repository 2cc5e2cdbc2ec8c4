# SystolicHost in Dafny

A model of the host side of Systolic, a low-cost 6-lead ECG sampler built around
the TI ADS1293 analog front end. The model covers what the host computes, not
how it talks to the hardware. It covers:

- **Register encoding.** The configuration encoders (`bin_to_hex`, `R2_to_Hex`,
  `R3_to_Hex`, `CM_to_Hex`, `RLD_to_Hex`, `AFE_to_Hex`, `Filter_to_Hex`) and the
  `register,value\r\n` frame that `sendData` writes.
- **Sample calibration.** `hasNumbers` and `adcVoltage`.
- **Acquisition.** The collection loop of `ecg_read`. It polls the serial port
  until a chunk holds a digit, splits the chunk at commas and fills one buffer
  slot from the first three fields.
- **Lead derivation.** The in-place derivation over the 6 x N buffer. It centres
  and scales leads I, II and III, then builds aVR, aVL and aVF and centres those.
- **Heart rate.** `mean_downscaler` and the part of `pan_tompkins` that follows
  the derivative: square, smooth, count beats, convert to beats per minute.
- **Tables.** The two `valLookup` table scans and the layout of the file that
  `saveData` writes.
- **The older revision, `main.py`.** Its `ecg_read` works on the module globals
  `y_vals` and `index`, which are modelled as the fields of a `Session` object.

## Modules

- `Text`: the Python string primitives the program relies on.
  - `str.strip`, `str.split` and `str.zfill`.
  - `str(int)`, `hex()` digits, and `float()` on integer text.
- `Registers`: the register addresses, the encoders and the command frame.
- `Calibration`: `hasNumbers` and `adcVoltage`.
- `Leads`: the derivation as pure functions over sequences of reals.
  - The two revisions share one derivation. `systolic.py` scales by 1000 with
    divisor 2; `main.py` uses scale 1 and divisor -2.
- `Buffer`: the lead buffer as an `array2<real>`.
  - The two derivation loops are methods proved against `Leads.Derive`.
- `Acquisition`: the collection loop.
  - The serial port is a sequence of read chunks, and `Collect` is the
    specification the loop method `CollectSamples` is proved against.
- `SystolicRead`: `ecg_read` of `systolic.py`.
- `MathTools`: `mean_downscaler`, with Python's `%` and `np.resize`.
- `HeartRate`: `pan_tompkins` from the derivative onwards, with Python's
  `int()` and `round()`.
- `Tables`: both revisions of `valLookup`, and `saveData`.
  - The CSV file is a sequence of rows of fields.
  - `saveData`'s output is a sequence of cell rows, plus whether the write
    raised part-way.
- `MainRevision`: `main.py`'s `ecg_read` as a method of class `Session`.

## Behaviour the model follows where a plain reading of the program suggests otherwise

- **A malformed reading is not skipped.** A reading with fewer than three comma
  fields raises `IndexError` at `data[1]` or `data[2]` and ends `ecg_read`
  before the stop frame is sent (`Acquisition.ShortReadingRaises`). The
  `try`/`except` around `split` never fires.
- **Every slot is filled from a reading.** On completion no slot is left unset
  (`Acquisition.FilledRowsComplete`).
- **There is no timeout or cancellation.** The polling loop waits forever for a
  reading. An input that runs out is the `Stalled` outcome.
- **The augmented leads do not sum to zero.** aVL is the negation of aVF slot by
  slot, so aVR + aVL + aVF equals aVR, which is not zero in general
  (`Leads.AvlOpposesAvf`, `Leads.AugmentedSumNotZero`).
- **The refractory check suppresses nothing.** It ends the loop body with
  `continue` and skips no beat (`HeartRate.AdjacentBeats`).
- **`main.py` ignores the readings.** Its `ecg_read` stores `adcvoltage(ADCMax)`
  (the full-scale value the user picked), not the received fields. After the
  derivation all six leads are zero in every slot
  (`MainRevision.MainReadVanishes`).
- **`mean_downscaler` appends no `None` values.** `np.append` returns a new
  array, which is discarded.
  - The padding is entirely `np.resize`'s cyclic repetition.
  - Padding always adds between 1 and n values, so a length that is already a
    multiple of n gains one extra block.
- **A failed lookup returns rather than raising.** An unmatched `valLookup`
  returns `None` (`systolic.py`) or `(0, 0, 0)` (`main.py`), modelled as
  `NotFound`. A row too short to index raises `IndexError`.

## Model

| member | source | states |
|---|---|---|
| Text.Strip | systolic.py:277 | the stripped text is no longer than the input and neither starts nor ends with whitespace |
| Text.StripPadded | systolic.py:277 | stripping whitespace padding from a text that begins and ends with a non-space gives exactly that text back |
| Text.Split | systolic.py:280 | `split(",")` yields at least one field and no field contains the separator |
| Text.SplitJoin | systolic.py:280 | rejoining the split fields with the separator gives back the original text, so splitting loses nothing |
| Text.SplitAtSeparator | systolic.py:280 | a separator-free prefix followed by the separator becomes one whole field ahead of the fields of the rest |
| Text.SplitWhole | systolic.py:280 | a separator-free text splits into itself alone |
| Text.DigitChar | systolic.py:121 | the printed hex digit for d is lowercase and reads back as d |
| Text.NumeralRoundTrip | systolic.py:121 | the printed numeral of v in a base up to 16 uses only digits of that base, has no leading zero, and reads back as v |
| Text.NumeralAppend | systolic.py:121 | the value of a concatenated numeral is the value of the head shifted by the tail's digit count plus the value of the tail |
| Text.NumeralBound | systolic.py:121 | a numeral of k digits is below base^k |
| Text.ZFill | systolic.py:122 | `zfill(width)` left-pads with '0' to the larger of the width and the text's length |
| Text.ZFillValue | systolic.py:122 | zero padding leaves the numeral's value unchanged |
| Text.ParseDecimalString | systolic.py:254 | `float(str(n))` is n: reading back a printed integer gives the integer |
| Text.DecimalStringSolid | systolic.py:277 | a printed integer has no whitespace for `strip` to remove |
| Registers.HexByte | systolic.py:120-124 | the encoded byte is four characters, "0x" then two lowercase hex digits whose value is the byte |
| Registers.BinToHexValue | systolic.py:120-124 | `bin_to_hex` prints "0x" and at least two hex digits whose value is the binary text's value; below 256 that is the byte's encoding |
| Registers.BinToHexOfByte | systolic.py:120-124 | a binary text of at most eight digits prints a value below 256 as exactly four characters |
| Registers.PrintedByte | systolic.py:121-123 | "0x" plus the two-digit zero-filled hex of a byte is that byte's encoding |
| Registers.R2ToHexDomain | systolic.py:127-135 | `R2_to_Hex` answers exactly for the R2 decimation rates 4, 5, 6 and 8; every other input gives None |
| Registers.R2ToHexOneHot | systolic.py:127-135 | the k-th R2 rate is encoded as the byte with bit k alone set |
| Registers.R3ToHexDomain | systolic.py:138-154 | `R3_to_Hex` answers exactly for the R3 rates 4, 6, 8, 12, 16, 32, 64 and 128; every other input gives None |
| Registers.R3ToHexOneHot | systolic.py:138-154 | the k-th R3 rate is encoded as the byte with bit k alone set |
| Registers.OneHot | systolic.py:129-153 | the one-hot literal for bit k is an eight-digit binary text |
| Registers.OneHotValue | systolic.py:129-153 | `bin_to_hex` of the one-hot literal for bit k is the encoding of 2^k |
| Registers.DriveValue | systolic.py:163-170 | valid drive codes 0..3 append two bits worth the code; any other drive appends nothing |
| Registers.CmToHexCode | systolic.py:157-171 | the CM byte is 4 x bandwidth + drive; with a drive outside 0..3 only the bandwidth bit, which then lands in bit 0 |
| Registers.RldToHexCode | systolic.py:174-196 | the RLD byte is 64 x bandwidth + 16 x drive + 8 x (not toggle) + 4 (IN4 selected), with the same drive fallback as CM |
| Registers.RldFixedBits | systolic.py:174-196 | bit 2 (IN4) of the RLD byte is always set and bit 7 always clear |
| Registers.AfeToHexCode | systolic.py:199-215 | the AFE byte holds one bit per channel, channel 1 in bit 2 and channel 3 in bit 0, clock bits zero |
| Registers.FilterToHexCode | systolic.py:218-232 | the filter byte holds each channel's bit inverted and in reverse order, which is the AFE byte of the negated channels reversed |
| Registers.FrameLayout | systolic.py:235-239 | a frame is register, comma, value, CR LF; while neither part holds a comma, the line before CR LF splits back into register and value |
| Registers.FrameOfBytes | systolic.py:236-239 | the frame of two four-character strings is their eleven characters in order |
| Registers.StartFrameEncodes | systolic.py:268 | the start command written to the configuration register is "0x00,0x01\r\n" |
| Registers.StopFrameEncodes | systolic.py:297 | the stop command written to the configuration register is "0x00,0x00\r\n" |
| Registers.RegisterFrame | systolic.py:29-37 | writing an encoded byte to any of the nine register addresses sends eleven characters, and the line before CR LF splits back into the address and the byte |
| Calibration.AdcVoltageOfCode | systolic.py:252-260 | a code received in decimal calibrates to (code / adcmax - 1/2) x 4.8 / 3.5, and to 0 when adcmax is 0 (the caught ZeroDivisionError) |
| Calibration.NoDigitReadsZero | systolic.py:253-256 | every field without a decimal digit, the empty field included, fails to parse and reads 0 |
| Calibration.CalibrateIncreasing | systolic.py:257-259 | with a positive full-scale code the calibration is strictly increasing |
| Calibration.AdcVoltageIncreasing | systolic.py:252-260 | a higher code received in decimal always reads a strictly higher voltage |
| Calibration.CalibrationPoints | systolic.py:252-260 | code 0 reads -24/35, half scale reads 0 and full scale reads 24/35 |
| Calibration.CalibrationRange | systolic.py:252-260 | every code between 0 and full scale reads within [-24/35, 24/35] |
| Leads.FirstPass | systolic.py:298-307 | the first loop yields six rows of the buffer's length |
| Leads.SecondPass | systolic.py:308-314 | the second loop leaves rows 0-2 untouched and the lengths unchanged |
| Leads.Derive | systolic.py:298-314 | the derivation yields six leads of the buffer's length |
| Leads.SumCombine | systolic.py:298-314 | the sum of a slot-wise linear combination of two rows is the same combination of their sums |
| Leads.CenterSumsToZero | systolic.py:298-304 | a row centred on its own average sums to zero, whatever the scale |
| Leads.MeasuredLeadsCentred | systolic.py:298-304 | after the derivation leads I-III are scale x (raw - average) slot by slot, and each has mean zero |
| Leads.AugmentedSumsToZero | systolic.py:305-307 | aVR, aVL and aVF built from two zero-sum leads already have mean zero |
| Leads.SecondPassSubtractsZero | systolic.py:308-314 | the averages the second pass subtracts are all zero, so the second pass changes nothing |
| Leads.DerivedLeadsCentred | systolic.py:298-314 | every one of the six derived leads has mean zero |
| Leads.AugmentedLeadIdentities | systolic.py:305-314 | in the final rows aVR = -(I + II)/2, aVL = (I - II)/divisor and aVF = (II - I)/divisor, slot by slot |
| Leads.AvlOpposesAvf | systolic.py:306-307 | aVL = -aVF in every slot, so aVR + aVL + aVF = aVR |
| Leads.AugmentedSumNotZero | systolic.py:305-314 | the augmented leads need not sum to zero: a unit pulse on lead I (scale 1, divisor 2) leaves -1/4 in slot 0 |
| Leads.RevisionSignConvention | main.py:224-226 | main.py's aVL (divisor -2) is systolic.py's aVF (divisor 2) and the reverse, and aVR agrees |
| Leads.CenterConstant | systolic.py:298-304 | a row holding one value throughout centres to zeros |
| Leads.ConstantLeadsVanish | systolic.py:298-314 | when each measured row holds one value throughout, all six derived leads are zero |
| Buffer.Rows | systolic.py:267 | the six rows read the buffer slot for slot |
| Buffer.CentreAndAugment | systolic.py:298-307 | after the first loop the buffer holds the first pass of the measured rows it held before |
| Buffer.FirstPassLoop | systolic.py:301-307 | every slot of rows 0-2 is (old - average) x scale, and rows 3-5 are aVR, aVL, aVF of the new rows 0-1 |
| Buffer.FirstPassSlot | systolic.py:302-307 | one iteration writes the six rows of slot i as above and no other slot |
| Buffer.RecentreAugmented | systolic.py:308-314 | after the second loop the buffer holds the second pass of its old rows |
| Buffer.SecondPassLoop | systolic.py:311-314 | rows 0-2 are unchanged and rows 3-5 have their averages subtracted slot by slot |
| Buffer.DeriveLeads | systolic.py:298-314 | both loops leave the buffer holding the derivation of the measured rows it held before |
| Acquisition.Collect | systolic.py:272-291 | a run fills at most the slots asked for, and completes exactly when it fills all of them |
| Acquisition.CollectTakesReadingsInOrder | systolic.py:272-291 | slot j gets the fields of the j-th reading in arrival order; an IndexError comes from a reading of fewer than three fields right after the filled ones, and a stall only once every reading is used |
| Acquisition.CollectCompletes | systolic.py:272-291 | enough readings with three fields or more always fill every slot |
| Acquisition.NoiseIgnored | systolic.py:278 | chunks without a digit, anywhere in the input, change nothing |
| Acquisition.ShortReadingRaises | systolic.py:283-285 | a chunk with a digit but no comma stops the run with IndexError and fills nothing |
| Acquisition.DeviceLineFields | systolic.py:277-280 | a device line of three decimal codes, however padded with whitespace, is a reading whose fields are the three codes |
| Acquisition.DeviceLineSample | systolic.py:283-289 | a padded device line fills its slot with the three codes calibrated |
| Acquisition.Poll | systolic.py:273-282 | polling returns the next reading and where it was found, or reports that the input stalls |
| Acquisition.FieldRows | systolic.py:283-289 | the decoded field lists form three rows, one slot per reading |
| Acquisition.FilledRowsContents | systolic.py:287-289 | in a partly filled buffer, rows 0-2 hold the decoded fields in the filled slots and their old values elsewhere; rows 3-5 are untouched |
| Acquisition.FilledRowsComplete | systolic.py:272-291 | once every slot is filled, rows 0-2 are the decoded fields alone |
| Acquisition.WriteSample | systolic.py:283-289 | slot i of rows 0-2 is set to the decoded first three fields, and nothing else changes |
| Acquisition.FillSlot | systolic.py:273-291 | one outer iteration fills slot i from the next reading, or stops with the run's outcome and the buffer unchanged |
| Acquisition.CollectSamples | systolic.py:272-291 | the loop ends with Collect's outcome, and the buffer holds exactly the filled rows of Collect's field lists |
| Acquisition.DeriveCollected | systolic.py:298-314 | after a completed collection the derivation leaves the buffer holding the derived leads of the decoded readings |
| SystolicRead.EcgRead | systolic.py:263-314 | sends the start frame; on completion also the stop frame, and the 6 x N buffer holds the derivation (x1000, divisor 2) of the calibrated readings; an IndexError sends no stop frame |
| SystolicRead.CompletedReadIsCentred | systolic.py:298-314 | all six leads of a completed read have mean zero, and aVL = -aVF |
| SystolicRead.RepeatedReadingVanishes | systolic.py:283-314 | a device repeating the same three codes in every slot yields six leads that are zero |
| MainRevision.FixedReadingValue | main.py:205-207 | every field reads the calibration of ADCMax itself, whatever the device sent |
| MainRevision.FieldsIgnored | main.py:205-212 | every measured slot main.py fills holds that same value |
| MainRevision.MainReadVanishes | main.py:205-233 | main.py's derivation (scale 1, divisor -2) of the readings it collects is zero in all six leads |
| MainRevision.Session.constructor | main.py:11-14 | the module state starts with a 6 x DATA_LIM buffer and index 0 |
| MainRevision.Session.EcgRead | main.py:180-236 | sends the start frame; on completion the stop frame, index reset to 0 and every slot of y_vals zero; on IndexError index unchanged and only the filled slots overwritten |
| MathTools.PyMod | mathtools.py:22 | Python's `%` is congruent to a modulo n and has the divisor's sign: in [0, n) for n > 0 and in (n, 0] for n < 0 |
| MathTools.Resize | mathtools.py:23 | `np.resize` gives exactly the size asked for |
| MathTools.PaddingRepeatsData | mathtools.py:23 | the resized data starts with the data itself and then repeats it cyclically |
| MathTools.PaddedLengthPositive | mathtools.py:22-23 | for n > 0 the padded size is the next multiple of n strictly above the length, so 1 to n values are added |
| MathTools.PaddedLengthNegative | mathtools.py:22-23 | for n < 0 the size asked for is negative exactly when the data is empty |
| MathTools.MeanDownscaler | mathtools.py:20-36 | the method returns what Downscale specifies: ZeroDivisionError for n = 0, ValueError for a negative size, otherwise the block means |
| MathTools.Gather | mathtools.py:27-36 | the loop yields the means of the whole blocks of n in order, and nothing for n < 0 |
| MathTools.BlockMeansSnoc | mathtools.py:29-33 | one more whole block appends its mean |
| MathTools.BlockMeansTail | mathtools.py:29-35 | fewer than n values after the whole blocks are dropped |
| MathTools.BlockMeanAt | mathtools.py:29-33 | the j-th output is the mean of values j x n up to j x n + n |
| MathTools.DownscaleShape | mathtools.py:20-36 | with n > 0 the result has len / n + 1 values, and the j-th is the mean of the j-th block of the padded data |
| MathTools.DownscaleNegative | mathtools.py:20-36 | with n < 0 the call raises ValueError on empty data and otherwise returns nothing |
| MathTools.DownscaleEmpty | mathtools.py:20-36 | empty data pads to one block of zeros and returns [0] |
| MathTools.DownscaleWithin | mathtools.py:20-36 | every value downscaled from data within [lo, hi] lies within [lo, hi] |
| MathTools.DownscaleNonNegative | mathtools.py:20-36 | non-negative data downscales to non-negative values |
| HeartRate.CountBeats | systolic.py:77-89 | the loop counts the slots with a successor where the beat condition holds |
| HeartRate.BeatsCountSet | systolic.py:81-86 | the count is the size of the set of slots with a successor where the beat condition holds |
| HeartRate.BeatsBound | systolic.py:81-86 | at most one beat per slot that has a successor, so beats <= length - 1 |
| HeartRate.AdjacentBeats | systolic.py:84-89 | beats in any two adjacent slots i and i + 1 both count, so the refractory check holds nothing back |
| HeartRate.AdjacentBeatsBothCount | systolic.py:84-89 | three equal samples above the threshold give two beats |
| HeartRate.RisingHasNoBeats | systolic.py:84 | a strictly rising signal has no beat |
| HeartRate.TruncateTowardZero | systolic.py:72 | `int()` keeps the sign, drops less than 1 and never increases the magnitude |
| HeartRate.RoundNearest | systolic.py:90 | `round` is within 1/2 of its argument, and even when exactly 1/2 away |
| HeartRate.RoundUnique | systolic.py:90 | an integer nearer than 1/2 is what `round` returns |
| HeartRate.RoundTies | systolic.py:90 | ties go to the even integer: 2.5 gives 2, 3.5 gives 4, -0.5 gives 0 |
| HeartRate.RoundMonotone | systolic.py:90 | `round` never decreases as its argument grows |
| HeartRate.BpmOfSampleTime | systolic.py:61-90 | beats / (N / fs) x 60 is beats x fs x 60 / N |
| HeartRate.BpmMonotone | systolic.py:90 | more beats never lower the rate, which is non-negative for fs > 0 |
| HeartRate.PanTompkins | systolic.py:61-92 | the tail from the derivative on: ZeroDivisionError for fs = 0 or an empty derivative, mean_downscaler's errors passed on, otherwise the rounded beats per minute |
| HeartRate.SlowRateFails | systolic.py:71-73 | in the tail from the derivative on, for fs strictly between -20/3 and 20/3 Hz (fs not 0) the 0.15 s window holds no sample and mean_downscaler raises ZeroDivisionError |
| HeartRate.SmoothedNonNegative | systolic.py:69-73 | the smoothed squared derivative is never negative |
| HeartRate.HeartRateBounds | systolic.py:47-92 | with fs > 0 a heart rate is never negative and at most the rate a beat in every smoothed slot but the last would give |
| Tables.SystolicValLookup | systolic.py:344-354 | the loop skips the header, returns the five fields of the first row whose column 4 is bw, raises IndexError on a row too short to index, and returns nothing when no row matches |
| Tables.SettingsFirstMatch | systolic.py:348-353 | in a well-formed table the lookup returns R2, R3, ADCMax, ODR and noise of the first matching row after the header |
| Tables.SettingsNoMatch | systolic.py:344-354 | in a well-formed table the lookup finds nothing exactly when no row after the header matches |
| Tables.HeaderSkipped | systolic.py:349-351 | the header row is never returned, even when its column 4 is bw |
| Tables.MainValLookup | main.py:239-251 | the loop returns ADCMax, ODR and BW of the first row matching R2 and R3, raises IndexError on a row too short to test, and otherwise gives (0, 0, 0) |
| Tables.ParametersFirstMatch | main.py:245-250 | in a well-formed table the lookup returns columns 2-4 of the first matching row |
| Tables.ParametersNoMatch | main.py:245-251 | in a well-formed table the lookup gives (0, 0, 0) exactly when no row matches both R2 and R3 |
| Tables.FirstRowTakesPart | main.py:245-250 | unlike systolic.py no header is skipped: a matching first row is returned |
| Tables.ShortCircuit | main.py:246 | a one-field row is passed over when its field is not R2, and raises IndexError at row[1] when it is |
| Tables.SkipFirst | main.py:245-246 | scanning past a row that does not match R2 is scanning the rest |
| Tables.MinLength | systolic.py:113-116 | the shortest row length is at most every row's length |
| Tables.MinLengthAttained | systolic.py:113-116 | a column present in every row lies below the shortest length |
| Tables.Column | systolic.py:114-115 | a file row holds one cell per data row |
| Tables.SaveData | systolic.py:95-117 | the nested loops leave in the file what SaveLayout specifies: nothing for None; otherwise the two header rows, then, for non-empty data, one row per column up to the shortest row, raising when some row is shorter than row 0 and always on empty data |
| Tables.SavedTransposes | systolic.py:95-117 | rectangular data of width n is written whole: the two header rows, then n rows where row 2 + c holds column c of the data |
| Tables.JaggedRaises | systolic.py:105-116 | a write is cut short exactly when some row is shorter than row 0 |

## Left out

- Serial I/O is a sequence of read chunks. Left out are port opening,
  `inWaiting`, `reset_input_buffer`, `flush`, `close`, the failure prints of
  `sendData`, and UTF-8 decoding errors.
- `time.sleep` and the wall-clock sampling rate `sRate` are left out. They
  depend on the clock, and `SystolicRead.EcgRead` returns no sampling rate.
- The 50 Hz notch filter (`iirnotch`, `filtfilt`) applied at the end of
  `systolic.py`'s `ecg_read` is left out. It is floating-point signal
  processing.
  - `SystolicRead.EcgRead`: its buffer is the state before the notch filter.
- The Butterworth band-pass filter (`butter`, `sosfilt`) and `np.gradient` at the
  start of `pan_tompkins` are left out.
  - `HeartRate.PanTompkins`: it starts from the derivative of the filtered lead
    II and takes its length as the number of samples.
  - `HeartRate.PanTompkins`: in the program the omitted filter and gradient
    run first. `butter` raises ValueError for fs <= 30 Hz, since the 15 Hz
    band edge must lie below fs / 2. `np.gradient` raises ValueError for fewer
    than 2 samples. So the tail's ZeroDivisionError paths (`HeartRate.SlowRateFails`,
    fs = 0, an empty derivative) are reachable only in the model.
- The GUI classes, `tqdm`, `ecg_plot`, `ConfigParser` and the opening and writing
  of CSV files are left out.
  - `valLookup` scans a table given as rows of fields.
  - `saveData` returns the rows it would write, without its `name` parameter.
- Text handling is ASCII only. Whitespace is space, \t, \n, \v, \f, \r and \x1c-\x1f. Non-ASCII whitespace such as U+0085 and U+00A0, and non-ASCII digits, are not modelled.
- `Text.ParseNumber`: `float()` accepts only integer text, optionally signed and
  padded with whitespace. The device sends integer codes. Decimal points,
  exponents, `inf` and `nan` are not modelled.
- IEEE floating point is not modelled. All arithmetic is exact over reals,
  including fs, `0.15 * fs`, the averages and the calibration.
- `Leads.Mean`: numpy's average of an empty row (NaN with a warning) is 0. It is
  only used for an empty buffer, where no slot reads it.
- `SystolicRead.EcgRead`: `round(DATA_LIM)` is not modelled. The buffer width is
  taken as a natural number.
- `MainRevision.Session.EcgRead`: the `stop` flag the GUI could set is left out.
  Nothing in `main.py` sets it, so the polling loop never exits early.
- `MainRevision.Session.EcgRead`: the plot and the constant return value 0 are
  left out.
- `main.py`'s `bin_to_hex`, the encoders, `sendData`'s frame, `hasNumbers` and
  `adcvoltage` are defined once, in `Registers` and `Calibration`. They are the
  same as `systolic.py`'s: `elif` in place of `if` after a `return` changes
  nothing.
- `MathTools.MeanDownscaler`: takes an integer n. `int(n)` of a float argument is
  not modelled; `pan_tompkins` passes an integer.
- The `np.append` loop in `mean_downscaler` is not repeated. Its result is
  discarded, so it has no effect.
- `mean_downscaler`'s `finalArr` is a plain sequence of reals. numpy's float64
  type is not modelled.
