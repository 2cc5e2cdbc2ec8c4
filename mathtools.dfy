/** mean_downscaler of mathtools.py (lines 20-36): pad the data cyclically
    to a whole number of blocks of n samples, always adding a block, and
    average each block. */
module MathTools {
  import opened Leads

  datatype Error = ZeroDivisionError | ValueError

  datatype Result<T> = Ok(value: T) | Failure(error: Error)

  /** Python's a % n: the remainder has the sign of n (Dafny's % is
      Euclidean, its remainder is never negative). */
  function PyMod(a: int, n: int): (r: int)
    requires n != 0
    ensures n > 0 ==> 0 <= r < n
    ensures n < 0 ==> n < r <= 0
    ensures (a - r) % n == 0
  {
    MultipleMod(a / n, n);
    MultipleMod(a / n - 1, n);
    assert a == (a / n) * n + a % n;
    assert (a / n - 1) * n == (a / n) * n - n;
    if n > 0 || a % n == 0 then a % n else a % n + n
  }

  /** A multiple of n leaves no remainder, whatever the sign of n. */
  lemma MultipleMod(q: int, n: int)
    requires n != 0
    ensures (q * n) % n == 0
  {
    if n > 0 {
      ModUnique(q * n, n, q, 0);
    } else {
      var x := q * n;
      assert x == (x / n) * n + x % n;
      assert x == (-(x / n)) * (-n) + x % n;
      ModUnique(x, -n, -(x / n), x % n);
      assert x == (-q) * (-n) + 0;
      ModUnique(x, -n, -q, 0);
    }
  }

  /** The size np.resize is asked for: data.size + (n - mod). */
  function PaddedLength(len: nat, n: int): int
    requires n != 0
  {
    len + (n - PyMod(len, n))
  }

  /** np.resize(data, size): the data repeated from its start until size
      values are taken; an empty array resizes to zeros. */
  function Resize(data: seq<real>, size: nat): (r: seq<real>)
    ensures |r| == size
  {
    if |data| == 0 then seq(size, _ => 0.0)
    else seq(size, k requires 0 <= k < size => data[k % |data|])
  }

  /** s splits into whole blocks of n. */
  predicate Aligned(s: seq<real>, n: int)
    requires n > 0
    decreases |s|
  {
    |s| == 0 || (|s| >= n && Aligned(s[n..], n))
  }

  /** The mean of each whole block of n values, in order; a trailing
      partial block contributes nothing. */
  function BlockMeans(s: seq<real>, n: int): seq<real>
    requires n > 0
    decreases |s|
  {
    if |s| < n then [] else [Mean(s[..n])] + BlockMeans(s[n..], n)
  }

  /** What mean_downscaler(data, n) returns, or the exception it raises:
      n == 0 fails at the %, a negative size (empty data, negative n) fails
      in np.resize, and a negative n otherwise never completes a block. */
  function Downscale(data: seq<real>, n: int): Result<seq<real>>
  {
    if n == 0 then Failure(ZeroDivisionError)
    else
      var size := PaddedLength(|data|, n);
      if size < 0 then Failure(ValueError)
      else if n < 0 then Ok([])
      else Ok(BlockMeans(Resize(data, size), n))
  }

  /** mean_downscaler(data, n) for an integer n (int(n) is then n).  The
      loop of lines 24-26 discards what np.append returns and so changes
      nothing; it is not repeated here. */
  method MeanDownscaler(data: seq<real>, n: int) returns (r: Result<seq<real>>)
    ensures r == Downscale(data, n)
  {
    if n == 0 {
      return Failure(ZeroDivisionError);
    }
    var mod := PyMod(|data|, n);
    var size := |data| + (n - mod);
    if size < 0 {
      return Failure(ValueError);
    }
    var finalArr := Gather(Resize(data, size), n);
    return Ok(finalArr);
  }

  /** The loop of lines 29-35: gather values into meanArr and move its mean
      to finalArr whenever it holds n of them.  With a negative n it never
      does. */
  method Gather(padded: seq<real>, n: int) returns (finalArr: seq<real>)
    requires n != 0
    ensures n > 0 ==> finalArr == BlockMeans(padded, n)
    ensures n < 0 ==> finalArr == []
  {
    var meanArr: seq<real> := [];
    finalArr := [];
    ghost var done: seq<real> := [];
    for i := 0 to |padded|
      invariant n > 0 ==> padded[..i] == done + meanArr && |meanArr| < n
      invariant n > 0 ==> Aligned(done, n) && finalArr == BlockMeans(done, n)
      invariant n < 0 ==> finalArr == [] && meanArr == padded[..i]
    {
      meanArr := meanArr + [padded[i]];
      assert padded[..i + 1] == padded[..i] + [padded[i]];
      if |meanArr| == n {
        BlockMeansSnoc(done, meanArr, n);
        finalArr := finalArr + [Mean(meanArr)];
        done := done + meanArr;
        meanArr := [];
      }
    }
    if n > 0 {
      assert padded[..|padded|] == padded;
      BlockMeansTail(done, meanArr, n);
    }
  }

  // ---------------------------------------------------------------------
  // Blocks

  /** Appending one block of n to whole blocks appends its mean. */
  lemma {:induction false} BlockMeansSnoc(s: seq<real>, b: seq<real>, n: int)
    requires n > 0 && Aligned(s, n) && |b| == n
    ensures Aligned(s + b, n) && BlockMeans(s + b, n) == BlockMeans(s, n) + [Mean(b)]
    decreases |s|
  {
    if |s| == 0 {
      assert s + b == b && b[..n] == b && b[n..] == [];
    } else {
      assert (s + b)[..n] == s[..n];
      assert (s + b)[n..] == s[n..] + b;
      BlockMeansSnoc(s[n..], b, n);
    }
  }

  /** Fewer than n values after whole blocks are dropped. */
  lemma {:induction false} BlockMeansTail(s: seq<real>, rest: seq<real>, n: int)
    requires n > 0 && Aligned(s, n) && |rest| < n
    ensures BlockMeans(s + rest, n) == BlockMeans(s, n)
    decreases |s|
  {
    if |s| == 0 {
      assert s + rest == rest;
    } else {
      assert (s + rest)[..n] == s[..n];
      assert (s + rest)[n..] == s[n..] + rest;
      BlockMeansTail(s[n..], rest, n);
    }
  }

  /** k whole blocks give k means. */
  lemma {:induction false} BlockMeansLength(s: seq<real>, n: int, k: nat)
    requires n > 0 && |s| == n * k
    ensures |BlockMeans(s, n)| == k
    decreases k
  {
    if k > 0 {
      assert n * k == n * (k - 1) + n;
      BlockMeansLength(s[n..], n, k - 1);
    }
  }

  /** The j-th mean is that of the values from j * n up to j * n + n. */
  lemma {:induction false} BlockMeanAt(s: seq<real>, n: int, j: nat)
    requires n > 0 && j * n + n <= |s|
    ensures 0 <= j * n && j < |BlockMeans(s, n)| && BlockMeans(s, n)[j] == Mean(s[j * n..j * n + n])
    decreases j
  {
    if j == 0 {
      assert s[0..n] == s[..n];
    } else {
      var t := s[n..];
      assert j * n == (j - 1) * n + n;
      BlockMeanAt(t, n, j - 1);
      assert t[(j - 1) * n..(j - 1) * n + n] == s[j * n..j * n + n];
    }
  }

  // ---------------------------------------------------------------------
  // Padding

  /** For n > 0 the padded size is the next multiple of n strictly above
      len: a whole extra block even when n divides len. */
  lemma PaddedLengthPositive(len: nat, n: int)
    requires n > 0
    ensures var size := PaddedLength(len, n);
      size == n * (len / n + 1) && len < size <= len + n
  {
    assert len == n * (len / n) + len % n;
  }

  /** For n < 0 the size is negative exactly when the data is empty. */
  lemma PaddedLengthNegative(len: nat, n: int)
    requires n < 0
    ensures PaddedLength(len, n) < 0 <==> len == 0
  {
    if len > 0 && len % n != 0 {
      assert len % n < len || len < -n;
    }
  }

  /** The padding starts with the data itself and then repeats it: each
      added value is the one |data| places earlier. */
  lemma PaddingRepeatsData(data: seq<real>, size: nat)
    requires |data| > 0 && |data| <= size
    ensures var padded := Resize(data, size);
      padded[..|data|] == data &&
      forall k :: |data| <= k < size ==> padded[k] == padded[k - |data|]
  {
    var padded := Resize(data, size);
    forall k | 0 <= k < |data| ensures padded[k] == data[k] {
      ModUnique(k, |data|, 0, k);
    }
    forall k | |data| <= k < size ensures padded[k] == padded[k - |data|] {
      ModShift(k - |data|, |data|);
    }
  }

  lemma MulMono(x: int, y: int, m: int)
    requires x <= y && m > 0
    ensures x * m <= y * m
  {
    assert y * m - x * m == (y - x) * m;
  }

  /** a % m is the r of any a == q * m + r with 0 <= r < m. */
  lemma ModUnique(a: int, m: int, q: int, r: int)
    requires m > 0 && 0 <= r < m && a == q * m + r
    ensures a % m == r
  {
    var q', r' := a / m, a % m;
    assert a == q' * m + r';
    assert (q + 1) * m == q * m + m && (q' + 1) * m == q' * m + m;
    if q' > q {
      MulMono(q + 1, q', m);
      assert false;
    } else if q' < q {
      MulMono(q' + 1, q, m);
      assert false;
    }
  }

  lemma ModShift(k: int, m: int)
    requires m > 0
    ensures (k + m) % m == k % m
  {
    assert k == (k / m) * m + k % m;
    assert k + m == (k / m + 1) * m + k % m;
    ModUnique(k + m, m, k / m + 1, k % m);
  }

  // ---------------------------------------------------------------------
  // The result

  /** With n > 0 mean_downscaler returns len / n + 1 values, the j-th the
      mean of block j of the padded data. */
  lemma DownscaleShape(data: seq<real>, n: int)
    requires n > 0
    ensures var r := Downscale(data, n);
      var padded := Resize(data, PaddedLength(|data|, n));
      r.Ok? && |r.value| == |data| / n + 1 &&
      forall j :: 0 <= j < |r.value| ==>
        0 <= j * n && j * n + n <= |padded| && r.value[j] == Mean(padded[j * n..j * n + n])
  {
    PaddedLengthPositive(|data|, n);
    var k := |data| / n + 1;
    var padded := Resize(data, PaddedLength(|data|, n));
    BlockMeansLength(padded, n, k);
    forall j | 0 <= j < k
      ensures 0 <= j * n && j * n + n <= |padded| && BlockMeans(padded, n)[j] == Mean(padded[j * n..j * n + n])
    {
      MulMono(j + 1, k, n);
      assert (j + 1) * n == j * n + n;
      BlockMeanAt(padded, n, j);
    }
  }

  /** With a negative n the call fails on empty data and otherwise returns
      an empty list. */
  lemma DownscaleNegative(data: seq<real>, n: int)
    requires n < 0
    ensures Downscale(data, n) == if |data| == 0 then Failure(ValueError) else Ok([])
  {
    PaddedLengthNegative(|data|, n);
  }

  /** Empty data pads to one block of zeros, whose mean is 0. */
  lemma DownscaleEmpty(n: int)
    requires n > 0
    ensures Downscale([], n) == Ok([0.0])
  {
    assert PyMod(0, n) == 0;
    var padded := Resize([], PaddedLength(0, n));
    assert |padded| == n;
    ZerosSum(padded);
    assert padded[..n] == padded && padded[n..] == [];
    assert Mean(padded) == 0.0;
    assert BlockMeans(padded, n) == [Mean(padded)] + BlockMeans([], n);
    assert BlockMeans([], n) == [];
    assert [Mean(padded)] + BlockMeans([], n) == [0.0];
    assert Downscale([], n) == Ok(BlockMeans(padded, n));
  }

  lemma {:induction false} ZerosSum(s: seq<real>)
    requires forall i :: 0 <= i < |s| ==> s[i] == 0.0
    ensures Sum(s) == 0.0
  {
    if |s| > 0 {
      ZerosSum(s[..|s| - 1]);
    }
  }

  // ---------------------------------------------------------------------
  // Bounds

  lemma {:induction false} SumAtLeast(s: seq<real>, lo: real)
    requires forall i :: 0 <= i < |s| ==> lo <= s[i]
    ensures lo * (|s| as real) <= Sum(s)
  {
    if |s| > 0 {
      SumAtLeast(s[..|s| - 1], lo);
      assert lo * (|s| as real) == lo * ((|s| - 1) as real) + lo;
    }
  }

  lemma {:induction false} SumAtMost(s: seq<real>, hi: real)
    requires forall i :: 0 <= i < |s| ==> s[i] <= hi
    ensures Sum(s) <= hi * (|s| as real)
  {
    if |s| > 0 {
      SumAtMost(s[..|s| - 1], hi);
      assert hi * (|s| as real) == hi * ((|s| - 1) as real) + hi;
    }
  }

  /** The mean of values no smaller than lo is no smaller than lo. */
  lemma MeanAtLeast(s: seq<real>, lo: real)
    requires |s| > 0 && forall i :: 0 <= i < |s| ==> lo <= s[i]
    ensures lo <= Mean(s)
  {
    SumAtLeast(s, lo);
    var m := |s| as real;
    assert lo == (lo * m) / m;
  }

  /** The mean of values no larger than hi is no larger than hi. */
  lemma MeanAtMost(s: seq<real>, hi: real)
    requires |s| > 0 && forall i :: 0 <= i < |s| ==> s[i] <= hi
    ensures Mean(s) <= hi
  {
    SumAtMost(s, hi);
    var m := |s| as real;
    assert hi == (hi * m) / m;
  }

  lemma {:induction false} BlockMeansAtLeast(s: seq<real>, n: int, lo: real)
    requires n > 0 && forall i :: 0 <= i < |s| ==> lo <= s[i]
    ensures forall j :: 0 <= j < |BlockMeans(s, n)| ==> lo <= BlockMeans(s, n)[j]
    decreases |s|
  {
    if |s| >= n {
      MeanAtLeast(s[..n], lo);
      BlockMeansAtLeast(s[n..], n, lo);
    }
  }

  lemma {:induction false} BlockMeansAtMost(s: seq<real>, n: int, hi: real)
    requires n > 0 && forall i :: 0 <= i < |s| ==> s[i] <= hi
    ensures forall j :: 0 <= j < |BlockMeans(s, n)| ==> BlockMeans(s, n)[j] <= hi
    decreases |s|
  {
    if |s| >= n {
      MeanAtMost(s[..n], hi);
      BlockMeansAtMost(s[n..], n, hi);
    }
  }

  /** Every value downscaled from data lying in [lo, hi] lies in [lo, hi]:
      the output stays between the data's minimum and maximum. */
  lemma DownscaleWithin(data: seq<real>, n: int, lo: real, hi: real)
    requires |data| > 0 && forall i :: 0 <= i < |data| ==> lo <= data[i] <= hi
    ensures var r := Downscale(data, n);
      r.Ok? ==> forall j :: 0 <= j < |r.value| ==> lo <= r.value[j] <= hi
  {
    if n > 0 {
      PaddedLengthPositive(|data|, n);
      var padded := Resize(data, PaddedLength(|data|, n));
      BlockMeansAtLeast(padded, n, lo);
      BlockMeansAtMost(padded, n, hi);
    }
  }

  /** Non-negative data, such as the squared derivative pan_tompkins passes
      in, downscales to non-negative values. */
  lemma DownscaleNonNegative(data: seq<real>, n: int)
    requires forall i :: 0 <= i < |data| ==> 0.0 <= data[i]
    ensures var r := Downscale(data, n);
      r.Ok? ==> forall j :: 0 <= j < |r.value| ==> 0.0 <= r.value[j]
  {
    if n > 0 {
      PaddedLengthPositive(|data|, n);
      var padded := Resize(data, PaddedLength(|data|, n));
      BlockMeansAtLeast(padded, n, 0.0);
    }
  }
}
