/**
 Row-major buffers: `Session._flatten`, the read callback of a Python adapter, and the read-back
 of `Program.facts_raw` (`pyrewire/session.py`, `pyrewire/io_adapter.py`, `pyrewire/program.py`).
 */
module Buffers {
  import opened Wrappers
  import opened Words
  import opened Binary64
  import opened Lanes
  import Version

  // ---------------------------------------------------------------- indices

  /** Where row `i`, column `j` of a table `c` columns wide lives. */
  function Index(i: nat, c: nat, j: nat): nat {
    i * c + j
  }

  lemma IndexBelow(i: nat, r: nat, c: nat, j: nat)
    requires i < r && j < c
    ensures Index(i, c, j) < r * c
  {
    assert (i + 1) * c <= r * c;
  }

  lemma RowsApart(i: nat, k: nat, c: nat)
    requires i < k
    ensures i * c + c <= k * c
  {
    assert (i + 1) * c <= k * c;
  }

  lemma IndexBefore(i: nat, n: nat, c: nat, j: nat)
    requires i < n && j < c
    ensures Index(i, c, j) < Index(n, c, 0)
  {
    RowsApart(i, n, c);
  }

  lemma DivisionBelow(k: nat, r: nat, c: nat)
    requires k < r * c && c > 0
    ensures k / c < r && k / c * c + k % c == k
  {
    if r < k / c {
      RowsApart(r, k / c, c);
    }
  }

  lemma UniqueDivision(k: nat, c: nat, i: nat, j: nat)
    requires c > 0 && j < c && i * c + j == k
    ensures i == k / c && j == k % c
  {
    var q := k / c;
    if i < q {
      RowsApart(i, q, c);
    } else if q < i {
      RowsApart(q, i, c);
    }
  }

  /** Every cell of the buffer belongs to exactly one row and column. */
  lemma IndexIsABijection(r: nat, c: nat, k: nat, i: nat, j: nat)
    requires k < r * c && j < c
    ensures c > 0 && k / c < r && k % c < c && Index(k / c, c, k % c) == k
    ensures Index(i, c, j) == k <==> i == k / c && j == k % c
  {
    DivisionBelow(k, r, c);
    if Index(i, c, j) == k {
      UniqueDivision(k, c, i, j);
    }
  }

  // ---------------------------------------------------------------- int(v)

  function Truncated(x: real): int {
    if x < 0.0 then -((-x).Floor) else x.Floor
  }

  /** Python's `int(v)`: towards zero from a float or a fraction, and by parsing from a string. */
  function ToInt(v: Py): Result<int, Error> {
    match v
    case PyInt(n) => Ok(n)
    case PyBool(b) => Ok(if b then 1 else 0)
    case PyIndex(n) => Ok(n)
    case PyFraction(num, den) => Ok(Truncated(Quotient(num, den)))
    case PyFloat(d) =>
      if d.Finite? then Ok(Truncated(Value(d))) else if d.Infinite? then Err(OverflowError) else Err(ValueError)
    case PyStr(s) => (match Version.IntOf(s) case Some(n) => Ok(n) case None => Err(ValueError))
    case _ => Err(TypeError)
  }

  lemma TruncatedOnly(x: real, n: int)
    ensures Truncated(x) == n
            <==> Abs(n as real) <= Abs(x) < Abs(n as real) + 1.0 && (n > 0 ==> x > 0.0) && (n < 0 ==> x < 0.0)
  {
    if x < 0.0 {
      assert (-x).Floor as real <= -x < ((-x).Floor + 1) as real;
    } else {
      assert x.Floor as real <= x < (x.Floor + 1) as real;
    }
  }

  /**
   `int(v)` told from the value: of anything that stands for an exact number it is the one integer
   that is no larger in magnitude, less than one away, and not of the opposite sign.
   */
  lemma ToIntTruncates(v: Py, n: int)
    requires Exact(v).Some? && !v.PyFloatLike?
    ensures var x := Exact(v).value;
            ToInt(v) == Ok(n)
            <==> Abs(n as real) <= Abs(x) < Abs(n as real) + 1.0 && (n > 0 ==> x > 0.0) && (n < 0 ==> x < 0.0)
  {
    hide Value, Quotient, Truncated;
    var x := Exact(v).value;
    TruncatedOnly(x, n);
    if v.PyInt? || v.PyBool? || v.PyIndex? {
      TruncatedOnly(x, ToInt(v).value);
      assert x == ToInt(v).value as real;
    }
  }

  /** What `int` makes of everything else. */
  lemma ToIntOfTheRest(v: Py, n: nat)
    ensures ToInt(PyStr(Version.Digits(n))) == Ok(n)
    ensures v.PyFloat? && v.d.Infinite? ==> ToInt(v) == Err(OverflowError)
    ensures v.PyFloat? && v.d == NaN ==> ToInt(v) == Err(ValueError)
    ensures v.PyFloatLike? || v.PyOther? ==> ToInt(v) == Err(TypeError)
    ensures v.PyStr? && ToInt(v).Err? ==> ToInt(v) == Err(ValueError)
  {
    Version.IntOfDigits(n);
  }

  /** The first value `int` refuses, or the length of the row. */
  function FirstRefused(row: seq<Py>): (k: nat)
    ensures k <= |row|
    ensures forall j :: 0 <= j < k ==> ToInt(row[j]).Ok?
    ensures k < |row| ==> ToInt(row[k]).Err?
  {
    if row == [] || ToInt(row[0]).Err? then 0 else 1 + FirstRefused(row[1..])
  }

  /** What the first value of a row that `int` refuses raises. */
  function Refusal(row: seq<Py>): Option<Error> {
    var k := FirstRefused(row);
    if k < |row| then Some(ToInt(row[k]).error) else None
  }

  /** A row of this width whose values all convert. */
  predicate Fits(row: seq<Py>, c: nat) {
    |row| == c && Refusal(row).None?
  }

  predicate AllFit(rows: seq<seq<Py>>, c: nat) {
    forall i :: 0 <= i < |rows| ==> Fits(rows[i], c)
  }

  /** Row `k` is the first that does not fit. */
  predicate FirstMisfit(rows: seq<seq<Py>>, c: nat, k: nat) {
    k < |rows| && !Fits(rows[k], c) && forall i :: 0 <= i < k ==> Fits(rows[i], c)
  }

  /** The integers of the rows; zero stands where `int` refuses. */
  function Ints(rows: seq<seq<Py>>): (r: seq<seq<int>>)
    ensures |r| == |rows| && forall i :: 0 <= i < |rows| ==> |r[i]| == |rows[i]|
  {
    seq(|rows|, i requires 0 <= i < |rows| =>
      seq(|rows[i]|, j requires 0 <= j < |rows[i]| =>
        match ToInt(rows[i][j]) case Ok(n) => n case Err(_) => 0))
  }

  // ---------------------------------------------------------------- contents

  predicate Rectangular(rows: seq<seq<int>>, c: nat) {
    forall i :: 0 <= i < |rows| ==> |rows[i]| == c
  }

  function Wrapped(rows: seq<seq<int>>): seq<seq<int>> {
    seq(|rows|, i requires 0 <= i < |rows| =>
      seq(|rows[i]|, j requires 0 <= j < |rows[i]| => WrapInt64(rows[i][j])))
  }

  /** Row `i`, column `j` is in its place. */
  ghost predicate Placed(cells: seq<int>, rows: seq<seq<int>>, c: nat, i: nat, j: nat)
    requires i < |rows| && j < c
  {
    |rows[i]| == c && Index(i, c, j) < |cells| && cells[Index(i, c, j)] == WrapInt64(rows[i][j])
  }

  /** The first `n` rows are in place. */
  ghost predicate Filled(cells: seq<int>, rows: seq<seq<int>>, c: nat, n: nat)
    requires n <= |rows|
  {
    && |cells| == |rows| * c
    && forall i, j :: 0 <= i < n && 0 <= j < c ==> Placed(cells, rows, c, i, j)
  }

  /** The buffer holds the rows one after the other, every value as an `int64_t`. */
  ghost predicate RowMajor(cells: seq<int>, rows: seq<seq<int>>, c: nat) {
    Filled(cells, rows, c, |rows|)
  }

  lemma FilledNext(before: seq<int>, after: seq<int>, rows: seq<seq<int>>, c: nat, n: nat)
    requires n < |rows| && |rows[n]| == c && Filled(before, rows, c, n) && |after| == |before|
    requires forall k :: 0 <= k < |after| && k < Index(n, c, 0) ==> after[k] == before[k]
    requires forall j :: 0 <= j < c ==> Placed(after, rows, c, n, j)
    ensures Filled(after, rows, c, n + 1)
  {
    forall i, j | 0 <= i < n + 1 && 0 <= j < c
      ensures Placed(after, rows, c, i, j)
    {
      if i < n {
        IndexBefore(i, n, c, j);
        assert Placed(before, rows, c, i, j);
      }
    }
  }

  // ---------------------------------------------------------------- the two fills

  /** One outer iteration of either fill: copy row `i` behind the rows before it, up to the first
      value that does not convert. */
  method FillRow(flat: array<int>, rows: seq<seq<Py>>, c: nat, i: nat) returns (e: Option<Error>)
    requires i < |rows| && |rows[i]| == c && flat.Length == |rows| * c
    modifies flat
    ensures e == Refusal(rows[i])
    ensures forall k :: 0 <= k < flat.Length && k < Index(i, c, 0) ==> flat[k] == old(flat[k])
    ensures e.None? ==> forall j :: 0 <= j < c ==> Placed(flat[..], Ints(rows), c, i, j)
  {
    for j := 0 to c
      invariant forall k :: 0 <= k < flat.Length && k < Index(i, c, 0) ==> flat[k] == old(flat[k])
      invariant forall m :: 0 <= m < j ==> ToInt(rows[i][m]).Ok?
      invariant forall m :: 0 <= m < j ==> Placed(flat[..], Ints(rows), c, i, m)
    {
      IndexBelow(i, |rows|, c, j);
      var n := ToInt(rows[i][j]);
      if n.Err? {
        assert FirstRefused(rows[i]) == j;
        return Some(n.error);
      }
      ghost var before := flat[..];
      flat[Index(i, c, j)] := WrapInt64(n.value);
      forall m | 0 <= m < j ensures Placed(flat[..], Ints(rows), c, i, m) {
        assert Placed(before, Ints(rows), c, i, m);
      }
    }
    return None;
  }

  datatype Batch = NoRows | Batch(flat: array<int>, nrows: nat, ncols: nat)

  /** `Session._flatten`: a batch is accepted when it is empty, or has at least one column and only
      rows of the first one's width with values that convert; otherwise the first row that does not
      fit raises, and nothing is handed over. */
  method Flatten(rows: seq<seq<Py>>) returns (r: Result<Batch, Error>)
    ensures r.Ok? <==> rows == [] || (|rows[0]| > 0 && AllFit(rows, |rows[0]|))
    ensures r.Err? && |rows[0]| == 0 ==> r.error == ValueError
    ensures r.Err? && |rows[0]| > 0 ==>
              exists k: nat :: FirstMisfit(rows, |rows[0]|, k)
                          && r.error == (if |rows[k]| != |rows[0]| then ValueError else Refusal(rows[k]).value)
    ensures r.Ok? ==> (r.value.NoRows? <==> rows == [])
    ensures r.Ok? && rows != [] ==>
              && r.value.nrows == |rows| && r.value.ncols == |rows[0]|
              && fresh(r.value.flat) && RowMajor(r.value.flat[..], Ints(rows), |rows[0]|)
  {
    if rows == [] {
      return Ok(NoRows);
    }
    var ncols := |rows[0]|;
    if ncols == 0 {
      return Err(ValueError);
    }
    var flat := new int[|rows| * ncols];
    for i := 0 to |rows|
      invariant forall k :: 0 <= k < i ==> Fits(rows[k], ncols)
      invariant Filled(flat[..], Ints(rows), ncols, i)
    {
      if |rows[i]| != ncols {
        assert FirstMisfit(rows, ncols, i);
        return Err(ValueError);
      }
      ghost var before := flat[..];
      var e := FillRow(flat, rows, ncols, i);
      if e.Some? {
        assert FirstMisfit(rows, ncols, i);
        return Err(e.value);
      }
      FilledNext(before, flat[..], Ints(rows), ncols, i);
    }
    return Ok(Batch(flat, |rows|, ncols));
  }

  /** What the read callback publishes through its out-parameters. */
  datatype Published = Nothing | EmptyTable | Table(data: array<int>, nrows: nat)

  /**
   The adapter's read callback; `rows` is `None` when the user's `read` raised, `ncols` is the
   engine's column count and `mallocOk` says whether `malloc` succeeded. A row of another width is
   answered with -1; an exception of `int` escapes into ctypes.
   */
  method ReadCallback(rows: Option<seq<seq<Py>>>, ncols: nat, mallocOk: bool)
    returns (r: Result<int, Error>, out: Published)
    ensures r == Ok(0) <==> rows.Some? && (rows.value == [] || (mallocOk && AllFit(rows.value, ncols)))
    ensures r.Ok? ==> r.value == 0 || r.value == -1
    ensures r.Err? <==> rows.Some? && rows.value != [] && mallocOk
                        && exists k: nat :: FirstMisfit(rows.value, ncols, k) && |rows.value[k]| == ncols
    ensures r.Err? ==> exists k: nat :: FirstMisfit(rows.value, ncols, k) && Refusal(rows.value[k]) == Some(r.error)
    ensures r != Ok(0) <==> out == Nothing
    ensures r == Ok(0) ==> (out == EmptyTable <==> rows.value == [])
    ensures r == Ok(0) && rows.value != [] ==>
              && out.Table? && out.nrows == CUint32(|rows.value|)
              && fresh(out.data) && RowMajor(out.data[..], Ints(rows.value), ncols)
  {
    if rows.None? {
      return Ok(-1), Nothing;
    }
    if rows.value == [] {
      return Ok(0), EmptyTable;
    }
    var n := |rows.value|;
    if !mallocOk {
      return Ok(-1), Nothing;
    }
    var buf := new int[n * ncols];
    for i := 0 to n
      invariant forall k :: 0 <= k < i ==> Fits(rows.value[k], ncols)
      invariant Filled(buf[..], Ints(rows.value), ncols, i)
    {
      if |rows.value[i]| != ncols {
        assert forall k: nat :: FirstMisfit(rows.value, ncols, k) ==> k == i;
        return Ok(-1), Nothing;
      }
      ghost var before := buf[..];
      var e := FillRow(buf, rows.value, ncols, i);
      if e.Some? {
        assert FirstMisfit(rows.value, ncols, i);
        return Err(e.value), Nothing;
      }
      FilledNext(before, buf[..], Ints(rows.value), ncols, i);
    }
    return Ok(0), Table(buf, CUint32(n));
  }

  // ---------------------------------------------------------------- reading back

  /** The comprehension of `facts_raw`: `data[i * c + j]`, row by row. */
  function Unflatten(data: seq<int>, r: nat, c: nat): seq<seq<int>>
    requires r * c <= |data|
  {
    seq(r, i requires 0 <= i < r =>
      seq(c, j requires 0 <= j < c => (IndexBelow(i, r, c, j); data[Index(i, c, j)])))
  }

  /** `facts_raw` on what `wirelog_program_get_facts` returned. */
  function FactsRaw(rc: int, data: Option<seq<int>>, r: nat, c: nat): Result<seq<seq<int>>, Error>
    requires data.Some? ==> r * c <= |data.value|
  {
    if rc == -1 then Err(ExecError)
    else if rc == 1 || r == 0 || data.None? then Ok([])
    else Ok(Unflatten(data.value, r, c))
  }

  lemma RowsReadBack(cells: seq<int>, rows: seq<seq<int>>, c: nat, n: nat)
    requires Rectangular(rows, c) && RowMajor(cells, rows, c) && n <= |rows| && n * c <= |cells|
    ensures Unflatten(cells, n, c) == Wrapped(rows[..n])
  {
    var back := Unflatten(cells, n, c);
    forall i | 0 <= i < n ensures back[i] == Wrapped(rows[..n])[i] {
      forall j | 0 <= j < c ensures back[i][j] == WrapInt64(rows[i][j]) {
        assert Placed(cells, rows, c, i, j);
      }
    }
  }

  /**
   Reading a filled buffer undoes the fill: the rows come back value by value, modulo 2^64 in the
   signed range, whichever of the two fills wrote them.
   */
  lemma ReadBackUndoesFill(cells: seq<int>, rows: seq<seq<int>>, c: nat, rc: int)
    requires rows != [] && Rectangular(rows, c) && RowMajor(cells, rows, c) && rc != -1 && rc != 1
    ensures FactsRaw(rc, Some(cells), |rows|, c) == Ok(Wrapped(rows))
    ensures (forall i, j :: 0 <= i < |rows| && 0 <= j < c ==> InInt64(rows[i][j]))
            <==> FactsRaw(rc, Some(cells), |rows|, c) == Ok(rows)
  {
    RowsReadBack(cells, rows, c, |rows|);
    assert rows[..|rows|] == rows;
    forall i, j | 0 <= i < |rows| && 0 <= j < c
      ensures InInt64(rows[i][j]) <==> Wrapped(rows)[i][j] == rows[i][j]
    {
      WrapIsTheSignedResidue(rows[i][j], rows[i][j]);
    }
    if forall i, j :: 0 <= i < |rows| && 0 <= j < c ==> InInt64(rows[i][j]) {
      forall i | 0 <= i < |rows| ensures Wrapped(rows)[i] == rows[i] {
      }
      assert Wrapped(rows) == rows;
    }
  }

  /**
   The row count crosses the boundary as a `uint32_t`, so what the engine reads of a batch is its
   first |rows| mod 2^32 rows: all of them exactly when there are fewer than 2^32.
   */
  lemma EngineReadsBatch(cells: seq<int>, rows: seq<seq<int>>, c: nat)
    requires 0 < c < TWO_TO_THE_32 && Rectangular(rows, c) && RowMajor(cells, rows, c)
    ensures CUint32(|rows|) * CUint32(c) <= |cells|
    ensures Unflatten(cells, CUint32(|rows|), CUint32(c)) == Wrapped(rows[..CUint32(|rows|)])
    ensures Unflatten(cells, CUint32(|rows|), CUint32(c)) == Wrapped(rows) <==> |rows| < TWO_TO_THE_32
  {
    var n := CUint32(|rows|);
    assert n * c <= |rows| * c;
    RowsReadBack(cells, rows, c, n);
    if |rows| < TWO_TO_THE_32 {
      assert rows[..n] == rows;
    } else {
      assert |Unflatten(cells, n, c)| != |Wrapped(rows)|;
    }
  }

  /** A batch of plain integers. */
  predicate PlainRows(batch: seq<seq<Py>>, rows: seq<seq<int>>) {
    |batch| == |rows| && forall i :: 0 <= i < |rows| ==>
      |batch[i]| == |rows[i]| && forall j :: 0 <= j < |rows[i]| ==> batch[i][j] == PyInt(rows[i][j])
  }

  /**
   The whole way: a rectangular batch of integers in the int64 range fits, and whatever buffer holds
   it row by row - that of `_flatten` or that of the read callback - reads back as those integers.
   */
  lemma PlainBatchReadsBack(batch: seq<seq<Py>>, rows: seq<seq<int>>, c: nat, cells: seq<int>)
    requires PlainRows(batch, rows) && rows != [] && Rectangular(rows, c)
    requires forall i, j :: 0 <= i < |rows| && 0 <= j < c ==> InInt64(rows[i][j])
    ensures AllFit(batch, c)
    ensures RowMajor(cells, Ints(batch), c) ==> |rows| * c <= |cells| && FactsRaw(0, Some(cells), |rows|, c) == Ok(rows)
  {
    forall i | 0 <= i < |batch| ensures Fits(batch[i], c) && Ints(batch)[i] == rows[i] {
      forall j | 0 <= j < c ensures ToInt(batch[i][j]) == Ok(rows[i][j]) {
        ToIntTruncates(batch[i][j], rows[i][j]);
      }
      assert FirstRefused(batch[i]) == |batch[i]|;
    }
    assert Ints(batch) == rows;
    if RowMajor(cells, Ints(batch), c) {
      ReadBackUndoesFill(cells, rows, c, 0);
    }
  }

  /** Flattened and read back. */
  method FlattenAndReadBack(batch: seq<seq<Py>>, ghost rows: seq<seq<int>>) returns (back: Result<seq<seq<int>>, Error>)
    requires PlainRows(batch, rows) && rows != [] && |rows[0]| > 0 && Rectangular(rows, |rows[0]|)
    requires forall i, j :: 0 <= i < |rows| && 0 <= j < |rows[0]| ==> InInt64(rows[i][j])
    ensures back == Ok(rows)
  {
    PlainBatchReadsBack(batch, rows, |rows[0]|, []);
    var flat := Flatten(batch);
    PlainBatchReadsBack(batch, rows, |rows[0]|, flat.value.flat[..]);
    return FactsRaw(0, Some(flat.value.flat[..]), flat.value.nrows, flat.value.ncols);
  }

  /** Handed over by the read callback and read back. */
  method AdapterAndReadBack(batch: seq<seq<Py>>, ghost rows: seq<seq<int>>, ncols: nat)
    returns (back: Result<seq<seq<int>>, Error>)
    requires PlainRows(batch, rows) && 0 < |rows| < TWO_TO_THE_32 && Rectangular(rows, ncols)
    requires forall i, j :: 0 <= i < |rows| && 0 <= j < ncols ==> InInt64(rows[i][j])
    ensures back == Ok(rows)
  {
    PlainBatchReadsBack(batch, rows, ncols, []);
    var r, out := ReadCallback(Some(batch), ncols, true);
    PlainBatchReadsBack(batch, rows, ncols, out.data[..]);
    return FactsRaw(0, Some(out.data[..]), out.nrows, ncols);
  }

  /** When `facts_raw` has no buffer to read: an undeclared relation, no rows, or no data. */
  lemma FactsRawWithoutRows(rc: int, data: Option<seq<int>>, r: nat, c: nat)
    requires data.Some? ==> r * c <= |data.value|
    ensures FactsRaw(rc, data, r, c).Err? <==> rc == -1
    ensures rc == -1 ==> FactsRaw(rc, data, r, c) == Err(ExecError)
    ensures rc == 1 || (rc != -1 && (r == 0 || data.None?)) ==> FactsRaw(rc, data, r, c) == Ok([])
  {
  }

  /** The first batch too long: of 2^32 rows the engine reads none. */
  lemma BatchOfTwoToThe32IsLost()
    ensures var rows := seq(TWO_TO_THE_32, i => [7]);
            var cells := seq(TWO_TO_THE_32, i => 7);
            && Rectangular(rows, 1) && RowMajor(cells, rows, 1)
            && Unflatten(cells, CUint32(|rows|), CUint32(1)) == [] != Wrapped(rows)
  {
    var rows := seq(TWO_TO_THE_32, i => [7]);
    var cells := seq(TWO_TO_THE_32, i => 7);
    forall i, j | 0 <= i < |rows| && 0 <= j < 1 ensures Placed(cells, rows, 1, i, j) {
      WrapOfInRange(7);
    }
    assert |Wrapped(rows)| == TWO_TO_THE_32;
  }
}
