/** Conversion between Python values and 64-bit typed lanes (`pyrewire/_core/lanes.py`). */
module Lanes {
  import opened Wrappers
  import opened Words
  import opened Binary64

  datatype ColumnType = INT32 | INT64 | UINT32 | UINT64 | FLOAT | STRING | BOOL

  /** `ColumnType(code)`; Python raises `ValueError` for a code outside the enumeration. */
  function ColumnTypeOf(code: int): Option<ColumnType> {
    if 0 <= code <= 6 then Some([INT32, INT64, UINT32, UINT64, FLOAT, STRING, BOOL][code]) else None
  }

  function CodeOf(t: ColumnType): int {
    match t
    case INT32 => 0
    case INT64 => 1
    case UINT32 => 2
    case UINT64 => 3
    case FLOAT => 4
    case STRING => 5
    case BOOL => 6
  }

  /** The codes of the engine's header, and no others. */
  lemma TypeCodes(code: int, t: ColumnType)
    ensures ColumnTypeOf(code) == Some(t) <==> CodeOf(t) == code
    ensures ColumnTypeOf(code).Some? <==> 0 <= code <= 6
    ensures (CodeOf(INT32), CodeOf(INT64), CodeOf(UINT32), CodeOf(UINT64)) == (0, 1, 2, 3)
    ensures (CodeOf(FLOAT), CodeOf(STRING), CodeOf(BOOL)) == (4, 5, 6)
  {
  }

  type Positive = n: int | n > 0 witness 1

  /** Python values as the encoders tell them apart. */
  datatype Py =
    | PyInt(n: int)                              // type(value) is int
    | PyBool(b: bool)
    | PyFloat(d: Float)                          // type(value) is float
    | PyStr(s: string)
    | PyIndex(n: int)                            // __index__ only, as a NumPy integer
    | PyFraction(num: int, den: Positive)        // a numbers.Number with __float__
    | PyFloatLike(d: Float)                      // __float__ only
    | PyOther

  // ---------------------------------------------------------------- encoding

  function Quotient(num: int, den: Positive): real {
    num as real / den as real
  }

  /** The exact number a value stands for, where it stands for one. */
  function Exact(v: Py): Option<real> {
    match v
    case PyInt(n) => Some(n as real)
    case PyBool(b) => Some(if b then 1.0 else 0.0)
    case PyIndex(n) => Some(n as real)
    case PyFraction(num, den) => Some(Quotient(num, den))
    case PyFloat(d) => if d.Finite? then Some(Value(d)) else None
    case PyFloatLike(d) => if d.Finite? then Some(Value(d)) else None
    case _ => None
  }

  /** The number a value stands for, told without division. */
  lemma ExactNumbers(num: int, den: Positive, d: Float)
    ensures Exact(PyFraction(num, den)).Some? && Exact(PyFraction(num, den)).value * den as real == num as real
    ensures Exact(PyInt(num)) == Exact(PyIndex(num)) == Exact(PyFraction(num, 1)) == Some(num as real)
    ensures Exact(PyBool(true)) == Some(1.0) && Exact(PyBool(false)) == Some(0.0)
    ensures d.Finite? ==> Exact(PyFloat(d)) == Exact(PyFloatLike(d)) == Some(Value(d))
    ensures !d.Finite? ==> Exact(PyFloat(d)) == Exact(PyFloatLike(d)) == None
  {
  }

  /** `_as_float`: `float(value)`. */
  function AsFloat(v: Py): Result<Float, Error> {
    match v
    case PyFloat(d) => Ok(d)
    case PyFloatLike(d) => Ok(d)
    case PyStr(_) => Err(TypeError)
    case PyOther => Err(TypeError)
    case _ => FloatOf(Exact(v).value)
  }

  /** `_float_conversion_lost_value`: only a registered number can answer the question. */
  predicate ConversionLostValue(v: Py, asInt: int) {
    v.PyFraction? && Exact(v).value != asInt as real
  }

  function EncodeLane(v: Py, t: ColumnType): Result<Word, Error> {
    if v.PyStr? || v.PyOther? then
      Err(TypeError)
    else if t == FLOAT then
      match AsFloat(v)
      case Err(e) => Err(e)
      case Ok(d) => Ok(Bits(d))
    else if v.PyInt? || v.PyIndex? then
      Ok(ToWord(v.n))
    else if v.PyBool? then
      Ok(if v.b then 1 else 0)
    else
      match AsFloat(v)
      case Err(e) => Err(e)
      case Ok(d) =>
        if !IsInteger(d) then Err(ValueError)
        else if ConversionLostValue(v, Value(d).Floor) then Err(ValueError)
        else Ok(ToWord(Value(d).Floor))
  }

  /** Whether a value goes into an integer column without passing through `float`. */
  predicate Integral(v: Py) {
    v.PyInt? || v.PyBool? || v.PyIndex?
  }

  lemma FractionAcceptsExactIntegers(v: Py, t: ColumnType, n: int)
    requires t != FLOAT && v.PyFraction?
    ensures Exact(v).value == n as real && Representable(n) ==> EncodeLane(v, t) == Ok(ToWord(n))
    ensures EncodeLane(v, t).Ok? ==> Exact(v).value.Floor as real == Exact(v).value
                                     && Representable(Exact(v).value.Floor)
  {
    var x := Exact(v).value;
    if x == n as real && Representable(n) {
      var d: Float :| d.Finite? && Value(d) == n as real;
      FloatOfIsExactOnDoubles(d);
    }
    if EncodeLane(v, t).Ok? {
      var d := FloatOf(x).value;
      assert Value(d) == Value(d).Floor as real;
    }
  }

  lemma FloatAcceptsExactIntegers(v: Py, t: ColumnType, n: int)
    requires t != FLOAT && (v.PyFloat? || v.PyFloatLike?)
    ensures Exact(v) == Some(n as real) && Representable(n) ==> EncodeLane(v, t) == Ok(ToWord(n))
    ensures EncodeLane(v, t).Ok? ==> Exact(v).Some? && Exact(v).value.Floor as real == Exact(v).value
                                     && Representable(Exact(v).value.Floor)
  {
    if v.d.Finite? {
      var x := Value(v.d);
      if x.Floor as real == x {
        assert Representable(x.Floor);
      }
    }
  }

  /**
   An integer column accepts a value exactly when the value stands for an integer that
   survives the route it takes - directly, or through a binary64 - and then stores that
   integer's two's-complement bits. Nothing is truncated and nothing is stored one off.
   */
  lemma IntegerColumnAcceptsExactIntegers(v: Py, t: ColumnType, n: int)
    requires t != FLOAT
    ensures Exact(v) == Some(n as real) && (Integral(v) || Representable(n)) ==> EncodeLane(v, t) == Ok(ToWord(n))
    ensures EncodeLane(v, t).Ok? ==> Exact(v).Some? && Exact(v).value.Floor as real == Exact(v).value
                                     && (Integral(v) || Representable(Exact(v).value.Floor))
  {
    if v.PyFraction? {
      FractionAcceptsExactIntegers(v, t, n);
    } else if v.PyFloat? || v.PyFloatLike? {
      FloatAcceptsExactIntegers(v, t, n);
    }
  }

  /** The boundary cases of the rule for an exact rational. */
  lemma FractionBoundaries(v: Py, t: ColumnType)
    requires v.PyFraction? && t != FLOAT
    ensures Exact(v).value.Floor as real != Exact(v).value ==> EncodeLane(v, t).Err?
    ensures var n := Exact(v).value.Floor;
            n as real == Exact(v).value ==>
              && (-TWO_TO_THE_53 <= n <= TWO_TO_THE_53 ==> EncodeLane(v, t) == Ok(ToWord(n)))
              && (n % 2 == 1 && (n < -TWO_TO_THE_53 || n > TWO_TO_THE_53) ==> EncodeLane(v, t).Err?)
  {
    var n := Exact(v).value.Floor;
    IntegerColumnAcceptsExactIntegers(v, t, n);
    if n as real == Exact(v).value {
      if -TWO_TO_THE_53 <= n <= TWO_TO_THE_53 {
        SmallIntegersAreRepresentable(n);
      } else if n % 2 == 1 {
        OddIntegersBeyondAreNot(n);
      }
    }
  }

  /**
   A FLOAT column takes a float's own bits; of an integer, a bool or a fraction it takes the bits of
   a nearest double, of the same sign; and it refuses what has no float, and numbers too large.
   */
  lemma FloatColumnHoldsTheNearest(v: Py, d: Float)
    requires d.Finite?
    ensures v.PyFloat? || v.PyFloatLike? ==> EncodeLane(v, FLOAT).Ok? && OfBits(EncodeLane(v, FLOAT).value) == v.d
    ensures v.PyStr? || v.PyOther? ==> EncodeLane(v, FLOAT) == Err(TypeError)
    ensures Integral(v) || v.PyFraction? ==>
              && Exact(v).Some?
              && (EncodeLane(v, FLOAT).Err? <==> FloatOf(Exact(v).value).Err?)
              && (EncodeLane(v, FLOAT).Err? ==> EncodeLane(v, FLOAT) == Err(OverflowError))
              && (EncodeLane(v, FLOAT).Ok? ==>
                    var (x, f) := (Exact(v).value, OfBits(EncodeLane(v, FLOAT).value));
                    && f.Finite? && (f.neg <==> x < 0.0)
                    && Abs(x - Value(f)) <= Abs(x - Value(d))
                    && (Abs(x - Value(f)) == Abs(x - Value(d)) && Value(f) != Value(d) ==> f.sig % 2 == 0))
  {
    hide Bits, OfBits;
    if v.PyFloat? || v.PyFloatLike? {
      OfBitsUndoesBits(v.d);
    } else if Exact(v).Some? && FloatOf(Exact(v).value).Ok? {
      var f := FloatOf(Exact(v).value).value;
      FloatOfIsNearest(Exact(v).value, d);
      OfBitsUndoesBits(f);
    }
  }

  /** What an integer column raises: TypeError for what is no number, OverflowError for a fraction
      beyond the doubles, ValueError for every other value it does not accept. */
  lemma IntegerColumnErrors(v: Py, t: ColumnType)
    requires t != FLOAT && EncodeLane(v, t).Err?
    ensures EncodeLane(v, t).error
            == if v.PyStr? || v.PyOther? then TypeError
               else if v.PyFraction? && FloatOf(Exact(v).value).Err? then OverflowError
               else ValueError
    ensures !Integral(v)
  {
  }

  // ---------------------------------------------------------------- decoding

  function DecodeLane(lane: Word, t: ColumnType): Py {
    match t
    case FLOAT => PyFloat(OfBits(lane))
    case BOOL => PyBool(lane != 0)
    case UINT32 => PyInt(lane)
    case UINT64 => PyInt(lane)
    case _ => PyInt(ToSigned(lane))
  }

  predicate Unsigned(t: ColumnType) {
    t == UINT32 || t == UINT64
  }

  /** The values an integer column decodes to. */
  predicate InColumnRange(t: ColumnType, r: int) {
    if Unsigned(t) then 0 <= r < TWO_TO_THE_64 else InInt64(r)
  }

  /**
   For every integer, decoding its lane gives the one value of the column's range congruent to
   it modulo 2^64. So the round trip is the identity exactly on that range, and two integers
   share a lane exactly when they are congruent.
   */
  lemma IntegerLaneIsTheResidue(v: int, r: int, t: ColumnType)
    requires t != FLOAT && t != BOOL
    ensures EncodeLane(PyInt(v), t).Ok?
    ensures DecodeLane(EncodeLane(PyInt(v), t).value, t) == PyInt(r) <==> InColumnRange(t, r) && Congruent(r, v)
    ensures DecodeLane(EncodeLane(PyInt(v), t).value, t) == PyInt(v) <==> InColumnRange(t, v)
    ensures EncodeLane(PyInt(v), t) == EncodeLane(PyInt(r), t) <==> Congruent(v, r)
  {
    WrapIsTheSignedResidue(v, r);
    MaskIsTheUnsignedResidue(v, r);
    SharedWordIffCongruent(v, r);
    if InColumnRange(t, v) {
      WrapIsTheSignedResidue(v, v);
      MaskIsTheUnsignedResidue(v, v);
    }
  }

  /** A value of a column's own type comes back as it went in. */
  predicate FitsColumn(v: Py, t: ColumnType) {
    match t
    case FLOAT => v.PyFloat?
    case BOOL => v.PyBool?
    case _ => v.PyInt? && InColumnRange(t, v.n)
  }

  lemma LaneRoundTrip(v: Py, t: ColumnType)
    requires FitsColumn(v, t)
    ensures EncodeLane(v, t).Ok? && DecodeLane(EncodeLane(v, t).value, t) == v
  {
    match t
    case FLOAT => OfBitsUndoesBits(v.d);
    case BOOL =>
    case _ => IntegerLaneIsTheResidue(v.n, v.n, t);
  }

  /** A BOOL lane is true exactly if some bit is set, and a bool goes into any integer column as the
      integer it equals. */
  lemma BoolLanes(w: Word, b: bool, t: ColumnType)
    requires t != FLOAT
    ensures DecodeLane(w, BOOL) == PyBool(b) <==> (b <==> w != 0)
    ensures EncodeLane(PyBool(b), t) == EncodeLane(PyInt(if b then 1 else 0), t) == Ok(if b then 1 else 0)
  {
  }

  // ---------------------------------------------------------------- typed row descriptors

  /** A `wirelog_typed_row_v1_t`: column `c` has type code `codes[c]` and its lane at `offsets[c]`. */
  datatype RawDescriptor = RawDescriptor(codes: seq<int>, offsets: seq<nat>, lanes: seq<Word>) {
    predicate Wellformed() {
      |offsets| == |codes| && forall c :: 0 <= c < |offsets| ==> offsets[c] < |lanes|
    }
  }

  type Descriptor = d: RawDescriptor | d.Wellformed() witness RawDescriptor([], [], [])

  /** The first column whose type code is not a `ColumnType`, or the number of columns. */
  function FirstBadColumn(codes: seq<int>): (k: nat)
    ensures k <= |codes|
    ensures forall c :: 0 <= c < k ==> ColumnTypeOf(codes[c]).Some?
    ensures k < |codes| ==> ColumnTypeOf(codes[k]).None?
  {
    if codes == [] || ColumnTypeOf(codes[0]).None? then 0 else 1 + FirstBadColumn(codes[1..])
  }

  /** What `decode_typed_row` does with a borrowed descriptor: every column's decoded lane, or
      the `ValueError` of the first unknown type code. */
  function DecodedRow(row: Descriptor): (r: Result<seq<Py>, Fault>)
    ensures r.Err? ==> exists c :: 0 <= c < |row.codes| && r.error == BadColumnType(row.codes[c])
                                   && ColumnTypeOf(row.codes[c]).None?
                                   && forall i :: 0 <= i < c ==> ColumnTypeOf(row.codes[i]).Some?
    ensures r.Ok? <==> forall c :: 0 <= c < |row.codes| ==> ColumnTypeOf(row.codes[c]).Some?
    ensures r.Ok? ==> |r.value| == |row.codes|
    ensures r.Ok? ==> forall c :: 0 <= c < |row.codes| ==>
                        r.value[c] == DecodeLane(row.lanes[row.offsets[c]], ColumnTypeOf(row.codes[c]).value)
  {
    var k := FirstBadColumn(row.codes);
    if k < |row.codes| then Err(BadColumnType(row.codes[k]))
    else Ok(seq(|row.codes|, c requires 0 <= c < |row.codes| =>
                  DecodeLane(row.lanes[row.offsets[c]], ColumnTypeOf(row.codes[c]).value)))
  }

  method DecodeTypedRow(row: Descriptor) returns (r: Result<seq<Py>, Fault>)
    ensures r == DecodedRow(row)
  {
    var values: seq<Py> := [];
    for c := 0 to |row.codes|
      invariant |values| == c
      invariant forall i :: 0 <= i < c ==> ColumnTypeOf(row.codes[i]).Some?
      invariant forall i :: 0 <= i < c ==>
                  values[i] == DecodeLane(row.lanes[row.offsets[i]], ColumnTypeOf(row.codes[i]).value)
    {
      var lane := row.lanes[row.offsets[c]];
      match ColumnTypeOf(row.codes[c]) {
        case None =>
          assert FirstBadColumn(row.codes) == c;
          return Err(BadColumnType(row.codes[c]));
        case Some(t) =>
          values := values + [DecodeLane(lane, t)];
      }
    }
    r := Ok(values);
    assert values == DecodedRow(row).value;
  }
}
