/** Typed row batches of the advanced session (`pyrewire/session.py`). */
module TypedRows {
  import opened Wrappers
  import opened Words
  import opened Lanes

  /** A declared column: its type, and whether it is an `inline` compound. */
  datatype Column = Column(t: ColumnType, isInlineCompound: bool)

  // ---------------------------------------------------------------- what a batch must satisfy

  function FirstUnencodable(row: seq<Py>, types: seq<ColumnType>): (k: nat)
    requires |row| == |types|
    ensures k <= |row|
    ensures forall j :: 0 <= j < k ==> EncodeLane(row[j], types[j]).Ok?
    ensures k < |row| ==> EncodeLane(row[k], types[k]).Err?
  {
    if row == [] || EncodeLane(row[0], types[0]).Err? then 0
    else 1 + FirstUnencodable(row[1..], types[1..])
  }

  /** The lanes of one row, up to the first value that does not encode. */
  function EncodeRowLanes(row: seq<Py>, types: seq<ColumnType>): (r: Result<seq<Word>, Error>)
    requires |row| == |types|
    ensures r.Ok? ==> |r.value| == |row|
    ensures r.Ok? ==> forall j :: 0 <= j < |row| ==> EncodeLane(row[j], types[j]) == Ok(r.value[j])
    ensures r.Err? ==> exists j :: 0 <= j < |row| && EncodeLane(row[j], types[j]) == Err(r.error)
                                   && forall k :: 0 <= k < j ==> EncodeLane(row[k], types[k]).Ok?
  {
    var bad := FirstUnencodable(row, types);
    if bad < |row| then Err(EncodeLane(row[bad], types[bad]).error)
    else Ok(seq(|row|, j requires 0 <= j < |row| => EncodeLane(row[j], types[j]).value))
  }

  /** Why a row cannot be built, if it cannot: its width first, then its values left to right. */
  function RowProblem(row: seq<Py>, types: seq<ColumnType>): Option<Error> {
    if |row| != |types| then Some(ValueError)
    else if EncodeRowLanes(row, types).Err? then Some(EncodeRowLanes(row, types).error)
    else None
  }

  /** Every row is buildable. */
  predicate Buildable(rows: seq<seq<Py>>, types: seq<ColumnType>) {
    forall i :: 0 <= i < |rows| ==> RowProblem(rows[i], types) == None
  }

  /** `e` is what the first unbuildable row raises. */
  ghost predicate FirstProblem(rows: seq<seq<Py>>, types: seq<ColumnType>, e: Error) {
    exists i :: 0 <= i < |rows| && RowProblem(rows[i], types) == Some(e) && Buildable(rows[..i], types)
  }

  /** The descriptor of one row: one lane a column, in order. */
  predicate Describes(d: RawDescriptor, row: seq<Py>, types: seq<ColumnType>) {
    && |row| == |types|
    && EncodeRowLanes(row, types) == Ok(d.lanes)
    && |d.codes| == |types| && |d.offsets| == |types|
    && forall j :: 0 <= j < |types| ==> d.codes[j] == CodeOf(types[j]) && d.offsets[j] == j
  }

  // ---------------------------------------------------------------- building

  /** The inner loop: fill the lanes of one row in place. */
  method FillLanes(row: seq<Py>, types: seq<ColumnType>) returns (r: Result<seq<Word>, Error>)
    requires |row| == |types|
    ensures r == EncodeRowLanes(row, types)
  {
    var lanes := new Word[|types|];
    for j := 0 to |row|
      invariant forall k :: 0 <= k < j ==> EncodeLane(row[k], types[k]) == Ok(lanes[k])
    {
      var lane := EncodeLane(row[j], types[j]);
      if lane.Err? {
        assert FirstUnencodable(row, types) == j;
        return Err(lane.error);
      }
      lanes[j] := lane.value;
    }
    r := Ok(lanes[..]);
    assert lanes[..] == EncodeRowLanes(row, types).value;
  }

  /** `_build_typed_rows` on the rows that `list(rows)` produced. */
  method BuildTypedRows(rows: seq<seq<Py>>, types: seq<ColumnType>)
    returns (r: Result<array<RawDescriptor>, Error>)
    ensures r.Ok? <==> Buildable(rows, types)
    ensures r.Err? ==> FirstProblem(rows, types, r.error)
    ensures r.Ok? ==> fresh(r.value) && r.value.Length == |rows|
    ensures r.Ok? ==> forall i :: 0 <= i < |rows| ==> Describes(r.value[i], rows[i], types)
  {
    var ncols := |types|;
    var codes := seq(ncols, j requires 0 <= j < ncols => CodeOf(types[j]));
    var offsets: seq<nat> := seq(ncols, j requires 0 <= j < ncols => j);
    var descriptors := new RawDescriptor[|rows|];
    for i := 0 to |rows|
      invariant Buildable(rows[..i], types)
      invariant forall k :: 0 <= k < i ==> Describes(descriptors[k], rows[k], types)
    {
      if |rows[i]| != ncols {
        assert RowProblem(rows[i], types) == Some(ValueError);
        return Err(ValueError);
      }
      var lanes := FillLanes(rows[i], types);
      if lanes.Err? {
        assert RowProblem(rows[i], types) == Some(lanes.error);
        return Err(lanes.error);
      }
      descriptors[i] := RawDescriptor(codes, offsets, lanes.value);
      assert rows[..i + 1] == rows[..i] + [rows[i]];
    }
    assert rows[..|rows|] == rows;
    return Ok(descriptors);
  }

  // ---------------------------------------------------------------- what the engine reads

  lemma CodeOfIsInvertible(t: ColumnType)
    ensures ColumnTypeOf(CodeOf(t)) == Some(t)
  {
  }

  /** Read back, a descriptor yields its row column by column as the decoded encoding of each
      value; a row of the columns' own types comes back unchanged. */
  lemma DescriptorReadsBack(d: RawDescriptor, row: seq<Py>, types: seq<ColumnType>)
    requires Describes(d, row, types)
    ensures d.Wellformed() && DecodedRow(d).Ok? && |DecodedRow(d).value| == |row|
    ensures forall j :: 0 <= j < |row| ==>
              DecodedRow(d).value[j] == DecodeLane(EncodeLane(row[j], types[j]).value, types[j])
    ensures (forall j :: 0 <= j < |row| ==> FitsColumn(row[j], types[j])) ==> DecodedRow(d) == Ok(row)
  {
    forall j | 0 <= j < |row|
      ensures ColumnTypeOf(d.codes[j]) == Some(types[j])
      ensures EncodeLane(row[j], types[j]) == Ok(d.lanes[j])
      ensures FitsColumn(row[j], types[j]) ==> DecodeLane(d.lanes[j], types[j]) == row[j]
    {
      CodeOfIsInvertible(types[j]);
      if FitsColumn(row[j], types[j]) {
        LaneRoundTrip(row[j], types[j]);
      }
    }
    if forall j :: 0 <= j < |row| ==> FitsColumn(row[j], types[j]) {
      assert DecodedRow(d).value == row;
    }
  }

  // ---------------------------------------------------------------- the engine call

  /** One call of a typed entry point: the count that crossed the boundary and the descriptors
      the engine may read. */
  datatype Submission = Submission(count: nat, descriptors: seq<RawDescriptor>)

  /** The engine's side: what it was given, and what it answers next. */
  class TypedEngine {
    var submissions: seq<Submission>

    method Submit(count: nat, descriptors: array<RawDescriptor>)
      modifies this
      ensures submissions == old(submissions) + [Submission(count, descriptors[..])]
    {
      submissions := submissions + [Submission(count, descriptors[..])];
    }
  }

  /** The return code and the diagnostic code the engine fills in when it is called. */
  datatype Answer = Answer(rc: int, code: int)

  /** A declared relation without inline compounds. */
  predicate Flat(schema: Option<seq<Column>>) {
    schema.Some? && forall j :: 0 <= j < |schema.value| ==> !schema.value[j].isInlineCompound
  }

  /** `_column_types`: in declaration order. */
  function ColumnTypes(schema: Option<seq<Column>>): (r: Result<seq<ColumnType>, Error>)
    ensures r.Ok? <==> Flat(schema)
    ensures r.Ok? ==> |r.value| == |schema.value| && forall j :: 0 <= j < |r.value| ==> r.value[j] == schema.value[j].t
    ensures r.Err? ==> r.error == ExecError
  {
    if schema.None? || exists i :: 0 <= i < |schema.value| && schema.value[i].isInlineCompound
    then Err(ExecError)
    else Ok(seq(|schema.value|, i requires 0 <= i < |schema.value| => schema.value[i].t))
  }

  // The same, told over the declared columns themselves.

  predicate Encodes(row: seq<Py>, schema: seq<Column>) {
    |row| == |schema| && forall j :: 0 <= j < |schema| ==> EncodeLane(row[j], schema[j].t).Ok?
  }

  predicate Carries(d: RawDescriptor, row: seq<Py>, schema: seq<Column>) {
    && |row| == |schema| && |d.codes| == |schema| && |d.offsets| == |schema| && |d.lanes| == |schema|
    && forall j :: 0 <= j < |schema| ==>
         && d.codes[j] == CodeOf(schema[j].t) && d.offsets[j] == j
         && EncodeLane(row[j], schema[j].t) == Ok(d.lanes[j])
  }

  /** What a row that does not encode raises: for its width, or for its first value that fails. */
  predicate Raises(row: seq<Py>, schema: seq<Column>, e: Error) {
    if |row| != |schema| then e == ValueError
    else exists j :: 0 <= j < |schema| && EncodeLane(row[j], schema[j].t) == Err(e)
                     && forall k :: 0 <= k < j ==> EncodeLane(row[k], schema[k].t).Ok?
  }

  predicate AllEncode(rows: seq<seq<Py>>, schema: seq<Column>) {
    forall i :: 0 <= i < |rows| ==> Encodes(rows[i], schema)
  }

  ghost predicate FirstRaises(rows: seq<seq<Py>>, schema: seq<Column>, e: Error) {
    exists i :: 0 <= i < |rows| && Raises(rows[i], schema, e) && !Encodes(rows[i], schema)
                && forall k :: 0 <= k < i ==> Encodes(rows[k], schema)
  }

  lemma RowOverColumns(row: seq<Py>, schema: seq<Column>, types: seq<ColumnType>)
    requires |types| == |schema| && forall j :: 0 <= j < |types| ==> types[j] == schema[j].t
    ensures RowProblem(row, types) == None <==> Encodes(row, schema)
    ensures RowProblem(row, types).Some? ==> Raises(row, schema, RowProblem(row, types).value)
    ensures forall d :: Describes(d, row, types) ==> Carries(d, row, schema)
  {
  }

  lemma BatchOverColumns(rows: seq<seq<Py>>, schema: seq<Column>, types: seq<ColumnType>)
    requires |types| == |schema| && forall j :: 0 <= j < |types| ==> types[j] == schema[j].t
    ensures Buildable(rows, types) <==> AllEncode(rows, schema)
    ensures forall e :: FirstProblem(rows, types, e) ==> FirstRaises(rows, schema, e)
  {
    forall i | 0 <= i < |rows|
      ensures RowProblem(rows[i], types) == None <==> Encodes(rows[i], schema)
      ensures RowProblem(rows[i], types).Some? ==> Raises(rows[i], schema, RowProblem(rows[i], types).value)
    {
      RowOverColumns(rows[i], schema, types);
    }
    forall e | FirstProblem(rows, types, e) ensures FirstRaises(rows, schema, e) {
      var i :| 0 <= i < |rows| && RowProblem(rows[i], types) == Some(e) && Buildable(rows[..i], types);
      forall k | 0 <= k < i ensures Encodes(rows[k], schema) {
        assert rows[..i][k] == rows[k];
      }
    }
  }

  /** When the batch reaches the engine. */
  predicate Submits(truthy: bool, rows: seq<seq<Py>>, schema: Option<seq<Column>>) {
    truthy && rows != [] && Flat(schema) && AllEncode(rows, schema.value)
  }

  /**
   `_typed_iud`. The batch is read twice: `truthy` is what `not rows` saw, `rows` what the single
   `list(rows)` produced, and nothing ties one to the other. The engine is called at most once,
   exactly when no declared column is an inline compound and every value of every row encodes for
   its own column, and then with one descriptor a row, in declaration order.
   */
  method TypedIud(engine: TypedEngine, truthy: bool, rows: seq<seq<Py>>, schema: Option<seq<Column>>, answer: Answer)
    returns (r: Result<(), Error>)
    modifies engine
    ensures !Submits(truthy, rows, schema) ==> engine.submissions == old(engine.submissions)
    ensures Submits(truthy, rows, schema) ==>
              && |engine.submissions| == |old(engine.submissions)| + 1
              && engine.submissions[..|old(engine.submissions)|] == old(engine.submissions)
              && var s := engine.submissions[|old(engine.submissions)|];
                 && s.count == CUint32(|rows|) && |s.descriptors| == |rows|
                 && forall i :: 0 <= i < |rows| ==> Carries(s.descriptors[i], rows[i], schema.value)
    ensures r.Ok? <==> !truthy || (Flat(schema) && rows == []) || (Submits(truthy, rows, schema) && answer.rc == 0)
    ensures truthy && !Flat(schema) ==> r == Err(ExecError)
    ensures truthy && Flat(schema) && !AllEncode(rows, schema.value) ==>
              r.Err? && FirstRaises(rows, schema.value, r.error)
    ensures Submits(truthy, rows, schema) && answer.rc != 0 ==>
              r == Err(if answer.code != 0 then TypedRowError(answer.code) else EngineError(answer.rc))
  {
    if !truthy {
      return Ok(());
    }
    var types := ColumnTypes(schema);
    if types.Err? {
      return Err(types.error);
    }
    BatchOverColumns(rows, schema.value, types.value);
    forall i | 0 <= i < |rows|
      ensures forall d :: Describes(d, rows[i], types.value) ==> Carries(d, rows[i], schema.value)
    {
      RowOverColumns(rows[i], schema.value, types.value);
    }
    var built := BuildTypedRows(rows, types.value);
    if built.Err? {
      return Err(built.error);
    }
    if built.value.Length == 0 {
      return Ok(());
    }
    engine.Submit(CUint32(built.value.Length), built.value);
    if answer.rc != 0 {
      if answer.code != 0 {
        return Err(TypedRowError(answer.code));
      }
      return Err(EngineError(answer.rc));
    }
    return Ok(());
  }

  /** The engine never reads past the descriptors it was given, and reads every one of them when
      the batch has fewer than 2^32 rows. */
  lemma CountCoversDescriptors(n: nat)
    ensures CUint32(n) <= n
    ensures CUint32(n) == n <==> n < TWO_TO_THE_32
  {
  }
}
