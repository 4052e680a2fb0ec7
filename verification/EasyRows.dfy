/** The row encoder and decoder of `EasySession` (`pyrewire/session.py`). */
module EasyRows {
  import opened Wrappers
  import opened Words
  import opened Binary64
  import opened Lanes
  import opened Facts

  type Schema = seq<ColumnType>

  // ---------------------------------------------------------------- encoding a row

  /** One value of `_row_to_int64`; `answer` is what the engine returns if asked to intern it. */
  function EncodeCell(t: I.Table, v: Py, answer: int): (I.Table, Result<int, Error>) {
    match v
    case PyBool(b) => (t, Ok(if b then 1 else 0))
    case PyInt(n) => (t, Ok(n))
    case PyFloat(d) => (t, Ok(ToSigned(Bits(d))))
    case PyStr(s) => I.AfterIntern(t, s, answer)
    case _ => (t, Err(TypeError))
  }

  /** `_row_to_int64`, left to right up to the first value that raises. What was interned before
      the error stays interned. */
  function EncodeRow(t: I.Table, row: seq<Py>, answers: seq<int>): (r: (I.Table, Result<seq<int>, Error>))
    requires |answers| == |row|
    ensures r.1.Ok? ==> |r.1.value| == |row|
    decreases |row|
  {
    if row == [] then (t, Ok([]))
    else
      var k := |row| - 1;
      var (t1, init) := EncodeRow(t, row[..k], answers[..k]);
      if init.Err? then (t1, init)
      else
        var (t2, last) := EncodeCell(t1, row[k], answers[k]);
        if last.Err? then (t2, Err(last.error)) else (t2, Ok(init.value + [last.value]))
  }

  /** What the `int64_t` array built from the encoded row holds. */
  function Stored(ids: seq<int>): seq<int> {
    seq(|ids|, i requires 0 <= i < |ids| => WrapInt64(ids[i]))
  }

  // ---------------------------------------------------------------- decoding a row

  function DecodeCell(t: I.Table, ct: ColumnType, raw: int): Py {
    if ct == STRING then
      if raw in t.reverse then PyStr(t.reverse[raw]) else PyInt(raw)
    else if ct == BOOL then PyBool(raw != 0)
    else if ct == FLOAT then PyFloat(OfBits(ToWord(raw)))
    else PyInt(raw)
  }

  /** `_decode_row`: typed cells while the schema lasts, raw ids beyond it, and raw ids
      throughout when no schema can be had. */
  function DecodeRow(t: I.Table, schema: Option<Schema>, ids: seq<int>): (r: seq<Py>)
    ensures |r| == |ids|
  {
    seq(|ids|, i requires 0 <= i < |ids| =>
      if schema.Some? && i < |schema.value| then DecodeCell(t, schema.value[i], ids[i]) else PyInt(ids[i]))
  }

  /** The session's decoder and the program's agree on every row of the schema's width. */
  lemma RowAndFactDecodersAgree(t: I.Table, schema: Schema, ids: seq<int>)
    requires |ids| == |schema|
    ensures DecodeRow(t, Some(schema), ids) == FactRow(Some(t), schema, ids)
  {
    forall i | 0 <= i < |ids|
      ensures DecodeCell(t, schema[i], ids[i]) == FactCell(Some(t), schema[i], ids[i])
    {
    }
  }

  /** Which cells are decoded: a symbol only if its id is cached, and none beyond the schema. */
  lemma UndecodedCells(t: I.Table, schema: Option<Schema>, ids: seq<int>, i: nat)
    requires i < |ids|
    ensures schema.None? || i >= |schema.value| ==> DecodeRow(t, schema, ids)[i] == PyInt(ids[i])
    ensures schema.Some? && i < |schema.value| && schema.value[i] == STRING ==>
              DecodeRow(t, schema, ids)[i]
              == (if ids[i] in t.reverse then PyStr(t.reverse[ids[i]]) else PyInt(ids[i]))
              && (ids[i] !in t.reverse ==> FactCell(Some(t), STRING, ids[i]) == PyInt(ids[i]))
  {
  }

  /** What the row encoder refuses, and with what. */
  lemma RefusedCells(t: I.Table, v: Py, answer: int)
    ensures EncodeCell(t, v, answer).1 == Err(TypeError)
            <==> !(v.PyBool? || v.PyInt? || v.PyFloat? || v.PyStr?)
    ensures EncodeCell(t, v, answer).1 == Err(InternError) <==> v.PyStr? && v.s !in t.forward && answer < 0
    ensures EncodeCell(t, v, answer).1.Err? ==> EncodeCell(t, v, answer).0 == t
  {
  }

  // ---------------------------------------------------------------- the session's own state

  /** `preview_inline_facts`: nothing without a side program or for a relation it does not declare;
      a row of the wrong width raises. */
  function PreviewOf(program: Option<Program>, relation: string, t: I.Table): Result<seq<seq<Py>>, Error> {
    if program.None? || relation !in program.value then Ok([]) else FactsOf(Some(t), program.value[relation])
  }

  /** The first value that raises decides the outcome of the whole row. */
  lemma {:induction false} ErrorsStop(t: I.Table, row: seq<Py>, answers: seq<int>, n: nat)
    requires |answers| == |row| && n <= |row|
    requires EncodeRow(t, row[..n], answers[..n]).1.Err?
    ensures EncodeRow(t, row, answers) == EncodeRow(t, row[..n], answers[..n])
    decreases |row|
  {
    var k := |row| - 1;
    if n == |row| {
      assert row[..n] == row && answers[..n] == answers;
    } else {
      assert row[..k][..n] == row[..n] && answers[..k][..n] == answers[..n];
      ErrorsStop(t, row[..k], answers[..k], n);
    }
  }

  /** The intern table, the side program and the schema cache of an `EasySession`. `None` stands
      for a source that did not parse a second time, and for a closed session. */
  class EasyRows {
    const intern: I.InternTable
    var schemaProgram: Option<Program>
    var schemaCache: map<string, Schema>

    /** The cache holds only what the program says, and nothing without a program. */
    ghost predicate Valid()
      reads this
    {
      forall rel :: rel in schemaCache ==>
        schemaProgram.Some? && rel in schemaProgram.value && schemaCache[rel] == schemaProgram.value[rel].schema
    }

    /** The schema decoding uses: the cache never shows. */
    ghost function SchemaOf(relation: string): Option<Schema>
      reads this
    {
      if schemaProgram.Some? && relation in schemaProgram.value
      then Some(schemaProgram.value[relation].schema)
      else None
    }

    constructor (program: Option<Program>)
      ensures Valid() && fresh(intern) && intern.View() == I.EmptyTable
      ensures schemaProgram == program && schemaCache == map[]
    {
      intern := new I.InternTable();
      schemaProgram := program;
      schemaCache := map[];
    }

    method SchemaFor(relation: string) returns (r: Result<Schema, Error>)
      requires Valid()
      modifies this`schemaCache
      ensures Valid()
      ensures r == (match SchemaOf(relation) case Some(s) => Ok(s) case None => Err(ExecError))
      ensures schemaCache == if r.Ok? then old(schemaCache)[relation := r.value] else old(schemaCache)
    {
      if relation in schemaCache {
        assert schemaCache == schemaCache[relation := schemaCache[relation]];
        return Ok(schemaCache[relation]);
      }
      if schemaProgram.None? || relation !in schemaProgram.value {
        return Err(ExecError);
      }
      var sch := schemaProgram.value[relation].schema;
      schemaCache := schemaCache[relation := sch];
      return Ok(sch);
    }

    method RowToInt64(row: seq<Py>, answers: seq<int>) returns (r: Result<seq<int>, Error>)
      requires |answers| == |row|
      modifies intern
      ensures (intern.View(), r) == EncodeRow(old(intern.View()), row, answers)
    {
      var out: seq<int> := [];
      for i := 0 to |row|
        invariant (intern.View(), Ok(out)) == EncodeRow(old(intern.View()), row[..i], answers[..i])
      {
        assert row[..i + 1][..i] == row[..i] && answers[..i + 1][..i] == answers[..i];
        ghost var soFar := EncodeRow(old(intern.View()), row[..i + 1], answers[..i + 1]);
        match row[i] {
          case PyBool(b) => out := out + [if b then 1 else 0];
          case PyInt(n) => out := out + [n];
          case PyFloat(d) => out := out + [ToSigned(Bits(d))];
          case PyStr(s) =>
            var id, _ := intern.Intern(s, answers[i]);
            if id.Err? {
              ErrorsStop(old(intern.View()), row, answers, i + 1);
              return Err(id.error);
            }
            out := out + [id.value];
          case _ =>
            ErrorsStop(old(intern.View()), row, answers, i + 1);
            return Err(TypeError);
        }
        assert (intern.View(), Ok(out)) == soFar;
      }
      assert row[..|row|] == row && answers[..|row|] == answers;
      return Ok(out);
    }

    /** The branches of the decoding loop, for one column. */
    method DecodeOne(ct: ColumnType, raw: int) returns (v: Py)
      ensures v == DecodeCell(intern.View(), ct, raw)
    {
      if ct == STRING {
        var s := intern.LookupId(raw);
        return if s.Ok? then PyStr(s.value) else PyInt(raw);
      }
      if ct == BOOL {
        return PyBool(raw != 0);
      }
      if ct == FLOAT {
        return PyFloat(OfBits(ToWord(raw)));
      }
      return PyInt(raw);
    }

    method Decode(relation: string, ids: seq<int>) returns (r: seq<Py>)
      requires Valid()
      modifies this`schemaCache
      ensures Valid()
      ensures r == DecodeRow(intern.View(), SchemaOf(relation), ids)
    {
      hide DecodeCell;
      var sch := SchemaFor(relation);
      if sch.Err? {
        r := seq(|ids|, i requires 0 <= i < |ids| => PyInt(ids[i]));
        return;
      }
      r := [];
      var ncols := if |sch.value| < |ids| then |sch.value| else |ids|;
      for i := 0 to ncols
        modifies {}
        invariant |r| == i
        invariant forall k :: 0 <= k < i ==> r[k] == DecodeCell(intern.View(), sch.value[k], ids[k])
      {
        var v := DecodeOne(sch.value[i], ids[i]);
        r := r + [v];
      }
      for j := ncols to |ids|
        modifies {}
        invariant |r| == j
        invariant forall k :: 0 <= k < ncols ==> r[k] == DecodeCell(intern.View(), sch.value[k], ids[k])
        invariant forall k :: ncols <= k < j ==> r[k] == PyInt(ids[k])
      {
        r := r + [PyInt(ids[j])];
      }
    }

    method PreviewInlineFacts(relation: string) returns (r: Result<seq<seq<Py>>, Error>)
      ensures r == PreviewOf(schemaProgram, relation, intern.View())
    {
      if schemaProgram.None? || relation !in schemaProgram.value {
        return Ok([]);
      }
      r := DecodeFacts(Some(I.Table(intern.forward, intern.reverse)), schemaProgram.value[relation]);
    }

    /** The part of `close` that concerns decoding. */
    method Forget()
      modifies this
      ensures Valid() && schemaProgram == None && forall rel :: SchemaOf(rel) == None
    {
      schemaProgram := None;
      schemaCache := map[];
    }
  }

  // ---------------------------------------------------------------- round trip

  /** A value of the column's own Python type. */
  predicate WellTyped(v: Py, ct: ColumnType) {
    match ct
    case STRING => v.PyStr?
    case BOOL => v.PyBool?
    case FLOAT => v.PyFloat? && v.d != NaN
    case _ => v.PyInt? && InInt64(v.n)
  }

  predicate WellTypedRow(row: seq<Py>, schema: Schema) {
    |row| == |schema| && forall i :: 0 <= i < |row| ==> WellTyped(row[i], schema[i])
  }

  /** The ids of the row's own strings are `int64_t` values. */
  ghost predicate Storable(row: seq<Py>, engine: I.Engine) {
    forall i :: 0 <= i < |row| && row[i].PyStr? ==> InInt64(engine(row[i].s))
  }

  ghost predicate AnswersAgree(row: seq<Py>, answers: seq<int>, engine: I.Engine) {
    && |answers| == |row| && Storable(row, engine)
    && forall i :: 0 <= i < |row| && row[i].PyStr? ==> answers[i] < 0 || answers[i] == engine(row[i].s)
  }

  /** The word-sized code of a well typed value, whatever the state of the cache. */
  ghost function CodeOfValue(v: Py, engine: I.Engine): int {
    match v
    case PyStr(s) => engine(s)
    case PyBool(b) => if b then 1 else 0
    case PyInt(n) => n
    case PyFloat(d) => ToSigned(Bits(d))
    case _ => 0
  }

  ghost function CodeOfRow(row: seq<Py>, engine: I.Engine): seq<int> {
    seq(|row|, i requires 0 <= i < |row| => CodeOfValue(row[i], engine))
  }

  /** The two ways into the engine store the same bits: a well typed value that is no string goes
      through `insert` as the lane it goes through `insert_typed`. */
  lemma UntypedAndTypedPathsAgree(v: Py, ct: ColumnType, engine: I.Engine)
    requires WellTyped(v, ct) && ct != STRING
    ensures EncodeLane(v, ct) == Ok(ToWord(CodeOfValue(v, engine)))
    ensures CodeOfValue(v, engine) == WrapInt64(CodeOfValue(v, engine))
  {
    if v.PyFloat? {
      WordOfSigned(Bits(v.d));
    }
    WrapOfInRange(CodeOfValue(v, engine));
  }

  /** Every string of the row has its id in the table. */
  ghost predicate Interned(t: I.Table, row: seq<Py>) {
    forall i :: 0 <= i < |row| && row[i].PyStr? ==> row[i].s in t.forward
  }

  lemma EncodedCellIsTheEnginesCode(t: I.Table, v: Py, ct: ColumnType, answer: int, engine: I.Engine)
    requires I.Injective(engine) && I.Refines(t, engine) && WellTyped(v, ct)
    requires v.PyStr? ==> answer < 0 || answer == engine(v.s)
    ensures var (u, r) := EncodeCell(t, v, answer);
            && I.Refines(u, engine) && I.Extends(t, u)
            && (r.Ok? ==> r.value == CodeOfValue(v, engine) && (v.PyStr? ==> v.s in u.forward))
            && (r.Err? ==> r == Err(InternError) && v.PyStr? && answer < 0)
  {
    if v.PyStr? {
      I.StepRefines(t, I.Op.Intern(v.s, answer), engine);
    }
  }

  lemma CodeOfRowSplits(row: seq<Py>, engine: I.Engine)
    requires row != []
    ensures var k := |row| - 1; CodeOfRow(row, engine) == CodeOfRow(row[..k], engine) + [CodeOfValue(row[k], engine)]
  {
  }

  lemma InternedGrows(t: I.Table, u: I.Table, row: seq<Py>)
    requires row != [] && Interned(t, row[..|row| - 1]) && I.Extends(t, u)
    requires row[|row| - 1].PyStr? ==> row[|row| - 1].s in u.forward
    ensures Interned(u, row)
  {
    forall i | 0 <= i < |row| - 1 && row[i].PyStr? ensures row[i].s in u.forward {
      assert row[..|row| - 1][i].s in t.forward;
    }
  }

  /** Encoding succeeds with the engine's code of the row, or stops at a refused symbol. */
  lemma {:induction false} EncodedRowIsTheEnginesCode(
    t: I.Table, row: seq<Py>, schema: Schema, answers: seq<int>, engine: I.Engine)
    requires I.Injective(engine) && I.Refines(t, engine)
    requires WellTypedRow(row, schema) && AnswersAgree(row, answers, engine)
    ensures var (u, r) := EncodeRow(t, row, answers);
            && I.Refines(u, engine) && I.Extends(t, u)
            && (r.Ok? ==> r.value == CodeOfRow(row, engine) && Interned(u, row))
            && (r.Err? ==> r == Err(InternError) && exists i :: 0 <= i < |row| && row[i].PyStr? && answers[i] < 0)
    decreases |row|
  {
    if row != [] {
      var k := |row| - 1;
      EncodedRowIsTheEnginesCode(t, row[..k], schema[..k], answers[..k], engine);
      var (t1, init) := EncodeRow(t, row[..k], answers[..k]);
      if init.Err? {
        var i :| 0 <= i < |row[..k]| && row[..k][i].PyStr? && answers[..k][i] < 0;
        assert row[i].PyStr? && answers[i] < 0;
      } else {
        EncodedCellIsTheEnginesCode(t1, row[k], schema[k], answers[k], engine);
        CodeOfRowSplits(row, engine);
        if EncodeRow(t, row, answers).1.Ok? {
          InternedGrows(t1, EncodeRow(t, row, answers).0, row);
        }
      }
    }
  }

  /** Storing the code of a well typed value in an `int64_t` cell changes nothing. */
  lemma StoredCode(row: seq<Py>, schema: Schema, engine: I.Engine)
    requires Storable(row, engine) && WellTypedRow(row, schema)
    ensures Stored(CodeOfRow(row, engine)) == CodeOfRow(row, engine)
  {
    forall i | 0 <= i < |row| ensures WrapInt64(CodeOfValue(row[i], engine)) == CodeOfValue(row[i], engine) {
      assert WellTyped(row[i], schema[i]);
      if row[i].PyFloat? {
        WordOfSigned(Bits(row[i].d));
      }
      WrapOfInRange(CodeOfValue(row[i], engine));
    }
  }

  /** Decoding the engine's code of a row gives the row back wherever its strings are cached. */
  lemma DecodedCode(t: I.Table, row: seq<Py>, schema: Schema, engine: I.Engine)
    requires I.Injective(engine) && I.Refines(t, engine)
    requires WellTypedRow(row, schema) && Interned(t, row)
    ensures DecodeRow(t, Some(schema), CodeOfRow(row, engine)) == row
  {
    forall i | 0 <= i < |row| ensures DecodeCell(t, schema[i], CodeOfValue(row[i], engine)) == row[i] {
      var v := row[i];
      assert WellTyped(v, schema[i]);
      if v.PyStr? {
        assert engine(t.reverse[engine(v.s)]) == engine(v.s);
      } else if v.PyFloat? {
        WordOfSigned(Bits(v.d));
        OfBitsUndoesBits(v.d);
      }
    }
  }

  /** The conditions of the round trip can be met for every string and every id an engine can give. */
  lemma RoundTripIsNotVacuous(s: string, id: int)
    requires 0 <= id && InInt64(id)
    ensures exists engine: I.Engine ::
              && I.Injective(engine) && I.Refines(I.EmptyTable, engine)
              && WellTypedRow([PyStr(s)], [STRING]) && AnswersAgree([PyStr(s)], [id], engine)
    ensures EncodeRow(I.EmptyTable, [PyStr(s)], [id]).1 == Ok([id])
  {
    var t := I.Table(map[s := id], map[id := s]);
    var engine := I.EngineOf(t, id + 1);
    I.EngineOfIsInjective(t, id + 1);
    assert engine(s) == id;
    assert AnswersAgree([PyStr(s)], [id], engine);
    assert [PyStr(s)][..0] == [] && [id][..0] == [];
    assert EncodeRow(I.EmptyTable, [PyStr(s)][..0], [id][..0]) == (I.EmptyTable, Ok([]));
    assert EncodeCell(I.EmptyTable, PyStr(s), id).1 == Ok(id);
    assert [] + [id] == [id];
  }

  /**
   The round trip survives every later change of the cache: a well typed row that was encoded in
   one state decodes to itself in the state it left behind and after any further run of intern
   and remember calls, as long as one injective engine feeds the table.
   */
  lemma RowRoundTrip(
    t: I.Table, row: seq<Py>, schema: Schema, answers: seq<int>, later: seq<I.Op>, engine: I.Engine)
    requires I.Injective(engine) && I.Refines(t, engine)
    requires WellTypedRow(row, schema) && AnswersAgree(row, answers, engine)
    requires I.AllAgree(later, engine)
    requires EncodeRow(t, row, answers).1.Ok?
    ensures var (u, r) := EncodeRow(t, row, answers);
            DecodeRow(I.Run(u, later), Some(schema), Stored(r.value)) == row
  {
    var (u, r) := EncodeRow(t, row, answers);
    EncodedRowIsTheEnginesCode(t, row, schema, answers, engine);
    StoredCode(row, schema, engine);
    I.RunRefinesEngine(u, later, engine);
    DecodedCode(I.Run(u, later), row, schema, engine);
  }
}
