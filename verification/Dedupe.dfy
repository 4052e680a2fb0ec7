/** `EasySession.insert_with_dedupe` against the engine's z-set (`pyrewire/session.py`). */
module Dedupe {
  import opened Wrappers
  import opened Words
  import opened Binary64
  import opened Lanes
  import opened Facts
  import opened EasyRows

  /** Python's `==` between row values: numbers compare by value across types, NaN equals nothing,
      a string equals only itself, and an object with no more than `__float__` equals no value. */
  predicate PyEqual(a: Py, b: Py) {
    if a.PyStr? || b.PyStr? then a == b
    else if a.PyFloatLike? || b.PyFloatLike? then false
    else if Exact(a).Some? && Exact(b).Some? then Exact(a) == Exact(b)
    else a.PyFloat? && a.d.Infinite? && a == b
  }

  /** Numbers of whatever type are equal exactly if they stand for the same number, as
      `True == 1` and `-0.0 == 0.0`; a NaN equals nothing; a string equals only itself; and the relation is
      symmetric. */
  lemma EqualityIsNumeric(a: Py, b: Py)
    ensures PyEqual(a, b) <==> PyEqual(b, a)
    ensures a.PyStr? ==> (PyEqual(a, b) <==> a == b)
    ensures a.PyFloat? && a.d == NaN ==> !PyEqual(a, b)
    ensures a.PyFloat? && a.d.Infinite? ==> (PyEqual(a, b) <==> a == b)
    ensures Exact(a).Some? && Exact(b).Some? && !a.PyFloatLike? && !b.PyFloatLike? ==>
              (PyEqual(a, b) <==> Exact(a).value == Exact(b).value)
  {
  }

  lemma EqualAcrossTypes()
    ensures PyEqual(PyBool(true), PyInt(1)) && PyEqual(PyBool(false), PyInt(0)) && !PyEqual(PyBool(true), PyInt(2))
    ensures PyEqual(PyFloat(Finite(true, 0, -1074)), PyFloat(Finite(false, 0, -1074)))
    ensures PyEqual(PyInt(1), PyFloat(Finite(false, TWO_TO_THE_52, -52)))
  {
    PatternOfOne();
    assert Magnitude(0, -1074) == 0.0;
  }

  predicate TupleEqual(a: seq<Py>, b: seq<Py>) {
    |a| == |b| && forall i :: 0 <= i < |a| ==> PyEqual(a[i], b[i])
  }

  predicate Matches(row: seq<Py>, existing: seq<seq<Py>>) {
    exists i :: 0 <= i < |existing| && TupleEqual(row, existing[i])
  }

  /** What the engine holds of one relation: a multiplicity for every raw row. */
  type ZSet = multiset<seq<int>>

  /** A session's table next to the engine's rows of the relation. */
  datatype State = State(table: I.Table, rows: ZSet)

  /** One call, with the engine's answers to the intern calls and to the insert. */
  datatype Call = Call(row: seq<Py>, answers: seq<int>, rc: int) {
    predicate Wellformed() {
      |answers| == |row|
    }
  }

  /** `insert`: encode, then hand the wrapped cells to the engine. */
  function AfterInsert(s: State, c: Call): (State, Result<(), Error>)
    requires c.Wellformed()
  {
    var (u, ids) := EncodeRow(s.table, c.row, c.answers);
    if ids.Err? then (State(u, s.rows), Err(ids.error))
    else if c.rc != 0 then (State(u, s.rows), Err(EngineError(c.rc)))
    else (State(u, s.rows + multiset{Stored(ids.value)}), Ok(()))
  }

  /** `insert_with_dedupe`, for a session with this side program, if it has one. */
  function AfterCall(s: State, program: Option<Program>, relation: string, c: Call): (State, Result<bool, Error>)
    requires c.Wellformed()
  {
    match PreviewOf(program, relation, s.table)
    case Err(e) => (s, Err(e))
    case Ok(existing) =>
      if Matches(c.row, existing) then (s, Ok(false))
      else
        var (u, r) := AfterInsert(s, c);
        (u, if r.Ok? then Ok(true) else Err(r.error))
  }

  /** The engine's side of a relation. */
  class EngineRelation {
    var rows: ZSet

    method Insert(cells: seq<int>, rc: int)
      modifies this
      ensures rows == if rc == 0 then old(rows) + multiset{cells} else old(rows)
    {
      if rc == 0 {
        rows := rows + multiset{cells};
      }
    }
  }

  method InsertWithDedupe(s: EasyRows, engine: EngineRelation, relation: string, c: Call)
    returns (r: Result<bool, Error>)
    requires c.Wellformed()
    modifies s.intern, engine
    ensures (State(s.intern.View(), engine.rows), r)
            == AfterCall(old(State(s.intern.View(), engine.rows)), s.schemaProgram, relation, c)
  {
    var existing := s.PreviewInlineFacts(relation);
    if existing.Err? {
      return Err(existing.error);
    }
    for i := 0 to |existing.value|
      invariant s.intern.View() == old(s.intern.View()) && engine.rows == old(engine.rows)
      invariant forall k :: 0 <= k < i ==> !TupleEqual(c.row, existing.value[k])
    {
      if TupleEqual(c.row, existing.value[i]) {
        return Ok(false);
      }
    }
    var ids := s.RowToInt64(c.row, c.answers);
    if ids.Err? {
      return Err(ids.error);
    }
    engine.Insert(Stored(ids.value), c.rc);
    return if c.rc == 0 then Ok(true) else Err(EngineError(c.rc));
  }

  // ---------------------------------------------------------------- every row, every session

  /** The raw row a call hands to the engine, if its row encodes and the engine accepts it. */
  function Offered(t: I.Table, c: Call): Option<seq<int>>
    requires c.Wellformed()
  {
    var ids := EncodeRow(t, c.row, c.answers).1;
    if ids.Ok? && c.rc == 0 then Some(Stored(ids.value)) else None
  }

  /** The call goes no further than the preview: there is a side program that declares the
      relation, and either its facts raise or one of them equals the row. */
  predicate Stopped(program: Option<Program>, relation: string, t: I.Table, row: seq<Py>) {
    && program.Some? && relation in program.value
    && var rel := program.value[relation];
       rel.Uniform() ==>
         exists i :: 0 <= i < |rel.inline| && TupleEqual(row, FactRow(Some(t), rel.schema, rel.inline[i]))
  }

  lemma PreviewStops(program: Option<Program>, relation: string, t: I.Table, row: seq<Py>)
    ensures Stopped(program, relation, t, row)
            <==> PreviewOf(program, relation, t).Err? || Matches(row, PreviewOf(program, relation, t).value)
  {
    var p := PreviewOf(program, relation, t);
    if program.Some? && relation in program.value && program.value[relation].Uniform() {
      var rel := program.value[relation];
      assert forall i :: 0 <= i < |rel.inline| ==> p.value[i] == FactRow(Some(t), rel.schema, rel.inline[i]);
    }
  }

  /** What one call does to the z-set, for any row whatever: it adds the row's code once if it
      returns True, and nothing otherwise. */
  lemma CallEffect(s: State, program: Option<Program>, relation: string, c: Call)
    requires c.Wellformed()
    ensures var (u, r) := AfterCall(s, program, relation, c);
            && (r == Ok(true) <==> Offered(s.table, c).Some? && !Stopped(program, relation, s.table, c.row))
            && u.rows == (if r == Ok(true) then s.rows + multiset{Offered(s.table, c).value} else s.rows)
  {
    PreviewStops(program, relation, s.table, c.row);
  }

  /**
   For every row that encodes, well typed or not, in any session: once the engine accepts, the call
   leaves the multiplicity of the row's own code alone exactly when the preview stopped it, and no
   other multiplicity changes either way.
   */
  lemma KeptIffStopped(s: State, program: Option<Program>, relation: string, c: Call, raw: seq<int>)
    requires c.Wellformed() && Offered(s.table, c).Some?
    ensures var own := Offered(s.table, c).value;
            var (u, r) := AfterCall(s, program, relation, c);
            && (u.rows[own] == s.rows[own] <==> Stopped(program, relation, s.table, c.row))
            && (u.rows[own] == s.rows[own] + 1 <==> r == Ok(true))
            && (raw != own ==> u.rows[raw] == s.rows[raw])
  {
    CallEffect(s, program, relation, c);
  }

  /** What a call raises, and what it leaves cached: the ValueError of an inline row of the wrong
      width before anything else; else, for a row that is not recognized, what encoding raises, or the
      engine's code; and what encoding interned stays interned whatever follows. */
  lemma CallOutcome(s: State, program: Option<Program>, relation: string, c: Call)
    requires c.Wellformed()
    ensures var (u, r) := AfterCall(s, program, relation, c);
            var broken := program.Some? && relation in program.value && !program.value[relation].Uniform();
            var (t, ids) := EncodeRow(s.table, c.row, c.answers);
            var stopped := Stopped(program, relation, s.table, c.row);
            && (broken ==> r == Err(ValueError)) && (stopped && !broken ==> r == Ok(false))
            && (!stopped && ids.Err? ==> r == Err(ids.error))
            && (!stopped && ids.Ok? && c.rc != 0 ==> r == Err(EngineError(c.rc)))
            && (!stopped && ids.Ok? && c.rc == 0 ==> r == Ok(true))
            && u.table == (if stopped then s.table else t)
  {
    PreviewStops(program, relation, s.table, c.row);
  }

  ghost predicate AllWellformed(calls: seq<Call>) {
    forall i :: 0 <= i < |calls| ==> calls[i].Wellformed()
  }

  ghost function Run(s: State, program: Option<Program>, relation: string, calls: seq<Call>): State
    requires AllWellformed(calls)
    decreases |calls|
  {
    if calls == [] then s else Run(AfterCall(s, program, relation, calls[0]).0, program, relation, calls[1..])
  }

  /** How many calls of a run return True for a row with this code. */
  ghost function TimesInserted(
    s: State, program: Option<Program>, relation: string, calls: seq<Call>, raw: seq<int>): nat
    requires AllWellformed(calls)
    decreases |calls|
  {
    if calls == [] then 0
    else
      var (u, r) := AfterCall(s, program, relation, calls[0]);
      (if r == Ok(true) && Offered(s.table, calls[0]) == Some(raw) then 1 else 0)
      + TimesInserted(u, program, relation, calls[1..], raw)
  }

  /** Every call of a run that would hand this code to the engine is stopped by the preview. */
  ghost predicate AllStopped(
    s: State, program: Option<Program>, relation: string, calls: seq<Call>, raw: seq<int>)
    requires AllWellformed(calls)
    decreases |calls|
  {
    calls == []
    || (&& (Offered(s.table, calls[0]) == Some(raw) ==> Stopped(program, relation, s.table, calls[0].row))
        && AllStopped(AfterCall(s, program, relation, calls[0]).0, program, relation, calls[1..], raw))
  }

  /**
   Any sequence of calls with any rows, any answers and any failures raises each multiplicity by
   exactly the number of calls that returned True for it; so a multiplicity stays what it was
   exactly when every call that would have raised it was stopped.
   */
  lemma {:induction false} RunAddsWhatReturnedTrue(
    s: State, program: Option<Program>, relation: string, calls: seq<Call>, raw: seq<int>)
    requires AllWellformed(calls)
    ensures Run(s, program, relation, calls).rows[raw]
            == s.rows[raw] + TimesInserted(s, program, relation, calls, raw)
    ensures Run(s, program, relation, calls).rows[raw] == s.rows[raw]
            <==> AllStopped(s, program, relation, calls, raw)
    decreases |calls|
  {
    if calls != [] {
      var c := calls[0];
      CallEffect(s, program, relation, c);
      RunAddsWhatReturnedTrue(AfterCall(s, program, relation, c).0, program, relation, calls[1..], raw);
    }
  }

  // ---------------------------------------------------------------- rows of the schema's own types

  /** The relation as the engine holds it, and a side program that read the same source and gave
      its symbols the engine's ids. */
  ghost predicate Declares(program: Option<Program>, relation: string, rel: Relation) {
    rel.Uniform() && (program.Some? ==> relation in program.value && program.value[relation] == rel)
  }

  /** A caller that inserts rows of the schema's own types, against one injective engine. */
  ghost predicate GoodCall(c: Call, rel: Relation, engine: I.Engine) {
    c.Wellformed() && WellTypedRow(c.row, rel.schema) && AnswersAgree(c.row, c.answers, engine)
  }

  /** The symbol ids of a raw row can all be looked up. */
  ghost predicate Resolved(t: I.Table, schema: Schema, raw: seq<int>) {
    |raw| == |schema| && forall i :: 0 <= i < |raw| && schema[i] == STRING ==> raw[i] in t.reverse
  }

  lemma ResolvedGrows(t: I.Table, u: I.Table, schema: Schema, raw: seq<int>)
    requires Resolved(t, schema, raw) && I.Extends(t, u)
    ensures Resolved(u, schema, raw)
  {
    forall i | 0 <= i < |raw| && schema[i] == STRING ensures raw[i] in u.reverse {
      var id := raw[i];
      var known := t.reverse[id];
      assert id in u.reverse && u.reverse[id] == known;
    }
  }

  lemma TupleEqualToItself(row: seq<Py>, schema: Schema)
    requires WellTypedRow(row, schema)
    ensures TupleEqual(row, row)
  {
    forall i | 0 <= i < |row| ensures PyEqual(row[i], row[i]) {
      assert WellTyped(row[i], schema[i]);
    }
  }

  /** A well typed row whose code is resolved decodes from that code to itself. */
  lemma ResolvedCodeDecodes(t: I.Table, row: seq<Py>, schema: Schema, engine: I.Engine)
    requires I.Injective(engine) && I.Refines(t, engine) && WellTypedRow(row, schema)
    requires Resolved(t, schema, CodeOfRow(row, engine))
    ensures FactRow(Some(t), schema, CodeOfRow(row, engine)) == row
  {
    var raw := CodeOfRow(row, engine);
    forall i | 0 <= i < |row| && row[i].PyStr? ensures row[i].s in t.forward {
      assert WellTyped(row[i], schema[i]);
      assert raw[i] in t.reverse;
      assert engine(t.reverse[raw[i]]) == engine(row[i].s);
    }
    DecodedCode(t, row, schema, engine);
    RowAndFactDecodersAgree(t, schema, raw);
  }

  /**
   For a well typed row that is already inline, the call is stopped exactly when the session has a
   side program and every symbol id of the row could be looked up beforehand.
   */
  lemma DuplicateIffResolved(
    t: I.Table, program: Option<Program>, relation: string, rel: Relation, row: seq<Py>, engine: I.Engine)
    requires I.Injective(engine) && I.Refines(t, engine) && Declares(program, relation, rel)
    requires WellTypedRow(row, rel.schema) && CodeOfRow(row, engine) in rel.inline
    ensures Stopped(program, relation, t, row)
            <==> program.Some? && Resolved(t, rel.schema, CodeOfRow(row, engine))
  {
    var raw := CodeOfRow(row, engine);
    if Resolved(t, rel.schema, raw) {
      var i :| 0 <= i < |rel.inline| && rel.inline[i] == raw;
      ResolvedCodeDecodes(t, row, rel.schema, engine);
      TupleEqualToItself(row, rel.schema);
    }
    if Stopped(program, relation, t, row) {
      var k :| 0 <= k < |rel.inline| && TupleEqual(row, FactRow(Some(t), rel.schema, rel.inline[k]));
      forall i | 0 <= i < |raw| && rel.schema[i] == STRING ensures raw[i] in t.reverse {
        assert WellTyped(row[i], rel.schema[i]);
        assert PyEqual(row[i], FactCell(Some(t), STRING, rel.inline[k][i]));
      }
    }
  }

  /** What a call with a well typed row hands over is the engine's own code of the row. */
  lemma OfferedIsTheEnginesCode(
    s: State, program: Option<Program>, relation: string, rel: Relation, c: Call, engine: I.Engine)
    requires I.Injective(engine) && I.Refines(s.table, engine) && GoodCall(c, rel, engine)
    ensures var u := AfterCall(s, program, relation, c).0;
            && I.Refines(u.table, engine) && I.Extends(s.table, u.table)
            && (Offered(s.table, c).Some? ==> Offered(s.table, c).value == CodeOfRow(c.row, engine))
            && (c.rc == 0 && (forall i :: 0 <= i < |c.answers| ==> c.answers[i] >= 0) ==> Offered(s.table, c).Some?)
  {
    EncodedRowIsTheEnginesCode(s.table, c.row, rel.schema, c.answers, engine);
    StoredCode(c.row, rel.schema, engine);
  }

  /**
   When nothing else fails, one call on a well typed row that is already inline leaves its
   multiplicity alone exactly when the session has a side program and every symbol id of the row
   could be looked up before the call.
   */
  lemma InlineMultiplicityKeptIffResolved(
    s: State, program: Option<Program>, relation: string, rel: Relation, c: Call, engine: I.Engine)
    requires I.Injective(engine) && I.Refines(s.table, engine)
    requires Declares(program, relation, rel) && GoodCall(c, rel, engine)
    requires c.rc == 0 && forall i :: 0 <= i < |c.answers| ==> c.answers[i] >= 0
    requires CodeOfRow(c.row, engine) in rel.inline
    ensures var raw := CodeOfRow(c.row, engine);
            AfterCall(s, program, relation, c).0.rows[raw] == s.rows[raw]
            <==> program.Some? && Resolved(s.table, rel.schema, raw)
  {
    OfferedIsTheEnginesCode(s, program, relation, rel, c, engine);
    DuplicateIffResolved(s.table, program, relation, rel, c.row, engine);
    KeptIffStopped(s, program, relation, c, CodeOfRow(c.row, engine));
  }

  ghost predicate AllResolved(t: I.Table, rel: Relation) {
    forall i :: 0 <= i < |rel.inline| ==> Resolved(t, rel.schema, rel.inline[i])
  }

  ghost predicate AllGood(calls: seq<Call>, rel: Relation, engine: I.Engine) {
    forall i :: 0 <= i < |calls| ==> GoodCall(calls[i], rel, engine)
  }

  /** Calls with well typed rows never hand an inline row to the engine, while the session has its
      side program and the inline symbol ids can be looked up. */
  lemma {:induction false} WellTypedCallsAreStopped(
    s: State, program: Option<Program>, relation: string, rel: Relation, calls: seq<Call>, raw: seq<int>,
    engine: I.Engine)
    requires I.Injective(engine) && I.Refines(s.table, engine) && AllResolved(s.table, rel)
    requires program.Some? && Declares(program, relation, rel)
    requires AllGood(calls, rel, engine) && AllWellformed(calls) && raw in rel.inline
    ensures AllStopped(s, program, relation, calls, raw)
    decreases |calls|
  {
    if calls != [] {
      var c := calls[0];
      var u := AfterCall(s, program, relation, c).0;
      OfferedIsTheEnginesCode(s, program, relation, rel, c, engine);
      if Offered(s.table, c) == Some(raw) {
        DuplicateIffResolved(s.table, program, relation, rel, c.row, engine);
      }
      forall i | 0 <= i < |rel.inline| ensures Resolved(u.table, rel.schema, rel.inline[i]) {
        ResolvedGrows(s.table, u.table, rel.schema, rel.inline[i]);
      }
      WellTypedCallsAreStopped(u, program, relation, rel, calls[1..], raw, engine);
    }
  }

  /**
   The z-set promise. With a side program, resolved inline symbols and well typed rows, any sequence
   of calls, with any engine failures in between, leaves the multiplicity of every inline row as it
   was and raises that of any other row by exactly the number of calls that returned True for it.
   */
  lemma DedupeIsSafe(
    s: State, program: Option<Program>, relation: string, rel: Relation, calls: seq<Call>, raw: seq<int>,
    engine: I.Engine)
    requires I.Injective(engine) && I.Refines(s.table, engine) && AllResolved(s.table, rel)
    requires program.Some? && Declares(program, relation, rel)
    requires AllGood(calls, rel, engine)
    ensures AllWellformed(calls)
    ensures Run(s, program, relation, calls).rows[raw]
            == s.rows[raw] + if raw in rel.inline then 0 else TimesInserted(s, program, relation, calls, raw)
  {
    assert AllWellformed(calls) by {
      assert forall i :: 0 <= i < |calls| ==> GoodCall(calls[i], rel, engine);
    }
    RunAddsWhatReturnedTrue(s, program, relation, calls, raw);
    if raw in rel.inline {
      WellTypedCallsAreStopped(s, program, relation, rel, calls, raw, engine);
    }
  }

  // ---------------------------------------------------------------- where the promise fails

  /** A call on a row that is inline doubles it. */
  predicate Doubles(t: I.Table, program: Option<Program>, relation: string, c: Call, raw: seq<int>)
    requires c.Wellformed()
  {
    AfterCall(State(t, multiset{raw}), program, relation, c)
    == (State(EncodeRow(t, c.row, c.answers).0, multiset{raw, raw}), Ok(true))
  }

  lemma NotStoppedDoubles(t: I.Table, program: Option<Program>, relation: string, c: Call, raw: seq<int>)
    requires c.Wellformed() && Offered(t, c) == Some(raw) && !Stopped(program, relation, t, c.row)
    ensures Doubles(t, program, relation, c, raw)
  {
    PreviewStops(program, relation, t, c.row);
    assert multiset{raw} + multiset{raw} == multiset{raw, raw};
  }

  function OneColumn(ct: ColumnType, raw: int): Program {
    map["r" := Relation([ct], [[raw]])]
  }

  /** What a one-column call offers and is compared with. */
  lemma OneColumnCall(t: I.Table, ct: ColumnType, raw: int, v: Py, answer: int)
    ensures Stopped(Some(OneColumn(ct, raw)), "r", t, [v]) <==> PyEqual(v, FactCell(Some(t), ct, raw))
    ensures EncodeRow(t, [v], [answer]).1
            == (match EncodeCell(t, v, answer).1 case Ok(id) => Ok([id]) case Err(e) => Err(e))
  {
    var rel := OneColumn(ct, raw)["r"];
    assert rel.Uniform();
    var fact := FactRow(Some(t), rel.schema, rel.inline[0]);
    assert fact == [FactCell(Some(t), ct, raw)];
    assert TupleEqual([v], fact) <==> PyEqual(v, fact[0]);
    assert [v][..0] == [] && [answer][..0] == [];
    assert EncodeRow(t, [v][..0], [answer][..0]) == (t, Ok([]));
    assert forall id: int :: [] + [id] == [id];
  }

  lemma OneColumnDoubles(t: I.Table, ct: ColumnType, raw: int, v: Py, answer: int)
    requires EncodeCell(t, v, answer).1.Ok? && WrapInt64(EncodeCell(t, v, answer).1.value) == raw
    requires !PyEqual(v, FactCell(Some(t), ct, raw))
    ensures Doubles(t, Some(OneColumn(ct, raw)), "r", Call([v], [answer], 0), [raw])
  {
    OneColumnCall(t, ct, raw, v, answer);
    assert Stored([EncodeCell(t, v, answer).1.value]) == [raw];
    NotStoppedDoubles(t, Some(OneColumn(ct, raw)), "r", Call([v], [answer], 0), [raw]);
  }

  /** A symbol the session has not interned yet, as in the example the documentation gives for the
      opposite. */
  lemma UnresolvedSymbolDoubles()
    ensures Doubles(I.EmptyTable, Some(OneColumn(STRING, 0)), "r", Call([PyStr("alice")], [0], 0), [0])
  {
    OneColumnDoubles(I.EmptyTable, STRING, 0, PyStr("alice"), 0);
  }

  /** A raw id in a STRING column, while the id is cached. */
  lemma RawIdDoubles()
    ensures Doubles(I.Table(map["alice" := 0], map[0 := "alice"]), Some(OneColumn(STRING, 0)), "r",
                    Call([PyInt(0)], [0], 0), [0])
  {
    OneColumnDoubles(I.Table(map["alice" := 0], map[0 := "alice"]), STRING, 0, PyInt(0), 0);
  }

  /** An integer outside the signed range that wraps onto an inline one. */
  lemma WrappedIntegerDoubles()
    ensures Doubles(I.EmptyTable, Some(OneColumn(INT64, 1)), "r", Call([PyInt(TWO_TO_THE_64 + 1)], [0], 0), [1])
  {
    WrapIsTheSignedResidue(TWO_TO_THE_64 + 1, 1);
    OneColumnDoubles(I.EmptyTable, INT64, 1, PyInt(TWO_TO_THE_64 + 1), 0);
  }

  /** A NaN, which equals nothing. */
  lemma NotANumberDoubles()
    ensures Doubles(I.EmptyTable, Some(OneColumn(FLOAT, ToSigned(Bits(NaN)))), "r",
                    Call([PyFloat(NaN)], [0], 0), [ToSigned(Bits(NaN))])
  {
    WordOfSigned(Bits(NaN));
    WrapOfInRange(ToSigned(Bits(NaN)));
    OneColumnDoubles(I.EmptyTable, FLOAT, ToSigned(Bits(NaN)), PyFloat(NaN), 0);
  }

  /** Without a side program every inline row is inserted again. */
  lemma NoSideProgramDoubles(n: int)
    requires InInt64(n)
    ensures Doubles(I.EmptyTable, None, "r", Call([PyInt(n)], [0], 0), [n])
  {
    OneColumnCall(I.EmptyTable, INT64, n, PyInt(n), 0);
    WrapOfInRange(n);
    assert Stored([n]) == [n];
    NotStoppedDoubles(I.EmptyTable, None, "r", Call([PyInt(n)], [0], 0), [n]);
  }
}
