/**
 `EasySession` as a whole: the session protocol together with the row codec (`pyrewire/session.py`).
 What its calls take and return are Python values; what happens in between is `Sessions` and
 `EasyRows`.
 */
module EasySessions {
  import opened Wrappers
  import opened Lanes
  import opened Facts
  import opened EasyRows
  import opened Protocol
  import opened CallbackRegistry
  import S = Sessions

  /** An event as `step` and `snapshot` return it; a snapshot's has no difference. */
  datatype Decoded = Decoded(rel: string, vals: seq<Py>, diff: Option<int>)

  function DecodeEvent(t: I.Table, schema: Option<Schema>, e: Event): Decoded {
    match e
    case DeltaEvent(rel, row, diff) => Decoded(rel, DecodeRow(t, schema, row), Some(diff))
    case TupleEvent(rel, row) => Decoded(rel, DecodeRow(t, schema, row), None)
    case TypedEvent(rel, vals, diff) => Decoded(rel, vals, Some(diff))
  }

  /** The schema of a relation, while there is a program to ask. */
  function SchemaIn(program: Option<Program>, relation: string): Option<Schema> {
    if program.Some? && relation in program.value then Some(program.value[relation].schema) else None
  }

  function DecodeEvents(t: I.Table, program: Option<Program>, events: seq<Event>): (r: seq<Decoded>)
    ensures |r| == |events|
  {
    seq(|events|, i requires 0 <= i < |events| => DecodeEvent(t, SchemaIn(program, events[i].rel), events[i]))
  }

  function DecodeOutcome(t: I.Table, program: Option<Program>, out: Outcome): Result<seq<Decoded>, Error> {
    match out
    case Ok(events) => Ok(DecodeEvents(t, program, events))
    case Err(e) => Err(e)
  }

  /** What became of one row of `insert` before the engine was asked. */
  function RowsOf(ids: Result<seq<int>, Error>, buffer: nat): Rows {
    match ids
    case Ok(_) => Encoded(buffer)
    case Err(e) => Unencodable(e)
  }

  class EasySession {
    const session: S.Session
    const codec: EasyRows
    ghost const source: Option<Program>     // what the second parse of the source gave

    /** The side program is there until `close`, and not a moment longer. */
    ghost function Program(): Option<Program>
      reads session
    {
      if session.closed then None else source
    }

    ghost predicate Valid()
      reads session, session.table, session.table.states, session.made, codec
    {
      && session.Valid() && session.CompoundsOk() && session.easy && codec.Valid()
      && session.owned == source.Some? && session.sideProgram == (session.owned && !session.closed)
      && codec.schemaProgram == Program()
    }

    constructor (typedApi: bool, program: Option<Program>, table: CallbackTable)
      requires table.Valid()
      ensures Valid() && source == program && session.table == table
      ensures session.View() == NewSession(true, typedApi, program.Some?) && codec.intern.View() == I.EmptyTable
    {
      session := new S.Session(true, typedApi, program.Some?, table);
      codec := new EasyRows(program);
      source := program;
    }

    /** `insert` and `remove`: the row is encoded first, and what was interned stays interned. */
    method Update(row: seq<Py>, answers: seq<int>, buffer: nat, r: Reply) returns (out: Outcome)
      requires Valid() && |answers| == |row|
      modifies session`mode, session`pendingInputs, session.native, codec.intern
      ensures Valid()
      ensures var (t, ids) := EncodeRow(old(codec.intern.View()), row, answers);
              && codec.intern.View() == t
              && (session.St(), out) == Protocol.Update(old(session.St()), false, RowsOf(ids, buffer), r)
              && (ids.Err? ==> out == Err(ids.error) && session.pendingInputs == old(session.pendingInputs))
              && (ids.Ok? && r.rc != 0 ==>
                    out == Err(EngineError(r.rc)) && session.pendingInputs == old(session.pendingInputs))
              && (ids.Ok? && r.rc == 0 ==>
                    out == Ok([]) && session.pendingInputs == old(session.pendingInputs) + [buffer])
    {
      var ids := codec.RowToInt64(row, answers);
      out := session.DoUpdate(false, RowsOf(ids, buffer), r);
    }

    /** The decoding loop behind `step` and `snapshot`. */
    method DecodeAll(events: seq<Event>) returns (r: seq<Decoded>)
      requires codec.Valid()
      modifies codec`schemaCache
      ensures codec.Valid() && r == DecodeEvents(codec.intern.View(), codec.schemaProgram, events)
    {
      r := [];
      for i := 0 to |events|
        invariant codec.Valid() && |r| == i
        invariant forall k :: 0 <= k < i ==>
                    r[k] == DecodeEvent(codec.intern.View(), SchemaIn(codec.schemaProgram, events[k].rel), events[k])
      {
        match events[i] {
          case DeltaEvent(rel, row, diff) =>
            var vals := codec.Decode(rel, row);
            r := r + [Decoded(rel, vals, Some(diff))];
          case TupleEvent(rel, row) =>
            var vals := codec.Decode(rel, row);
            r := r + [Decoded(rel, vals, None)];
          case TypedEvent(rel, vals, diff) =>
            r := r + [Decoded(rel, vals, Some(diff))];
        }
      }
    }

    method Step(r: Reply) returns (out: Result<seq<Decoded>, Error>)
      requires Valid()
      modifies session`mode, session`deltaCb, session`pendingInputs, session`succeeded, session.native,
               session.table, session.table.states, codec`schemaCache
      ensures Valid()
      ensures var (st, raw) := Protocol.Step(old(session.St()), Delta, r);
              session.St() == st && out == DecodeOutcome(codec.intern.View(), Program(), raw)
    {
      hide CallbackTable.Valid, Protocol.Step, DecodeEvents;
      var raw := session.DoStep(Delta, r);
      if raw.Err? {
        return Err(raw.error);
      }
      var decoded := DecodeAll(raw.value);
      return Ok(decoded);
    }

    method Snapshot(r: Reply) returns (out: Result<seq<Decoded>, Error>)
      requires Valid()
      modifies session`mode, session`pendingInputs, session`succeeded, session.native,
               session.table, session.table.states, codec`schemaCache
      ensures Valid()
      ensures var (st, raw) := Protocol.Snapshot(old(session.St()), Tuple, r);
              session.St() == st && out == DecodeOutcome(codec.intern.View(), Program(), raw)
    {
      hide CallbackTable.Valid, Protocol.Snapshot, DecodeEvents;
      var raw := session.DoSnapshot(Tuple, r);
      if raw.Err? {
        return Err(raw.error);
      }
      var decoded := DecodeAll(raw.value);
      return Ok(decoded);
    }

    method Close(r: Reply)
      requires Valid()
      modifies session, session.native, session.table, session.compounds, codec
      ensures Valid() && session.closed && Program() == None
      ensures session.St() == Protocol.Close(old(session.St()), r).0
    {
      var _ := session.DoClose(r);
      codec.Forget();
    }

    /**
     The round trip in the session it is promised for: a well typed row that encoded in the state
     `t`, decoded in a later state of the same cache, is the row it was as long as the session is
     open and has its side program, and the raw cells it was stored as from `close` on.
     */
    lemma RowComesBackUntilClose(
      t: I.Table, relation: string, row: seq<Py>, answers: seq<int>, later: seq<I.Op>, engine: I.Engine)
      requires Valid() && source.Some? && relation in source.value
      requires I.Injective(engine) && I.Refines(t, engine) && I.AllAgree(later, engine)
      requires WellTypedRow(row, source.value[relation].schema) && AnswersAgree(row, answers, engine)
      requires EncodeRow(t, row, answers).1.Ok? && codec.intern.View() == I.Run(EncodeRow(t, row, answers).0, later)
      ensures var cells := Stored(EncodeRow(t, row, answers).1.value);
              DecodeRow(codec.intern.View(), SchemaIn(Program(), relation), cells)
              == if session.closed then seq(|cells|, i requires 0 <= i < |cells| => PyInt(cells[i])) else row
    {
      RowRoundTrip(t, row, source.value[relation].schema, answers, later, engine);
    }
  }
}
