/** What goes into a session comes back out of it: the encoders, the trampolines and the decoders
    together. */
module Echo {
  import opened Wrappers
  import opened Lanes
  import opened TypedRows
  import opened EasyRows
  import opened Protocol
  import I = Intern

  /** A typed row of the columns' own types, handed back by the engine in the descriptor it was
      given, is queued as the row that was inserted. */
  lemma TypedRowEchoes(row: seq<Py>, types: seq<ColumnType>, d: RawDescriptor, rel: string, diff: int)
    requires Describes(d, row, types) && forall j :: 0 <= j < |row| ==> FitsColumn(row[j], types[j])
    ensures d.Wellformed()
    ensures Receive(TypedCall(Utf8(rel), Some(d), diff)) == Received(TypedEvent(rel, row, diff))
  {
    DescriptorReadsBack(d, row, types);
  }

  /** A well typed row of an `EasySession`, handed back by the engine cell by cell at any later
      time, is queued and then decoded as the row that was inserted. */
  lemma EasyRowEchoes(
    t: I.Table, row: seq<Py>, schema: Schema, answers: seq<int>, later: seq<I.Op>, engine: I.Engine,
    rel: string, diff: int)
    requires I.Injective(engine) && I.Refines(t, engine)
    requires WellTypedRow(row, schema) && AnswersAgree(row, answers, engine)
    requires I.AllAgree(later, engine) && EncodeRow(t, row, answers).1.Ok?
    ensures var (u, r) := EncodeRow(t, row, answers);
            var what := Receive(DeltaCall(Utf8(rel), Cells(Stored(r.value)), diff));
            && what.Received? && what.event.DeltaEvent? && what.event.rel == rel && what.event.diff == diff
            && DecodeRow(I.Run(u, later), Some(schema), what.event.row) == row
  {
    RowRoundTrip(t, row, schema, answers, later, engine);
  }
}
