/**
 What the engine's callbacks carry is what steps and snapshots return, told over the fields of the
 callbacks themselves.
 */
module Reports {
  import opened Wrappers
  import opened Words
  import opened Lanes
  import opened Facts
  import opened EasyRows
  import opened Protocol
  import opened Runs
  import opened Theorems
  import opened Deliveries
  import opened Registrations
  import opened EasySessions
  import I = Intern

  // ---------------------------------------------------------------- one callback

  predicate NameReads(n: RelationName, text: string) {
    n == Utf8(text) || (n == NullName && text == "")
  }

  predicate RowReads(row: RawRow, vals: seq<int>) {
    row == Cells(vals) || (row == NullRow(0) && vals == [])
  }

  predicate DescriptorReads(desc: Option<Descriptor>, vals: seq<Py>) {
    && desc.Some? && |vals| == |desc.value.codes|
    && forall c :: 0 <= c < |vals| ==>
         && ColumnTypeOf(desc.value.codes[c]).Some?
         && vals[c] == DecodeLane(desc.value.lanes[desc.value.offsets[c]], ColumnTypeOf(desc.value.codes[c]).value)
  }

  /** The event a callback carries: its own name, its own row and its own difference. */
  predicate Carries(c: RawCall, e: Event) {
    match c
    case DeltaCall(n, row, diff) => e.DeltaEvent? && NameReads(n, e.rel) && RowReads(row, e.row) && e.diff == diff
    case TupleCall(n, row) => e.TupleEvent? && NameReads(n, e.rel) && RowReads(row, e.row)
    case TypedCall(n, desc, diff) =>
      e.TypedEvent? && NameReads(n, e.rel) && DescriptorReads(desc, e.vals) && e.diff == diff
  }

  /** What is wrong with a callback that carries no event: its name first, then its row. */
  predicate Faulty(c: RawCall, f: Fault) {
    if c.name == NotUtf8 then f == BadRelationName
    else
      match c
      case DeltaCall(_, row, _) => row.NullRow? && row.ncols > 0 && f == NullRowPointer
      case TupleCall(_, row) => row.NullRow? && row.ncols > 0 && f == NullRowPointer
      case TypedCall(_, desc, _) =>
        desc.Some? && exists k :: 0 <= k < |desc.value.codes| && f == BadColumnType(desc.value.codes[k])
                                  && ColumnTypeOf(desc.value.codes[k]).None?
                                  && forall i :: 0 <= i < k ==> ColumnTypeOf(desc.value.codes[i]).Some?
  }

  /**
   A trampoline queues the event its callback carries, stashes what is wrong with it if it carries
   none, and ignores a typed callback without a descriptor; exactly one of the three.
   */
  lemma TrampolinesQueueWhatIsCarried(c: RawCall, e: Event, f: Fault)
    ensures Receive(c) == Received(e) <==> Carries(c, e)
    ensures Receive(c) == Failed(f) <==> !(c.TypedCall? && c.desc.None?) && Faulty(c, f)
    ensures Receive(c) == Ignored <==> c.TypedCall? && c.desc.None?
  {
    if c.TypedCall? && c.desc.Some? {
      var r := DecodedRow(c.desc.value);
      if r.Ok? && Carries(c, e) {
        assert e.vals == r.value;
      }
    }
  }

  /** Which trampoline the engine calls is what the callback's shape says. */
  predicate OfKind(c: RawCall, kind: Kind) {
    match kind
    case Delta => c.DeltaCall?
    case Tuple => c.TupleCall?
    case TypedDelta => c.TypedCall?
  }

  // ---------------------------------------------------------------- snapshots

  /** Every callback of an evaluation goes through the pair passed to the call and carries the event
      of the same index. */
  predicate AllCarriedByArgument(ems: seq<Emission>, kind: Kind, events: seq<Event>) {
    |ems| == |events| && forall i :: 0 <= i < |ems| ==>
      ems[i].viaArgument && OfKind(ems[i].call, kind) && Carries(ems[i].call, events[i])
  }

  predicate AllCarriedBySlot(ems: seq<Emission>, kind: Kind, events: seq<Event>) {
    |ems| == |events| && forall i :: 0 <= i < |ems| ==>
      !ems[i].viaArgument && OfKind(ems[i].call, kind) && Carries(ems[i].call, events[i])
  }

  lemma CarriedEvent(c: RawCall, e: Event)
    requires Carries(c, e)
    ensures EventOf(Receive(c), true) == [e] && !Receive(c).Failed?
  {
    TrampolinesQueueWhatIsCarried(c, e, BadRelationName);
  }

  lemma ArgumentPrefix(ems: seq<Emission>, kind: Kind, events: seq<Event>)
    requires AllCarriedByArgument(ems, kind, events) && ems != []
    ensures var k := |ems| - 1;
            && |events| == |ems| && events == events[..k] + [events[k]]
            && AllCarriedByArgument(ems[..k], kind, events[..k])
            && ems[k].viaArgument && OfKind(ems[k].call, kind) && Carries(ems[k].call, events[k])
  {
  }

  lemma SlotPrefix(ems: seq<Emission>, kind: Kind, events: seq<Event>)
    requires AllCarriedBySlot(ems, kind, events) && ems != []
    ensures var k := |ems| - 1;
            && |events| == |ems| && events == events[..k] + [events[k]]
            && AllCarriedBySlot(ems[..k], kind, events[..k])
            && !ems[k].viaArgument && OfKind(ems[k].call, kind) && Carries(ems[k].call, events[k])
  {
  }

  lemma {:induction false} ArgumentEvents(
    armed: map<Kind, nat>, h: Handle, ems: seq<Emission>, events: seq<Event>)
    requires AllCarriedByArgument(ems, h.kind, events)
    ensures EventsFor(armed, Some(h), ems, h.token) == events
    ensures FaultFor(armed, Some(h), ems, h.token, None) == None
    decreases |ems|
  {
    if ems != [] {
      hide Receive, Carries, EventOf, AllCarriedByArgument;
      var k := |ems| - 1;
      ArgumentPrefix(ems, h.kind, events);
      ArgumentEvents(armed, h, ems[..k], events[..k]);
      CarriedEvent(ems[k].call, events[k]);
    } else {
      assert events == [];
    }
  }

  lemma {:induction false} SlotEvents(kind: Kind, ems: seq<Emission>, events: seq<Event>, before: Option<Fault>)
    requires AllCarriedBySlot(ems, kind, events)
    ensures Heard(kind, ems) == events && FaultHeard(kind, ems, before) == before
    decreases |ems|
  {
    if ems != [] {
      hide Receive, Carries, EventOf, AllCarriedBySlot;
      var k := |ems| - 1;
      SlotPrefix(ems, kind, events);
      SlotEvents(kind, ems[..k], events[..k], before);
      CarriedEvent(ems[k].call, events[k]);
    } else {
      assert events == [];
    }
  }

  lemma RunSnapshotReports(st: State, kind: Kind, r: Reply, events: seq<Event>)
    requires r.rc == 0 && AllCarriedByArgument(r.emissions, kind, events)
    ensures RunSnapshot(st, kind, r).1 == Ok(events)
  {
    hide EmitAll, EventsFor, FaultFor, AllCarriedByArgument;
    var h := Handle(kind, st.reg.next);
    var reg := OpenSlot(st.reg);
    var o := Circumstances(st.s.engine, st.s.pending, h, Some(h));
    CallbacksAreAccepted(reg.(log := reg.log + [o]), st.s.engine.armed, Some(h), r.emissions, h.token);
    ArgumentEvents(st.s.engine.armed, h, r.emissions, events);
    assert [] + events == events;
  }

  /**
   A snapshot at the end of any run that nothing refuses and the engine answers with OK returns
   exactly the names and rows its callbacks carry, in order.
   */
  lemma SnapshotReturnsTheRows(hs: seq<Happening>, id: nat, kind: Kind, r: Reply, events: seq<Event>)
    requires id in Run(InitialWorld, hs).sessions
    requires SnapshotRefusal(StateOf(Run(InitialWorld, hs), id), kind).None? && r.rc == 0
    requires AllCarriedByArgument(r.emissions, kind, events)
    ensures Snapshot(StateOf(Run(InitialWorld, hs), id), kind, r).1 == Ok(events)
  {
    hide RunSnapshot;
    var st := StateOf(Run(InitialWorld, hs), id);
    RunSnapshotReports(st.(s := st.s.(mode := RequireMode(st.s.mode, Query).0)), kind, r, events);
  }

  /** The same, spelled out for rows of cells. */
  lemma SnapshotReturnsTheCells(hs: seq<Happening>, id: nat, r: Reply, rows: seq<(string, seq<int>)>)
    requires id in Run(InitialWorld, hs).sessions
    requires SnapshotRefusal(StateOf(Run(InitialWorld, hs), id), Tuple).None? && r.rc == 0
    requires |r.emissions| == |rows|
    requires forall i :: 0 <= i < |rows| ==>
               r.emissions[i] == Emission(true, TupleCall(Utf8(rows[i].0), Cells(rows[i].1)))
    ensures var out := Snapshot(StateOf(Run(InitialWorld, hs), id), Tuple, r).1;
            && out.Ok? && |out.value| == |rows|
            && forall i :: 0 <= i < |rows| ==> out.value[i] == TupleEvent(rows[i].0, rows[i].1)
  {
    var events := seq(|rows|, i requires 0 <= i < |rows| => TupleEvent(rows[i].0, rows[i].1));
    SnapshotReturnsTheRows(hs, id, Tuple, r, events);
  }

  // ---------------------------------------------------------------- steps

  /**
   A step at the end of any run that nothing refuses, that hears and that the engine answers with OK
   returns what was queued before and then exactly what its callbacks carry, in order.
   */
  lemma StepReturnsTheDeltas(hs: seq<Happening>, id: nat, kind: Kind, r: Reply, events: seq<Event>)
    requires id in Run(InitialWorld, hs).sessions
    requires var st := StateOf(Run(InitialWorld, hs), id);
             && Offers(st.s.easy, OpStep(kind)) && StepRefusal(st, kind, r).None? && r.rc == 0
             && Hears(st, kind) && FaultBefore(st, kind).None?
    requires AllCarriedBySlot(r.emissions, kind, events)
    ensures var st := StateOf(Run(InitialWorld, hs), id);
            Step(st, kind, r).1 == Ok(QueueBefore(st, kind) + events)
  {
    StepHearsIffArmed(hs, id, kind, r);
    SlotEvents(kind, r.emissions, events, None);
  }

  /** The same, spelled out for rows of cells and an empty queue. */
  lemma StepReturnsTheCells(hs: seq<Happening>, id: nat, r: Reply, rows: seq<(string, seq<int>, int)>)
    requires id in Run(InitialWorld, hs).sessions
    requires var st := StateOf(Run(InitialWorld, hs), id);
             && StepRefusal(st, Delta, r).None? && r.rc == 0
             && Hears(st, Delta) && FaultBefore(st, Delta).None? && QueueBefore(st, Delta) == []
    requires |r.emissions| == |rows|
    requires forall i :: 0 <= i < |rows| ==>
               r.emissions[i] == Emission(false, DeltaCall(Utf8(rows[i].0), Cells(rows[i].1), rows[i].2))
    ensures var out := Step(StateOf(Run(InitialWorld, hs), id), Delta, r).1;
            && out.Ok? && |out.value| == |rows|
            && forall i :: 0 <= i < |rows| ==> out.value[i] == DeltaEvent(rows[i].0, rows[i].1, rows[i].2)
  {
    var events := seq(|rows|, i requires 0 <= i < |rows| => DeltaEvent(rows[i].0, rows[i].1, rows[i].2));
    StepReturnsTheDeltas(hs, id, Delta, r, events);
    assert [] + events == events;
  }

  // ---------------------------------------------------------------- EasySession

  /** What `step` and `snapshot` of an `EasySession` make of each event: its relation and difference
      untouched, its cells decoded by the schema of its own relation, as far as there is one. */
  lemma EventsAreDecodedOneByOne(t: I.Table, program: Option<Program>, out: Outcome, i: nat, schema: Schema)
    ensures out.Err? ==> DecodeOutcome(t, program, out) == Err(out.error)
    ensures out.Ok? ==> DecodeOutcome(t, program, out).Ok? && |DecodeOutcome(t, program, out).value| == |out.value|
    ensures out.Ok? && i < |out.value| ==>
              var (e, d) := (out.value[i], DecodeOutcome(t, program, out).value[i]);
              && d.rel == e.rel
              && (e.TupleEvent? ==> d.diff == None) && (!e.TupleEvent? ==> d.diff == Some(e.diff))
              && (e.TypedEvent? ==> d.vals == e.vals)
              && (!e.TypedEvent? && program.Some? && e.rel in program.value && program.value[e.rel].schema == schema
                  ==> d.vals == DecodeRow(t, Some(schema), e.row))
              && (!e.TypedEvent? && (program.None? || e.rel !in program.value) ==> d.vals == DecodeRow(t, None, e.row))
  {
  }

  /** The cells of a row as the engine knows it, in a cache that knows its strings. */
  ghost predicate KnownRow(
    t: I.Table, program: Option<Program>, engine: I.Engine, rel: string, row: seq<Py>, cells: seq<int>)
  {
    && program.Some? && rel in program.value && WellTypedRow(row, program.value[rel].schema)
    && Interned(t, row) && cells == CodeOfRow(row, engine)
  }

  /** A well typed row that was inserted is known from then on, by the cells it was stored as. */
  lemma InsertedRowIsKnown(
    t: I.Table, program: Option<Program>, engine: I.Engine, rel: string, row: seq<Py>, answers: seq<int>,
    later: seq<I.Op>)
    requires program.Some? && rel in program.value && WellTypedRow(row, program.value[rel].schema)
    requires I.Injective(engine) && I.Refines(t, engine) && AnswersAgree(row, answers, engine)
    requires EncodeRow(t, row, answers).1.Ok? && I.AllAgree(later, engine)
    ensures var (u, ids) := EncodeRow(t, row, answers);
            && I.Refines(I.Run(u, later), engine)
            && KnownRow(I.Run(u, later), program, engine, rel, row, Stored(ids.value))
  {
    var u := EncodeRow(t, row, answers).0;
    EncodedRowIsTheEnginesCode(t, row, program.value[rel].schema, answers, engine);
    StoredCode(row, program.value[rel].schema, engine);
    I.RunRefinesEngine(u, later, engine);
  }

  /**
   End to end for `EasySession.step`: rows that were inserted, handed back by delta callbacks with
   their differences, come out as those rows with those differences, in order.
   */
  lemma EasyStepGivesRowsBack(
    hs: seq<Happening>, id: nat, r: Reply, t: I.Table, program: Option<Program>, engine: I.Engine,
    rows: seq<(string, seq<Py>, int)>, cells: seq<seq<int>>)
    requires id in Run(InitialWorld, hs).sessions
    requires var st := StateOf(Run(InitialWorld, hs), id);
             && StepRefusal(st, Delta, r).None? && r.rc == 0
             && Hears(st, Delta) && FaultBefore(st, Delta).None? && QueueBefore(st, Delta) == []
    requires I.Injective(engine) && I.Refines(t, engine)
    requires |r.emissions| == |rows| == |cells|
    requires forall i :: 0 <= i < |rows| ==>
               && KnownRow(t, program, engine, rows[i].0, rows[i].1, cells[i])
               && r.emissions[i] == Emission(false, DeltaCall(Utf8(rows[i].0), Cells(cells[i]), rows[i].2))
    ensures var out := DecodeOutcome(t, program, Step(StateOf(Run(InitialWorld, hs), id), Delta, r).1);
            && out.Ok? && |out.value| == |rows|
            && forall i :: 0 <= i < |rows| ==> out.value[i] == Decoded(rows[i].0, rows[i].1, Some(rows[i].2))
  {
    hide Step;
    var raw := seq(|rows|, i requires 0 <= i < |rows| => (rows[i].0, cells[i], rows[i].2));
    StepReturnsTheCells(hs, id, r, raw);
    var out := Step(StateOf(Run(InitialWorld, hs), id), Delta, r).1;
    forall i | 0 <= i < |rows|
      ensures DecodeOutcome(t, program, out).value[i] == Decoded(rows[i].0, rows[i].1, Some(rows[i].2))
    {
      assert KnownRow(t, program, engine, rows[i].0, rows[i].1, cells[i]);
      EventsAreDecodedOneByOne(t, program, out, i, program.value[rows[i].0].schema);
      DecodedCode(t, rows[i].1, program.value[rows[i].0].schema, engine);
    }
  }

  /** End to end for `EasySession.snapshot`. */
  lemma EasySnapshotGivesRowsBack(
    hs: seq<Happening>, id: nat, r: Reply, t: I.Table, program: Option<Program>, engine: I.Engine,
    rows: seq<(string, seq<Py>)>, cells: seq<seq<int>>)
    requires id in Run(InitialWorld, hs).sessions
    requires SnapshotRefusal(StateOf(Run(InitialWorld, hs), id), Tuple).None? && r.rc == 0
    requires I.Injective(engine) && I.Refines(t, engine)
    requires |r.emissions| == |rows| == |cells|
    requires forall i :: 0 <= i < |rows| ==>
               && KnownRow(t, program, engine, rows[i].0, rows[i].1, cells[i])
               && r.emissions[i] == Emission(true, TupleCall(Utf8(rows[i].0), Cells(cells[i])))
    ensures var out := DecodeOutcome(t, program, Snapshot(StateOf(Run(InitialWorld, hs), id), Tuple, r).1);
            && out.Ok? && |out.value| == |rows|
            && forall i :: 0 <= i < |rows| ==> out.value[i] == Decoded(rows[i].0, rows[i].1, None)
  {
    hide Snapshot;
    var raw := seq(|rows|, i requires 0 <= i < |rows| => (rows[i].0, cells[i]));
    SnapshotReturnsTheCells(hs, id, r, raw);
    var out := Snapshot(StateOf(Run(InitialWorld, hs), id), Tuple, r).1;
    forall i | 0 <= i < |rows|
      ensures DecodeOutcome(t, program, out).value[i] == Decoded(rows[i].0, rows[i].1, None)
    {
      assert KnownRow(t, program, engine, rows[i].0, rows[i].1, cells[i]);
      EventsAreDecodedOneByOne(t, program, out, i, program.value[rows[i].0].schema);
      DecodedCode(t, rows[i].1, program.value[rows[i].0].schema, engine);
    }
  }
}
