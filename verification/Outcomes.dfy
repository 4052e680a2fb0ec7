/** What each call of a session returns or raises and keeps, case by case. */
module Outcomes {
  import opened Wrappers
  import opened Protocol
  import opened Runs
  import opened Theorems
  import opened Deliveries
  import opened Registrations
  import opened Reports

  /** What each class has: `EasySession` untyped steps and snapshots and calls by symbol, `Session`
      both kinds of each. */
  lemma SurfaceOfTheClasses(kind: Kind, fn: Option<Callable>, n: nat, buffer: nat, interned: bool)
    ensures Offers(true, OpStep(kind)) <==> kind == Delta
    ensures Offers(true, OpSetCallback(kind, fn)) <==> kind == Delta
    ensures Offers(true, OpSnapshot(kind)) <==> kind == Tuple
    ensures Offers(false, OpStep(kind)) <==> kind != Tuple
    ensures Offers(false, OpSetCallback(kind, fn)) <==> kind != Tuple
    ensures Offers(false, OpSnapshot(kind)) <==> kind != Delta
    ensures Offers(true, OpUpdate(false, Encoded(buffer))) && !Offers(true, OpUpdate(true, Encoded(buffer)))
    ensures Offers(false, OpUpdate(false, NoRows)) && Offers(false, OpUpdate(true, NoRows))
    ensures Offers(true, OpUpdateSym(n, buffer, interned)) && !Offers(false, OpUpdateSym(n, buffer, interned))
    ensures forall easy: bool :: Offers(easy, OpMakeCompound) && Offers(easy, OpClose)
  {
  }

  /** What is left open about the engine's setters: an accepted one takes effect, a refused one may
      or may not, and either may null the other slot. */
  lemma SettersOfTheEngine(e: Engine, kind: Kind, token: Option<nat>, r: SetReply)
    ensures var f := SetEngineSlot(e, kind, token, r);
            && (r.rc == 0 || r.took ==> (kind in f.armed <==> token.Some?))
            && ((r.rc == 0 || r.took) && token.Some? ==> f.armed[kind] == token.value)
            && (r.rc != 0 && !r.took ==> (kind in f.armed <==> kind in e.armed))
            && (r.rc != 0 && !r.took && kind in e.armed ==> f.armed[kind] == e.armed[kind])
            && (forall k :: k != kind ==> (k in f.armed <==> k in e.armed && !r.clearsOther))
            && (forall k :: k != kind && k in f.armed ==> f.armed[k] == e.armed[k])
            && f.held == e.held && f.released == e.released
  {
  }

  /** Why a call is refused before it does anything, if it is; in the order the checks are made. */
  predicate Refused(st: State, op: Op, e: Error) {
    if !Offers(st.s.easy, op) then e == AttributeError
    else
      match op
      case OpSetCallback(kind, fn) =>
        || (kind == TypedDelta && !st.s.typedApi && e == VersionError)
        || (kind == Delta && st.s.easy && fn == Some(PrintDelta) && e == TypeError)
        || ((kind == Delta || st.s.typedApi) && !(st.s.easy && fn == Some(PrintDelta))
            && st.s.mode == Query && e == ModeError)
      case OpStep(kind) =>
        || (kind == TypedDelta && !st.s.typedApi && e == VersionError)
        || ((kind == Delta || st.s.typedApi) && st.s.mode == Query && e == ModeError)
      case OpSnapshot(kind) =>
        || (kind == TypedDelta && !st.s.typedApi && e == VersionError)
        || ((kind == Tuple || st.s.typedApi) && st.s.mode == Incremental && e == ModeError)
      case OpUpdate(typed, _) =>
        || (typed && !st.s.typedApi && e == VersionError)
        || ((!typed || st.s.typedApi) && !st.s.easy && st.s.mode == Query && e == ModeError)
      case OpUpdateSym(n, _, _) =>
        || (st.s.mode == Query && e == ModeError)
        || (st.s.mode != Query && n > 16 && e == ValueError)
      case _ => false
  }

  /** A refused call raises that error, and nothing but the mode can have changed. */
  lemma RefusedCallsRaise(st: State, op: Op, r: Reply, e: Error)
    requires Refused(st, op, e)
    ensures Apply(st, op, r).1 == Err(e)
    ensures Apply(st, op, r).0 == st.(s := st.s.(mode := Apply(st, op, r).0.s.mode))
  {
  }

  ghost predicate Unrefused(st: State, op: Op) {
    forall e :: !Refused(st, op, e)
  }

  lemma NotRefused(st: State, op: Op, e: Error)
    requires Unrefused(st, op)
    ensures !Refused(st, op, e)
  {
  }

  /**
   An insert or remove that is not refused: without rows it returns and changes nothing; rows that
   did not encode raise their error; else it returns exactly if the engine accepts, and raises the
   row diagnostic of a typed call or the engine's code if not. `EasySession` then has the buffer at
   the end of its list.
   */
  lemma UpdateOutcome(st: State, typed: bool, rows: Rows, r: Reply)
    requires Unrefused(st, OpUpdate(typed, rows))
    ensures var (u, out) := Apply(st, OpUpdate(typed, rows), r);
            && (out.Ok? <==> rows.NoRows? || (rows.Encoded? && r.rc == 0))
            && (rows.Unencodable? ==> out == Err(rows.error))
            && (rows.Encoded? && r.rc != 0 && typed && r.diagnostic != 0 ==> out == Err(TypedRowError(r.diagnostic)))
            && (rows.Encoded? && r.rc != 0 && !(typed && r.diagnostic != 0) ==> out == Err(EngineError(r.rc)))
            && u.s.pending
               == st.s.pending + (if st.s.easy && rows.Encoded? && r.rc == 0 then [rows.buffer] else [])
  {
    NotRefused(st, OpUpdate(typed, rows), VersionError);
    NotRefused(st, OpUpdate(typed, rows), ModeError);
    NotRefused(st, OpUpdate(typed, rows), AttributeError);
  }

  /** A callback or step of the other kind whose clearing the engine refuses: the old handle and its
      slot are gone all the same, no new one is made, and the call raises. */
  lemma RefusedSwitchDropsTheHandle(st: State, op: Op, kind: Kind, r: Reply)
    requires op == OpStep(kind) || (op.OpSetCallback? && op.kind == kind && op.fn.Some?)
    requires Unrefused(st, op) && st.s.cb.Some? && st.s.cb.value.kind != kind && r.clear.rc != 0
    ensures var (u, out) := Apply(st, op, r);
            && out == Err(EngineError(r.clear.rc)) && u.s.cb == None
            && st.s.cb.value.token !in u.reg.slots && u.reg.next == st.reg.next
  {
    NotRefused(st, op, AttributeError);
    NotRefused(st, op, VersionError);
    NotRefused(st, op, TypeError);
    NotRefused(st, op, ModeError);
  }

  lemma UpdateSymOutcome(st: State, n: nat, buffer: nat, interned: bool, r: Reply)
    requires Unrefused(st, OpUpdateSym(n, buffer, interned))
    ensures var (u, out) := Apply(st, OpUpdateSym(n, buffer, interned), r);
            && (out.Ok? <==> r.rc == 0 && interned)
            && (r.rc != 0 ==> out == Err(EngineError(r.rc)))
            && (r.rc == 0 && !interned ==> out == Err(InternError))
            && u.s.pending == st.s.pending + (if r.rc == 0 then [buffer] else [])
  {
    var op := OpUpdateSym(n, buffer, interned);
    NotRefused(st, op, ModeError);
    NotRefused(st, op, ValueError);
    NotRefused(st, op, AttributeError);
  }

  lemma MakeCompoundOutcome(st: State, r: Reply)
    ensures var (u, out) := Apply(st, OpMakeCompound, r);
            && (out.Ok? <==> r.rc == 0 && r.out != 0)
            && (r.rc != 0 ==> out == Err(EngineError(r.rc)))
            && (r.rc == 0 && r.out == 0 ==> out == Err(ExecError))
            && u.s.made == st.s.made + (if r.rc == 0 && r.out != 0 then [Compound(r.out, false)] else [])
  {
  }

  lemma SwitchKeepsInputs(st: State, kind: Kind, r: SetReply)
    ensures var s := SwitchTo(st, kind, r).0.s;
            s.pending == st.s.pending && s.easy == st.s.easy && s.succeeded == st.s.succeeded
    ensures SwitchTo(st, kind, r).1.Some? <==> !HasHandle(st.s, kind) && st.s.cb.Some? && r.rc != 0
    ensures SwitchTo(st, kind, r).1.None? ==> HasHandle(SwitchTo(st, kind, r).0.s, kind)
  {
    hide CloseSlot, OpenSlot, SetEngineSlot;
  }

  lemma StepRaisesKeepingInputs(st: State, kind: Kind, r: Reply)
    ensures StepRefusal(st, kind, r).Some? ==>
              Step(st, kind, r).0.s.pending == st.s.pending && Step(st, kind, r).0.s.succeeded == st.s.succeeded
    ensures var s := AtEvaluation(st, kind, r).s;
            StepRefusal(st, kind, r).None? ==>
              s.pending == st.s.pending && s.easy == st.s.easy && s.succeeded == st.s.succeeded
  {
    hide RunStep, SwitchTo;
    SwitchKeepsInputs(st.(s := st.s.(mode := RequireMode(st.s.mode, Incremental).0)), kind, r.clear);
    StepReaches(st, kind, r);
  }

  lemma RunStepReleases(st: State, r: Reply)
    requires st.s.cb.Some?
    ensures var (u, out) := RunStep(st, r);
            && u.s.pending == (if out.Ok? && st.s.easy then [] else st.s.pending)
            && u.s.succeeded == st.s.succeeded + (if out.Ok? then {Incremental} else {})
  {
  }

  lemma RunSnapshotReleases(st: State, kind: Kind, r: Reply)
    ensures var (u, out) := RunSnapshot(st, kind, r);
            && u.s.pending == (if out.Ok? && st.s.easy then [] else st.s.pending)
            && u.s.succeeded == st.s.succeeded + (if out.Ok? then {Query} else {})
  {
  }

  /** A step or snapshot that returns lets the inputs of an `EasySession` go; one that raises keeps
      them all. */
  lemma EvaluationReleasesInputs(st: State, op: Op, r: Reply)
    requires op.OpStep? || op.OpSnapshot?
    ensures var (u, out) := Apply(st, op, r);
            && (out.Ok? && st.s.easy ==> u.s.pending == [])
            && (out.Err? || !st.s.easy ==> u.s.pending == st.s.pending)
            && u.s.succeeded
               == st.s.succeeded + (if out.Err? then {} else {if op.OpStep? then Incremental else Query})
  {
    if Offers(st.s.easy, op) {
      match op
      case OpStep(kind) =>
        StepReaches(st, kind, r);
        StepRaisesKeepingInputs(st, kind, r);
        if StepRefusal(st, kind, r).None? {
          RunStepReleases(AtEvaluation(st, kind, r), r);
        }
      case OpSnapshot(kind) =>
        RunSnapshotReleases(st.(s := st.s.(mode := RequireMode(st.s.mode, Query).0)), kind, r);
    }
  }

  /** The engine calling back between two calls is heard by the session's own handle. */
  lemma FireIsHeard(st: State, call: RawCall, h: Handle, e: Event, r: Reply)
    requires st.s.cb == Some(h) && h.token in st.reg.slots && ArmedWith(st.s.engine.armed, h)
    requires OfKind(call, h.kind) && Carries(call, e)
    ensures var (u, out) := Apply(st, OpFire(call), r);
            && out == Ok([]) && h.token in u.reg.slots
            && u.reg.slots[h.token].queue == st.reg.slots[h.token].queue + [e]
  {
    TrampolinesQueueWhatIsCarried(call, e, BadRelationName);
  }

  lemma {:induction false} EmissionsOnlyAppend(
    r: Registry, armed: map<Kind, nat>, arg: Option<Handle>, ems: seq<Emission>)
    ensures r.log <= EmitAll(r, armed, arg, ems).log
    decreases |ems|
  {
    if ems != [] {
      EmissionsOnlyAppend(r, armed, arg, ems[..|ems| - 1]);
    }
  }

  /** The history records every evaluation with the buffers the engine then held and those the
      session then kept. */
  lemma EvaluationIsRecorded(st: State, h: Handle, arg: Option<Handle>, r: Reply)
    ensures var log := Evaluate(st, h, arg, r).reg.log;
            var n := |st.reg.log|;
            && |log| > n && log[..n] == st.reg.log && log[n].Evaluated?
            && log[n].held == st.s.engine.held && (forall b :: b in log[n].pending <==> b in st.s.pending)
  {
    var o := Circumstances(st.s.engine, st.s.pending, h, arg);
    EmissionsOnlyAppend(st.reg.(log := st.reg.log + [o]), st.s.engine.armed, arg, r.emissions);
  }
}
