/** What steps and snapshots return over whole runs, read off the history. */
module Deliveries {
  import opened Wrappers
  import opened Protocol
  import opened Runs
  import opened Theorems

  // ---------------------------------------------------------------- one call

  lemma RecordRemovesNothing(r: Registry, token: nat, what: Reception, t: nat)
    ensures Removed(Record(r, token, what).log, t) == Removed(r.log, t)
  {
    match what
    case Ignored =>
    case Received(e) => HistoryGrows(r.log, Queued(token, e), t);
    case Failed(f) => HistoryGrows(r.log, Faulted(token, f), t);
  }

  lemma {:induction false} EmissionsRemoveNothing(
    r: Registry, armed: map<Kind, nat>, arg: Option<Handle>, ems: seq<Emission>, t: nat)
    ensures Removed(EmitAll(r, armed, arg, ems).log, t) == Removed(r.log, t)
    decreases |ems|
  {
    if ems != [] {
      var k := |ems| - 1;
      EmissionsRemoveNothing(r, armed, arg, ems[..k], t);
      var mid := EmitAll(r, armed, arg, ems[..k]);
      var token := TokenFor(armed, arg, ems[k]);
      if token.Some? {
        RecordRemovesNothing(mid, token.value, Receive(ems[k].call), t);
      }
    }
  }

  lemma EvaluationRemovesNothing(st: State, h: Handle, arg: Option<Handle>, r: Reply, t: nat)
    ensures Removed(Evaluate(st, h, arg, r).reg.log, t) == Removed(st.reg.log, t)
  {
    var e := st.s.engine;
    var o := Circumstances(e, st.s.pending, h, arg);
    HistoryGrows(st.reg.log, o, t);
    EmissionsRemoveNothing(st.reg.(log := st.reg.log + [o]), e.armed, arg, r.emissions, t);
  }

  /** A drain raises the outstanding fault, or returns what was accepted and not taken out yet. */
  lemma DrainTakesTheQueue(r: Registry, token: nat)
    requires RegistryOk(r) && token in r.slots
    ensures match Outstanding(r.log, token)
            case Some(f) => Drain(r, token).1 == Err(CallbackError(f))
            case None => Drain(r, token).1.Ok?
                         && Accepted(r.log, token) == Removed(r.log, token) + Drain(r, token).1.value
    ensures Accepted(Drain(r, token).0.log, token) == Accepted(r.log, token) == Removed(Drain(r, token).0.log, token)
  {
    assert Balanced(r, token);
    HistoryGrows(r.log, Drained(token, r.slots[token].queue, r.slots[token].lastError), token);
  }

  lemma ClosingTakesTheRest(r: Registry, token: nat)
    requires RegistryOk(r) && token in r.slots
    ensures var u := CloseSlot(r, token);
            && Accepted(u.log, token) == Accepted(r.log, token) == Removed(u.log, token)
  {
    assert Balanced(r, token);
    HistoryGrows(r.log, Dropped(token, r.slots[token].queue), token);
  }

  /**
   The outcome a history calls for, `evaluated` being the history when the engine returned: the
   engine's error; else the fault then outstanding; else exactly the events accepted for the token
   and not taken out before the call.
   */
  ghost predicate Yields(before: seq<Obs>, evaluated: seq<Obs>, after: seq<Obs>, token: nat, rc: int, out: Outcome) {
    if rc != 0 then out == Err(EngineError(rc))
    else
      match Outstanding(evaluated, token)
      case Some(f) => out == Err(CallbackError(f))
      case None => out.Ok? && Accepted(after, token) == Removed(before, token) + out.value
  }

  lemma RunStepYields(st: State, r: Reply, others: set<nat>)
    requires Good(st, others) && st.s.cb.Some?
    ensures var (u, out) := RunStep(st, r);
            var h := st.s.cb.value;
            && Yields(st.reg.log, Evaluate(st, h, None, r).reg.log, u.reg.log, h.token, r.rc, out)
            && (if r.rc != 0 then Removed(u.reg.log, h.token) == Removed(st.reg.log, h.token)
                else Accepted(u.reg.log, h.token) == Removed(u.reg.log, h.token))
  {
    var h := st.s.cb.value;
    EvaluationRemovesNothing(st, h, None, r, h.token);
    EvaluateGood(st, h, None, others, {}, r);
    DrainTakesTheQueue(Evaluate(st, h, None, r).reg, h.token);
  }

  lemma RunSnapshotYields(st: State, kind: Kind, r: Reply, others: set<nat>)
    requires Good(st, others)
    ensures var (u, out) := RunSnapshot(st, kind, r);
            var h := Handle(kind, st.reg.next);
            var evaluated := Evaluate(st.(reg := OpenSlot(st.reg)), h, Some(h), r).reg.log;
            && Yields(st.reg.log, evaluated, u.reg.log, h.token, r.rc, out)
            && Accepted(st.reg.log, h.token) == Removed(st.reg.log, h.token) == [] && h.token !in u.reg.slots
            && Accepted(u.reg.log, h.token) == Removed(u.reg.log, h.token)
  {
    var h := Handle(kind, st.reg.next);
    var st0 := st.(reg := OpenSlot(st.reg));
    assert Balanced(st.reg, h.token);
    HistoryGrows(st.reg.log, Issued(h.token), h.token);
    OpenTemporary(st, others);
    EvaluationRemovesNothing(st0, h, Some(h), r, h.token);
    EvaluateGood(st0, h, Some(h), others, {h.token}, r);
    var reg := Evaluate(st0, h, Some(h), r).reg;
    if r.rc == 0 {
      DrainTakesTheQueue(reg, h.token);
      DrainKeeps(reg, h.token);
      reg := Drain(reg, h.token).0;
    }
    ClosingTakesTheRest(reg, h.token);
  }

  // ---------------------------------------------------------------- at the end of any run

  /** Why a step does not reach the engine, if it does not. */
  function StepRefusal(st: State, kind: Kind, r: Reply): Option<Error> {
    if kind == TypedDelta && !st.s.typedApi then Some(VersionError)
    else if !RequireMode(st.s.mode, Incremental).1 then Some(ModeError)
    else if HasHandle(st.s, kind) then None
    else if st.s.cb.Some? && r.clear.rc != 0 then Some(EngineError(r.clear.rc))
    else Check(r.arm.rc)
  }

  function SnapshotRefusal(st: State, kind: Kind): Option<Error> {
    if kind == TypedDelta && !st.s.typedApi then Some(VersionError)
    else if !RequireMode(st.s.mode, Query).1 then Some(ModeError)
    else None
  }

  function StateOf(w: World, id: nat): State
    requires id in w.sessions
  {
    State(w.reg, w.sessions[id])
  }

  /** The next token has no history, whatever slot is closed and opened. */
  lemma NextTokenIsFresh(r: Registry, closing: Option<nat>)
    requires RegistryOk(r) && (closing.Some? ==> closing.value in r.slots)
    ensures var cleared := if closing.Some? then CloseSlot(r, closing.value) else r;
            && cleared.next == r.next && OpenSlot(cleared).next == r.next + 1
            && Removed(OpenSlot(cleared).log, r.next) == Removed(r.log, r.next) == []
  {
    hide Removed;
    assert Balanced(r, r.next);
    var cleared := if closing.Some? then CloseSlot(r, closing.value) else r;
    if closing.Some? {
      HistoryGrows(r.log, Dropped(closing.value, r.slots[closing.value].queue), r.next);
    }
    HistoryGrows(cleared.log, Issued(r.next), r.next);
  }

  /** A step that makes its handle starts from an empty history of that handle. */
  lemma AcquiringStartsAfresh(st: State, kind: Kind, r: Reply, others: set<nat>)
    requires Good(st, others) && !HasHandle(st.s, kind) && NewArmedHandle(st, kind, r).1.None?
    ensures var u := NewArmedHandle(st, kind, r).0;
            && u.s.cb.Some?
            && Removed(u.reg.log, u.s.cb.value.token) == Removed(st.reg.log, u.s.cb.value.token)
  {
    hide Removed, RegistryOk, SessionOk, SlotsOk;
    NextTokenIsFresh(st.reg, if st.s.cb.Some? then Some(st.s.cb.value.token) else None);
  }

  /** A step either is refused or is the engine call from the state it reaches. */
  lemma StepReaches(st: State, kind: Kind, r: Reply)
    ensures match StepRefusal(st, kind, r)
            case Some(e) => Step(st, kind, r).1 == Err(e)
            case None =>
              var at := AtEvaluation(st, kind, r);
              at.s.cb.Some? && Step(st, kind, r) == RunStep(at, r)
    ensures StepRefusal(st, kind, r).None? && !HasHandle(st.s, kind) ==>
              NewArmedHandle(st.(s := st.s.(mode := RequireMode(st.s.mode, Incremental).0)), kind, r).1.None?
  {
    hide RunStep;
  }

  lemma StepYields(st: State, kind: Kind, r: Reply, others: set<nat>)
    requires Good(st, others) && Offers(st.s.easy, OpStep(kind))
    ensures var (u, out) := Step(st, kind, r);
            match StepRefusal(st, kind, r)
            case Some(e) => out == Err(e)
            case None =>
              var at := AtEvaluation(st, kind, r);
              && at.s.cb.Some?
              && var h := at.s.cb.value;
                 && Yields(st.reg.log, Evaluate(at, h, None, r).reg.log, u.reg.log, h.token, r.rc, out)
                 && (if r.rc != 0 then Removed(u.reg.log, h.token) == Removed(st.reg.log, h.token)
                     else Accepted(u.reg.log, h.token) == Removed(u.reg.log, h.token))
  {
    var st0 := st.(s := st.s.(mode := RequireMode(st.s.mode, Incremental).0));
    RequireModeKeeps(st, Incremental, others);
    StepReaches(st, kind, r);
    if StepRefusal(st, kind, r).None? {
      var at := AtEvaluation(st, kind, r);
      if !HasHandle(st.s, kind) {
        NewArmedHandleKeeps(st0, kind, r, others);
        AcquiringStartsAfresh(st0, kind, r, others);
      }
      RunStepYields(at, r, others);
    }
  }

  /**
   What a step returns or raises, at the end of any run and for every reply of the engine: the
   refusal of one of the checks and setters before it; else the engine's error, and nothing is
   taken out of its queue; else the fault outstanding when the engine returned; else exactly the
   events accepted for its token and not taken out before.
   */
  lemma StepReturnsWhatWasAccepted(hs: seq<Happening>, id: nat, kind: Kind, r: Reply)
    requires id in Run(InitialWorld, hs).sessions
    requires Offers(Run(InitialWorld, hs).sessions[id].easy, OpStep(kind))
    ensures var st := StateOf(Run(InitialWorld, hs), id);
            var (u, out) := Step(st, kind, r);
            match StepRefusal(st, kind, r)
            case Some(e) => out == Err(e)
            case None =>
              var at := AtEvaluation(st, kind, r);
              && at.s.cb.Some?
              && var h := at.s.cb.value;
                 && Yields(st.reg.log, Evaluate(at, h, None, r).reg.log, u.reg.log, h.token, r.rc, out)
                 && (if r.rc != 0 then Removed(u.reg.log, h.token) == Removed(st.reg.log, h.token)
                     else Accepted(u.reg.log, h.token) == Removed(u.reg.log, h.token))
  {
    RunIsOk(hs);
    var w := Run(InitialWorld, hs);
    SessionInWorld(w, id);
    StepYields(StateOf(w, id), kind, r, w.reg.slots.Keys - TokensOf(w.sessions[id]));
  }

  /**
   What a snapshot returns or raises, at the end of any run and for every reply of the engine, by
   the same rule; its token was never used before, and its slot and queue are gone afterwards
   whatever it returns or raises.
   */
  lemma SnapshotReturnsWhatWasAccepted(hs: seq<Happening>, id: nat, kind: Kind, r: Reply)
    requires id in Run(InitialWorld, hs).sessions
    ensures var st := StateOf(Run(InitialWorld, hs), id);
            var (u, out) := Snapshot(st, kind, r);
            match SnapshotRefusal(st, kind)
            case Some(e) => out == Err(e)
            case None =>
              var h := Handle(kind, st.reg.next);
              var evaluated := Evaluate(st.(reg := OpenSlot(st.reg)), h, Some(h), r).reg.log;
              && Yields(st.reg.log, evaluated, u.reg.log, h.token, r.rc, out)
              && Accepted(st.reg.log, h.token) == [] && h.token !in u.reg.slots
              && Accepted(u.reg.log, h.token) == Removed(u.reg.log, h.token)
  {
    RunIsOk(hs);
    var w := Run(InitialWorld, hs);
    SessionInWorld(w, id);
    var others := w.reg.slots.Keys - TokensOf(w.sessions[id]);
    var st := StateOf(w, id);
    RequireModeKeeps(st, Query, others);
    RunSnapshotYields(st.(s := st.s.(mode := RequireMode(st.s.mode, Query).0)), kind, r, others);
  }

  // ---------------------------------------------------------------- deliveries of a run

  /** The events that drains returned, in order. */
  ghost function Returned(log: seq<Obs>, t: nat): seq<Event> {
    if log == [] then []
    else
      var o := log[|log| - 1];
      Returned(log[..|log| - 1], t) + (if o.Drained? && o.raised.None? && o.token == t then o.events else [])
  }

  /** The events that raising drains threw away, and those still queued when the slot was closed. */
  ghost function Discarded(log: seq<Obs>, t: nat): seq<Event> {
    if log == [] then []
    else
      var o := log[|log| - 1];
      Discarded(log[..|log| - 1], t)
      + (if ((o.Drained? && o.raised.Some?) || o.Dropped?) && o.token == t then o.events else [])
  }

  lemma ReturnedGrows(log: seq<Obs>, o: Obs, t: nat)
    ensures Returned(log + [o], t)
            == Returned(log, t) + (if o.Drained? && o.raised.None? && o.token == t then o.events else [])
  {
    assert (log + [o])[..|log|] == log;
  }

  lemma DiscardedGrows(log: seq<Obs>, o: Obs, t: nat)
    ensures Discarded(log + [o], t)
            == Discarded(log, t)
               + (if ((o.Drained? && o.raised.Some?) || o.Dropped?) && o.token == t then o.events else [])
  {
    assert (log + [o])[..|log|] == log;
  }

  /** What was taken out was returned or discarded, nothing else and nothing twice. */
  lemma {:induction false} RemovedSplits(log: seq<Obs>, t: nat)
    ensures multiset(Removed(log, t)) == multiset(Returned(log, t)) + multiset(Discarded(log, t))
    decreases |log|
  {
    if log != [] {
      hide Removed, Returned, Discarded;
      var (before, o) := (log[..|log| - 1], log[|log| - 1]);
      RemovedSplits(before, t);
      assert log == before + [o];
      HistoryGrows(before, o, t);
      ReturnedGrows(before, o, t);
      DiscardedGrows(before, o, t);
    }
  }

  lemma {:induction false} NothingDiscarded(log: seq<Obs>, t: nat)
    requires Discarded(log, t) == []
    ensures Removed(log, t) == Returned(log, t)
    decreases |log|
  {
    if log != [] {
      hide Removed, Returned, Discarded;
      var (before, o) := (log[..|log| - 1], log[|log| - 1]);
      assert log == before + [o];
      HistoryGrows(before, o, t);
      ReturnedGrows(before, o, t);
      DiscardedGrows(before, o, t);
      NothingDiscarded(before, t);
    }
  }

  lemma CloseSlotReturnsNothing(r: Registry, token: nat, t: nat)
    ensures Returned(CloseSlot(r, token).log, t) == Returned(r.log, t)
  {
    if token in r.slots {
      ReturnedGrows(r.log, Dropped(token, r.slots[token].queue), t);
    }
  }

  lemma RecordReturnsNothing(r: Registry, token: nat, what: Reception, t: nat)
    ensures Returned(Record(r, token, what).log, t) == Returned(r.log, t)
  {
    match what
    case Ignored =>
    case Received(e) => ReturnedGrows(r.log, Queued(token, e), t);
    case Failed(f) => ReturnedGrows(r.log, Faulted(token, f), t);
  }

  lemma {:induction false} EmissionsReturnNothing(
    r: Registry, armed: map<Kind, nat>, arg: Option<Handle>, ems: seq<Emission>, t: nat)
    ensures Returned(EmitAll(r, armed, arg, ems).log, t) == Returned(r.log, t)
    decreases |ems|
  {
    if ems != [] {
      var k := |ems| - 1;
      EmissionsReturnNothing(r, armed, arg, ems[..k], t);
      var token := TokenFor(armed, arg, ems[k]);
      if token.Some? {
        RecordReturnsNothing(EmitAll(r, armed, arg, ems[..k]), token.value, Receive(ems[k].call), t);
      }
    }
  }

  lemma EvaluationReturnsNothing(st: State, h: Handle, arg: Option<Handle>, r: Reply, t: nat)
    ensures Returned(Evaluate(st, h, arg, r).reg.log, t) == Returned(st.reg.log, t)
  {
    var o := Circumstances(st.s.engine, st.s.pending, h, arg);
    ReturnedGrows(st.reg.log, o, t);
    EmissionsReturnNothing(st.reg.(log := st.reg.log + [o]), st.s.engine.armed, arg, r.emissions, t);
  }

  lemma SwitchReturnsNothing(st: State, kind: Kind, r: SetReply, t: nat)
    ensures Returned(SwitchTo(st, kind, r).0.reg.log, t) == Returned(st.reg.log, t)
  {
    if !HasHandle(st.s, kind) {
      var cleared := if st.s.cb.Some? then CloseSlot(st.reg, st.s.cb.value.token) else st.reg;
      if st.s.cb.Some? {
        CloseSlotReturnsNothing(st.reg, st.s.cb.value.token, t);
      }
      ReturnedGrows(cleared.log, Issued(cleared.next), t);
    }
  }

  /** What a drain returns goes into the history as returned. */
  lemma DrainReturns(r: Registry, token: nat, t: nat)
    ensures var (u, out) := Drain(r, token);
            Returned(u.log, t) == Returned(r.log, t) + if out.Ok? && token == t then out.value else []
  {
    if token in r.slots {
      ReturnedGrows(r.log, Drained(token, r.slots[token].queue, r.slots[token].lastError), t);
    }
  }

  /** What one outcome hands to the caller for the token `t`. */
  function Handed(out: Outcome, token: nat, t: nat): seq<Event> {
    if out.Ok? && token == t then out.value else []
  }

  lemma RunStepDelivers(st: State, r: Reply, t: nat)
    requires st.s.cb.Some?
    ensures var (u, out) := RunStep(st, r);
            Returned(u.reg.log, t) == Returned(st.reg.log, t) + Handed(out, st.s.cb.value.token, t)
  {
    var h := st.s.cb.value;
    EvaluationReturnsNothing(st, h, None, r, t);
    DrainReturns(Evaluate(st, h, None, r).reg, h.token, t);
  }

  lemma RunSnapshotDelivers(st: State, kind: Kind, r: Reply, t: nat)
    ensures var (u, out) := RunSnapshot(st, kind, r);
            Returned(u.reg.log, t) == Returned(st.reg.log, t) + Handed(out, st.reg.next, t)
  {
    var h := Handle(kind, st.reg.next);
    var st0 := st.(reg := OpenSlot(st.reg));
    ReturnedGrows(st.reg.log, Issued(h.token), t);
    EvaluationReturnsNothing(st0, h, Some(h), r, t);
    var reg := Evaluate(st0, h, Some(h), r).reg;
    DrainReturns(reg, h.token, t);
    CloseSlotReturnsNothing(if r.rc != 0 then reg else Drain(reg, h.token).0, h.token, t);
  }

  /** The token whose events a call returns, if it is a call that returns events. */
  function TokenRead(st: State, op: Op, r: Reply): Option<nat> {
    if op.OpStep? && Offers(st.s.easy, op) && StepRefusal(st, op.kind, r).None?
    then Some(AtEvaluation(st, op.kind, r).s.cb.value.token)
    else if op.OpSnapshot? && Offers(st.s.easy, op) && SnapshotRefusal(st, op.kind).None? then Some(st.reg.next)
    else None
  }

  /** What a call hands to its caller of the events of the token `t`. */
  function HandedBy(st: State, op: Op, r: Reply, t: nat): seq<Event> {
    var token := TokenRead(st, op, r);
    if token.Some? then Handed(Apply(st, op, r).1, token.value, t) else []
  }

  lemma StepDelivers(st: State, kind: Kind, r: Reply, t: nat)
    requires Offers(st.s.easy, OpStep(kind))
    ensures Returned(Step(st, kind, r).0.reg.log, t)
            == Returned(st.reg.log, t) + HandedBy(st, OpStep(kind), r, t)
  {
    hide RunStep;
    var st0 := st.(s := st.s.(mode := RequireMode(st.s.mode, Incremental).0));
    StepReaches(st, kind, r);
    SwitchReturnsNothing(st0, kind, r.clear, t);
    if StepRefusal(st, kind, r).None? {
      RunStepDelivers(AtEvaluation(st, kind, r), r, t);
    }
  }

  lemma SnapshotDelivers(st: State, kind: Kind, r: Reply, t: nat)
    requires Offers(st.s.easy, OpSnapshot(kind))
    ensures Returned(Snapshot(st, kind, r).0.reg.log, t)
            == Returned(st.reg.log, t) + HandedBy(st, OpSnapshot(kind), r, t)
  {
    hide RunSnapshot;
    RunSnapshotDelivers(st.(s := st.s.(mode := RequireMode(st.s.mode, Query).0)), kind, r, t);
  }

  lemma SetCallbackReturnsNothing(st: State, kind: Kind, fn: Option<Callable>, r: Reply, t: nat)
    ensures Returned(SetCallback(st, kind, fn, r).0.reg.log, t) == Returned(st.reg.log, t)
  {
    var st0 := st.(s := st.s.(mode := RequireMode(st.s.mode, Incremental).0));
    SwitchReturnsNothing(st0, kind, r.clear, t);
    if st.s.cb.Some? {
      CloseSlotReturnsNothing(st.reg, st.s.cb.value.token, t);
    }
  }

  lemma CallDelivers(st: State, op: Op, r: Reply, t: nat)
    ensures Returned(Apply(st, op, r).0.reg.log, t) == Returned(st.reg.log, t) + HandedBy(st, op, r, t)
  {
    hide SetCallback, Step, Snapshot;
    if Offers(st.s.easy, op) {
      match op
      case OpSetCallback(kind, fn) => SetCallbackReturnsNothing(st, kind, fn, r, t);
      case OpStep(kind) => StepDelivers(st, kind, r, t);
      case OpSnapshot(kind) => SnapshotDelivers(st, kind, r, t);
      case OpUpdate(_, _) =>
      case OpUpdateSym(_, _, _) =>
      case OpMakeCompound =>
      case OpInvalidate(_) =>
      case OpClose =>
        if st.s.cb.Some? {
          CloseSlotReturnsNothing(st.reg, st.s.cb.value.token, t);
        }
      case OpFire(call) =>
        var token := TokenFor(st.s.engine.armed, None, Emission(false, call));
        if token.Some? {
          RecordReturnsNothing(st.reg, token.value, Receive(call), t);
        }
    }
  }

  function HandedAt(w: World, h: Happening, t: nat): seq<Event> {
    if h.Call? && h.id in w.sessions then HandedBy(StateOf(w, h.id), h.op, h.reply, t) else []
  }

  lemma HappeningDelivers(w: World, h: Happening, t: nat)
    ensures Returned(Happen(w, h).reg.log, t) == Returned(w.reg.log, t) + HandedAt(w, h, t)
  {
    hide HandedBy, Apply, Returned;
    if h.Call? && h.id in w.sessions {
      CallDelivers(StateOf(w, h.id), h.op, h.reply, t);
    }
  }

  /** The values that the successful steps and snapshots of a run returned for the token `t`, one
      after the other. */
  function Delivered(w: World, hs: seq<Happening>, t: nat): seq<Event>
    decreases |hs|
  {
    if hs == [] then [] else HandedAt(w, hs[0], t) + Delivered(Happen(w, hs[0]), hs[1..], t)
  }

  lemma Joined(a: seq<Event>, b: seq<Event>, c: seq<Event>)
    ensures (a + b) + c == a + (b + c)
  {
  }

  lemma {:induction false} RunDelivers(w: World, hs: seq<Happening>, t: nat)
    ensures Returned(Run(w, hs).reg.log, t) == Returned(w.reg.log, t) + Delivered(w, hs, t)
    decreases |hs|
  {
    if hs != [] {
      hide Returned, HandedAt, Happen;
      var v := Happen(w, hs[0]);
      HappeningDelivers(w, hs[0], t);
      RunDelivers(v, hs[1..], t);
      Joined(Returned(w.reg.log, t), HandedAt(w, hs[0], t), Delivered(v, hs[1..], t));
    }
  }

  lemma NothingReturnedYet(t: nat)
    ensures Returned(InitialWorld.reg.log, t) == []
  {
  }

  /**
   Conservation between trampolines and callers. After any run, for every token: each event the
   trampolines accepted was returned to a caller, discarded by a raising drain or by closing, or is
   still queued - exactly one of the three, exactly once. While nothing was discarded, the values
   returned by the calls of the run, one after the other, followed by the queue, are the accepted
   events in order.
   */
  lemma AcceptedEventsAreDelivered(hs: seq<Happening>, t: nat)
    ensures var r := Run(InitialWorld, hs).reg;
            var delivered := Delivered(InitialWorld, hs, t);
            && delivered == Returned(r.log, t)
            && multiset(Accepted(r.log, t))
               == multiset(delivered) + multiset(Discarded(r.log, t)) + multiset(QueueOf(r, t))
            && (Discarded(r.log, t) == [] ==> Accepted(r.log, t) == delivered + QueueOf(r, t))
  {
    hide Accepted, Removed, Returned, Discarded, Delivered, Run, QueueOf;
    EventsAreConserved(hs, t, 0);
    RunDelivers(InitialWorld, hs, t);
    assert Returned(InitialWorld.reg.log, t) == [] by { NothingReturnedYet(t); }
    RemovedSplits(Run(InitialWorld, hs).reg.log, t);
    if Discarded(Run(InitialWorld, hs).reg.log, t) == [] {
      NothingDiscarded(Run(InitialWorld, hs).reg.log, t);
    }
  }
}
