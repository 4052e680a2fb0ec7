/**
 Which of the engine's callbacks a step hears: those of its own kind if its handle is armed, and
 none otherwise; and when a handle is armed, over whole runs.
 */
module Registrations {
  import opened Wrappers
  import opened Protocol
  import opened Runs
  import opened Theorems
  import opened Deliveries

  // ---------------------------------------------------------------- callbacks of one evaluation

  /** What one callback adds to the events of a token. */
  function EventOf(what: Reception, mine: bool): seq<Event> {
    if mine && what.Received? then [what.event] else []
  }

  /** The events that callbacks carrying the token `t` amount to, in order. */
  function EventsFor(armed: map<Kind, nat>, arg: Option<Handle>, ems: seq<Emission>, t: nat): seq<Event> {
    if ems == [] then []
    else
      var em := ems[|ems| - 1];
      EventsFor(armed, arg, ems[..|ems| - 1], t) + EventOf(Receive(em.call), TokenFor(armed, arg, em) == Some(t))
  }

  /** The last fault of these callbacks, or the one stashed before. */
  function FaultFor(armed: map<Kind, nat>, arg: Option<Handle>, ems: seq<Emission>, t: nat, before: Option<Fault>)
    : Option<Fault>
  {
    if ems == [] then before
    else
      var em := ems[|ems| - 1];
      if TokenFor(armed, arg, em) == Some(t) && Receive(em.call).Failed? then Some(Receive(em.call).fault)
      else FaultFor(armed, arg, ems[..|ems| - 1], t, before)
  }

  lemma RecordedForOne(r: Registry, token: nat, what: Reception, t: nat)
    requires t in r.slots
    ensures var u := Record(r, token, what);
            && t in u.slots
            && Accepted(u.log, t) == Accepted(r.log, t) + EventOf(what, token == t)
            && u.slots[t].queue == r.slots[t].queue + EventOf(what, token == t)
            && u.slots[t].lastError == (if token == t && what.Failed? then Some(what.fault) else r.slots[t].lastError)
  {
    hide Accepted, Removed, Outstanding;
    match what
    case Ignored =>
    case Received(e) => HistoryGrows(r.log, Queued(token, e), t);
    case Failed(f) => HistoryGrows(r.log, Faulted(token, f), t);
  }

  lemma EmittedForOne(r: Registry, armed: map<Kind, nat>, arg: Option<Handle>, em: Emission, t: nat)
    requires t in r.slots
    ensures var u := Emit(r, armed, arg, em);
            var mine := TokenFor(armed, arg, em) == Some(t);
            && t in u.slots
            && Accepted(u.log, t) == Accepted(r.log, t) + EventOf(Receive(em.call), mine)
            && u.slots[t].queue == r.slots[t].queue + EventOf(Receive(em.call), mine)
            && u.slots[t].lastError
               == (if mine && Receive(em.call).Failed? then Some(Receive(em.call).fault) else r.slots[t].lastError)
  {
    hide Record, Receive, Accepted;
    var token := TokenFor(armed, arg, em);
    if token.Some? {
      RecordedForOne(r, token.value, Receive(em.call), t);
    }
  }

  /** The trampolines accept for a live token exactly what the callbacks carrying it amount to. */
  lemma {:induction false} CallbacksAreAccepted(
    r: Registry, armed: map<Kind, nat>, arg: Option<Handle>, ems: seq<Emission>, t: nat)
    requires t in r.slots
    ensures var u := EmitAll(r, armed, arg, ems);
            && t in u.slots
            && Accepted(u.log, t) == Accepted(r.log, t) + EventsFor(armed, arg, ems, t)
            && u.slots[t].queue == r.slots[t].queue + EventsFor(armed, arg, ems, t)
            && u.slots[t].lastError == FaultFor(armed, arg, ems, t, r.slots[t].lastError)
    decreases |ems|
  {
    if ems != [] {
      hide Emit, Receive, Accepted, TokenFor, EventOf;
      var (k, em) := (|ems| - 1, ems[|ems| - 1]);
      CallbacksAreAccepted(r, armed, arg, ems[..k], t);
      EmittedForOne(EmitAll(r, armed, arg, ems[..k]), armed, arg, em, t);
      var event := EventOf(Receive(em.call), TokenFor(armed, arg, em) == Some(t));
      Joined(Accepted(r.log, t), EventsFor(armed, arg, ems[..k], t), event);
      Joined(r.slots[t].queue, EventsFor(armed, arg, ems[..k], t), event);
    }
  }

  /** What a drain that finds this queue and this fault returns or raises. */
  function DrainOf(queue: seq<Event>, fault: Option<Fault>): Outcome {
    if fault.Some? then Err(CallbackError(fault.value)) else Ok(queue)
  }

  lemma RunStepDrains(st: State, r: Reply)
    requires st.s.cb.Some? && st.s.cb.value.token in st.reg.slots
    ensures var t := st.s.cb.value.token;
            var armed := st.s.engine.armed;
            RunStep(st, r).1
            == if r.rc != 0 then Err(EngineError(r.rc))
               else DrainOf(st.reg.slots[t].queue + EventsFor(armed, None, r.emissions, t),
                            FaultFor(armed, None, r.emissions, t, st.reg.slots[t].lastError))
  {
    hide EmitAll, EventsFor, FaultFor;
    var h := st.s.cb.value;
    var o := Circumstances(st.s.engine, st.s.pending, h, None);
    CallbacksAreAccepted(st.reg.(log := st.reg.log + [o]), st.s.engine.armed, None, r.emissions, h.token);
  }

  // ---------------------------------------------------------------- heard or not

  /** The events of the callbacks an evaluation makes through the slot of this kind. */
  function Heard(kind: Kind, ems: seq<Emission>): seq<Event> {
    if ems == [] then []
    else
      var em := ems[|ems| - 1];
      Heard(kind, ems[..|ems| - 1]) + EventOf(Receive(em.call), !em.viaArgument && KindOf(em.call) == kind)
  }

  function FaultHeard(kind: Kind, ems: seq<Emission>, before: Option<Fault>): Option<Fault> {
    if ems == [] then before
    else
      var em := ems[|ems| - 1];
      if !em.viaArgument && KindOf(em.call) == kind && Receive(em.call).Failed? then Some(Receive(em.call).fault)
      else FaultHeard(kind, ems[..|ems| - 1], before)
  }

  /** The token stands in the slot of its kind and in no other. */
  predicate OnlyIn(armed: map<Kind, nat>, h: Handle) {
    forall k :: k in armed && armed[k] == h.token ==> k == h.kind
  }

  predicate ArmedWith(armed: map<Kind, nat>, h: Handle) {
    h.kind in armed && armed[h.kind] == h.token
  }

  lemma {:induction false} HeardIffArmed(armed: map<Kind, nat>, h: Handle, ems: seq<Emission>, before: Option<Fault>)
    requires OnlyIn(armed, h)
    ensures EventsFor(armed, None, ems, h.token) == if ArmedWith(armed, h) then Heard(h.kind, ems) else []
    ensures FaultFor(armed, None, ems, h.token, before)
            == if ArmedWith(armed, h) then FaultHeard(h.kind, ems, before) else before
    decreases |ems|
  {
    if ems != [] {
      hide Receive;
      HeardIffArmed(armed, h, ems[..|ems| - 1], before);
    }
  }

  /** What a step finds in the slot of its handle. */
  function QueueBefore(st: State, kind: Kind): seq<Event> {
    if HasHandle(st.s, kind) && st.s.cb.value.token in st.reg.slots then st.reg.slots[st.s.cb.value.token].queue else []
  }

  function FaultBefore(st: State, kind: Kind): Option<Fault> {
    if HasHandle(st.s, kind) && st.s.cb.value.token in st.reg.slots
    then st.reg.slots[st.s.cb.value.token].lastError
    else None
  }

  /** The step will reach the engine with its own slot armed with its own token. */
  predicate Hears(st: State, kind: Kind) {
    !HasHandle(st.s, kind) || ArmedWith(st.s.engine.armed, st.s.cb.value)
  }

  lemma GoodSlots(st: State, others: set<nat>)
    requires Good(st, others) && st.s.cb.Some?
    ensures st.s.cb.value.token in st.reg.slots && OnlyIn(st.s.engine.armed, st.s.cb.value)
  {
    hide RegistryOk, SessionOk;
    assert st.s.cb.value.token in TokensOf(st.s);
  }

  lemma NewSlotIsEmpty(st: State, kind: Kind, r: Reply)
    requires !HasHandle(st.s, kind) && NewArmedHandle(st, kind, r).1.None?
    ensures var u := NewArmedHandle(st, kind, r).0;
            && u.s.cb.Some? && u.s.cb.value.kind == kind && u.s.cb.value.token in u.reg.slots
            && u.reg.slots[u.s.cb.value.token] == Slot([], None, None)
            && ArmedWith(u.s.engine.armed, u.s.cb.value)
  {
  }

  lemma StepHearsInGoodState(st: State, kind: Kind, r: Reply, others: set<nat>)
    requires Good(st, others) && Offers(st.s.easy, OpStep(kind)) && StepRefusal(st, kind, r).None? && r.rc == 0
    ensures Step(st, kind, r).1
            == if Hears(st, kind)
               then DrainOf(QueueBefore(st, kind) + Heard(kind, r.emissions),
                            FaultHeard(kind, r.emissions, FaultBefore(st, kind)))
               else DrainOf(QueueBefore(st, kind), FaultBefore(st, kind))
  {
    hide RunStep, RegistryOk, SessionOk, SlotsOk, Heard, FaultHeard, EventsFor, FaultFor;
    var st0 := st.(s := st.s.(mode := RequireMode(st.s.mode, Incremental).0));
    RequireModeKeeps(st, Incremental, others);
    StepReaches(st, kind, r);
    var at := AtEvaluation(st, kind, r);
    if !HasHandle(st.s, kind) {
      NewArmedHandleKeeps(st0, kind, r, others);
      NewSlotIsEmpty(st0, kind, r);
    }
    GoodSlots(at, others);
    RunStepDrains(at, r);
    var slot := at.reg.slots[at.s.cb.value.token];
    HeardIffArmed(at.s.engine.armed, at.s.cb.value, r.emissions, slot.lastError);
    assert slot.queue == QueueBefore(st, kind) && slot.lastError == FaultBefore(st, kind);
    assert slot.queue + [] == slot.queue;
  }

  /**
   A step at the end of any run, once nothing before the engine refused it and the engine succeeded:
   if its slot is armed with its token, it finds everything the engine called back with for its
   kind, behind what was queued; if not, it is deaf and finds only what was queued.
   */
  lemma StepHearsIffArmed(hs: seq<Happening>, id: nat, kind: Kind, r: Reply)
    requires id in Run(InitialWorld, hs).sessions
    requires var st := StateOf(Run(InitialWorld, hs), id);
             Offers(st.s.easy, OpStep(kind)) && StepRefusal(st, kind, r).None? && r.rc == 0
    ensures var st := StateOf(Run(InitialWorld, hs), id);
            Step(st, kind, r).1
            == if Hears(st, kind)
               then DrainOf(QueueBefore(st, kind) + Heard(kind, r.emissions),
                            FaultHeard(kind, r.emissions, FaultBefore(st, kind)))
               else DrainOf(QueueBefore(st, kind), FaultBefore(st, kind))
  {
    RunIsOk(hs);
    var w := Run(InitialWorld, hs);
    SessionInWorld(w, id);
    StepHearsInGoodState(StateOf(w, id), kind, r, w.reg.slots.Keys - TokensOf(w.sessions[id]));
  }

  // ---------------------------------------------------------------- after a registration

  /** A call that cannot take the handle of this kind away: no clearing, no callback or step of the
      other kind, no close. It may fail or be refused as it likes. */
  predicate LeavesHandle(op: Op, kind: Kind) {
    match op
    case OpSetCallback(k, fn) => k == kind && fn.Some?
    case OpStep(k) => k == kind
    case OpClose => false
    case _ => true
  }

  ghost predicate Undisturbed(hs: seq<Happening>, id: nat, kind: Kind) {
    forall i :: 0 <= i < |hs| && hs[i].Call? && hs[i].id == id ==> LeavesHandle(hs[i].op, kind)
  }

  lemma SetCallbackKeepsArmed(st: State, kind: Kind, fn: Callable, r: Reply)
    requires RunsArmed(st, kind)
    ensures RunsArmed(SetCallback(st, kind, Some(fn), r).0, kind)
    ensures SetCallback(st, kind, Some(fn), r).0.s.cb == st.s.cb
  {
  }

  lemma StepKeepsArmed(st: State, kind: Kind, r: Reply)
    requires RunsArmed(st, kind)
    ensures RunsArmed(Step(st, kind, r).0, kind) && Step(st, kind, r).0.s.cb == st.s.cb
  {
    hide RunStep;
    SteppingKeepsSlots(st.(s := st.s.(mode := RequireMode(st.s.mode, Incremental).0)), r);
  }

  lemma CallKeepsArmed(st: State, op: Op, kind: Kind, r: Reply)
    requires RunsArmed(st, kind) && LeavesHandle(op, kind)
    ensures RunsArmed(Apply(st, op, r).0, kind)
  {
    hide SetCallback, Step, Snapshot;
    match op
    case OpSetCallback(k, fn) => SetCallbackKeepsArmed(st, k, fn.value, r);
    case OpStep(k) => StepKeepsArmed(st, k, r);
    case OpSnapshot(k) => SnapshotKeepsSlots(st, k, r);
    case _ =>
  }

  lemma {:induction false} RunKeepsArmed(w: World, hs: seq<Happening>, id: nat, kind: Kind)
    requires id in w.sessions && RunsArmed(StateOf(w, id), kind) && Undisturbed(hs, id, kind)
    ensures id in Run(w, hs).sessions && RunsArmed(StateOf(Run(w, hs), id), kind)
    decreases |hs|
  {
    if hs != [] {
      if hs[0].Call? && hs[0].id == id {
        CallKeepsArmed(StateOf(w, id), hs[0].op, kind, hs[0].reply);
      }
      RunKeepsArmed(Happen(w, hs[0]), hs[1..], id, kind);
    }
  }

  /**
   From a registration that returned, on any session after any run: every later step of that kind
   hears what the engine calls back with, until the session clears, turns to the other kind or
   closes - whatever else is called, fails or is refused in between, on this session or others.
   */
  lemma StepsHearAfterRegistration(
    hs: seq<Happening>, id: nat, kind: Kind, fn: Callable, reg: Reply, later: seq<Happening>, r: Reply)
    requires Answer(Run(InitialWorld, hs), id, OpSetCallback(kind, Some(fn)), reg) == Some(Ok([]))
    requires Undisturbed(later, id, kind)
    ensures var v := Run(Happen(Run(InitialWorld, hs), Call(id, OpSetCallback(kind, Some(fn)), reg)), later);
            && id in v.sessions && RunsArmed(StateOf(v, id), kind) && Hears(StateOf(v, id), kind)
            && (Step(StateOf(v, id), kind, r).1.Ok? ==> RunsArmed(AtEvaluation(StateOf(v, id), kind, r), kind))
  {
    RunIsOk(hs);
    var w := Run(InitialWorld, hs);
    SessionInWorld(w, id);
    RegisteringStoresAndArms(StateOf(w, id), kind, fn, reg, w.reg.slots.Keys - TokensOf(w.sessions[id]));
    RunKeepsArmed(Happen(w, Call(id, OpSetCallback(kind, Some(fn)), reg)), later, id, kind);
  }

  // ---------------------------------------------------------------- exactly when

  /** A setter that is refused has no effect. */
  predicate Inert(r: SetReply) {
    r.rc != 0 ==> !r.took && !r.clearsOther
  }

  ghost predicate AllInert(hs: seq<Happening>, id: nat) {
    forall i :: 0 <= i < |hs| && hs[i].Call? && hs[i].id == id ==> Inert(hs[i].reply.clear) && Inert(hs[i].reply.arm)
  }

  /** The engine accepts a registration in this call: a callable is set and the call returns, or a
      step finds no handle of its kind and nothing before the engine's own step is refused. */
  predicate Registers(st: State, op: Op, r: Reply) {
    match op
    case OpSetCallback(_, fn) => fn.Some? && Apply(st, op, r).1.Ok?
    case OpStep(kind) => Offers(st.s.easy, op) && !HasHandle(st.s, kind) && StepRefusal(st, kind, r).None?
    case _ => false
  }

  /** Whether the handle held after a call has been registered: now, or before if it is the same. */
  function RegisteredAfter(before: bool, st: State, op: Op, r: Reply): bool {
    var u := Apply(st, op, r).0;
    u.s.cb.Some? && (Registers(st, op, r) || (before && u.s.cb == st.s.cb))
  }

  /** Whether, over a run, the engine ever accepted the handle the session now holds. */
  function Registered(w: World, hs: seq<Happening>, id: nat, before: bool): bool
    decreases |hs|
  {
    if hs == [] then before
    else
      var h := hs[0];
      Registered(Happen(w, h), hs[1..], id,
                 if h.Call? && h.id == id && id in w.sessions
                 then RegisteredAfter(before, StateOf(w, id), h.op, h.reply) else before)
  }

  predicate IsArmed(s: Session) {
    s.cb.Some? && ArmedWith(s.engine.armed, s.cb.value)
  }

  lemma NewHandleIsArmedIffAccepted(st: State, kind: Kind, r: Reply, others: set<nat>)
    requires Good(st, others) && kind != Tuple && !HasHandle(st.s, kind) && Inert(r.clear) && Inert(r.arm)
    ensures var (u, e) := NewArmedHandle(st, kind, r);
            && IsArmed(u.s) == e.None?
            && (u.s.cb.Some? ==> u.s.cb != st.s.cb)
  {
    hide RegistryOk, SessionOk;
    if st.s.cb.Some? {
      assert st.s.cb.value.token in TokensOf(st.s);
    }
  }

  lemma RegisterFnArms(st: State, kind: Kind, fn: Callable, r: Reply, others: set<nat>)
    requires Good(st, others) && kind != Tuple && Inert(r.clear) && Inert(r.arm)
    ensures var (u, out) := RegisterFn(st, kind, fn, r);
            && (out.Ok? ==> IsArmed(u.s))
            && (out.Err? ==> IsArmed(u.s) == (IsArmed(st.s) && u.s.cb == st.s.cb))
  {
    if HasHandle(st.s, kind) {
      hide Good;
    } else {
      NewHandleIsArmedIffAccepted(st, kind, r, others);
      hide Good;
      assert RegisterFn(st, kind, fn, r).0.s == NewArmedHandle(st, kind, r).0.s;
    }
  }

  lemma SetCallbackArms(st: State, kind: Kind, fn: Option<Callable>, r: Reply, others: set<nat>)
    requires Good(st, others) && kind != Tuple && Inert(r.clear) && Inert(r.arm)
    ensures var (u, out) := SetCallback(st, kind, fn, r);
            IsArmed(u.s) == (u.s.cb.Some? && ((fn.Some? && out.Ok?) || (IsArmed(st.s) && u.s.cb == st.s.cb)))
  {
    var st0 := st.(s := st.s.(mode := RequireMode(st.s.mode, Incremental).0));
    RequireModeKeeps(st, Incremental, others);
    if fn.Some? {
      RegisterFnArms(st0, kind, fn.value, r, others);
      hide Good, RegisterFn;
    }
    hide Good;
  }

  lemma StepArms(st: State, kind: Kind, r: Reply, others: set<nat>)
    requires Good(st, others) && kind != Tuple && Inert(r.clear) && Inert(r.arm)
    ensures var u := Step(st, kind, r).0;
            IsArmed(u.s) == (u.s.cb.Some? && ((!HasHandle(st.s, kind) && StepRefusal(st, kind, r).None?)
                                              || (IsArmed(st.s) && u.s.cb == st.s.cb)))
  {
    hide RunStep;
    var st0 := st.(s := st.s.(mode := RequireMode(st.s.mode, Incremental).0));
    RequireModeKeeps(st, Incremental, others);
    if HasHandle(st.s, kind) {
      SteppingKeepsSlots(st0, r);
    } else {
      NewHandleIsArmedIffAccepted(st0, kind, r, others);
      if NewArmedHandle(st0, kind, r).1.None? {
        NewHandleIsArmed(st0, kind, r);
        SteppingKeepsSlots(NewArmedHandle(st0, kind, r).0, r);
      }
    }
    hide Good;
  }

  lemma UpdateKeepsSlots(st: State, typed: bool, rows: Rows, r: Reply)
    ensures var s := Update(st, typed, rows, r).0.s; s.engine.armed == st.s.engine.armed && s.cb == st.s.cb
  {
  }

  lemma UpdateSymKeepsSlots(st: State, n: nat, buffer: nat, interned: bool, r: Reply)
    ensures var s := UpdateSym(st, n, buffer, interned, r).0.s;
            s.engine.armed == st.s.engine.armed && s.cb == st.s.cb
  {
  }

  /** A handle is armed after a call exactly when it has been registered. */
  lemma CallArmsIffRegistered(st: State, op: Op, r: Reply, others: set<nat>)
    requires Good(st, others) && Inert(r.clear) && Inert(r.arm)
    ensures IsArmed(Apply(st, op, r).0.s) == RegisteredAfter(IsArmed(st.s), st, op, r)
  {
    hide SetCallback, Step, Snapshot, UpdateSym, Update, Good;
    if Offers(st.s.easy, op) {
      match op
      case OpSetCallback(kind, fn) => SetCallbackArms(st, kind, fn, r, others);
      case OpStep(kind) => StepArms(st, kind, r, others);
      case OpSnapshot(kind) => SnapshotKeepsSlots(st, kind, r);
      case OpUpdate(typed, rows) => UpdateKeepsSlots(st, typed, rows, r);
      case OpUpdateSym(n, buffer, interned) => UpdateSymKeepsSlots(st, n, buffer, interned, r);
      case _ =>
    }
  }

  lemma NewSessionIsNotArmed(easy: bool, typedApi: bool, parsed: bool)
    ensures !IsArmed(NewSession(easy, typedApi, parsed))
  {
  }

  lemma {:induction false} RunArmsIffRegistered(w: World, hs: seq<Happening>, id: nat, before: bool)
    requires WorldOk(w) && AllInert(hs, id) && before == (id in w.sessions && IsArmed(w.sessions[id]))
    ensures Registered(w, hs, id, before) == (id in Run(w, hs).sessions && IsArmed(Run(w, hs).sessions[id]))
    decreases |hs|
  {
    if hs != [] {
      hide Good, WorldOk, RegisteredAfter, IsArmed, Apply;
      var h := hs[0];
      HappenKeepsWorld(w, h);
      var now := if h.Call? && h.id == id && id in w.sessions
                 then RegisteredAfter(before, StateOf(w, id), h.op, h.reply) else before;
      if h.Call? && h.id == id && id in w.sessions {
        SessionInWorld(w, id);
        CallArmsIffRegistered(StateOf(w, id), h.op, h.reply, w.reg.slots.Keys - TokensOf(w.sessions[id]));
      } else if h.Open? && h.id == id && id !in w.sessions && h.granted {
        NewSessionIsNotArmed(h.easy, h.typedApi, h.parsed);
      }
      RunArmsIffRegistered(Happen(w, h), hs[1..], id, now);
    }
  }

  /**
   Exactly when a step hears, if refused setters have no effect: at the end of any run, for a step
   that nothing refuses and whose engine call succeeds, when the session holds no handle of its kind
   or the engine has ever accepted the one it holds. Otherwise the step is deaf: it finds what was
   queued before and nothing that the engine calls back with.
   */
  lemma StepHearsIffRegistered(hs: seq<Happening>, id: nat, kind: Kind, r: Reply)
    requires id in Run(InitialWorld, hs).sessions && AllInert(hs, id)
    requires var st := StateOf(Run(InitialWorld, hs), id);
             Offers(st.s.easy, OpStep(kind)) && StepRefusal(st, kind, r).None? && r.rc == 0
    ensures var st := StateOf(Run(InitialWorld, hs), id);
            Step(st, kind, r).1
            == if !HasHandle(st.s, kind) || Registered(InitialWorld, hs, id, false)
               then DrainOf(QueueBefore(st, kind) + Heard(kind, r.emissions),
                            FaultHeard(kind, r.emissions, FaultBefore(st, kind)))
               else DrainOf(QueueBefore(st, kind), FaultBefore(st, kind))
  {
    InitialWorldOk();
    RunArmsIffRegistered(InitialWorld, hs, id, false);
    StepHearsIffArmed(hs, id, kind, r);
  }
}
