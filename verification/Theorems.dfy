/** The promises of the session layer over whole runs, read off the invariants of `Runs`. */
module Theorems {
  import opened Wrappers
  import opened Protocol
  import opened Runs

  // ---------------------------------------------------------------- the registry

  lemma SlotsAreNotShared(w: World, id: nat, jd: nat)
    requires WorldOk(w) && id in w.sessions && jd in w.sessions && id != jd
    ensures TokensOf(w.sessions[id]) !! TokensOf(w.sessions[jd])
  {
    if u :| u in TokensOf(w.sessions[id]) && u in TokensOf(w.sessions[jd]) {
      assert Holds(w, id, u) && Holds(w, jd, u);
    }
  }

  /** Opening changes the world exactly if the engine grants it under a name not yet taken, and then
      only by one session that holds nothing. */
  lemma OpeningASession(w: World, h: Happening)
    requires h.Open?
    ensures !h.granted || h.id in w.sessions ==> Happen(w, h) == w
    ensures h.granted && h.id !in w.sessions ==>
              var v := Happen(w, h);
              && v.reg == w.reg && v.sessions.Keys == w.sessions.Keys + {h.id}
              && (forall id :: id in w.sessions ==> v.sessions[id] == w.sessions[id])
              && var s := v.sessions[h.id];
                 && s.mode == Unset && s.cb == None && s.engine.armed == map[] && s.pending == [] && s.made == []
                 && !s.closed && s.easy == h.easy && s.typedApi == h.typedApi
  {
  }

  /**
   After any run of any sessions, with any engine call failing anywhere: a slot exists exactly for
   each handle some session holds, no two sessions share one, and tokens were issued in strictly
   increasing order, so none was ever reused.
   */
  lemma RegistryIsExact(hs: seq<Happening>, t: nat, i: nat, j: nat)
    ensures var w := Run(InitialWorld, hs);
            && (t in w.reg.slots
                <==> exists id :: id in w.sessions && w.sessions[id].cb.Some? && w.sessions[id].cb.value.token == t)
            && (i in w.sessions && j in w.sessions && i != j ==> TokensOf(w.sessions[i]) !! TokensOf(w.sessions[j]))
            && (i < j < |w.reg.log| && w.reg.log[i].Issued? && w.reg.log[j].Issued?
                ==> w.reg.log[i].token < w.reg.log[j].token)
  {
    RunIsOk(hs);
    var w := Run(InitialWorld, hs);
    SlotsAreHeld(w, t);
    if i in w.sessions && j in w.sessions && i != j {
      SlotsAreNotShared(w, i, j);
    }
  }

  /** The world around one session, as the session's invariant wants it. */
  lemma SessionInWorld(w: World, id: nat)
    requires WorldOk(w) && id in w.sessions
    ensures Good(State(w.reg, w.sessions[id]), w.reg.slots.Keys - TokensOf(w.sessions[id]))
  {
    assert forall t :: t in TokensOf(w.sessions[id]) ==> Holds(w, id, t);
  }

  lemma CallFrame(w: World, id: nat, op: Op, reply: Reply)
    requires WorldOk(w) && id in w.sessions
    ensures Frame(w.reg, Happen(w, Call(id, op, reply)).reg, w.reg.slots.Keys - TokensOf(w.sessions[id]))
  {
    SessionInWorld(w, id);
    ApplyKeeps(State(w.reg, w.sessions[id]), op, reply, w.reg.slots.Keys - TokensOf(w.sessions[id]));
  }

  lemma {:induction false} DeadTokensStayDead(w: World, hs: seq<Happening>, t: nat)
    requires WorldOk(w) && t < w.reg.next && t !in w.reg.slots
    ensures t !in Run(w, hs).reg.slots
    decreases |hs|
  {
    if hs != [] {
      var v := Happen(w, hs[0]);
      HappenKeepsWorld(w, hs[0]);
      if hs[0].Call? && hs[0].id in w.sessions {
        CallFrame(w, hs[0].id, hs[0].op, hs[0].reply);
      }
      DeadTokensStayDead(v, hs[1..], t);
    }
  }

  /** After any run, a slot the engine has armed names its own session's current handle of the same
      kind, or a token that is in no registry slot and never will be again. */
  lemma ArmedSlotsAreOwnOrDead(hs: seq<Happening>, later: seq<Happening>, id: nat, k: Kind)
    requires id in Run(InitialWorld, hs).sessions && k in Run(InitialWorld, hs).sessions[id].engine.armed
    ensures var w := Run(InitialWorld, hs);
            var s := w.sessions[id];
            || s.cb == Some(Handle(k, s.engine.armed[k]))
            || (s.engine.armed[k] !in w.reg.slots && s.engine.armed[k] !in Run(w, later).reg.slots)
  {
    RunIsOk(hs);
    var w := Run(InitialWorld, hs);
    var t := w.sessions[id].engine.armed[k];
    if t !in w.reg.slots {
      DeadTokensStayDead(w, later, t);
    }
  }

  // ---------------------------------------------------------------- events

  /**
   After any run, for every token: the events its trampolines accepted are, in order, those that
   drains and closings took out followed by those still queued; and every drain raised exactly the
   last fault of that token's trampolines since the drain before it.
   */
  lemma EventsAreConserved(hs: seq<Happening>, t: nat, i: nat)
    ensures var r := Run(InitialWorld, hs).reg;
            && Accepted(r.log, t) == Removed(r.log, t) + QueueOf(r, t)
            && (i < |r.log| && r.log[i].Drained? ==> r.log[i].raised == Outstanding(r.log[..i], r.log[i].token))
  {
    RunIsOk(hs);
    assert Balanced(Run(InitialWorld, hs).reg, t);
  }

  lemma OthersSlotIsUntouched(w: World, id: nat, jd: nat, op: Op, reply: Reply, t: nat)
    requires WorldOk(w) && id in w.sessions && id != jd && Holds(w, jd, t)
    ensures t in w.reg.slots && SameSlot(w.reg, Happen(w, Call(id, op, reply)).reg, t)
  {
    assert t in TokensOf(w.sessions[id]) ==> Holds(w, id, t);
    CallFrame(w, id, op, reply);
  }

  /** A call of one session leaves the queue and the stashed fault of every other session's handle
      as they were, whatever tokens its engine calls back with. */
  lemma OthersQueuesAreUntouched(hs: seq<Happening>, id: nat, jd: nat, op: Op, reply: Reply, t: nat)
    requires id in Run(InitialWorld, hs).sessions && id != jd && Holds(Run(InitialWorld, hs), jd, t)
    ensures t in Run(InitialWorld, hs).reg.slots
    ensures SameSlot(Run(InitialWorld, hs).reg, Happen(Run(InitialWorld, hs), Call(id, op, reply)).reg, t)
  {
    RunIsOk(hs);
    OthersSlotIsUntouched(Run(InitialWorld, hs), id, jd, op, reply, t);
  }

  // ---------------------------------------------------------------- arming

  /** At most one slot is armed: that of the current handle, with its token. */
  predicate ArmedExactly(s: Session) {
    s.engine.armed == if s.cb.Some? then map[s.cb.value.kind := s.cb.value.token] else map[]
  }

  /** No slot is armed, or that of the current handle with its token. */
  predicate ArmedAtMost(s: Session) {
    s.engine.armed == map[] || ArmedExactly(s)
  }

  predicate RunsArmed(st: State, kind: Kind) {
    HasHandle(st.s, kind) && kind in st.s.engine.armed && st.s.engine.armed[kind] == st.s.cb.value.token
  }

  lemma SwitchingDisarms(st: State, kind: Kind, r: SetReply)
    requires ArmedExactly(st.s) && r.rc == 0
    ensures var (u, e) := SwitchTo(st, kind, r); e.None? && HasHandle(u.s, kind) && ArmedAtMost(u.s)
  {
  }

  lemma RegisteringArms(st: State, r: SetReply)
    requires st.s.cb.Some? && ArmedAtMost(st.s) && r.rc == 0
    ensures Arm(st, r).1.None? && ArmedExactly(Arm(st, r).0.s) && Arm(st, r).0.s.cb == st.s.cb
  {
  }

  lemma SteppingKeepsSlots(st: State, r: Reply)
    requires st.s.cb.Some?
    ensures RunStep(st, r).0.s.engine.armed == st.s.engine.armed && RunStep(st, r).0.s.cb == st.s.cb
  {
  }

  lemma ClearsDisarm(st: State, r: SetReply)
    requires ArmedExactly(st.s) && st.s.cb.Some? && r.rc == 0
    ensures ArmedExactly(ClearCallback(st, r).0.s) && ArmedExactly(EasyClearCallback(st, r).0.s)
    ensures ClearCallback(st, r).0.s.cb.None?
  {
  }

  lemma SetCallbackArmsExactly(st: State, kind: Kind, fn: Option<Callable>, r: Reply)
    requires ArmedExactly(st.s) && r.clear.rc == 0 && r.arm.rc == 0
    ensures ArmedExactly(SetCallback(st, kind, fn, r).0.s)
  {
    var st0 := st.(s := st.s.(mode := RequireMode(st.s.mode, Incremental).0));
    if fn.Some? {
      SwitchingDisarms(st0, kind, r.clear);
      var u := SwitchTo(st0, kind, r.clear).0;
      RegisteringArms(u.(reg := SetUserFn(u.reg, u.s.cb.value.token, fn.value)), r.arm);
    } else if st.s.cb.Some? {
      ClearsDisarm(st0, r.clear);
    }
  }

  lemma StepArmsExactly(st: State, kind: Kind, r: Reply)
    requires ArmedExactly(st.s) && r.clear.rc == 0 && r.arm.rc == 0
    ensures ArmedExactly(Step(st, kind, r).0.s)
  {
    var st0 := st.(s := st.s.(mode := RequireMode(st.s.mode, Incremental).0));
    if HasHandle(st.s, kind) {
      SteppingKeepsSlots(st0, r);
    } else {
      SwitchingDisarms(st0, kind, r.clear);
      RegisteringArms(SwitchTo(st0, kind, r.clear).0, r.arm);
      SteppingKeepsSlots(NewArmedHandle(st0, kind, r).0, r);
    }
  }

  lemma CloseArmsExactly(st: State, r: Reply)
    requires ArmedExactly(st.s) && r.clear.rc == 0
    ensures ArmedExactly(Close(st, r).0.s)
  {
    if st.s.cb.Some? {
      ClearsDisarm(st.(s := LetGo(st.s)), r.clear);
    }
  }

  lemma RunSnapshotKeepsSlots(st: State, kind: Kind, r: Reply)
    ensures var s := RunSnapshot(st, kind, r).0.s; s.engine.armed == st.s.engine.armed && s.cb == st.s.cb
  {
  }

  lemma SnapshotKeepsSlots(st: State, kind: Kind, r: Reply)
    ensures var s := Snapshot(st, kind, r).0.s; s.engine.armed == st.s.engine.armed && s.cb == st.s.cb
  {
    hide RunSnapshot;
    RunSnapshotKeepsSlots(st.(s := st.s.(mode := RequireMode(st.s.mode, Query).0)), kind, r);
  }

  lemma CallsArmExactly(st: State, op: Op, r: Reply)
    requires ArmedExactly(st.s) && r.clear.rc == 0 && r.arm.rc == 0
    ensures ArmedExactly(Apply(st, op, r).0.s)
  {
    hide SetCallback, Step, Snapshot, Close;
    if Offers(st.s.easy, op) {
      match op
      case OpSetCallback(kind, fn) => SetCallbackArmsExactly(st, kind, fn, r);
      case OpStep(kind) => StepArmsExactly(st, kind, r);
      case OpSnapshot(kind) => SnapshotKeepsSlots(st, kind, r);
      case OpUpdate(_, _) =>
      case OpUpdateSym(_, _, _) =>
      case OpMakeCompound =>
      case OpInvalidate(_) =>
      case OpClose => CloseArmsExactly(st, r);
      case OpFire(_) =>
    }
  }

  /**
   Clearing a callback in the right mode: the call raises exactly the engine's refusal, and the
   handle with its slot goes, unless an `EasySession` was refused.
   */
  lemma ClearingDropsTheHandle(st: State, kind: Kind, r: Reply)
    requires st.s.cb.Some? && RequireMode(st.s.mode, Incremental).1 && (kind == TypedDelta ==> st.s.typedApi)
    ensures var (u, out) := SetCallback(st, kind, None, r);
            && out == (if r.clear.rc == 0 then Ok([]) else Err(EngineError(r.clear.rc)))
            && u.s.cb == (if st.s.easy && r.clear.rc != 0 then st.s.cb else None)
            && (st.s.cb.value.token in u.reg.slots
                <==> st.s.cb.value.token in st.reg.slots && st.s.easy && r.clear.rc != 0)
  {
  }

  lemma SwitchingMakesSlot(st: State, kind: Kind, r: SetReply)
    requires st.s.cb.Some? ==> st.s.cb.value.token in st.reg.slots
    ensures var (u, e) := SwitchTo(st, kind, r);
            && (e.None? <==> st.s.cb.None? || HasHandle(st.s, kind) || r.rc == 0)
            && (e.None? ==>
                  && HasHandle(u.s, kind) && u.s.cb.value.token in u.reg.slots
                  && u.reg.slots[u.s.cb.value.token].queue
                     == (if HasHandle(st.s, kind) then st.reg.slots[st.s.cb.value.token].queue else []))
  {
  }

  lemma StoringAndArming(st: State, kind: Kind, fn: Callable, r: SetReply)
    requires HasHandle(st.s, kind) && st.s.cb.value.token in st.reg.slots
    ensures var (u, e) := Arm(st.(reg := SetUserFn(st.reg, st.s.cb.value.token, fn)), r);
            && u.s.cb == st.s.cb && u.s.cb.value.token in u.reg.slots
            && u.reg.slots[u.s.cb.value.token] == st.reg.slots[u.s.cb.value.token].(userFn := Some(fn))
            && (e.None? <==> r.rc == 0) && (e.None? ==> RunsArmed(u, kind))
  {
  }

  /**
   Registering a callable in the right mode succeeds exactly when the engine accepts the setter
   and, if a handle of the other kind stands in the way, its clearing. The slot then holds the
   callable and the engine is armed with it; a handle that was there keeps what it had queued.
   */
  lemma RegisteringStoresAndArms(st: State, kind: Kind, fn: Callable, r: Reply, others: set<nat>)
    requires Good(st, others) && RequireMode(st.s.mode, Incremental).1
    requires (kind == TypedDelta ==> st.s.typedApi) && !(st.s.easy && fn == PrintDelta)
    ensures var (u, out) := SetCallback(st, kind, Some(fn), r);
            && (out.Ok? <==> r.arm.rc == 0 && (st.s.cb.None? || HasHandle(st.s, kind) || r.clear.rc == 0))
            && (out.Ok? ==>
                  && RunsArmed(u, kind) && u.s.cb.value.token in u.reg.slots
                  && var slot := u.reg.slots[u.s.cb.value.token];
                     && slot.userFn == Some(fn)
                     && slot.queue == (if HasHandle(st.s, kind) then st.reg.slots[st.s.cb.value.token].queue else []))
  {
    assert st.s.cb.Some? ==> st.s.cb.value.token in TokensOf(st.s);
    hide RegistryOk, SessionOk, SlotsOk, Frame;
    var st0 := st.(s := st.s.(mode := RequireMode(st.s.mode, Incremental).0));
    SwitchingMakesSlot(st0, kind, r.clear);
    var (st1, e) := SwitchTo(st0, kind, r.clear);
    if e.None? {
      StoringAndArming(st1, kind, fn, r.arm);
    }
    hide SwitchTo, Arm;
  }

  /** Every clear and registration of this session returned OK. */
  ghost predicate SettersOk(hs: seq<Happening>, id: nat) {
    forall i :: 0 <= i < |hs| && hs[i].Call? && hs[i].id == id ==> hs[i].reply.clear.rc == 0 && hs[i].reply.arm.rc == 0
  }

  lemma {:induction false} RunArmsExactly(w: World, hs: seq<Happening>, id: nat)
    requires SettersOk(hs, id) && (id in w.sessions ==> ArmedExactly(w.sessions[id]))
    ensures id in Run(w, hs).sessions ==> ArmedExactly(Run(w, hs).sessions[id])
    decreases |hs|
  {
    if hs != [] {
      if hs[0].Call? && hs[0].id == id && id in w.sessions {
        CallsArmExactly(State(w.reg, w.sessions[id]), hs[0].op, hs[0].reply);
      }
      RunArmsExactly(Happen(w, hs[0]), hs[1..], id);
    }
  }

  /** The state in which a step reaches the engine. */
  function AtEvaluation(st: State, kind: Kind, r: Reply): State {
    var st0 := st.(s := st.s.(mode := RequireMode(st.s.mode, Incremental).0));
    if HasHandle(st.s, kind) then st0 else NewArmedHandle(st0, kind, r).0
  }

  lemma NewHandleIsArmed(st: State, kind: Kind, r: Reply)
    requires NewArmedHandle(st, kind, r).1.None?
    ensures RunsArmed(NewArmedHandle(st, kind, r).0, kind)
  {
    var (st1, e) := SwitchTo(st, kind, r.clear);
    assert HasHandle(st1.s, kind);
  }

  /**
   A step that returns ran with its own handle of its own kind armed, exactly when the session had
   no handle of that kind before, or had one the engine's slot already named. A handle that is
   there but was never armed is not registered again.
   */
  lemma StepRunsArmedIff(st: State, kind: Kind, r: Reply)
    requires Step(st, kind, r).1.Ok?
    ensures AtEvaluation(st, kind, r).s.cb.Some?
    ensures Step(st, kind, r) == RunStep(AtEvaluation(st, kind, r), r)
    ensures RunsArmed(AtEvaluation(st, kind, r), kind) <==> !HasHandle(st.s, kind) || RunsArmed(st, kind)
  {
    var st0 := st.(s := st.s.(mode := RequireMode(st.s.mode, Incremental).0));
    if !HasHandle(st.s, kind) {
      assert NewArmedHandle(st0, kind, r).1.None?;
      NewHandleIsArmed(st0, kind, r);
    }
  }

  /** Over any run: while this session's clears and registrations return OK, whatever happens to
      other sessions, at most one slot is armed and every step that returns ran armed. */
  lemma StepsRunArmed(hs: seq<Happening>, id: nat, kind: Kind, r: Reply)
    requires SettersOk(hs, id) && id in Run(InitialWorld, hs).sessions
    requires r.clear.rc == 0 && r.arm.rc == 0
    ensures var w := Run(InitialWorld, hs);
            var st := State(w.reg, w.sessions[id]);
            && |st.s.engine.armed| <= 1
            && (Step(st, kind, r).1.Ok? ==> RunsArmed(AtEvaluation(st, kind, r), kind))
  {
    RunArmsExactly(InitialWorld, hs, id);
    var w := Run(InitialWorld, hs);
    var st := State(w.reg, w.sessions[id]);
    if Step(st, kind, r).1.Ok? {
      StepRunsArmedIff(st, kind, r);
    }
  }

  /** The condition is needed: after a registration the engine refused, a later step succeeds with
      nothing armed, and every delta the engine would have reported is lost. */
  lemma StepAfterRefusedRegistrationIsDeaf(call: RawCall)
    requires call.DeltaCall?
    ensures var ok := SetReply(0, true, false);
            var refused := Reply(ok, SetReply(3, false, false), 0, [], {}, 0, 0);
            var st0 := State(InitialRegistry, NewSession(false, false, false));
            var (st1, out1) := SetCallback(st0, Delta, Some(UserFn(0)), refused);
            var (st2, out2) := Step(st1, Delta, Reply(ok, ok, 0, [Emission(false, call)], {}, 0, 0));
            out1 == Err(EngineError(3)) && out2 == Ok([]) && !RunsArmed(st1, Delta)
  {
    var ok := SetReply(0, true, false);
    var refused := Reply(ok, SetReply(3, false, false), 0, [], {}, 0, 0);
    var st0 := State(InitialRegistry, NewSession(false, false, false));
    var (st1, _) := SetCallback(st0, Delta, Some(UserFn(0)), refused);
    assert st1.s.cb == Some(Handle(Delta, 1)) && st1.s.engine.armed == map[];
    assert st1.reg.slots[1].queue == [] && st1.reg.slots[1].lastError == None;
    var ems := [Emission(false, call)];
    assert forall r: Registry :: EmitAll(r, map[], None, ems) == r by {
      forall r: Registry ensures EmitAll(r, map[], None, ems) == r {
        assert ems[..0] == [];
        assert EmitAll(r, map[], None, ems[..0]) == r;
      }
    }
  }

  // ---------------------------------------------------------------- modes

  /** The mode whose check an operation reaches, if it reaches one. */
  function Wants(easy: bool, typedApi: bool, op: Op): Option<Mode> {
    if !Offers(easy, op) then None
    else
      match op
      case OpSetCallback(kind, fn) =>
        if (kind == TypedDelta && !typedApi) || (easy && fn == Some(PrintDelta)) then None else Some(Incremental)
      case OpStep(kind) => if kind == TypedDelta && !typedApi then None else Some(Incremental)
      case OpSnapshot(kind) => if kind == TypedDelta && !typedApi then None else Some(Query)
      case OpUpdate(typed, _) => if easy || (typed && !typedApi) then None else Some(Incremental)
      case OpUpdateSym(_, _, _) => Some(Incremental)
      case _ => None
  }

  /** What a callback, step or snapshot call does to the fields it is not about. */
  ghost predicate Effect(s: Session, t: Session, mode: Mode, letGo: bool) {
    && t.easy == s.easy && t.typedApi == s.typedApi && t.closed == s.closed && t.mode == mode
    && t.made == s.made && t.programs == s.programs
    && (t.pending == s.pending || (letGo && t.pending == []))
  }

  lemma ClearCallbackEffect(st: State, r: SetReply)
    requires st.s.cb.Some?
    ensures Effect(st.s, ClearCallback(st, r).0.s, st.s.mode, false)
  {
  }

  lemma SwitchToEffect(st: State, kind: Kind, r: SetReply)
    ensures Effect(st.s, SwitchTo(st, kind, r).0.s, st.s.mode, false)
  {
    if st.s.cb.Some? {
      ClearCallbackEffect(st, r);
    }
  }

  lemma SetCallbackEffect(st: State, kind: Kind, fn: Option<Callable>, r: Reply)
    ensures var (u, out) := SetCallback(st, kind, fn, r);
            var checked := !(kind == TypedDelta && !st.s.typedApi) && !(st.s.easy && fn == Some(PrintDelta));
            && Effect(st.s, u.s, if checked then RequireMode(st.s.mode, Incremental).0 else st.s.mode, false)
            && (checked && !RequireMode(st.s.mode, Incremental).1 ==> u == st && out == Err(ModeError))
  {
    SwitchToEffect(st.(s := st.s.(mode := RequireMode(st.s.mode, Incremental).0)), kind, r.clear);
  }

  lemma RunStepEffect(st: State, r: Reply)
    requires st.s.cb.Some?
    ensures Effect(st.s, RunStep(st, r).0.s, st.s.mode, RunStep(st, r).1.Ok?)
  {
  }

  lemma StepEffect(st: State, kind: Kind, r: Reply)
    ensures var (u, out) := Step(st, kind, r);
            var checked := !(kind == TypedDelta && !st.s.typedApi);
            && Effect(st.s, u.s, if checked then RequireMode(st.s.mode, Incremental).0 else st.s.mode, out.Ok?)
            && (checked && !RequireMode(st.s.mode, Incremental).1 ==> u == st && out == Err(ModeError))
  {
    var st0 := st.(s := st.s.(mode := RequireMode(st.s.mode, Incremental).0));
    if HasHandle(st.s, kind) {
      RunStepEffect(st0, r);
    } else {
      SwitchToEffect(st0, kind, r.clear);
      var (st1, e) := NewArmedHandle(st0, kind, r);
      assert Effect(st0.s, st1.s, st0.s.mode, false);
      if e.None? {
        NewHandleIsArmed(st0, kind, r);
        RunStepEffect(st1, r);
      }
    }
  }

  lemma RunSnapshotEffect(st: State, kind: Kind, r: Reply)
    ensures Effect(st.s, RunSnapshot(st, kind, r).0.s, st.s.mode, RunSnapshot(st, kind, r).1.Ok?)
  {
  }

  lemma SnapshotEffect(st: State, kind: Kind, r: Reply)
    ensures var (u, out) := Snapshot(st, kind, r);
            var checked := !(kind == TypedDelta && !st.s.typedApi);
            && Effect(st.s, u.s, if checked then RequireMode(st.s.mode, Query).0 else st.s.mode, out.Ok?)
            && (checked && !RequireMode(st.s.mode, Query).1 ==> u == st && out == Err(ModeError))
  {
    hide RunSnapshot;
    RunSnapshotEffect(st.(s := st.s.(mode := RequireMode(st.s.mode, Query).0)), kind, r);
  }

  /** A call fixes the mode if it is the first to reach the check, whatever becomes of it; in the
      wrong mode it raises and changes nothing. */
  lemma CallFixesMode(st: State, op: Op, r: Reply)
    ensures var (u, out) := Apply(st, op, r);
            var want := Wants(st.s.easy, st.s.typedApi, op);
            && u.s.easy == st.s.easy && u.s.typedApi == st.s.typedApi
            && u.s.mode == (if st.s.mode == Unset && want.Some? then want.value else st.s.mode)
            && (want.Some? && st.s.mode != Unset && st.s.mode != want.value ==> u == st && out == Err(ModeError))
  {
    if op.OpSetCallback? {
      SetCallbackEffect(st, op.kind, op.fn, r);
    } else if op.OpStep? {
      StepEffect(st, op.kind, r);
    } else if op.OpSnapshot? {
      SnapshotEffect(st, op.kind, r);
    }
  }

  /** The mode asked for by the first call of a run that reaches the check. */
  function FirstWanted(hs: seq<Happening>, id: nat, easy: bool, typedApi: bool): Mode {
    if hs == [] then Unset
    else if hs[0].Call? && hs[0].id == id && Wants(easy, typedApi, hs[0].op).Some?
    then Wants(easy, typedApi, hs[0].op).value
    else FirstWanted(hs[1..], id, easy, typedApi)
  }

  /** Over any run a session's mode is the one it had or, if it had none, the one the first
      operation to reach the check asked for. */
  lemma {:induction false} ModeIsFirstWanted(w: World, hs: seq<Happening>, id: nat)
    requires id in w.sessions
    ensures id in Run(w, hs).sessions
    ensures var s := w.sessions[id];
            Run(w, hs).sessions[id].mode
            == if s.mode != Unset then s.mode else FirstWanted(hs, id, s.easy, s.typedApi)
    decreases |hs|
  {
    if hs != [] {
      if hs[0].Call? && hs[0].id in w.sessions {
        CallFixesMode(State(w.reg, w.sessions[hs[0].id]), hs[0].op, hs[0].reply);
      }
      ModeIsFirstWanted(Happen(w, hs[0]), hs[1..], id);
    }
  }

  lemma {:induction false} RunSplits(w: World, hs: seq<Happening>, n: nat)
    requires n <= |hs|
    ensures Run(w, hs) == Run(Run(w, hs[..n]), hs[n..])
    decreases n
  {
    if n > 0 {
      assert hs[1..][..n - 1] == hs[..n][1..];
      RunSplits(Happen(w, hs[0]), hs[1..], n - 1);
    } else {
      assert hs[..0] == [] && hs[0..] == hs;
    }
  }

  /** What the `i`-th happening of a run returned, when it was a call of an open session. */
  function OutcomeAt(hs: seq<Happening>, i: nat): Option<Outcome>
    requires i < |hs|
  {
    var w := Run(InitialWorld, hs[..i]);
    if hs[i].Call? && hs[i].id in w.sessions
    then Some(Apply(State(w.reg, w.sessions[hs[i].id]), hs[i].op, hs[i].reply).1)
    else None
  }

  predicate Succeeds(hs: seq<Happening>, i: nat)
    requires i < |hs|
  {
    OutcomeAt(hs, i).Some? && OutcomeAt(hs, i).value.Ok?
  }

  /** A call that returns in one family leaves the session in that family's mode for good. */
  lemma SuccessFixesMode(hs: seq<Happening>, i: nat, want: Mode)
    requires i < |hs| && Succeeds(hs, i) && want != Unset
    requires var s := Run(InitialWorld, hs[..i]).sessions[hs[i].id]; Wants(s.easy, s.typedApi, hs[i].op) == Some(want)
    ensures hs[i].id in Run(InitialWorld, hs).sessions && Run(InitialWorld, hs).sessions[hs[i].id].mode == want
  {
    var w := Run(InitialWorld, hs[..i]);
    var id := hs[i].id;
    RunSplits(InitialWorld, hs, i);
    CallFixesMode(State(w.reg, w.sessions[id]), hs[i].op, hs[i].reply);
    assert hs[i..][0] == hs[i];
    ModeIsFirstWanted(w, hs[i..], id);
  }

  /** In no run does a session return from both a step and a snapshot. */
  lemma FamiliesExclude(hs: seq<Happening>, i: nat, j: nat)
    requires i < |hs| && j < |hs| && Succeeds(hs, i) && Succeeds(hs, j)
    requires hs[i].op.OpStep? && hs[j].op.OpSnapshot?
    ensures hs[i].id != hs[j].id
  {
    var s := Run(InitialWorld, hs[..i]).sessions[hs[i].id];
    var t := Run(InitialWorld, hs[..j]).sessions[hs[j].id];
    assert Wants(s.easy, s.typedApi, hs[i].op) == Some(Incremental);
    assert Wants(t.easy, t.typedApi, hs[j].op) == Some(Query);
    SuccessFixesMode(hs, i, Incremental);
    SuccessFixesMode(hs, j, Query);
  }

  // ---------------------------------------------------------------- input buffers

  /**
   After any run, every buffer the engine may still read is on the session's own list; and every
   evaluating call in the history began with the buffers kept alive that the engine might read.
   */
  lemma InputsAreKeptAlive(hs: seq<Happening>, id: nat, i: nat)
    ensures var w := Run(InitialWorld, hs);
            && (id in w.sessions ==> w.sessions[id].engine.held <= ToSet(w.sessions[id].pending))
            && (i < |w.reg.log| && w.reg.log[i].Evaluated? ==> w.reg.log[i].held <= w.reg.log[i].pending)
  {
    RunIsOk(hs);
  }

  /** A successful update puts its buffer on the list, by symbols even if mirroring these fails
      afterwards; a refused one puts nothing there; and a buffer leaves the list only at `close` or
      when a step or snapshot returns. */
  lemma BuffersAreReleasedLate(st: State, op: Op, r: Reply, b: nat)
    ensures var (u, out) := Apply(st, op, r);
            && (st.s.easy && op.OpUpdate? && op.rows == Encoded(b) && out.Ok?
                ==> b in u.s.pending && b in u.s.engine.held)
            && (st.s.easy && op.OpUpdateSym? && op.buffer == b && (out.Ok? || out.error == InternError)
                ==> b in u.s.pending && b in u.s.engine.held)
            && ((op.OpUpdate? || op.OpUpdateSym?) && r.rc != 0
                ==> u.s.pending == st.s.pending && u.s.engine == st.s.engine)
            && (b in st.s.pending && b !in u.s.pending
                ==> op.OpClose? || ((op.OpStep? || op.OpSnapshot?) && out.Ok?))
  {
    if op.OpSetCallback? {
      SetCallbackEffect(st, op.kind, op.fn, r);
    } else if op.OpStep? {
      StepEffect(st, op.kind, r);
    } else if op.OpSnapshot? {
      SnapshotEffect(st, op.kind, r);
    }
  }

  // ---------------------------------------------------------------- teardown

  /** One call keeps every compound where it is, with its raw handle; only `invalidate` and `close`
      end one, and only `close` closes a session. */
  lemma CallKeepsCompounds(st: State, op: Op, r: Reply)
    ensures var (u, _) := Apply(st, op, r);
            && (u.s.closed <==> st.s.closed || op.OpClose?)
            && u.s.programs.owned == st.s.programs.owned
            && |st.s.made| <= |u.s.made|
            && (|st.s.made| < |u.s.made| ==> op.OpMakeCompound? && u.s.made == st.s.made + [Compound(r.out, false)])
            && forall i :: 0 <= i < |st.s.made| ==>
                 && u.s.made[i].raw == st.s.made[i].raw
                 && (!u.s.closed ==>
                       (u.s.made[i].invalidated <==> st.s.made[i].invalidated || op == OpInvalidate(i)))
  {
    if op.OpSetCallback? {
      SetCallbackEffect(st, op.kind, op.fn, r);
    } else if op.OpStep? {
      StepEffect(st, op.kind, r);
    } else if op.OpSnapshot? {
      SnapshotEffect(st, op.kind, r);
    }
  }

  /**
   Closing an open session, whatever the engine answers: nothing stays armed or kept alive, the
   handle and its slot are gone, no compound answers any more, and closing again changes nothing.
   */
  lemma CloseReleasesEverything(st: State, r: Reply, again: Reply, others: set<nat>, i: nat)
    requires Good(st, others) && !st.s.closed
    ensures var (u, out) := Close(st, r);
            && out == Ok([]) && u.s.closed && u.s.cb == None && u.reg.slots.Keys == others
            && u.s.engine == Engine(map[], {}, 1) && (st.s.easy ==> u.s.pending == [])
            && |u.s.made| == |st.s.made|
            && (i < |u.s.made| ==> u.s.made[i].invalidated && CompoundHandle(u.s, i) == Err(ValueError))
            && Close(u, again) == (u, Ok([]))
  {
  }

  /** The run contains this call of this session. */
  predicate Called(hs: seq<Happening>, id: nat, op: Op) {
    exists k :: 0 <= k < |hs| && hs[k].Call? && hs[k].id == id && hs[k].op == op
  }

  lemma CalledFirstOrLater(hs: seq<Happening>, id: nat, op: Op)
    requires hs != []
    ensures Called(hs, id, op) <==> (hs[0].Call? && hs[0].id == id && hs[0].op == op) || Called(hs[1..], id, op)
  {
    if k :| 0 <= k < |hs| && hs[k].Call? && hs[k].id == id && hs[k].op == op {
      assert k > 0 ==> hs[1..][k - 1] == hs[k];
    }
    if k :| 0 <= k < |hs[1..]| && hs[1..][k].Call? && hs[1..][k].id == id && hs[1..][k].op == op {
      assert hs[k + 1] == hs[1..][k];
    }
  }

  /** Over any run a session is closed exactly if it was or `close` was called. */
  lemma {:induction false} RunClosesIffCalled(w: World, hs: seq<Happening>, id: nat)
    requires id in w.sessions
    ensures id in Run(w, hs).sessions
    ensures Run(w, hs).sessions[id].closed <==> w.sessions[id].closed || Called(hs, id, OpClose)
    decreases |hs|
  {
    if hs != [] {
      if hs[0].Call? && hs[0].id in w.sessions {
        CallKeepsCompounds(State(w.reg, w.sessions[hs[0].id]), hs[0].op, hs[0].reply);
      }
      CalledFirstOrLater(hs, id, OpClose);
      RunClosesIffCalled(Happen(w, hs[0]), hs[1..], id);
    }
  }

  /** Over any run a compound stays where it is, with its raw handle, and while its session is open
      it is invalidated exactly if it was or its `invalidate` was called. */
  lemma {:induction false} RunKeepsCompounds(w: World, hs: seq<Happening>, id: nat, i: nat)
    requires id in w.sessions && i < |w.sessions[id].made|
    ensures id in Run(w, hs).sessions
    ensures var (c, t) := (w.sessions[id].made[i], Run(w, hs).sessions[id]);
            && i < |t.made| && t.made[i].raw == c.raw
            && (!t.closed ==> (t.made[i].invalidated <==> c.invalidated || Called(hs, id, OpInvalidate(i))))
    decreases |hs|
  {
    if hs != [] {
      if hs[0].Call? && hs[0].id in w.sessions {
        CallKeepsCompounds(State(w.reg, w.sessions[hs[0].id]), hs[0].op, hs[0].reply);
      }
      CalledFirstOrLater(hs, id, OpInvalidate(i));
      RunClosesIffCalled(Happen(w, hs[0]), hs[1..], id);
      RunKeepsCompounds(Happen(w, hs[0]), hs[1..], id, i);
    }
  }

  /**
   A compound, from the moment it is made and through everything that happens later: its handle is
   the non-zero one the engine returned as long as neither `close` of its session nor its own
   `invalidate` is called, and an error for ever after either.
   */
  lemma HandleAnswersIffNeitherEnded(hs: seq<Happening>, id: nat, reply: Reply, later: seq<Happening>)
    requires Answer(Run(InitialWorld, hs), id, OpMakeCompound, reply) == Some(Ok([]))
    ensures var w := Run(InitialWorld, hs);
            var i := |w.sessions[id].made|;
            var v := Run(Happen(w, Call(id, OpMakeCompound, reply)), later);
            && id in v.sessions && i < |v.sessions[id].made| && reply.out != 0
            && CompoundHandle(v.sessions[id], i)
               == (if w.sessions[id].closed || Called(later, id, OpClose) || Called(later, id, OpInvalidate(i))
                   then Err(ValueError) else Ok(reply.out))
  {
    var w := Run(InitialWorld, hs);
    RunClosesIffCalled(Happen(w, Call(id, OpMakeCompound, reply)), later, id);
    RunKeepsCompounds(Happen(w, Call(id, OpMakeCompound, reply)), later, id, |w.sessions[id].made|);
  }

  lemma {:induction false} RunKeepsOwnership(w: World, hs: seq<Happening>, id: nat)
    requires id in w.sessions
    ensures id in Run(w, hs).sessions && Run(w, hs).sessions[id].programs.owned == w.sessions[id].programs.owned
    decreases |hs|
  {
    if hs != [] {
      if hs[0].Call? && hs[0].id in w.sessions {
        CallKeepsCompounds(State(w.reg, w.sessions[hs[0].id]), hs[0].op, hs[0].reply);
      }
      RunKeepsOwnership(Happen(w, hs[0]), hs[1..], id);
    }
  }

  /**
   However often and wherever `close` is called after a session was opened: it is closed exactly if
   it was called at all, the native handle has then been released once, and never otherwise; a side
   program of its own has been freed along with it, once; and an advanced session, which borrows its
   program, has freed none.
   */
  lemma Teardown(hs: seq<Happening>, h: Happening, later: seq<Happening>)
    requires h.Open? && h.granted && h.id !in Run(InitialWorld, hs).sessions
    ensures var v := Run(Happen(Run(InitialWorld, hs), h), later);
            && h.id in v.sessions
            && var s := v.sessions[h.id];
               var closed := Called(later, h.id, OpClose);
               && s.closed == closed
               && s.engine.released == (if closed then 1 else 0)
               && s.programs.freed == (if closed && h.easy && h.parsed then 1 else 0)
  {
    RunIsOk(hs);
    var w := Happen(Run(InitialWorld, hs), h);
    HappenKeepsWorld(Run(InitialWorld, hs), h);
    RunKeepsWorld(w, later);
    RunClosesIffCalled(w, later, h.id);
    RunKeepsOwnership(w, later, h.id);
  }
}
