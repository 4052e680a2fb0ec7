/** What holds over every run of any number of sessions sharing one registry. */
module Runs {
  import opened Wrappers
  import opened Protocol

  // ---------------------------------------------------------------- reading the history

  /** Every event the trampolines accepted for a token, in order. */
  ghost function Accepted(log: seq<Obs>, t: nat): seq<Event> {
    if log == [] then []
    else
      var o := log[|log| - 1];
      Accepted(log[..|log| - 1], t) + (if o.Queued? && o.token == t then [o.event] else [])
  }

  /** Every event taken out of the queue again, in order: by a drain, whether it returned them or
      raised and discarded them, or by the closing of the slot. */
  ghost function Removed(log: seq<Obs>, t: nat): seq<Event> {
    if log == [] then []
    else
      var o := log[|log| - 1];
      Removed(log[..|log| - 1], t) + (if (o.Drained? || o.Dropped?) && o.token == t then o.events else [])
  }

  /** The last fault of the token's trampolines since its last drain. */
  ghost function Outstanding(log: seq<Obs>, t: nat): Option<Fault> {
    if log == [] then None
    else
      var o := log[|log| - 1];
      if o.Faulted? && o.token == t then Some(o.fault)
      else if o.Drained? && o.token == t then None
      else Outstanding(log[..|log| - 1], t)
  }

  lemma HistoryGrows(log: seq<Obs>, o: Obs, t: nat)
    ensures Accepted(log + [o], t) == Accepted(log, t) + (if o.Queued? && o.token == t then [o.event] else [])
    ensures Removed(log + [o], t)
            == Removed(log, t) + (if (o.Drained? || o.Dropped?) && o.token == t then o.events else [])
    ensures Outstanding(log + [o], t)
            == if o.Faulted? && o.token == t then Some(o.fault)
               else if o.Drained? && o.token == t then None
               else Outstanding(log, t)
  {
    assert (log + [o])[..|log|] == log;
  }

  // ---------------------------------------------------------------- invariants of the registry

  ghost function QueueOf(r: Registry, t: nat): seq<Event> {
    if t in r.slots then r.slots[t].queue else []
  }

  /** Nothing accepted for the token is lost, duplicated or reordered. */
  ghost predicate Balanced(r: Registry, t: nat) {
    && Accepted(r.log, t) == Removed(r.log, t) + QueueOf(r, t)
    && (t in r.slots ==> r.slots[t].lastError == Outstanding(r.log, t))
    && (t >= r.next ==> Accepted(r.log, t) == [] && Removed(r.log, t) == [] && Outstanding(r.log, t) == None)
  }

  /** Every drain raised exactly the fault outstanding at that moment. */
  ghost predicate DrainsRaiseFaults(log: seq<Obs>) {
    forall i :: 0 <= i < |log| && log[i].Drained? ==> log[i].raised == Outstanding(log[..i], log[i].token)
  }

  /** Tokens are issued in increasing order, hence never twice. */
  ghost predicate TokensIncrease(log: seq<Obs>, next: nat) {
    && (forall i :: 0 <= i < |log| && log[i].Issued? ==> log[i].token < next)
    && (forall i, j :: 0 <= i < j < |log| && log[i].Issued? && log[j].Issued? ==> log[i].token < log[j].token)
  }

  /** Every evaluating call began with all the buffers the engine might read kept alive. */
  ghost predicate InputsWereAlive(log: seq<Obs>) {
    forall i :: 0 <= i < |log| && log[i].Evaluated? ==> log[i].held <= log[i].pending
  }

  ghost predicate RegistryOk(r: Registry) {
    && r.next >= 1
    && (forall t :: t in r.slots ==> 1 <= t < r.next)
    && (forall t :: Balanced(r, t))
    && DrainsRaiseFaults(r.log) && TokensIncrease(r.log, r.next) && InputsWereAlive(r.log)
  }

  ghost predicate SameSlot(r: Registry, u: Registry, t: nat) {
    && (t in u.slots <==> t in r.slots)
    && (t in r.slots ==> u.slots[t] == r.slots[t])
  }

  /** One observation about one token keeps the registry in order, if it does so for that token. */
  lemma OneMoreObservation(r: Registry, u: Registry, o: Obs)
    requires RegistryOk(r) && u.next >= r.next && u.log == r.log + [o]
    requires o.Drained? ==> o.raised == Outstanding(r.log, o.token)
    requires o.Issued? ==> o.token == r.next < u.next
    requires o.Evaluated? ==> o.held <= o.pending
    requires forall t :: t in u.slots ==> 1 <= t < u.next
    requires forall t :: t != o.token ==> SameSlot(r, u, t)
    requires Balanced(u, o.token)
    ensures RegistryOk(u)
  {
    forall t ensures Balanced(u, t) {
      assert Balanced(r, t);
      HistoryGrows(r.log, o, t);
      assert t != o.token ==> SameSlot(r, u, t);
    }
    forall i | 0 <= i < |u.log| && u.log[i].Drained?
      ensures u.log[i].raised == Outstanding(u.log[..i], u.log[i].token)
    {
      assert u.log[..i] == r.log[..i];
    }
  }

  lemma OpenSlotKeeps(r: Registry)
    requires RegistryOk(r)
    ensures RegistryOk(OpenSlot(r))
  {
    assert Balanced(r, r.next);
    HistoryGrows(r.log, Issued(r.next), r.next);
    OneMoreObservation(r, OpenSlot(r), Issued(r.next));
  }

  lemma CloseSlotKeeps(r: Registry, token: nat)
    requires RegistryOk(r)
    ensures RegistryOk(CloseSlot(r, token))
  {
    if token in r.slots {
      assert Balanced(r, token);
      var o := Dropped(token, r.slots[token].queue);
      HistoryGrows(r.log, o, token);
      OneMoreObservation(r, CloseSlot(r, token), o);
    }
  }

  lemma RecordKeeps(r: Registry, token: nat, what: Reception)
    requires RegistryOk(r)
    ensures RegistryOk(Record(r, token, what))
  {
    if token in r.slots && !what.Ignored? {
      assert Balanced(r, token);
      var o := if what.Received? then Queued(token, what.event) else Faulted(token, what.fault);
      HistoryGrows(r.log, o, token);
      OneMoreObservation(r, Record(r, token, what), o);
    }
  }

  lemma DrainKeeps(r: Registry, token: nat)
    requires RegistryOk(r)
    ensures RegistryOk(Drain(r, token).0)
  {
    if token in r.slots {
      assert Balanced(r, token);
      var o := Drained(token, r.slots[token].queue, r.slots[token].lastError);
      HistoryGrows(r.log, o, token);
      OneMoreObservation(r, Drain(r, token).0, o);
    }
  }

  lemma SetUserFnKeeps(r: Registry, token: nat, fn: Callable)
    requires RegistryOk(r)
    ensures RegistryOk(SetUserFn(r, token, fn))
  {
    forall t ensures Balanced(SetUserFn(r, token, fn), t) {
      assert Balanced(r, t);
    }
  }

  lemma EvaluatedKeeps(r: Registry, o: Obs)
    requires RegistryOk(r) && o.Evaluated? && o.held <= o.pending
    ensures RegistryOk(r.(log := r.log + [o]))
  {
    assert Balanced(r, o.token);
    HistoryGrows(r.log, o, o.token);
    OneMoreObservation(r, r.(log := r.log + [o]), o);
  }

  // ---------------------------------------------------------------- invariants of a session

  function TokensOf(s: Session): set<nat> {
    if s.cb.Some? then {s.cb.value.token} else {}
  }

  /** Every armed slot carries the token of the session's current handle, of the slot's kind, or a
      token that is dead for good. */
  ghost predicate SlotsOk(st: State) {
    forall k :: k in st.s.engine.armed ==>
      && k != Tuple && st.s.engine.armed[k] < st.reg.next
      && (st.s.engine.armed[k] in st.reg.slots ==> st.s.cb == Some(Handle(k, st.s.engine.armed[k])))
  }

  ghost predicate SessionOk(s: Session) {
    && (s.cb.Some? ==> s.cb.value.kind != Tuple && (s.easy ==> s.cb.value.kind == Delta))
    && s.engine.held <= (if s.easy then ToSet(s.pending) else {})
    && (s.mode == Unset ==> s.succeeded == {}) && s.succeeded <= {s.mode}
    && s.native == !s.closed && s.engine.released == (if s.native then 0 else 1)
    && (!s.closed ==> s.firstListed == 0)
    && s.firstListed <= |s.made|
    && (forall i :: 0 <= i < |s.made| ==> s.made[i].raw != 0)
    && (s.programs.owned ==> s.easy) && s.programs.live == (s.programs.owned && !s.closed)
    && s.programs.freed == (if s.programs.owned && s.closed then 1 else 0)
  }

  /** The registry holds this session's slot, the slots of others, and nothing else. */
  ghost predicate Good(st: State, others: set<nat>) {
    && RegistryOk(st.reg) && SessionOk(st.s) && SlotsOk(st)
    && st.reg.slots.Keys == others + TokensOf(st.s) && others !! TokensOf(st.s)
  }

  /** What a call of one session leaves of everybody else's slots. */
  ghost predicate Frame(r: Registry, u: Registry, others: set<nat>) {
    && u.next >= r.next
    && (forall t :: t in others ==> SameSlot(r, u, t))
    && (forall t :: t in u.slots && t < r.next ==> t in r.slots)
  }

  // ---------------------------------------------------------------- handles

  lemma CloseSlotGood(st: State, e: Engine, others: set<nat>)
    requires Good(st, others) && st.s.cb.Some?
    requires forall k :: k in e.armed ==> k in st.s.engine.armed && e.armed[k] == st.s.engine.armed[k]
    requires e.held == st.s.engine.held && e.released == st.s.engine.released
    ensures var u := State(CloseSlot(st.reg, st.s.cb.value.token), st.s.(cb := None, engine := e));
            Good(u, others) && Frame(st.reg, u.reg, others)
  {
    CloseSlotKeeps(st.reg, st.s.cb.value.token);
  }

  lemma ClearedSlotShrinks(e: Engine, kind: Kind, r: SetReply)
    ensures var f := SetEngineSlot(e, kind, None, r);
            && f.held == e.held && f.released == e.released
            && forall k :: k in f.armed ==> k in e.armed && f.armed[k] == e.armed[k]
  {
  }

  lemma ClearCallbackGood(st: State, others: set<nat>, r: SetReply)
    requires Good(st, others) && st.s.cb.Some?
    ensures var (u, _) := ClearCallback(st, r);
            Good(u, others) && Frame(st.reg, u.reg, others)
  {
    ClearedSlotShrinks(st.s.engine, st.s.cb.value.kind, r);
    CloseSlotGood(st, SetEngineSlot(st.s.engine, st.s.cb.value.kind, None, r), others);
  }

  lemma EasyClearCallbackGood(st: State, others: set<nat>, r: SetReply)
    requires Good(st, others) && st.s.cb.Some?
    ensures var (u, _) := EasyClearCallback(st, r);
            Good(u, others) && Frame(st.reg, u.reg, others)
  {
    ClearedSlotShrinks(st.s.engine, st.s.cb.value.kind, r);
    if r.rc == 0 {
      CloseSlotGood(st, SetEngineSlot(st.s.engine, st.s.cb.value.kind, None, r), others);
    }
  }

  lemma NewHandleGood(st: State, kind: Kind, others: set<nat>)
    requires Good(st, others) && st.s.cb.None? && kind != Tuple && (st.s.easy ==> kind == Delta)
    ensures Good(NewHandle(st, kind), others) && Frame(st.reg, NewHandle(st, kind).reg, others)
  {
    OpenSlotKeeps(st.reg);
  }

  lemma SwitchToGood(st: State, kind: Kind, others: set<nat>, r: SetReply)
    requires Good(st, others) && kind != Tuple && (st.s.easy ==> kind == Delta)
    ensures var (u, e) := SwitchTo(st, kind, r);
            && Good(u, others) && Frame(st.reg, u.reg, others)
            && (e.None? ==> HasHandle(u.s, kind))
  {
    if !HasHandle(st.s, kind) {
      if st.s.cb.None? {
        NewHandleGood(st, kind, others);
      } else {
        ClearCallbackGood(st, others, r);
        NewHandleGood(ClearCallback(st, r).0, kind, others);
      }
    }
  }

  lemma ArmGood(st: State, others: set<nat>, r: SetReply)
    requires Good(st, others) && st.s.cb.Some?
    ensures Good(Arm(st, r).0, others) && Arm(st, r).0.reg == st.reg
  {
    var h := st.s.cb.value;
    var f := SetEngineSlot(st.s.engine, h.kind, Some(h.token), r);
    assert forall k :: k in f.armed ==>
      (k in st.s.engine.armed && f.armed[k] == st.s.engine.armed[k]) || (k == h.kind && f.armed[k] == h.token);
  }

  // ---------------------------------------------------------------- evaluation

  /** The slots a session's engine can reach through its own slots and the argument of the call. */
  ghost predicate Reaches(r: Registry, armed: map<Kind, nat>, arg: Option<Handle>, mine: set<nat>) {
    && (forall k :: k in armed && armed[k] in r.slots ==> armed[k] in mine)
    && (arg.Some? ==> arg.value.token in mine)
  }

  /** Callbacks made during an evaluation change the caller's own slots only, and none if their
      token is dead. */
  lemma {:induction false} EmitAllKeeps(
    r: Registry, armed: map<Kind, nat>, arg: Option<Handle>, ems: seq<Emission>, mine: set<nat>)
    requires RegistryOk(r) && Reaches(r, armed, arg, mine)
    ensures var u := EmitAll(r, armed, arg, ems);
            && RegistryOk(u) && u.next == r.next && u.slots.Keys == r.slots.Keys
            && forall t :: t !in mine ==> SameSlot(r, u, t)
    decreases |ems|
  {
    if ems != [] {
      var k := |ems| - 1;
      EmitAllKeeps(r, armed, arg, ems[..k], mine);
      var mid := EmitAll(r, armed, arg, ems[..k]);
      var token := TokenFor(armed, arg, ems[k]);
      if token.Some? {
        RecordKeeps(mid, token.value, Receive(ems[k].call));
      }
    }
  }

  lemma EvaluateGood(st: State, h: Handle, arg: Option<Handle>, others: set<nat>, extra: set<nat>, r: Reply)
    requires Good(st, others + extra) && others !! extra
    requires arg.Some? ==> arg.value.token in extra
    ensures var u := Evaluate(st, h, arg, r);
            && Good(u, others + extra) && u.reg.next == st.reg.next
            && forall t :: t in others ==> SameSlot(st.reg, u.reg, t)
  {
    var e := st.s.engine;
    var o := Circumstances(e, st.s.pending, h, arg);
    EvaluatedKeeps(st.reg, o);
    EmitAllKeeps(st.reg.(log := st.reg.log + [o]), e.armed, arg, r.emissions, TokensOf(st.s) + extra);
  }

  lemma CollectGood(st: State, token: nat, family: Mode, others: set<nat>, extra: set<nat>)
    requires Good(st, others + extra) && token in TokensOf(st.s) + extra && others !! extra
    requires st.s.mode == family != Unset && (st.s.engine.held == {})
    ensures var (u, _) := Collect(st, token, family);
            && Good(u, others + extra) && u.reg.next == st.reg.next
            && forall t :: t in others ==> SameSlot(st.reg, u.reg, t)
  {
    DrainKeeps(st.reg, token);
  }

  // ---------------------------------------------------------------- one call

  /** What a call promises: the invariant, and everybody else's slots untouched. */
  ghost predicate Keeps(st: State, u: State, others: set<nat>) {
    Good(u, others) && Frame(st.reg, u.reg, others)
  }

  lemma KeepsTrans(st: State, u: State, v: State, others: set<nat>)
    requires Keeps(st, u, others) && Keeps(u, v, others)
    ensures Keeps(st, v, others)
  {
    forall t | t in others ensures SameSlot(st.reg, v.reg, t) {
      assert SameSlot(st.reg, u.reg, t) && SameSlot(u.reg, v.reg, t);
    }
  }

  lemma RequireModeKeeps(st: State, want: Mode, others: set<nat>)
    requires Good(st, others)
    ensures Keeps(st, st.(s := st.s.(mode := RequireMode(st.s.mode, want).0)), others)
  {
  }

  lemma ClearRegisteredKeeps(st: State, r: Reply, others: set<nat>)
    requires Good(st, others)
    ensures Keeps(st, ClearRegistered(st, r).0, others)
  {
    if st.s.cb.Some? {
      if st.s.easy {
        EasyClearCallbackGood(st, others, r.clear);
      } else {
        ClearCallbackGood(st, others, r.clear);
      }
    }
  }

  lemma SetUserFnGood(st: State, token: nat, fn: Callable, others: set<nat>)
    requires Good(st, others) && token in TokensOf(st.s)
    ensures Keeps(st, st.(reg := SetUserFn(st.reg, token, fn)), others)
  {
    SetUserFnKeeps(st.reg, token, fn);
  }

  lemma RegisterFnKeeps(st: State, kind: Kind, fn: Callable, r: Reply, others: set<nat>)
    requires Good(st, others) && kind != Tuple && (st.s.easy ==> kind == Delta)
    ensures Keeps(st, RegisterFn(st, kind, fn, r).0, others)
  {
    SwitchToGood(st, kind, others, r.clear);
    var (st1, e) := SwitchTo(st, kind, r.clear);
    if e.None? {
      var st2 := st1.(reg := SetUserFn(st1.reg, st1.s.cb.value.token, fn));
      SetUserFnGood(st1, st1.s.cb.value.token, fn, others);
      ArmGood(st2, others, r.arm);
      KeepsTrans(st, st1, st2, others);
    }
  }

  lemma SetCallbackKeeps(st: State, kind: Kind, fn: Option<Callable>, r: Reply, others: set<nat>)
    requires Good(st, others) && kind != Tuple && (st.s.easy ==> kind == Delta)
    ensures Keeps(st, SetCallback(st, kind, fn, r).0, others)
  {
    var st0 := st.(s := st.s.(mode := RequireMode(st.s.mode, Incremental).0));
    RequireModeKeeps(st, Incremental, others);
    if fn.None? {
      ClearRegisteredKeeps(st0, r, others);
      KeepsTrans(st, st0, ClearRegistered(st0, r).0, others);
    } else {
      RegisterFnKeeps(st0, kind, fn.value, r, others);
      KeepsTrans(st, st0, RegisterFn(st0, kind, fn.value, r).0, others);
    }
  }

  lemma RunStepKeeps(st: State, r: Reply, others: set<nat>)
    requires Good(st, others) && st.s.cb.Some? && st.s.mode == Incremental
    ensures Keeps(st, RunStep(st, r).0, others)
  {
    var h := st.s.cb.value;
    EvaluateGood(st, h, None, others, {}, r);
    if r.rc == 0 {
      CollectGood(Evaluate(st, h, None, r), h.token, Incremental, others, {});
    }
  }

  lemma NewArmedHandleKeeps(st: State, kind: Kind, r: Reply, others: set<nat>)
    requires Good(st, others) && kind != Tuple && (st.s.easy ==> kind == Delta)
    ensures var (u, e) := NewArmedHandle(st, kind, r);
            && Keeps(st, u, others) && u.s.mode == st.s.mode
            && (e.None? ==> u.s.cb.Some?)
  {
    SwitchToGood(st, kind, others, r.clear);
    var (st1, e) := SwitchTo(st, kind, r.clear);
    if e.None? {
      ArmGood(st1, others, r.arm);
    }
  }

  lemma StepKeeps(st: State, kind: Kind, r: Reply, others: set<nat>)
    requires Good(st, others) && kind != Tuple && (st.s.easy ==> kind == Delta)
    ensures Keeps(st, Step(st, kind, r).0, others)
  {
    var (mode, ok) := RequireMode(st.s.mode, Incremental);
    var st0 := st.(s := st.s.(mode := mode));
    RequireModeKeeps(st, Incremental, others);
    if ok {
      if HasHandle(st.s, kind) {
        RunStepKeeps(st0, r, others);
        KeepsTrans(st, st0, RunStep(st0, r).0, others);
      } else {
        NewArmedHandleKeeps(st0, kind, r, others);
        var (st1, e) := NewArmedHandle(st0, kind, r);
        KeepsTrans(st, st0, st1, others);
        if e.None? {
          RunStepKeeps(st1, r, others);
          KeepsTrans(st, st1, RunStep(st1, r).0, others);
        }
      }
    }
  }

  lemma OpenTemporary(st: State, others: set<nat>)
    requires Good(st, others)
    ensures Good(st.(reg := OpenSlot(st.reg)), others + {st.reg.next})
    ensures st.reg.next !in others + TokensOf(st.s)
  {
    OpenSlotKeeps(st.reg);
  }

  lemma CloseTemporary(st: State, token: nat, others: set<nat>)
    requires Good(st, others + {token}) && token !in others
    ensures Good(st.(reg := CloseSlot(st.reg, token)), others)
  {
    CloseSlotKeeps(st.reg, token);
  }

  /** Whatever happens in between, the slot a snapshot opens is gone when it returns or raises. */
  lemma RunSnapshotKeeps(st: State, kind: Kind, r: Reply, others: set<nat>)
    requires Good(st, others) && st.s.mode == Query
    ensures Keeps(st, RunSnapshot(st, kind, r).0, others)
  {
    hide RegistryOk, SessionOk, SlotsOk, EmitAll;
    var h := Handle(kind, st.reg.next);
    var st0 := st.(reg := OpenSlot(st.reg));
    OpenTemporary(st, others);
    EvaluateGood(st0, h, Some(h), others, {h.token}, r);
    var st1 := Evaluate(st0, h, Some(h), r);
    if r.rc == 0 {
      CollectGood(st1, h.token, Query, others, {h.token});
    }
    var st2 := if r.rc != 0 then st1 else Collect(st1, h.token, Query).0;
    CloseTemporary(st2, h.token, others);
    forall t | t in others ensures SameSlot(st.reg, CloseSlot(st2.reg, h.token), t) {
      assert SameSlot(st0.reg, st1.reg, t) && SameSlot(st1.reg, st2.reg, t);
    }
  }

  lemma SnapshotKeeps(st: State, kind: Kind, r: Reply, others: set<nat>)
    requires Good(st, others)
    ensures Keeps(st, Snapshot(st, kind, r).0, others)
  {
    var (mode, ok) := RequireMode(st.s.mode, Query);
    var st0 := st.(s := st.s.(mode := mode));
    RequireModeKeeps(st, Query, others);
    if ok {
      RunSnapshotKeeps(st0, kind, r, others);
      KeepsTrans(st, st0, RunSnapshot(st0, kind, r).0, others);
    }
  }

  lemma UpdateKeeps(st: State, typed: bool, rows: Rows, r: Reply, others: set<nat>)
    requires Good(st, others)
    ensures Keeps(st, Update(st, typed, rows, r).0, others)
  {
    RequireModeKeeps(st, Incremental, others);
  }

  lemma UpdateSymKeeps(st: State, n: nat, buffer: nat, interned: bool, r: Reply, others: set<nat>)
    requires Good(st, others) && st.s.easy
    ensures Keeps(st, UpdateSym(st, n, buffer, interned, r).0, others)
  {
    RequireModeKeeps(st, Incremental, others);
  }

  lemma CloseKeeps(st: State, r: Reply, others: set<nat>)
    requires Good(st, others)
    ensures Keeps(st, Close(st, r).0, others)
  {
    if !st.s.closed && st.s.cb.Some? {
      CloseSlotKeeps(st.reg, st.s.cb.value.token);
    }
  }

  lemma MakeCompoundKeeps(st: State, r: Reply, others: set<nat>)
    requires Good(st, others)
    ensures Keeps(st, MakeCompound(st, r).0, others)
  {
  }

  lemma InvalidateKeeps(st: State, i: nat, others: set<nat>)
    requires Good(st, others)
    ensures Keeps(st, Invalidate(st, i).0, others)
  {
  }

  lemma FireKeeps(st: State, call: RawCall, others: set<nat>)
    requires Good(st, others)
    ensures Keeps(st, Fire(st, call), others)
  {
    var token := TokenFor(st.s.engine.armed, None, Emission(false, call));
    if token.Some? {
      RecordKeeps(st.reg, token.value, Receive(call));
    }
  }

  lemma ApplyKeeps(st: State, op: Op, r: Reply, others: set<nat>)
    requires Good(st, others)
    ensures Keeps(st, Apply(st, op, r).0, others)
  {
    if Offers(st.s.easy, op) {
      match op
      case OpSetCallback(kind, fn) => SetCallbackKeeps(st, kind, fn, r, others);
      case OpStep(kind) => StepKeeps(st, kind, r, others);
      case OpSnapshot(kind) => SnapshotKeeps(st, kind, r, others);
      case OpUpdate(typed, rows) => UpdateKeeps(st, typed, rows, r, others);
      case OpUpdateSym(n, buffer, interned) => UpdateSymKeeps(st, n, buffer, interned, r, others);
      case OpMakeCompound => MakeCompoundKeeps(st, r, others);
      case OpInvalidate(i) => InvalidateKeeps(st, i, others);
      case OpClose => CloseKeeps(st, r, others);
      case OpFire(call) => FireKeeps(st, call, others);
    }
  }

  // ---------------------------------------------------------------- the process

  /** Every session of the process, over the one registry. */
  datatype World = World(reg: Registry, sessions: map<nat, Session>)

  const InitialWorld := World(InitialRegistry, map[])

  /** A session is opened, which the engine may refuse, or one is called. */
  datatype Happening =
    | Open(id: nat, easy: bool, typedApi: bool, parsed: bool, granted: bool)
    | Call(id: nat, op: Op, reply: Reply)

  function Happen(w: World, h: Happening): World {
    match h
    case Open(id, easy, typedApi, parsed, granted) =>
      if id in w.sessions || !granted then w else w.(sessions := w.sessions[id := NewSession(easy, typedApi, parsed)])
    case Call(id, op, reply) =>
      if id !in w.sessions then w
      else
        var (u, _) := Apply(State(w.reg, w.sessions[id]), op, reply);
        World(u.reg, w.sessions[id := u.s])
  }

  /** What a call returns or raises, if there is a session to call. */
  function Answer(w: World, id: nat, op: Op, reply: Reply): Option<Outcome> {
    if id in w.sessions then Some(Apply(State(w.reg, w.sessions[id]), op, reply).1) else None
  }

  function Run(w: World, hs: seq<Happening>): World
    decreases |hs|
  {
    if hs == [] then w else Run(Happen(w, hs[0]), hs[1..])
  }

  ghost predicate Holds(w: World, id: nat, t: nat) {
    id in w.sessions && t in TokensOf(w.sessions[id])
  }

  ghost predicate WorldOk(w: World) {
    && RegistryOk(w.reg)
    && (forall id :: id in w.sessions ==> SessionOk(w.sessions[id]) && SlotsOk(State(w.reg, w.sessions[id])))
    && (forall id, t :: Holds(w, id, t) ==> t in w.reg.slots)
    && (forall t :: t in w.reg.slots ==> exists id :: Holds(w, id, t))
    && (forall id, jd, t :: Holds(w, id, t) && Holds(w, jd, t) ==> id == jd)
  }

  lemma InitialWorldOk()
    ensures WorldOk(InitialWorld)
  {
    forall t ensures Balanced(InitialRegistry, t) {
    }
  }

  /** After a call of `id`, handles and slots still match one to one. */
  lemma HoldersStayUnique(w: World, u: State, id: nat, others: set<nat>)
    requires WorldOk(w) && id in w.sessions
    requires others == w.reg.slots.Keys - TokensOf(w.sessions[id])
    requires u.reg.slots.Keys == others + TokensOf(u.s) && others !! TokensOf(u.s)
    ensures var v := World(u.reg, w.sessions[id := u.s]);
            && (forall jd, t :: Holds(v, jd, t) ==> t in v.reg.slots)
            && (forall t :: t in v.reg.slots ==> exists jd :: Holds(v, jd, t))
            && (forall jd, kd, t :: Holds(v, jd, t) && Holds(v, kd, t) ==> jd == kd)
  {
    var v := World(u.reg, w.sessions[id := u.s]);
    forall jd, t | Holds(v, jd, t) && jd != id ensures t in others && Holds(w, jd, t) {
      assert Holds(w, jd, t);
      assert t in TokensOf(w.sessions[id]) ==> Holds(w, id, t);
    }
    forall t | t in v.reg.slots ensures exists jd :: Holds(v, jd, t) {
      if t in TokensOf(u.s) {
        assert Holds(v, id, t);
      } else {
        var jd :| Holds(w, jd, t);
        assert Holds(v, jd, t);
      }
    }
  }

  lemma OthersSlotsStayOk(w: World, u: State, id: nat, jd: nat, others: set<nat>)
    requires WorldOk(w) && id in w.sessions && jd in w.sessions && id != jd
    requires others == w.reg.slots.Keys - TokensOf(w.sessions[id])
    requires Keeps(State(w.reg, w.sessions[id]), u, others)
    ensures SlotsOk(State(u.reg, w.sessions[jd]))
  {
    var s := w.sessions[jd];
    forall k | k in s.engine.armed
      ensures k != Tuple && s.engine.armed[k] < u.reg.next
      ensures s.engine.armed[k] in u.reg.slots ==> s.cb == Some(Handle(k, s.engine.armed[k]))
    {
      assert SlotsOk(State(w.reg, s));
    }
  }

  lemma CallKeepsWorld(w: World, id: nat, op: Op, reply: Reply)
    requires WorldOk(w) && id in w.sessions
    ensures WorldOk(Happen(w, Call(id, op, reply)))
  {
    var st := State(w.reg, w.sessions[id]);
    var others := w.reg.slots.Keys - TokensOf(st.s);
    assert forall t :: t in TokensOf(st.s) ==> Holds(w, id, t);
    ApplyKeeps(st, op, reply, others);
    var u := Apply(st, op, reply).0;
    HoldersStayUnique(w, u, id, others);
    var v := World(u.reg, w.sessions[id := u.s]);
    forall jd | jd in v.sessions ensures SessionOk(v.sessions[jd]) && SlotsOk(State(v.reg, v.sessions[jd])) {
      if jd != id {
        OthersSlotsStayOk(w, u, id, jd, others);
      } else {
        assert u == State(v.reg, v.sessions[jd]);
      }
    }
  }

  lemma HappenKeepsWorld(w: World, h: Happening)
    requires WorldOk(w)
    ensures WorldOk(Happen(w, h))
  {
    match h
    case Open(id, easy, typedApi, parsed, granted) =>
      var v := Happen(w, h);
      forall jd, t ensures Holds(v, jd, t) <==> Holds(w, jd, t) {
      }
    case Call(id, op, reply) =>
      if id in w.sessions {
        CallKeepsWorld(w, id, op, reply);
      }
  }

  lemma {:induction false} RunKeepsWorld(w: World, hs: seq<Happening>)
    requires WorldOk(w)
    ensures WorldOk(Run(w, hs))
    decreases |hs|
  {
    if hs != [] {
      HappenKeepsWorld(w, hs[0]);
      RunKeepsWorld(Happen(w, hs[0]), hs[1..]);
    }
  }

  lemma RunIsOk(hs: seq<Happening>)
    ensures WorldOk(Run(InitialWorld, hs))
  {
    InitialWorldOk();
    RunKeepsWorld(InitialWorld, hs);
  }

  lemma SlotsAreHeld(w: World, t: nat)
    requires WorldOk(w)
    ensures t in w.reg.slots
            <==> exists id :: id in w.sessions && w.sessions[id].cb.Some? && w.sessions[id].cb.value.token == t
  {
    if t in w.reg.slots {
      var id :| Holds(w, id, t);
    }
    if id :| id in w.sessions && w.sessions[id].cb.Some? && w.sessions[id].cb.value.token == t {
      assert Holds(w, id, t);
    }
  }
}
