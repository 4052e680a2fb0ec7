/**
 The session objects (`pyrewire/session.py`, `pyrewire/compound.py`), proved call by call against
 the functions of `Protocol`.
 */
module Sessions {
  import opened Wrappers
  import opened Protocol
  import opened CallbackRegistry
  import P = Protocol

  /** The engine behind one native session handle. Its decisions are parameters; what it keeps is
      the callback slots, the buffers it may still read and how often it was destroyed. */
  class NativeSession {
    var armed: map<Kind, nat>
    var held: set<nat>
    var released: nat

    function View(): Engine
      reads this
    {
      Engine(armed, held, released)
    }

    constructor ()
      ensures View() == Engine(map[], {}, 0)
    {
      armed, held, released := map[], {}, 0;
    }

    /** `set_delta_cb` / `set_typed_delta_cb`, with a token or a null pointer. */
    method SetSlot(kind: Kind, token: Option<nat>, reply: SetReply) returns (rc: int)
      modifies this
      ensures rc == reply.rc && View() == SetEngineSlot(old(View()), kind, token, reply)
    {
      if reply.rc == 0 || reply.took {
        armed := if token.Some? then armed[kind := token.value] else armed - {kind};
      }
      if reply.clearsOther {
        armed := map k | k in armed && k == kind :: armed[k];
      }
      return reply.rc;
    }

    /** `session_destroy` / `easy_close`. */
    method Destroy()
      modifies this
      ensures View() == Engine(map[], {}, old(released) + 1)
    {
      armed, held, released := map[], {}, released + 1;
    }

    /** `step` or `snapshot`: the engine calls back, one trampoline call after the other. */
    method Evaluate(table: CallbackTable, h: CallbackHandle, isArgument: bool, pending: seq<nat>, r: Reply)
      returns (rc: int)
      requires table.Valid()
      modifies this, table`view, table.states
      ensures table.Valid() && rc == r.rc
      ensures View() == AfterEvaluation(old(View()), r)
      ensures var arg := if isArgument then Some(Handle(h.kind, h.token)) else None;
              table.view == Callbacks(old(table.view), old(View()), pending, Handle(h.kind, h.token), arg, r)
    {
      ghost var arg := if isArgument then Some(Handle(h.kind, h.token)) else None;
      table.view := table.view.(log := table.view.log + [Circumstances(View(), pending, Handle(h.kind, h.token), arg)]);
      ghost var start := table.view;
      for i := 0 to |r.emissions|
        invariant table.Valid() && armed == old(armed) && held == old(held) && released == old(released)
        invariant table.view == EmitAll(start, armed, arg, r.emissions[..i])
      {
        assert r.emissions[..i + 1][..i] == r.emissions[..i];
        var em := r.emissions[i];
        var kind := KindOf(em.call);
        if em.viaArgument {
          if isArgument && kind == h.kind {
            table.Trampoline(h.token, em.call);
          }
        } else if kind in armed {
          table.Trampoline(armed[kind], em.call);
        }
      }
      assert r.emissions[..|r.emissions|] == r.emissions;
      held := if r.rc == 0 then {} else held - r.consumed;
      return r.rc;
    }
  }

  /** `Compound`: a raw handle, usable until it is invalidated or its session is closed. */
  class CompoundObject {
    const raw: nat
    const owner: Session
    ghost const index: nat      // how many its session made before
    var invalidated: bool

    constructor (raw: nat, owner: Session, ghost index: nat)
      ensures this.raw == raw && this.owner == owner && this.index == index && !invalidated
    {
      this.raw, this.owner, this.index, this.invalidated := raw, owner, index, false;
    }

    /** The session it was made by counts it among its own. */
    ghost predicate Known()
      reads owner, owner.made
    {
      owner.CompoundsOk() && index < |owner.made| && owner.made[index] == this
    }

    method Invalidate()
      requires Known()
      modifies this, owner`madeViews
      ensures Known() && invalidated
      ensures owner.madeViews == old(owner.madeViews)[index := old(owner.madeViews)[index].(invalidated := true)]
      ensures index < |old(owner.View()).made|
      ensures owner.View()
              == P.Invalidate(State(InitialRegistry, old(owner.View())), index).0.s
    {
      invalidated := true;
      owner.madeViews := owner.madeViews[index := owner.madeViews[index].(invalidated := true)];
    }

    /** The `handle` property. */
    method RawHandle() returns (r: Result<nat, Error>)
      requires Known()
      ensures r == CompoundHandle(owner.View(), index)
    {
      if invalidated {
        return Err(ValueError);
      }
      if owner.closed {
        return Err(ValueError);
      }
      return Ok(raw);
    }
  }

  /** `EasySession` when `easy`, the advanced `Session` otherwise. The ghost fields record all
      compounds it ever made, which family of evaluating calls ever returned, whether it was opened
      with a side program and how many programs it has freed. */
  class Session {
    const easy: bool
    const typedApi: bool
    const table: CallbackTable
    const native: NativeSession
    var nativeLive: bool
    var closed: bool
    var mode: Mode
    var deltaCb: CallbackHandle?
    var pendingInputs: seq<nat>
    var compounds: seq<CompoundObject>
    ghost var made: seq<CompoundObject>
    ghost var madeViews: seq<Compound>
    ghost var firstListed: nat
    ghost var succeeded: set<Mode>
    ghost const owned: bool
    var sideProgram: bool
    ghost var programsFreed: nat

    ghost predicate HandleOk()
      reads this`deltaCb, table`slots
    {
      deltaCb != null ==> deltaCb.Registered(table)
    }

    /** The registry is in order and knows the session's handle. */
    ghost predicate Valid()
      reads this`deltaCb, table, table.states
    {
      table.Valid() && HandleOk()
    }

    /** The list is the tail of all compounds ever made. Only the calls that touch compounds need
        this or could break it. */
    ghost predicate CompoundsOk()
      reads this`made, this`madeViews, this`firstListed, this`compounds, made
    {
      && |madeViews| == |made| && firstListed <= |made| && compounds == made[firstListed..]
      && (forall i :: 0 <= i < |made| ==> made[i].owner == this && made[i].index == i)
      && (forall i :: 0 <= i < |made| ==> madeViews[i] == Compound(made[i].raw, made[i].invalidated))
    }

    ghost function View(): P.Session
      reads this, native
    {
      P.Session(easy, typedApi, native.View(), nativeLive, closed, mode,
                if deltaCb == null then None else Some(Handle(deltaCb.kind, deltaCb.token)),
                pendingInputs, madeViews, firstListed, succeeded,
                Programs(owned, sideProgram, programsFreed))
    }

    ghost function St(): State
      reads this, native, table`view
    {
      State(table.view, View())
    }

    constructor (easy: bool, typedApi: bool, parsed: bool, table: CallbackTable)
      requires table.Valid()
      ensures Valid() && CompoundsOk() && this.table == table && fresh(native)
      ensures this.easy == easy && this.typedApi == typedApi
      ensures View() == NewSession(easy, typedApi, parsed)
    {
      this.easy, this.typedApi, this.table := easy, typedApi, table;
      this.native := new NativeSession();
      nativeLive, closed, mode, deltaCb := true, false, Unset, null;
      pendingInputs, compounds := [], [];
      made, madeViews, firstListed, succeeded := [], [], 0, {};
      owned, sideProgram, programsFreed := easy && parsed, easy && parsed, 0;
    }

    /** `_require_mode`. */
    method CheckMode(want: Mode) returns (ok: bool)
      modifies this`mode
      ensures (mode, ok) == RequireMode(old(mode), want)
    {
      if mode == Unset {
        mode := want;
        return true;
      }
      return mode == want;
    }

    /** `Session._clear_delta_cb`. */
    method ClearDeltaCb(reply: SetReply) returns (e: Option<Error>)
      requires Valid() && deltaCb != null
      modifies this`deltaCb, native, table
      ensures Valid() && (St(), e) == ClearCallback(old(St()), reply)
      ensures deltaCb == null && table.states == old(table.states) && table.Grew()
    {
      hide CallbackTable.Valid;
      var rc := native.SetSlot(deltaCb.kind, None, reply);
      deltaCb.Close(table);
      deltaCb := null;
      return Check(rc);
    }

    /** A new handle, not registered with the engine yet. */
    method MakeHandle(kind: Kind)
      requires Valid()
      modifies this`deltaCb, table
      ensures Valid() && deltaCb != null && St() == NewHandle(old(St()), kind)
      ensures fresh(table.states - old(table.states)) && table.Grew()
    {
      hide CallbackTable.Valid;
      deltaCb := new CallbackHandle(kind, table);
    }

    /** The handle of the wanted kind, made if it is not there. */
    method SwitchHandle(kind: Kind, reply: SetReply) returns (e: Option<Error>)
      requires Valid()
      modifies this`deltaCb, native, table
      ensures Valid() && (St(), e) == SwitchTo(old(St()), kind, reply)
      ensures e.None? ==> deltaCb != null
      ensures fresh(table.states - old(table.states)) && table.Grew()
    {
      hide CallbackTable.Valid;
      if deltaCb == null || deltaCb.kind != kind {
        if deltaCb != null {
          e := ClearDeltaCb(reply);
          if e.Some? {
            return;
          }
        }
        MakeHandle(kind);
      }
      return None;
    }

    /** Register the handle. */
    method ArmHandle(reply: SetReply) returns (e: Option<Error>)
      requires deltaCb != null
      modifies native
      ensures (St(), e) == Arm(old(St()), reply)
    {
      var rc := native.SetSlot(deltaCb.kind, Some(deltaCb.token), reply);
      return Check(rc);
    }

    method SetAndArm(fn: Callable, reply: SetReply) returns (e: Option<Error>)
      requires Valid() && deltaCb != null
      modifies native, table`view, table.states
      ensures Valid()
      ensures (St(), e) == Arm(old(St()).(reg := SetUserFn(old(table.view), deltaCb.token, fn)), reply)
    {
      deltaCb.SetFn(table, fn);
      e := ArmHandle(reply);
    }

    method Register(kind: Kind, fn: Callable, r: Reply) returns (out: Outcome)
      requires Valid()
      modifies this`deltaCb, native, table, table.states
      ensures Valid() && (St(), out) == RegisterFn(old(St()), kind, fn, r)
      ensures table.Grew()
    {
      hide CallbackTable.Valid;
      var e := SwitchHandle(kind, r.clear);
      if e.Some? {
        out := Err(e.value);
      } else {
        e := SetAndArm(fn, r.arm);
        out := if e.Some? then Err(e.value) else Ok([]);
      }
    }

    /** The clear of `EasySession.set_delta_callback(None)`. */
    method EasyClear(reply: SetReply) returns (e: Option<Error>)
      requires Valid() && deltaCb != null
      modifies this`deltaCb, native, table
      ensures Valid() && (St(), e) == EasyClearCallback(old(St()), reply)
      ensures table.Grew()
    {
      hide CallbackTable.Valid;
      var rc := native.SetSlot(deltaCb.kind, None, reply);
      if rc != 0 {
        return Some(EngineError(rc));
      }
      deltaCb.Close(table);
      deltaCb := null;
      return None;
    }

    method Unregister(r: Reply) returns (out: Outcome)
      requires Valid()
      modifies this`deltaCb, native, table
      ensures Valid() && (St(), out) == ClearRegistered(old(St()), r)
      ensures table.Grew()
    {
      var e: Option<Error> := None;
      if deltaCb != null {
        if easy {
          e := EasyClear(r.clear);
        } else {
          e := ClearDeltaCb(r.clear);
        }
      }
      return if e.Some? then Err(e.value) else Ok([]);
    }

    /** `set_delta_callback` and `set_typed_delta_callback`. */
    method SetDeltaCallback(kind: Kind, fn: Option<Callable>, r: Reply) returns (out: Outcome)
      requires Valid()
      modifies this`mode, this`deltaCb, native, table, table.states
      ensures Valid() && (St(), out) == SetCallback(old(St()), kind, fn, r)
      ensures table.Grew()
    {
      hide CallbackTable.Valid;
      if kind == TypedDelta && !typedApi {
        return Err(VersionError);
      }
      if easy && fn == Some(PrintDelta) {
        return Err(TypeError);
      }
      var ok := CheckMode(Incremental);
      if !ok {
        return Err(ModeError);
      }
      if fn.Some? {
        out := Register(kind, fn.value, r);
      } else {
        out := Unregister(r);
      }
    }

    /** A step that finds no handle of its kind makes one and registers it. */
    method AcquireHandle(kind: Kind, r: Reply) returns (e: Option<Error>)
      requires Valid()
      modifies this`deltaCb, native, table
      ensures Valid() && (St(), e) == NewArmedHandle(old(St()), kind, r)
      ensures e.None? ==> deltaCb != null
      ensures fresh(table.states - old(table.states)) && table.Grew()
    {
      hide CallbackTable.Valid;
      e := SwitchHandle(kind, r.clear);
      if e.None? {
        e := ArmHandle(r.arm);
      }
    }

    /** The engine call of a step or a snapshot. */
    method EvaluateWith(h: CallbackHandle, isArgument: bool, r: Reply) returns (rc: int)
      requires Valid() && h.Registered(table)
      modifies native, table`view, table.states
      ensures Valid() && h.Registered(table) && rc == r.rc
      ensures var arg := if isArgument then Some(Handle(h.kind, h.token)) else None;
              St() == P.Evaluate(old(St()), Handle(h.kind, h.token), arg, r)
    {
      rc := native.Evaluate(table, h, isArgument, pendingInputs, r);
    }

    /** Only `EasySession` lets its input buffers go here. */
    method Succeed(family: Mode)
      modifies this`pendingInputs, this`succeeded
      ensures View() == old(View()).(pending := if easy then [] else old(pendingInputs),
                                     succeeded := old(succeeded) + {family})
    {
      if easy {
        pendingInputs := [];
      }
      succeeded := succeeded + {family};
    }

    /** The drain after a successful evaluation. */
    method DrainHandle(h: CallbackHandle, family: Mode) returns (out: Outcome)
      requires Valid() && h.Registered(table)
      modifies this`pendingInputs, this`succeeded, table`view, h.state
      ensures Valid() && h.Registered(table) && (St(), out) == Collect(old(St()), h.token, family)
    {
      out := h.DrainQueue(table);
      if out.Ok? {
        Succeed(family);
      }
    }

    method StepAndDrain(r: Reply) returns (out: Outcome)
      requires Valid() && deltaCb != null
      modifies this`pendingInputs, this`succeeded, native, table`view, table.states
      ensures Valid() && (St(), out) == RunStep(old(St()), r)
    {
      var rc := EvaluateWith(deltaCb, false, r);
      if rc != 0 {
        return Err(EngineError(rc));
      }
      out := DrainHandle(deltaCb, Incremental);
    }

    method StepInMode(kind: Kind, r: Reply) returns (out: Outcome)
      requires Valid()
      modifies this`deltaCb, this`pendingInputs, this`succeeded, native, table, table.states
      ensures Valid()
      ensures if HasHandle(old(View()), kind) then (St(), out) == RunStep(old(St()), r)
              else var (st, e) := NewArmedHandle(old(St()), kind, r);
                   (St(), out) == if e.Some? then (st, Err(e.value)) else RunStep(st, r)
      ensures table.Grew()
    {
      hide CallbackTable.Valid;
      var e: Option<Error> := None;
      if deltaCb == null || deltaCb.kind != kind {
        e := AcquireHandle(kind, r);
      }
      if e.Some? {
        out := Err(e.value);
      } else {
        out := StepAndDrain(r);
      }
    }

    /** `step` and `step_typed`. */
    method DoStep(kind: Kind, r: Reply) returns (out: Outcome)
      requires Valid()
      modifies this`mode, this`deltaCb, this`pendingInputs, this`succeeded, native, table, table.states
      ensures Valid() && (St(), out) == Step(old(St()), kind, r)
      ensures table.Grew()
    {
      hide CallbackTable.Valid;
      if kind == TypedDelta && !typedApi {
        return Err(VersionError);
      }
      var ok := CheckMode(Incremental);
      if !ok {
        return Err(ModeError);
      }
      out := StepInMode(kind, r);
    }

    method OpenTemporary(kind: Kind) returns (cb: CallbackHandle)
      requires Valid()
      modifies table
      ensures Valid() && cb.Registered(table) && (deltaCb != null ==> deltaCb.token != cb.token)
      ensures cb.kind == kind && cb.token == old(table.view.next)
      ensures St() == old(St()).(reg := OpenSlot(old(table.view)))
      ensures fresh(table.states - old(table.states)) && table.Grew()
    {
      hide CallbackTable.Valid;
      cb := new CallbackHandle(kind, table);
    }

    /** The body of the snapshot's `try`. */
    method CollectSnapshot(cb: CallbackHandle, r: Reply) returns (out: Outcome)
      requires Valid() && cb.Registered(table)
      modifies this`pendingInputs, this`succeeded, native, table`view, table.states
      ensures Valid() && cb.Registered(table)
      ensures var h := Handle(cb.kind, cb.token);
              var st := P.Evaluate(old(St()), h, Some(h), r);
              (St(), out) == if r.rc != 0 then (st, Err(EngineError(r.rc))) else Collect(st, h.token, Query)
    {
      var rc := EvaluateWith(cb, true, r);
      if rc != 0 {
        out := Err(EngineError(rc));
      } else {
        out := DrainHandle(cb, Query);
      }
    }

    /** The `finally` of the snapshot. */
    method CloseTemporary(cb: CallbackHandle)
      requires Valid() && cb.Registered(table) && (deltaCb != null ==> deltaCb.token != cb.token)
      modifies table
      ensures Valid() && St() == old(St()).(reg := CloseSlot(old(table.view), cb.token))
      ensures table.Grew()
    {
      cb.Close(table);
    }

    method SnapshotOnce(kind: Kind, r: Reply) returns (out: Outcome)
      requires Valid()
      modifies this`pendingInputs, this`succeeded, native, table, table.states
      ensures Valid() && (St(), out) == RunSnapshot(old(St()), kind, r)
      ensures table.Grew()
    {
      hide CallbackTable.Valid;
      var cb := OpenTemporary(kind);
      out := CollectSnapshot(cb, r);
      CloseTemporary(cb);
    }

    /** `snapshot`, `snapshot_arrays` and `snapshot_typed`. */
    method DoSnapshot(kind: Kind, r: Reply) returns (out: Outcome)
      requires Valid()
      modifies this`mode, this`pendingInputs, this`succeeded, native, table, table.states
      ensures Valid() && (St(), out) == Snapshot(old(St()), kind, r)
      ensures table.Grew()
    {
      hide CallbackTable.Valid;
      if kind == TypedDelta && !typedApi {
        return Err(VersionError);
      }
      var ok := CheckMode(Query);
      if !ok {
        return Err(ModeError);
      }
      out := SnapshotOnce(kind, r);
    }

    /** The engine took a buffer, and it goes on the pending list. */
    method KeepAlive(buffer: nat)
      modifies this`pendingInputs, native
      ensures View() == Retain(old(View()), buffer)
    {
      native.held := native.held + {buffer};
      pendingInputs := pendingInputs + [buffer];
    }

    /** `insert` / `remove` and their typed forms, once the rows have been encoded or refused. */
    method DoUpdate(typed: bool, rows: Rows, r: Reply) returns (out: Outcome)
      modifies this`mode, this`pendingInputs, native
      ensures (St(), out) == Update(old(St()), typed, rows, r)
    {
      if typed && !typedApi {
        return Err(VersionError);
      }
      if !easy {
        var ok := CheckMode(Incremental);
        if !ok {
          return Err(ModeError);
        }
      }
      if rows.NoRows? {
        return Ok([]);
      }
      if rows.Unencodable? {
        return Err(rows.error);
      }
      if r.rc != 0 {
        return Err(if typed && r.diagnostic != 0 then TypedRowError(r.diagnostic) else EngineError(r.rc));
      }
      if easy {
        KeepAlive(rows.buffer);
      }
      return Ok([]);
    }

    /** `_sym_call`. */
    method DoUpdateSym(nsymbols: nat, buffer: nat, interned: bool, r: Reply) returns (out: Outcome)
      modifies this`mode, this`pendingInputs, native
      ensures (St(), out) == UpdateSym(old(St()), nsymbols, buffer, interned, r)
    {
      var ok := CheckMode(Incremental);
      if !ok {
        return Err(ModeError);
      }
      if nsymbols > SYM_MAX {
        return Err(ValueError);
      }
      if r.rc != 0 {
        return Err(EngineError(r.rc));
      }
      KeepAlive(buffer);
      return if interned then Ok([]) else Err(InternError);
    }

    method DoMakeCompound(r: Reply) returns (out: Outcome)
      requires CompoundsOk()
      modifies this`compounds, this`made, this`madeViews
      ensures CompoundsOk() && (St(), out) == MakeCompound(old(St()), r)
    {
      if r.rc != 0 {
        return Err(EngineError(r.rc));
      }
      if r.out == 0 {
        return Err(ExecError);
      }
      var c := new CompoundObject(r.out, this, |made|);
      compounds := compounds + [c];
      made, madeViews := made + [c], madeViews + [Compound(r.out, false)];
      return Ok([]);
    }

    method InvalidateAll()
      requires CompoundsOk()
      modifies this`compounds, this`madeViews, this`firstListed, compounds
      ensures CompoundsOk() && compounds == []
      ensures madeViews == InvalidateFrom(old(madeViews), old(firstListed)) && firstListed == |madeViews|
    {
      ghost var first, views := firstListed, madeViews;
      for i := 0 to |compounds|
        invariant CompoundsOk() && compounds == old(compounds) && firstListed == first && |madeViews| == |views|
        invariant forall k :: 0 <= k < |views| ==>
                    madeViews[k] == if first <= k < first + i then views[k].(invalidated := true) else views[k]
      {
        assert compounds[i] == made[first + i];
        compounds[i].Invalidate();
      }
      compounds := [];
      firstListed := |madeViews|;
      assert madeViews == InvalidateFrom(views, first);
    }

    /** `EasySession` frees its side program and lets its inputs go. */
    method FreeInputs()
      modifies this`sideProgram, this`programsFreed, this`pendingInputs
      ensures View() == old(View()).(programs := FreeSideProgram(old(View()).programs),
                                     pending := if easy then [] else old(pendingInputs))
    {
      if sideProgram {
        sideProgram := false;
        programsFreed := programsFreed + 1;
      }
      if easy {
        pendingInputs := [];
      }
    }

    method DestroyNative()
      modifies this`nativeLive, native
      ensures !nativeLive
      ensures native.View()
              == if old(nativeLive) then Engine(map[], {}, old(native.released) + 1) else old(native.View())
    {
      if nativeLive {
        native.Destroy();
        nativeLive := false;
      }
    }

    method ShutNative(reply: SetReply)
      requires Valid() && CompoundsOk()
      modifies this`deltaCb, this`nativeLive, this`closed, native, table
      ensures Valid() && CompoundsOk() && St() == Shut(old(St()), reply)
      ensures table.Grew()
    {
      hide CallbackTable.Valid;
      if deltaCb != null {
        var _ := ClearDeltaCb(reply);
      }
      DestroyNative();
      closed := true;
    }

    method DoClose(r: Reply) returns (out: Outcome)
      requires Valid() && CompoundsOk()
      modifies this`compounds, this`madeViews, this`firstListed, this`sideProgram, this`programsFreed,
               this`pendingInputs, this`deltaCb, this`nativeLive, this`closed, native, table, compounds
      ensures Valid() && CompoundsOk() && (St(), out) == Close(old(St()), r)
      ensures table.Grew()
    {
      hide CallbackTable.Valid;
      if !closed {
        InvalidateAll();
        FreeInputs();
        assert View() == LetGo(old(View()));
        ShutNative(r.clear);
      }
      return Ok([]);
    }

    /** The engine calls back on its own, between two calls of the API. */
    method Fire(call: RawCall)
      requires Valid()
      modifies table`view, table.states
      ensures Valid() && St() == P.Fire(old(St()), call)
    {
      if KindOf(call) in native.armed {
        table.Trampoline(native.armed[KindOf(call)], call);
      }
    }

    /** Any operation of the session itself. */
    method Perform(op: Op, r: Reply) returns (out: Outcome)
      requires Valid() && CompoundsOk() && !op.OpInvalidate?
      modifies this, native, table, table.states, compounds
      ensures Valid() && CompoundsOk() && (St(), out) == Apply(old(St()), op, r)
      ensures table.Grew()
    {
      hide CallbackTable.Valid, SetCallback, Step, Snapshot, Update, UpdateSym, MakeCompound, Close, P.Fire;
      if !Offers(easy, op) {
        return Err(AttributeError);
      }
      match op {
        case OpSetCallback(kind, fn) => out := SetDeltaCallback(kind, fn, r);
        case OpStep(kind) => out := DoStep(kind, r);
        case OpSnapshot(kind) => out := DoSnapshot(kind, r);
        case OpUpdate(typed, rows) => out := DoUpdate(typed, rows, r);
        case OpUpdateSym(n, buffer, interned) => out := DoUpdateSym(n, buffer, interned, r);
        case OpMakeCompound => out := DoMakeCompound(r);
        case OpClose => out := DoClose(r);
        case OpFire(call) => Fire(call); out := Ok([]);
      }
    }
  }
}
