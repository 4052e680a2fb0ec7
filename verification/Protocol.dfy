/**
 The callback registry and the session protocol as functions on values: what every call of
 `EasySession` and `Session` does to the registry, to the session and to the engine's two
 callback slots (`pyrewire/_core/callbacks.py`, `pyrewire/session.py`). The classes of
 `CallbackRegistry.dfy` and `Sessions.dfy` are proved against these functions; the theorems about whole
 runs are in `Runs.dfy`.
 */
module Protocol {
  import opened Wrappers
  import opened Lanes

  // ---------------------------------------------------------------- events

  datatype Kind = Delta | Tuple | TypedDelta

  datatype Event =
    | DeltaEvent(rel: string, row: seq<int>, diff: int)
    | TupleEvent(rel: string, row: seq<int>)
    | TypedEvent(rel: string, vals: seq<Py>, diff: int)

  /** A `const char *relation` argument. */
  datatype RelationName = NullName | Utf8(s: string) | NotUtf8

  /** A `const int64_t *row` argument with its column count. */
  datatype RawRow = NullRow(ncols: nat) | Cells(vals: seq<int>)

  /** What the engine passes to a trampoline, next to the token. */
  datatype RawCall =
    | DeltaCall(name: RelationName, row: RawRow, diff: int)
    | TupleCall(name: RelationName, row: RawRow)
    | TypedCall(name: RelationName, desc: Option<Descriptor>, diff: int)

  function KindOf(c: RawCall): Kind {
    match c
    case DeltaCall(_, _, _) => Delta
    case TupleCall(_, _) => Tuple
    case TypedCall(_, _, _) => TypedDelta
  }

  datatype Reception = Ignored | Received(event: Event) | Failed(fault: Fault)

  function NameOf(n: RelationName): Result<string, Fault> {
    match n
    case NullName => Ok("")
    case Utf8(s) => Ok(s)
    case NotUtf8 => Err(BadRelationName)
  }

  function CellsOf(r: RawRow): Result<seq<int>, Fault> {
    match r
    case NullRow(n) => if n == 0 then Ok([]) else Err(NullRowPointer)
    case Cells(vals) => Ok(vals)
  }

  /** The body of a trampoline once its token has been found. */
  function Receive(c: RawCall): Reception {
    if c.TypedCall? && c.desc.None? then Ignored
    else
      var name := NameOf(c.name);
      if name.Err? then Failed(name.error)
      else
        match c
        case TypedCall(_, desc, diff) =>
          var vals := DecodedRow(desc.value);
          if vals.Err? then Failed(vals.error) else Received(TypedEvent(name.value, vals.value, diff))
        case DeltaCall(_, row, diff) =>
          var cells := CellsOf(row);
          if cells.Err? then Failed(cells.error) else Received(DeltaEvent(name.value, cells.value, diff))
        case TupleCall(_, row) =>
          var cells := CellsOf(row);
          if cells.Err? then Failed(cells.error) else Received(TupleEvent(name.value, cells.value))
  }

  // ---------------------------------------------------------------- the registry

  /** A callable a user may register; the engine's own printer is told apart and refused. */
  datatype Callable = PrintDelta | UserFn(id: int)

  datatype Slot = Slot(queue: seq<Event>, userFn: Option<Callable>, lastError: Option<Fault>)

  /** History: what happened to the slots, and the circumstances of every evaluating call. */
  datatype Obs =
    | Issued(token: nat)
    | Queued(token: nat, event: Event)
    | Faulted(token: nat, fault: Fault)
    | Drained(token: nat, events: seq<Event>, raised: Option<Fault>)
    | Dropped(token: nat, events: seq<Event>)
    | Evaluated(token: nat, kind: Kind, armed: Option<nat>, held: set<nat>, pending: set<nat>)

  /** `_REGISTRY` and `_NEXT_TOKEN`, with the history of the process. */
  datatype Registry = Registry(slots: map<nat, Slot>, next: nat, log: seq<Obs>)

  const InitialRegistry := Registry(map[], 1, [])

  function OpenSlot(r: Registry): Registry {
    Registry(r.slots[r.next := Slot([], None, None)], r.next + 1, r.log + [Issued(r.next)])
  }

  function CloseSlot(r: Registry, token: nat): Registry {
    if token in r.slots
    then r.(slots := r.slots - {token}, log := r.log + [Dropped(token, r.slots[token].queue)])
    else r
  }

  /** A trampoline's effect on the slot its token names; a dead token names none. */
  function Record(r: Registry, token: nat, what: Reception): Registry {
    if token !in r.slots then r
    else
      var slot := r.slots[token];
      match what
      case Ignored => r
      case Received(e) =>
        r.(slots := r.slots[token := slot.(queue := slot.queue + [e])], log := r.log + [Queued(token, e)])
      case Failed(f) =>
        r.(slots := r.slots[token := slot.(lastError := Some(f))], log := r.log + [Faulted(token, f)])
  }

  /** `drain`: the queue is emptied whether or not the stashed error is re-raised. */
  function Drain(r: Registry, token: nat): (Registry, Result<seq<Event>, Error>) {
    if token !in r.slots then (r, Ok([]))
    else
      var slot := r.slots[token];
      (r.(slots := r.slots[token := slot.(queue := [], lastError := None)],
          log := r.log + [Drained(token, slot.queue, slot.lastError)]),
       if slot.lastError.Some? then Err(CallbackError(slot.lastError.value)) else Ok(slot.queue))
  }

  function SetUserFn(r: Registry, token: nat, fn: Callable): Registry {
    if token in r.slots then r.(slots := r.slots[token := r.slots[token].(userFn := Some(fn))]) else r
  }

  // ---------------------------------------------------------------- session and engine

  datatype Handle = Handle(kind: Kind, token: nat)

  datatype Mode = Unset | Incremental | Query

  /** The engine behind one session: the callback slots, the input buffers it may still read and
      how often its native handle was released. */
  datatype Engine = Engine(armed: map<Kind, nat>, held: set<nat>, released: nat)

  /** The programs a session frees: whether it was opened with a side program of its own, whether it
      still has it, and how many it has freed. */
  datatype Programs = Programs(owned: bool, live: bool, freed: nat)

  datatype Compound = Compound(raw: nat, invalidated: bool)

  /**
   A session. `made` lists every compound it ever made, of which those from `firstListed` on are
   in its own list; `succeeded` records which family of evaluating calls ever returned.
   */
  datatype Session = Session(
    easy: bool, typedApi: bool, engine: Engine, native: bool, closed: bool, mode: Mode,
    cb: Option<Handle>, pending: seq<nat>, made: seq<Compound>, firstListed: nat, succeeded: set<Mode>,
    programs: Programs)

  /** Only `EasySession` parses its source a second time, which may fail. */
  function NewSession(easy: bool, typedApi: bool, parsed: bool): Session {
    Session(easy, typedApi, Engine(map[], {}, 0), true, false, Unset, None, [], [], 0, {},
            Programs(easy && parsed, easy && parsed, 0))
  }

  datatype State = State(reg: Registry, s: Session)

  /** How a callback setter answers. On a failure it may or may not have taken effect, and in any
      case it may have nulled the other slot as well. */
  datatype SetReply = SetReply(rc: int, took: bool, clearsOther: bool)

  /** A trampoline call made while the engine evaluates: through the pair passed to this very
      call, or through a slot. */
  datatype Emission = Emission(viaArgument: bool, call: RawCall)

  /** Everything the engine decides during one call of the API; `diagnostic` is the code it fills
      into the error structure of a typed call. */
  datatype Reply = Reply(
    clear: SetReply, arm: SetReply, rc: int, emissions: seq<Emission>, consumed: set<nat>, out: nat, diagnostic: int)

  type Outcome = Result<seq<Event>, Error>

  function Check(rc: int): Option<Error> {
    if rc == 0 then None else Some(EngineError(rc))
  }

  /** `_require_mode`: the mode afterwards, and whether the check passed. */
  function RequireMode(mode: Mode, want: Mode): (Mode, bool) {
    if mode == Unset then (want, true) else (mode, mode == want)
  }

  // ---------------------------------------------------------------- callback slots

  /** A setter called with a token, or with a null pointer to clear. */
  function SetEngineSlot(e: Engine, kind: Kind, token: Option<nat>, r: SetReply): Engine {
    var own :=
      if r.rc != 0 && !r.took then e.armed
      else if token.Some? then e.armed[kind := token.value]
      else e.armed - {kind};
    e.(armed := if r.clearsOther then map k | k in own && k == kind :: own[k] else own)
  }

  /** `Session._clear_delta_cb`: the handle goes even when the engine refuses the clear. */
  function ClearCallback(st: State, r: SetReply): (State, Option<Error>)
    requires st.s.cb.Some?
  {
    var h := st.s.cb.value;
    (State(CloseSlot(st.reg, h.token),
           st.s.(cb := None, engine := SetEngineSlot(st.s.engine, h.kind, None, r))),
     Check(r.rc))
  }

  /** The clear of `EasySession.set_delta_callback(None)`: a refused clear keeps the handle. */
  function EasyClearCallback(st: State, r: SetReply): (State, Option<Error>)
    requires st.s.cb.Some?
  {
    var h := st.s.cb.value;
    var s := st.s.(engine := SetEngineSlot(st.s.engine, h.kind, None, r));
    if r.rc != 0 then (State(st.reg, s), Check(r.rc))
    else (State(CloseSlot(st.reg, h.token), s.(cb := None)), None)
  }

  predicate HasHandle(s: Session, kind: Kind) {
    s.cb.Some? && s.cb.value.kind == kind
  }

  function NewHandle(st: State, kind: Kind): State {
    State(OpenSlot(st.reg), st.s.(cb := Some(Handle(kind, st.reg.next))))
  }

  /** Make the session's handle one of the given kind. */
  function SwitchTo(st: State, kind: Kind, r: SetReply): (State, Option<Error>) {
    if HasHandle(st.s, kind) then (st, None)
    else if st.s.cb.None? then (NewHandle(st, kind), None)
    else
      var (cleared, e) := ClearCallback(st, r);
      if e.Some? then (cleared, e) else (NewHandle(cleared, kind), None)
  }

  /** Register the session's handle with the engine. */
  function Arm(st: State, r: SetReply): (State, Option<Error>)
    requires st.s.cb.Some?
  {
    var h := st.s.cb.value;
    (st.(s := st.s.(engine := SetEngineSlot(st.s.engine, h.kind, Some(h.token), r))), Check(r.rc))
  }

  // ---------------------------------------------------------------- evaluation

  /** The token a trampoline call carries, if the engine has one to make it with. */
  function TokenFor(armed: map<Kind, nat>, arg: Option<Handle>, em: Emission): Option<nat> {
    var kind := KindOf(em.call);
    if em.viaArgument then (if arg.Some? && arg.value.kind == kind then Some(arg.value.token) else None)
    else if kind in armed then Some(armed[kind]) else None
  }

  function Emit(r: Registry, armed: map<Kind, nat>, arg: Option<Handle>, em: Emission): Registry {
    var token := TokenFor(armed, arg, em);
    if token.Some? then Record(r, token.value, Receive(em.call)) else r
  }

  function EmitAll(r: Registry, armed: map<Kind, nat>, arg: Option<Handle>, ems: seq<Emission>): Registry {
    if ems == [] then r
    else Emit(EmitAll(r, armed, arg, ems[..|ems| - 1]), armed, arg, ems[|ems| - 1])
  }

  function ToSet(s: seq<nat>): set<nat> {
    set x | x in s
  }

  /** The circumstances of an evaluating call. */
  function Circumstances(e: Engine, pending: seq<nat>, h: Handle, arg: Option<Handle>): Obs {
    var armed := if arg.Some? then Some(arg.value.token) else if h.kind in e.armed then Some(e.armed[h.kind]) else None;
    Evaluated(h.token, h.kind, armed, e.held, ToSet(pending))
  }

  /** `step` or `snapshot` of the engine: it may call back while it evaluates, */
  function Callbacks(reg: Registry, e: Engine, pending: seq<nat>, h: Handle, arg: Option<Handle>, r: Reply): Registry {
    EmitAll(reg.(log := reg.log + [Circumstances(e, pending, h, arg)]), e.armed, arg, r.emissions)
  }

  /** and if it succeeds it is done with every input buffer. */
  function AfterEvaluation(e: Engine, r: Reply): Engine {
    e.(held := if r.rc == 0 then {} else e.held - r.consumed)
  }

  function Evaluate(st: State, h: Handle, arg: Option<Handle>, r: Reply): State {
    State(Callbacks(st.reg, st.s.engine, st.s.pending, h, arg, r),
          st.s.(engine := AfterEvaluation(st.s.engine, r)))
  }

  /** The events of a successful evaluation; only `EasySession` then lets its input buffers go. */
  function Collect(st: State, token: nat, family: Mode): (State, Outcome) {
    var (reg, events) := Drain(st.reg, token);
    (State(reg, if events.Err? then st.s
                else st.s.(pending := if st.s.easy then [] else st.s.pending,
                           succeeded := st.s.succeeded + {family})),
     events)
  }

  // ---------------------------------------------------------------- the calls

  function ClearRegistered(st: State, r: Reply): (State, Outcome) {
    if st.s.cb.None? then (st, Ok([]))
    else
      var (st1, e) := if st.s.easy then EasyClearCallback(st, r.clear) else ClearCallback(st, r.clear);
      (st1, if e.Some? then Err(e.value) else Ok([]))
  }

  function RegisterFn(st: State, kind: Kind, fn: Callable, r: Reply): (State, Outcome) {
    var (st1, e) := SwitchTo(st, kind, r.clear);
    if e.Some? then (st1, Err(e.value))
    else
      var (st2, e2) := Arm(st1.(reg := SetUserFn(st1.reg, st1.s.cb.value.token, fn)), r.arm);
      (st2, if e2.Some? then Err(e2.value) else Ok([]))
  }

  /** `set_delta_callback` and `set_typed_delta_callback`. */
  function SetCallback(st: State, kind: Kind, fn: Option<Callable>, r: Reply): (State, Outcome) {
    if kind == TypedDelta && !st.s.typedApi then (st, Err(VersionError))
    else if st.s.easy && fn == Some(PrintDelta) then (st, Err(TypeError))
    else
      var (mode, ok) := RequireMode(st.s.mode, Incremental);
      var st0 := st.(s := st.s.(mode := mode));
      if !ok then (st0, Err(ModeError))
      else if fn.None? then ClearRegistered(st0, r)
      else RegisterFn(st0, kind, fn.value, r)
  }

  function RunStep(st: State, r: Reply): (State, Outcome)
    requires st.s.cb.Some?
  {
    var h := st.s.cb.value;
    var st1 := Evaluate(st, h, None, r);
    if r.rc != 0 then (st1, Err(EngineError(r.rc)))
    else Collect(st1, h.token, Incremental)
  }

  /** A step that finds no handle of its kind makes one and registers it. */
  function NewArmedHandle(st: State, kind: Kind, r: Reply): (State, Option<Error>) {
    var (st1, e) := SwitchTo(st, kind, r.clear);
    if e.Some? then (st1, e) else Arm(st1, r.arm)
  }

  /** `step` and `step_typed`. A handle that is already there is not registered again. */
  function Step(st: State, kind: Kind, r: Reply): (State, Outcome) {
    if kind == TypedDelta && !st.s.typedApi then (st, Err(VersionError))
    else
      var (mode, ok) := RequireMode(st.s.mode, Incremental);
      var st0 := st.(s := st.s.(mode := mode));
      if !ok then (st0, Err(ModeError))
      else if HasHandle(st.s, kind) then RunStep(st0, r)
      else
        var (st1, e) := NewArmedHandle(st0, kind, r);
        if e.Some? then (st1, Err(e.value)) else RunStep(st1, r)
  }

  function RunSnapshot(st: State, kind: Kind, r: Reply): (State, Outcome) {
    var h := Handle(kind, st.reg.next);
    var st1 := Evaluate(st.(reg := OpenSlot(st.reg)), h, Some(h), r);
    var (st2, out) := if r.rc != 0 then (st1, Err(EngineError(r.rc))) else Collect(st1, h.token, Query);
    (st2.(reg := CloseSlot(st2.reg, h.token)), out)
  }

  /** `snapshot`, `snapshot_arrays` and `snapshot_typed`: a handle for this one call. */
  function Snapshot(st: State, kind: Kind, r: Reply): (State, Outcome) {
    if kind == TypedDelta && !st.s.typedApi then (st, Err(VersionError))
    else
      var (mode, ok) := RequireMode(st.s.mode, Query);
      var st0 := st.(s := st.s.(mode := mode));
      if !ok then (st0, Err(ModeError)) else RunSnapshot(st0, kind, r)
  }

  /** What became of the caller's rows before the engine was asked. */
  datatype Rows = NoRows | Unencodable(error: Error) | Encoded(buffer: nat)

  /** The engine took a buffer and the session keeps it alive. */
  function Retain(s: Session, buffer: nat): Session {
    s.(pending := s.pending + [buffer], engine := s.engine.(held := s.engine.held + {buffer}))
  }

  /** `insert` / `remove` of either session, `insert_typed` / `remove_typed`. `EasySession` does
      not check the mode here and keeps the buffer. */
  function Update(st: State, typed: bool, rows: Rows, r: Reply): (State, Outcome) {
    if typed && !st.s.typedApi then (st, Err(VersionError))
    else
      var (mode, ok) := if st.s.easy then (st.s.mode, true) else RequireMode(st.s.mode, Incremental);
      var st0 := st.(s := st.s.(mode := mode));
      if !ok then (st0, Err(ModeError))
      else if rows.NoRows? then (st0, Ok([]))
      else if rows.Unencodable? then (st0, Err(rows.error))
      else if r.rc != 0 then
        (st0, Err(if typed && r.diagnostic != 0 then TypedRowError(r.diagnostic) else EngineError(r.rc)))
      else if st.s.easy then (st0.(s := Retain(st0.s, rows.buffer)), Ok([]))
      else (st0, Ok([]))
  }

  const SYM_MAX := 16

  /** `insert_sym` / `remove_sym`; `interned` says whether mirroring the symbols succeeded. */
  function UpdateSym(st: State, nsymbols: nat, buffer: nat, interned: bool, r: Reply): (State, Outcome) {
    var (mode, ok) := RequireMode(st.s.mode, Incremental);
    var st0 := st.(s := st.s.(mode := mode));
    if !ok then (st0, Err(ModeError))
    else if nsymbols > SYM_MAX then (st0, Err(ValueError))
    else if r.rc != 0 then (st0, Err(EngineError(r.rc)))
    else (st0.(s := Retain(st0.s, buffer)), if interned then Ok([]) else Err(InternError))
  }

  /** `make_compound`. */
  function MakeCompound(st: State, r: Reply): (State, Outcome) {
    if r.rc != 0 then (st, Err(EngineError(r.rc)))
    else if r.out == 0 then (st, Err(ExecError))
    else (st.(s := st.s.(made := st.s.made + [Compound(r.out, false)])), Ok([]))
  }

  /** `Compound.invalidate`, on a compound of this session. */
  function Invalidate(st: State, i: nat): (State, Outcome) {
    (if i < |st.s.made| then st.(s := st.s.(made := st.s.made[i := st.s.made[i].(invalidated := true)])) else st,
     Ok([]))
  }

  function InvalidateFrom(made: seq<Compound>, first: nat): (r: seq<Compound>)
    ensures |r| == |made|
    ensures forall i :: 0 <= i < |made| ==> r[i] == if i < first then made[i] else made[i].(invalidated := true)
  {
    seq(|made|, i requires 0 <= i < |made| => if i < first then made[i] else made[i].(invalidated := true))
  }

  function FreeSideProgram(p: Programs): Programs {
    p.(live := false, freed := p.freed + if p.live then 1 else 0)
  }

  /** The Python side of `close`: compounds are invalidated, and `EasySession` frees its side program
      and lets its inputs go. */
  function LetGo(s: Session): Session {
    s.(made := InvalidateFrom(s.made, s.firstListed), firstListed := |s.made|,
       programs := FreeSideProgram(s.programs),
       pending := if s.easy then [] else s.pending)
  }

  /** The engine's side of `close`: whatever it answers to the clear, the handle goes. */
  function Shut(st: State, r: SetReply): State {
    var st1 := if st.s.cb.Some? then ClearCallback(st, r).0 else st;
    var e := st1.s.engine;
    st1.(s := st1.s.(engine := if st1.s.native then Engine(map[], {}, e.released + 1) else e,
                     native := false, closed := true))
  }

  /** `close`. */
  function Close(st: State, r: Reply): (State, Outcome) {
    if st.s.closed then (st, Ok([])) else (Shut(st.(s := LetGo(st.s)), r.clear), Ok([]))
  }

  /** `Compound.handle`. */
  function CompoundHandle(s: Session, i: nat): Result<nat, Error>
    requires i < |s.made|
  {
    if s.made[i].invalidated || s.closed then Err(ValueError) else Ok(s.made[i].raw)
  }

  /** The engine calls back on its own, between two calls of the API. */
  function Fire(st: State, call: RawCall): State {
    st.(reg := Emit(st.reg, st.s.engine.armed, None, Emission(false, call)))
  }

  // ---------------------------------------------------------------- dispatch

  datatype Op =
    | OpSetCallback(kind: Kind, fn: Option<Callable>)
    | OpStep(kind: Kind)
    | OpSnapshot(kind: Kind)
    | OpUpdate(typed: bool, rows: Rows)
    | OpUpdateSym(nsymbols: nat, buffer: nat, interned: bool)
    | OpMakeCompound
    | OpInvalidate(index: nat)
    | OpClose
    | OpFire(call: RawCall)

  /** Which operations a session's class offers. */
  predicate Offers(easy: bool, op: Op) {
    match op
    case OpSetCallback(kind, _) => kind == Delta || (kind == TypedDelta && !easy)
    case OpStep(kind) => kind == Delta || (kind == TypedDelta && !easy)
    case OpSnapshot(kind) => kind == Tuple || (kind == TypedDelta && !easy)
    case OpUpdate(typed, rows) => easy ==> !typed && !rows.NoRows?
    case OpUpdateSym(_, _, _) => easy
    case _ => true
  }

  function Apply(st: State, op: Op, r: Reply): (State, Outcome) {
    if !Offers(st.s.easy, op) then (st, Err(AttributeError))
    else
      match op
      case OpSetCallback(kind, fn) => SetCallback(st, kind, fn, r)
      case OpStep(kind) => Step(st, kind, r)
      case OpSnapshot(kind) => Snapshot(st, kind, r)
      case OpUpdate(typed, rows) => Update(st, typed, rows, r)
      case OpUpdateSym(n, buffer, interned) => UpdateSym(st, n, buffer, interned, r)
      case OpMakeCompound => MakeCompound(st, r)
      case OpInvalidate(i) => Invalidate(st, i)
      case OpClose => Close(st, r)
      case OpFire(call) => (Fire(st, call), Ok([]))
  }
}
