/** The process-wide callback registry as objects (`pyrewire/_core/callbacks.py`), proved against
    the functions of `Protocol`. */
module CallbackRegistry {
  import opened Wrappers
  import opened Lanes
  import opened Protocol

  class TrampolineState {
    ghost const token: nat      // the token whose slot this object was made for
    var queue: seq<Event>
    var userFn: Option<Callable>
    var lastError: Option<Fault>

    function View(): Slot
      reads this
    {
      Slot(queue, userFn, lastError)
    }

    constructor (ghost token: nat)
      ensures View() == Slot([], None, None) && this.token == token
    {
      this.token := token;
      queue, userFn, lastError := [], None, None;
    }
  }

  /** `_REGISTRY` and `_NEXT_TOKEN`. The ghost `view` is what they amount to, with the history;
      `issued` is the object made for each token, and `states` are all of these. */
  class CallbackTable {
    var slots: map<nat, TrampolineState>
    var nextToken: nat
    ghost var view: Registry
    ghost var issued: map<nat, TrampolineState>
    ghost var states: set<TrampolineState>

    /** Tokens below the next one, each with a state object made for it alone. */
    ghost predicate Valid()
      reads this, states
    {
      && view.next == nextToken && view.slots.Keys == slots.Keys
      && (forall t :: t in slots ==>
            t < nextToken && slots[t] in states && slots[t].token == t && view.slots[t] == slots[t].View())
      && (forall t :: t in slots ==> t in issued && issued[t] == slots[t])
      && (forall t :: t in issued ==> t < nextToken)
    }

    /** No token ever gets a second object. */
    twostate predicate Grew()
      reads this
    {
      forall t :: t in old(issued) ==> t in issued && issued[t] == old(issued[t])
    }

    lemma DistinctTokensOwnDistinctStates(t: nat, u: nat)
      requires Valid() && t in slots && u in slots && t != u
      ensures slots[t] != slots[u]
    {
    }

    constructor ()
      ensures Valid() && view == InitialRegistry && slots == map[]
    {
      slots, nextToken, view := map[], 1, InitialRegistry;
      issued, states := map[], {};
    }

    method Stash(token: nat, fault: Fault)
      requires Valid() && token in slots
      modifies this`view, states
      ensures Valid() && view == Record(old(view), token, Failed(fault))
    {
      slots[token].lastError := Some(fault);
      view := Record(view, token, Failed(fault));
    }

    method Append(token: nat, event: Event)
      requires Valid() && token in slots
      modifies this`view, states
      ensures Valid() && view == Record(old(view), token, Received(event))
    {
      slots[token].queue := slots[token].queue + [event];
      view := Record(view, token, Received(event));
    }

    /** Any of the three trampolines: `call` says which, and with which arguments. No fault leaves
        it; the last one is stashed on the slot. */
    method Trampoline(token: nat, call: RawCall)
      requires Valid()
      modifies this`view, states
      ensures Valid() && view == Record(old(view), token, Receive(call))
    {
      if token !in slots {
        return;
      }
      var state := slots[token];
      if call.TypedCall? && call.desc.None? {
        return;
      }
      var rel := NameOf(call.name);
      if rel.Err? {
        Stash(token, rel.error);
        return;
      }
      match call {
        case TypedCall(_, desc, diff) =>
          var vals := DecodeTypedRow(desc.value);
          if vals.Err? {
            Stash(token, vals.error);
            return;
          }
          Append(token, TypedEvent(rel.value, vals.value, diff));
        case DeltaCall(_, row, diff) =>
          var values := CellsOf(row);
          if values.Err? {
            Stash(token, values.error);
            return;
          }
          Append(token, DeltaEvent(rel.value, values.value, diff));
        case TupleCall(_, row) =>
          var values := CellsOf(row);
          if values.Err? {
            Stash(token, values.error);
            return;
          }
          Append(token, TupleEvent(rel.value, values.value));
      }
    }
  }

  /** Owns a registry slot, and keeps the slot's state object. */
  class CallbackHandle {
    const kind: Kind
    const token: nat
    const state: TrampolineState

    /** The handle's slot is registered, with the handle's own state object. */
    ghost predicate Registered(table: CallbackTable)
      reads table`slots
    {
      token in table.slots && table.slots[token] == state
    }

    constructor (kind: Kind, table: CallbackTable)
      requires table.Valid()
      modifies table
      ensures table.Valid() && table.view == OpenSlot(old(table.view))
      ensures this.kind == kind && token == old(table.view.next) && token !in old(table.slots)
      ensures fresh(state) && table.slots == old(table.slots)[token := state]
      ensures table.states == old(table.states) + {state} && table.Grew()
    {
      this.kind := kind;
      this.token := table.nextToken;
      var st := new TrampolineState(table.nextToken);
      this.state := st;
      new;
      table.view := OpenSlot(table.view);
      table.nextToken := table.nextToken + 1;
      table.slots := table.slots[token := state];
      table.issued := table.issued[token := state];
      table.states := table.states + {state};
    }

    method DrainQueue(table: CallbackTable) returns (r: Result<seq<Event>, Error>)
      requires table.Valid() && Registered(table)
      modifies table`view, state
      ensures table.Valid() && (table.view, r) == Drain(old(table.view), token)
    {
      var events := state.queue;
      state.queue := [];
      table.view := Drain(table.view, token).0;
      if state.lastError.Some? {
        r := Err(CallbackError(state.lastError.value));
        state.lastError := None;
      } else {
        r := Ok(events);
      }
    }

    /** `_REGISTRY.pop(token, None)`. */
    method Close(table: CallbackTable)
      requires table.Valid() && (token in table.slots ==> Registered(table))
      modifies table
      ensures table.Valid() && table.view == CloseSlot(old(table.view), token)
      ensures table.slots == old(table.slots) - {token}
      ensures table.states == old(table.states) && table.issued == old(table.issued)
    {
      table.view := CloseSlot(table.view, token);
      table.slots := table.slots - {token};
    }

    method SetFn(table: CallbackTable, fn: Callable)
      requires table.Valid() && Registered(table)
      modifies table`view, state
      ensures table.Valid() && table.view == SetUserFn(old(table.view), token, fn)
    {
      state.userFn := Some(fn);
      table.view := SetUserFn(table.view, token, fn);
    }
  }
}
