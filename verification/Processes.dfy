/**
 All sessions of a process as objects over one registry object. Every call of any of them is one
 step of `Runs.Happen`, so what `Theorems` says of runs holds of the objects.
 */
module Processes {
  import opened Wrappers
  import opened Protocol
  import opened CallbackRegistry
  import R = Runs
  import S = Sessions

  class Process {
    const table: CallbackTable
    var sessions: map<nat, S.Session>

    ghost function Natives(): set<S.NativeSession>
      reads this
    {
      set id | id in sessions :: sessions[id].native
    }

    ghost function Compounds(): set<S.CompoundObject>
      reads this, sessions.Values
    {
      set id, i | id in sessions && 0 <= i < |sessions[id].made| :: sessions[id].made[i]
    }

    ghost function View(): R.World
      reads this, table`view, sessions.Values, Natives()
    {
      R.World(table.view, map id | id in sessions :: sessions[id].View())
    }

    /** The sessions share the registry and nothing else. */
    ghost predicate Apart()
      reads this
    {
      && (forall id :: id in sessions ==> sessions[id].table == table)
      && (forall id, jd :: id in sessions && jd in sessions && id != jd ==>
            sessions[id] != sessions[jd] && sessions[id].native != sessions[jd].native)
    }

    ghost predicate Valid()
      reads this, table, table.states, sessions.Values, Natives(), Compounds()
    {
      && table.Valid() && Apart() && R.WorldOk(View())
      && (forall id :: id in sessions ==> sessions[id].HandleOk() && sessions[id].CompoundsOk())
    }

    constructor ()
      ensures Valid() && View() == R.InitialWorld
    {
      table := new CallbackTable();
      sessions := map[];
      new;
      R.InitialWorldOk();
    }

    /** What a call of one session may write, besides the registry. */
    ghost function Footprint(id: nat): set<object>
      reads this, sessions.Values
    {
      if id in sessions then {sessions[id], sessions[id].native} + (set c | c in sessions[id].compounds) else {}
    }

    method Admit(id: nat, s: S.Session, ghost h: R.Happening)
      requires Valid() && id !in sessions && s.table == table && s.HandleOk() && s.CompoundsOk()
      requires s !in sessions.Values && s.native !in Natives()
      requires h.Open? && h.id == id && h.granted && s.View() == NewSession(h.easy, h.typedApi, h.parsed)
      modifies this
      ensures Valid() && View() == R.Happen(old(View()), h)
    {
      hide CallbackTable.Valid, R.WorldOk, NewSession, S.Session.View, S.Session.CompoundsOk, S.Session.HandleOk;
      ghost var w := View();
      R.HappenKeepsWorld(w, h);
      sessions := sessions[id := s];
      assert View().sessions == w.sessions[id := s.View()];
      assert Apart() && View() == R.Happen(w, h);
    }

    /** A session is opened, unless the engine refuses; its source may fail to parse a second time. */
    method Open(id: nat, easy: bool, typedApi: bool, parsed: bool, granted: bool)
      requires Valid()
      modifies this
      ensures Valid() && View() == R.Happen(old(View()), R.Open(id, easy, typedApi, parsed, granted))
    {
      hide CallbackTable.Valid, R.WorldOk, S.Session.View, S.Session.CompoundsOk;
      if id !in sessions && granted {
        var s := new S.Session(easy, typedApi, parsed, table);
        assert View() == old(View());
        Admit(id, s, R.Open(id, easy, typedApi, parsed, granted));
      }
    }

    /** Other sessions' compounds are their own. */
    twostate lemma CompoundsStayOk(jd: nat)
      requires sessions == old(sessions) && jd in sessions && old(sessions[jd].CompoundsOk()) && unchanged(sessions[jd])
      requires forall i :: 0 <= i < |sessions[jd].made| ==> unchanged(sessions[jd].made[i])
      ensures sessions[jd].CompoundsOk()
    {
    }

    lemma CompoundsApart(id: nat, jd: nat)
      requires id in sessions && jd in sessions && sessions[id].CompoundsOk() && sessions[jd].CompoundsOk()
      requires sessions[id] != sessions[jd]
      ensures forall i :: 0 <= i < |sessions[jd].made| ==> sessions[jd].made[i] !in Footprint(id)
      ensures forall i :: 0 <= i < |sessions[jd].made| ==> sessions[jd].made[i] !in sessions[id].made
    {
      forall i | 0 <= i < |sessions[jd].made| ensures sessions[jd].made[i] !in sessions[id].made {
        assert sessions[jd].made[i].owner == sessions[jd];
        assert forall d :: d in sessions[id].made ==> d.owner == sessions[id];
      }
    }

    /** Other sessions' handles keep their slots, with their own state objects. */
    twostate lemma HandleStaysOk(jd: nat)
      requires sessions == old(sessions) && jd in sessions && sessions[jd].table == table
      requires old(table.Valid()) && old(sessions[jd].HandleOk()) && sessions[jd].deltaCb == old(sessions[jd].deltaCb)
      requires table.Valid() && table.Grew() && R.WorldOk(View())
      ensures sessions[jd].HandleOk()
    {
      hide R.WorldOk;
      if sessions[jd].deltaCb != null {
        R.SlotsAreHeld(View(), sessions[jd].deltaCb.token);
        assert View().sessions[jd].cb == Some(Handle(sessions[jd].deltaCb.kind, sessions[jd].deltaCb.token));
      }
    }

    /** One session's objects and the registry changed, the other sessions' objects did not. */
    twostate lemma OneChanged(id: nat)
      requires old(table.Valid()) && Apart() && sessions == old(sessions) && id in sessions
      requires forall jd :: jd in sessions && jd != id ==> old(sessions[jd].HandleOk())
      requires forall jd :: jd in sessions && jd != id ==> sessions[jd].View() == old(sessions[jd].View())
      requires forall jd :: jd in sessions && jd != id ==> sessions[jd].deltaCb == old(sessions[jd].deltaCb)
      requires forall jd :: jd in sessions && jd != id ==> sessions[jd].CompoundsOk()
      requires table.Valid() && table.Grew() && sessions[id].HandleOk() && sessions[id].CompoundsOk()
      requires R.WorldOk(R.World(table.view, old(View()).sessions[id := sessions[id].View()]))
      ensures Valid() && View() == R.World(table.view, old(View()).sessions[id := sessions[id].View()])
    {
      hide CallbackTable.Valid, R.WorldOk, S.Session.View, S.Session.CompoundsOk;
      assert View().sessions == old(View()).sessions[id := sessions[id].View()];
      forall jd | jd in sessions && jd != id ensures sessions[jd].HandleOk() {
        HandleStaysOk(jd);
      }
    }

    /** A caller invalidates a compound it was handed. */
    method InvalidateCompound(c: S.CompoundObject, ghost id: nat, ghost reply: Reply)
      requires Valid() && id in sessions && c in sessions[id].made
      modifies c, c.owner`madeViews
      ensures Valid() && View() == R.Happen(old(View()), R.Call(id, OpInvalidate(c.index), reply))
    {
      hide CallbackTable.Valid, R.WorldOk, S.Session.View, S.Session.HandleOk;
      assert c.owner == sessions[id] && c.Known();
      ghost var w := R.Happen(View(), R.Call(id, OpInvalidate(c.index), reply));
      R.HappenKeepsWorld(View(), R.Call(id, OpInvalidate(c.index), reply));
      forall jd | jd in sessions && jd != id
        ensures forall i :: 0 <= i < |sessions[jd].made| ==> sessions[jd].made[i] != c
      {
        CompoundsApart(id, jd);
      }
      c.Invalidate();
      forall jd | jd in sessions && jd != id ensures sessions[jd].CompoundsOk() {
        CompoundsStayOk(jd);
      }
      assert w == R.World(table.view, old(View()).sessions[id := sessions[id].View()]);
      OneChanged(id);
    }

    /** Any session is called with any operation of its own; a name that was never opened does
        nothing. */
    method Call(id: nat, op: Op, reply: Reply) returns (out: Option<Outcome>)
      requires Valid() && !op.OpInvalidate?
      modifies table, table.states, Footprint(id)
      ensures Valid() && View() == R.Happen(old(View()), R.Call(id, op, reply))
      ensures out == R.Answer(old(View()), id, op, reply)
    {
      hide Apply, CallbackTable.Valid, R.WorldOk, S.Session.View, S.Session.CompoundsOk;
      ghost var w := R.Happen(View(), R.Call(id, op, reply));
      R.HappenKeepsWorld(View(), R.Call(id, op, reply));
      if id !in sessions {
        return None;
      }
      forall jd | jd in sessions && jd != id
        ensures forall i :: 0 <= i < |sessions[jd].made| ==> sessions[jd].made[i] !in Footprint(id)
      {
        CompoundsApart(id, jd);
      }
      var r := sessions[id].Perform(op, reply);
      out := Some(r);
      forall jd | jd in sessions && jd != id ensures sessions[jd].CompoundsOk() {
        CompoundsStayOk(jd);
      }
      assert w == R.World(table.view, old(View()).sessions[id := sessions[id].View()]);
      OneChanged(id);
    }

    lemma KeysAreHandles(t: nat)
      requires Valid()
      ensures t in table.slots
              <==> exists id :: id in sessions && sessions[id].deltaCb != null && sessions[id].deltaCb.token == t
    {
      hide R.WorldOk;
      R.SlotsAreHeld(View(), t);
      if id :| id in View().sessions && View().sessions[id].cb.Some? && View().sessions[id].cb.value.token == t {
        assert id in sessions && sessions[id].deltaCb != null && sessions[id].deltaCb.token == t;
      }
      if id :| id in sessions && sessions[id].deltaCb != null && sessions[id].deltaCb.token == t {
        assert View().sessions[id].cb == Some(Handle(sessions[id].deltaCb.kind, t));
      }
    }

    /** At every call boundary the registry's keys are the tokens of the handles that session
        objects hold, and no two of them share a state object. */
    lemma RegistryKeysAreHandles(t: nat, u: nat)
      requires Valid()
      ensures t in table.slots && u in table.slots && t != u ==> table.slots[t] != table.slots[u]
      ensures t in table.slots
              <==> exists id :: id in sessions && sessions[id].deltaCb != null && sessions[id].deltaCb.token == t
    {
      hide CallbackTable.Valid, R.WorldOk;
      KeysAreHandles(t);
      if t in table.slots && u in table.slots && t != u {
        table.DistinctTokensOwnDistinctStates(t, u);
      }
    }
  }
}
