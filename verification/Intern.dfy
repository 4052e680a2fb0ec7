/** The bidirectional string / intern-id cache (`pyrewire/_core/intern.py`). */
module Intern {
  import opened Wrappers

  /** What the two dictionaries hold. */
  datatype Table = Table(forward: map<string, int>, reverse: map<int, string>)

  const EmptyTable := Table(map[], map[])

  // ---------------------------------------------------------------- one call

  /** `intern(value)`; `answer` is what the engine returns if it is asked. */
  function AfterIntern(t: Table, value: string, answer: int): (Table, Result<int, Error>) {
    if value in t.forward then (t, Ok(t.forward[value]))
    else if answer < 0 then (t, Err(InternError))
    else (Table(t.forward[value := answer], t.reverse[answer := value]), Ok(answer))
  }

  function AfterRemember(t: Table, id: int, value: string): Table {
    Table(t.forward[value := id], t.reverse[id := value])
  }

  function Lookup(t: Table, id: int): Result<string, Error> {
    if id in t.reverse then Ok(t.reverse[id]) else Err(InternError)
  }

  class InternTable {
    var forward: map<string, int>
    var reverse: map<int, string>

    ghost function View(): Table
      reads this
    {
      Table(forward, reverse)
    }

    constructor ()
      ensures View() == EmptyTable
    {
      forward, reverse := map[], map[];
    }

    /** `asked` says whether the engine was consulted. */
    method Intern(value: string, answer: int) returns (r: Result<int, Error>, asked: bool)
      modifies this
      ensures (View(), r) == AfterIntern(old(View()), value, answer)
      ensures asked <==> value !in old(forward)
    {
      if value in forward {
        return Ok(forward[value]), false;
      }
      if answer < 0 {
        return Err(InternError), true;
      }
      forward := forward[value := answer];
      reverse := reverse[answer := value];
      return Ok(answer), true;
    }

    method LookupId(id: int) returns (r: Result<string, Error>)
      ensures r == Lookup(View(), id)
    {
      if id in reverse {
        return Ok(reverse[id]);
      }
      return Err(InternError);
    }

    method Remember(id: int, value: string)
      modifies this
      ensures View() == AfterRemember(old(View()), id, value)
    {
      forward := forward[value := id];
      reverse := reverse[id := value];
    }
  }

  // ---------------------------------------------------------------- runs

  datatype Op = Intern(value: string, answer: int) | Remember(id: int, value: string)

  function After(t: Table, op: Op): Table {
    match op
    case Intern(value, answer) => AfterIntern(t, value, answer).0
    case Remember(id, value) => AfterRemember(t, id, value)
  }

  function Run(t: Table, ops: seq<Op>): Table
    decreases |ops|
  {
    if ops == [] then t else Run(After(t, ops[0]), ops[1..])
  }

  /** How often a run makes the engine successfully intern `s`. */
  function SuccessfulAsks(t: Table, ops: seq<Op>, s: string): nat
    decreases |ops|
  {
    if ops == [] then 0
    else
      (if ops[0].Intern? && ops[0].value == s && s !in t.forward && ops[0].answer >= 0 then 1 else 0)
      + SuccessfulAsks(After(t, ops[0]), ops[1..], s)
  }

  /** Every id handed out can be looked up, and every string that can be looked up has an id. */
  ghost predicate Covers(t: Table) {
    && (forall s :: s in t.forward ==> t.forward[s] in t.reverse)
    && (forall id :: id in t.reverse ==> t.reverse[id] in t.forward)
  }

  lemma {:induction false} RunKeepsCover(t: Table, ops: seq<Op>)
    requires Covers(t)
    ensures Covers(Run(t, ops))
    decreases |ops|
  {
    if ops != [] {
      RunKeepsCover(After(t, ops[0]), ops[1..]);
    }
  }

  /** Whatever ids come back and whatever is remembered, a string is asked for successfully at
      most once, and never again once it has an id. */
  lemma {:induction false} AskedAtMostOnce(t: Table, ops: seq<Op>, s: string)
    ensures SuccessfulAsks(t, ops, s) <= if s in t.forward then 0 else 1
    ensures s in t.forward || SuccessfulAsks(t, ops, s) == 1 ==> s in Run(t, ops).forward
    decreases |ops|
  {
    if ops != [] {
      AskedAtMostOnce(After(t, ops[0]), ops[1..], s);
    }
  }

  /** The two maps are inverse to each other. */
  ghost predicate Inverse(t: Table) {
    && (forall s :: s in t.forward ==> t.forward[s] in t.reverse && t.reverse[t.forward[s]] == s)
    && (forall id :: id in t.reverse ==> t.reverse[id] in t.forward && t.forward[t.reverse[id]] == id)
  }

  /** `remember` keeps the maps inverse exactly when the pair contradicts neither map. */
  lemma RememberKeepsInverse(t: Table, id: int, value: string)
    requires Inverse(t)
    ensures Inverse(AfterRemember(t, id, value))
            <==> (value in t.forward ==> t.forward[value] == id) && (id in t.reverse ==> t.reverse[id] == value)
  {
    var u := AfterRemember(t, id, value);
    assert u.forward[value] == id && u.reverse[id] == value;
    if value in t.forward && t.forward[value] != id {
      assert u.reverse[t.forward[value]] == value;
    }
    if id in t.reverse && t.reverse[id] != value {
      assert u.forward[t.reverse[id]] == id;
    }
  }

  /** Remembering two strings under one id breaks the inverse. */
  lemma RememberingTwiceBreaksInverse()
    ensures !Inverse(AfterRemember(AfterRemember(EmptyTable, 1, "a"), 1, "b"))
  {
    var t := AfterRemember(EmptyTable, 1, "a");
    assert "a" in t.forward;
    RememberKeepsInverse(t, 1, "b");
  }

  /** What one call answers, and that what it was told can be looked up. */
  lemma AnswersOfOneCall(t: Table, value: string, answer: int, id: int)
    ensures var (u, r) := AfterIntern(t, value, answer);
            && (r.Ok? <==> value in t.forward || answer >= 0)
            && (r.Err? ==> r == Err(InternError) && u == t)
            && (value in t.forward ==> r == Ok(t.forward[value]) && u == t)
            && (value !in t.forward && r.Ok? ==> r == Ok(answer) && Lookup(u, answer) == Ok(value))
    ensures Lookup(AfterRemember(t, id, value), id) == Ok(value)
    ensures AfterIntern(AfterRemember(t, id, value), value, answer).1 == Ok(id)
    ensures id !in t.reverse ==> Lookup(t, id) == Err(InternError)
  {
  }

  // ---------------------------------------------------------------- refinement of an engine

  /** The engine's own assignment of ids to strings. */
  type Engine = string -> int

  ghost predicate Injective(engine: Engine) {
    forall a, b :: engine(a) == engine(b) ==> a == b
  }

  /** Every cached pair is one of the engine's. */
  ghost predicate Refines(t: Table, engine: Engine) {
    && (forall s :: s in t.forward ==> t.forward[s] == engine(s) && engine(s) in t.reverse)
    && (forall id :: id in t.reverse ==> engine(t.reverse[id]) == id && t.reverse[id] in t.forward)
  }

  /** An intern call fails or answers with the engine's id; a remembered pair is the engine's. */
  ghost predicate Agrees(op: Op, engine: Engine) {
    match op
    case Intern(value, answer) => answer < 0 || answer == engine(value)
    case Remember(id, value) => id == engine(value)
  }

  ghost predicate AllAgree(ops: seq<Op>, engine: Engine) {
    forall i :: 0 <= i < |ops| ==> Agrees(ops[i], engine)
  }

  /** `u` answers everything `t` answered, the same way. */
  ghost predicate Extends(t: Table, u: Table) {
    && (forall s :: s in t.forward ==> s in u.forward && u.forward[s] == t.forward[s])
    && (forall id :: id in t.reverse ==> id in u.reverse && u.reverse[id] == t.reverse[id])
  }

  lemma StepRefines(t: Table, op: Op, engine: Engine)
    requires Injective(engine) && Refines(t, engine) && Agrees(op, engine)
    ensures Refines(After(t, op), engine) && Extends(t, After(t, op))
  {
  }

  lemma RefinementIsInverse(t: Table, engine: Engine)
    requires Injective(engine) && Refines(t, engine)
    ensures Inverse(t)
  {
    forall s | s in t.forward ensures t.reverse[t.forward[s]] == s {
      assert engine(t.reverse[engine(s)]) == engine(s);
    }
  }

  /** A number for every string: its characters as digits from one, to a base beyond every code point. */
  function NumberOf(s: string): (n: nat)
    ensures n == 0 <==> s == ""
  {
    if s == "" then 0 else NumberOf(s[..|s| - 1]) * 0x11_0001 + s[|s| - 1] as int + 1
  }

  lemma {:induction false} NumberOfIsInjective(a: string, b: string)
    requires NumberOf(a) == NumberOf(b)
    ensures a == b
    decreases |a|
  {
    if a != "" && b != "" {
      var (m, c) := (NumberOf(a[..|a| - 1]), a[|a| - 1] as int);
      var (n, d) := (NumberOf(b[..|b| - 1]), b[|b| - 1] as int);
      assert 0 <= c < 0x11_0000 && 0 <= d < 0x11_0000;
      assert m * 0x11_0001 + c == n * 0x11_0001 + d;
      assert m == n && c == d;
      NumberOfIsInjective(a[..|a| - 1], b[..|b| - 1]);
      assert a == a[..|a| - 1] + [a[|a| - 1]] && b == b[..|b| - 1] + [b[|b| - 1]];
    }
  }

  /** Some number exceeds every id of a finite set. */
  lemma IdsAreBounded(ids: set<int>) returns (bound: nat)
    ensures forall id :: id in ids ==> id < bound
    decreases ids
  {
    bound := 0;
    if id :| id in ids {
      var rest := IdsAreBounded(ids - {id});
      bound := if rest <= id then id + 1 else rest;
      forall k | k in ids ensures k < bound {
        assert k == id || k in ids - {id};
      }
    }
  }

  /** The engine that knows a table's pairs, and numbers every other string beyond them. */
  function EngineOf(t: Table, bound: int): Engine {
    s => if s in t.forward then t.forward[s] else bound + NumberOf(s)
  }

  lemma EngineOfIsInjective(t: Table, bound: int)
    requires Inverse(t) && forall id :: id in t.reverse ==> id < bound
    ensures Injective(EngineOf(t, bound))
  {
    var engine := EngineOf(t, bound);
    forall a, b | engine(a) == engine(b) ensures a == b {
      if a !in t.forward && b !in t.forward {
        NumberOfIsInjective(a, b);
      }
    }
  }

  /**
   A table holds pairs of some injective engine exactly when its maps are inverse to each other. So
   what is proved for tables fed by one injective engine holds of every table a caller could check.
   */
  lemma InverseIffSomeEngine(t: Table)
    ensures Inverse(t) <==> exists engine: Engine :: Injective(engine) && Refines(t, engine)
  {
    if Inverse(t) {
      var bound := IdsAreBounded(t.reverse.Keys);
      EngineOfIsInjective(t, bound);
      assert Refines(t, EngineOf(t, bound));
    }
    if engine: Engine :| Injective(engine) && Refines(t, engine) {
      RefinementIsInverse(t, engine);
    }
  }

  /** Over every run fed by one injective engine the maps stay exact inverses, every cached pair
      is the engine's, and growth never changes an earlier answer. */
  lemma {:induction false} RunRefinesEngine(t: Table, ops: seq<Op>, engine: Engine)
    requires Injective(engine) && Refines(t, engine) && AllAgree(ops, engine)
    ensures Refines(Run(t, ops), engine) && Inverse(Run(t, ops)) && Extends(t, Run(t, ops))
    decreases |ops|
  {
    if ops == [] {
      RefinementIsInverse(t, engine);
    } else {
      StepRefines(t, ops[0], engine);
      RunRefinesEngine(After(t, ops[0]), ops[1..], engine);
    }
  }
}
