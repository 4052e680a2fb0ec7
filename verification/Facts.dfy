/** Inline facts of a parsed program: row-major read-back and schema-driven decoding
    (`pyrewire/program.py`). */
module Facts {
  import opened Wrappers
  import opened Words
  import opened Binary64
  import opened Lanes
  import I = Intern

  /** One cell of `Program.facts`: a STRING goes through the table, if there is one, and falls
      back to the raw id. */
  function FactCell(table: Option<I.Table>, t: ColumnType, raw: int): Py {
    match t
    case STRING =>
      if table.None? then PyInt(raw)
      else (match I.Lookup(table.value, raw) case Ok(s) => PyStr(s) case Err(_) => PyInt(raw))
    case BOOL => PyBool(raw != 0)
    case FLOAT => PyFloat(OfBits(ToWord(raw)))
    case _ => PyInt(raw)
  }

  function FactRow(table: Option<I.Table>, schema: seq<ColumnType>, raw: seq<int>): (r: seq<Py>)
    requires |schema| == |raw|
  {
    seq(|raw|, i requires 0 <= i < |raw| => FactCell(table, schema[i], raw[i]))
  }

  /** A declared relation: its schema and its inline rows, as the parser stored them. */
  datatype Relation = Relation(schema: seq<ColumnType>, inline: seq<seq<int>>) {
    predicate Uniform() {
      forall i :: 0 <= i < |inline| ==> |inline[i]| == |schema|
    }
  }

  /** A parsed program, by the relations it declares. */
  type Program = map<string, Relation>

  /** What `Program.facts` makes of a declared relation. */
  function FactsOf(table: Option<I.Table>, rel: Relation): Result<seq<seq<Py>>, Error> {
    if !rel.Uniform() then Err(ValueError)
    else Ok(seq(|rel.inline|, i requires 0 <= i < |rel.inline| => FactRow(table, rel.schema, rel.inline[i])))
  }

  /** `Program.facts`. `zip(strict=True)` raises `ValueError` at the first row whose width is not
      the schema's. */
  method DecodeFacts(table: Option<I.Table>, rel: Relation) returns (r: Result<seq<seq<Py>>, Error>)
    ensures r == FactsOf(table, rel)
    ensures r.Ok? <==> forall i :: 0 <= i < |rel.inline| ==> |rel.inline[i]| == |rel.schema|
    ensures r.Ok? ==> |r.value| == |rel.inline|
    ensures r.Ok? ==> forall i :: 0 <= i < |rel.inline| ==>
                        |rel.inline[i]| == |rel.schema| && r.value[i] == FactRow(table, rel.schema, rel.inline[i])
  {
    var schema, rawRows := rel.schema, rel.inline;
    var out: seq<seq<Py>> := [];
    for i := 0 to |rawRows|
      invariant |out| == i
      invariant forall k :: 0 <= k < i ==>
                  |rawRows[k]| == |schema| && out[k] == FactRow(table, schema, rawRows[k])
    {
      var raw := rawRows[i];
      var decoded: seq<Py> := [];
      var j := 0;
      while j < |schema| && j < |raw|
        invariant 0 <= j <= |schema| && j <= |raw| && |decoded| == j
        invariant forall k :: 0 <= k < j ==> decoded[k] == FactCell(table, schema[k], raw[k])
      {
        decoded := decoded + [FactCell(table, schema[j], raw[j])];
        j := j + 1;
      }
      if |schema| != |raw| {
        return Err(ValueError);
      }
      assert decoded == FactRow(table, schema, raw);
      out := out + [decoded];
    }
    r := Ok(out);
    assert out == FactsOf(table, rel).value;
  }

  /**
   The lane decoder and the fact decoder without a table read every 64-bit word alike, save that
   an unsigned column with the top bit set differs, by exactly 2^64.
   */
  lemma LaneAndFactDecodersAgree(w: Word, t: ColumnType)
    ensures DecodeLane(w, t) == FactCell(None, t, ToSigned(w)) <==> !(Unsigned(t) && w >= TWO_TO_THE_63)
    ensures Unsigned(t) && w >= TWO_TO_THE_63 ==>
              DecodeLane(w, t) == PyInt(FactCell(None, t, ToSigned(w)).n + TWO_TO_THE_64)
  {
    WordOfSigned(w);
  }
}
