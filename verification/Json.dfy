/** JSON messages and the id helpers of the wire protocol. */
module Json {
  import opened Prelude

  /** A parsed JSON value. `Int` stands for the numbers kept as integers. */
  datatype Json =
    | Null
    | Bool(b: bool)
    | Int(n: int)
    | Real(r: real)
    | Str(s: string)
    | Arr(items: seq<Json>)
    | Obj(fields: map<string, Json>)

  function Get(m: Json, key: string): Option<Json> {
    if m.Obj? && key in m.fields then Some(m.fields[key]) else None
  }

  /** The raw id, of any JSON type except null. */
  function GetId(m: Json): Option<Json> {
    match Get(m, "id")
    case Some(v) => if v.Null? then None else Some(v)
    case None => None
  }

  /** The id as an unsigned integer, the only form the telescope side routes by. */
  function JsonRpcId(m: Json): Option<nat> {
    match Get(m, "id")
    case Some(Int(n)) => if n >= 0 then Some(n) else None
    case _ => None
  }

  /** Replaces the id of an object and leaves any other value alone. */
  function WithId(m: Json, id: Json): Json {
    if m.Obj? then Obj(m.fields["id" := id]) else m
  }

  predicate IsEvent(m: Json) {
    Get(m, "Event").Some?
  }

  /** Everything a message says apart from its id. */
  function EraseId(m: Json): Json {
    if m.Obj? then Obj(m.fields - {"id"}) else m
  }

  /** Two messages that differ at most in their id, with equal ids, are equal. */
  lemma SameButForId(a: Json, b: Json)
    requires EraseId(a) == EraseId(b) && GetId(a) == GetId(b) && GetId(a).Some?
    ensures a == b
  {
    forall k | k in a.fields.Keys + b.fields.Keys
      ensures k in a.fields && k in b.fields && a.fields[k] == b.fields[k]
    {
      if k != "id" {
        assert k in a.fields <==> k in EraseId(a).fields;
        assert k in b.fields <==> k in EraseId(b).fields;
      }
    }
    assert a.fields == b.fields;
  }

  /** Remapping an id and restoring it later returns the message unchanged. */
  lemma RestoreUndoesRemap(m: Json, id: Json, remapped: nat)
    requires GetId(m) == Some(id)
    ensures GetId(WithId(m, Int(remapped))) == Some(Int(remapped))
    ensures JsonRpcId(WithId(m, Int(remapped))) == Some(remapped)
    ensures EraseId(WithId(m, Int(remapped))) == EraseId(m)
    ensures WithId(WithId(m, Int(remapped)), id) == m
  {
    EraseIgnoresId(m, Int(remapped));
    EraseIgnoresId(WithId(m, Int(remapped)), id);
    SameButForId(WithId(WithId(m, Int(remapped)), id), m);
  }

  lemma EraseIgnoresId(m: Json, id: Json)
    ensures EraseId(WithId(m, id)) == EraseId(m)
  {
    if m.Obj? {
      assert m.fields["id" := id] - {"id"} == m.fields - {"id"};
    }
  }
}
