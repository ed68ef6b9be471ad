/** JSON values, read through the accessors the source uses. */
module Json {
  import opened Text

  type U64 = n: nat | n < 0x1_0000_0000_0000_0000

  datatype Value =
    | Null
    | Bool(b: bool)
    | UInt(n: U64)
    | OtherNumber(spelling: string)
    | Str(s: string)
    | Array(items: seq<Value>)
    | Object(fields: map<string, Value>)

  function Get(v: Value, key: string): Option<Value> {
    if v.Object? && key in v.fields then Some(v.fields[key]) else None
  }

  /** `pointer`, for paths whose tokens are not array indices. */
  function Pointer(v: Value, path: seq<string>): Option<Value> {
    if path == [] then Some(v)
    else
      match Get(v, path[0])
      case None => None
      case Some(inner) => Pointer(inner, path[1..])
  }

  function AsStr(v: Option<Value>): Option<string> {
    if v.Some? && v.value.Str? then Some(v.value.s) else None
  }

  function AsU64(v: Option<Value>): Option<U64> {
    if v.Some? && v.value.UInt? then Some(v.value.n) else None
  }

  /** What `v` holds at the end of a path of keys, null if the path leads nowhere. */
  function At(v: Value, path: seq<string>): Value {
    if path == [] then v
    else if v.Object? && path[0] in v.fields then At(v.fields[path[0]], path[1..])
    else Null
  }

  /** The accessors find what is there. */
  lemma {:induction false} PointerFinds(v: Value, path: seq<string>)
    ensures match Pointer(v, path) case None => At(v, path).Null? case Some(x) => At(v, path) == x
    decreases |path|
  {
    if path != [] && Get(v, path[0]).Some? {
      PointerFinds(Get(v, path[0]).value, path[1..]);
    }
  }

  lemma PointerOfTwo(v: Value, a: string, b: string)
    ensures At(v, [a, b]) == At(At(v, [a]), [b])
    ensures Pointer(v, [a, b]).Some? <==> At(v, [a]).Object? && b in At(v, [a]).fields
  {
    assert [a, b][1..] == [b] && [a][1..] == [] && [b][1..] == [];
    if Get(v, a).Some? {
      assert Pointer(v, [a, b]) == Pointer(Get(v, a).value, [b]) == Get(Get(v, a).value, b);
    }
  }

  lemma GetFinds(v: Value, key: string)
    ensures match Get(v, key) case None => At(v, [key]).Null? case Some(x) => At(v, [key]) == x
  {
    assert [key][1..] == [];
  }

  function StrIn(v: Value): Option<string> { if v.Str? then Some(v.s) else None }

  function CountIn(v: Value): nat { if v.UInt? then v.n else 0 }
}
