/**
 * Decoded JSON values, in the form the tree builder receives them from
 * JSON.parse. An object is the sequence of its members in the order the
 * parser (and `for…in`) delivers them; a number is kept as the text
 * JavaScript prints for it.
 */
module JsonValue {

  datatype Json =
    | Null
    | Bool(b: bool)
    | Num(text: string)
    | Str(s: string)
    | Arr(items: seq<Json>)
    | Obj(members: seq<(string, Json)>)

  /** Objects and arrays are containers; everything else is a primitive. */
  predicate IsContainer(v: Json) {
    v.Arr? || v.Obj?
  }

  /** Number of direct members: `Object.keys(data).length` or `data.length`. */
  function MemberCount(v: Json): nat {
    match v
    case Arr(xs) => |xs|
    case Obj(ms) => |ms|
    case _ => 0
  }

  /** The i-th member of a container, in iteration order. */
  function Member(v: Json, i: nat): Json
    requires IsContainer(v) && i < MemberCount(v)
  {
    if v.Obj? then v.members[i].1 else v.items[i]
  }

  /** Number of JSON values nested in `v`, `v` itself included. */
  function ValueCount(v: Json): (n: nat)
    decreases v, 1, 0
  {
    1 + (if IsContainer(v) then MembersValueCount(v, MemberCount(v)) else 0)
  }

  /** Sum of ValueCount over the first `i` members of container `v`. */
  function MembersValueCount(v: Json, i: nat): nat
    requires IsContainer(v) && i <= MemberCount(v)
    decreases v, 0, i
  {
    if i == 0 then 0
    else
      MembersValueCount(v, i - 1)
      + (if v.Obj? then ValueCount(v.members[i - 1].1) else ValueCount(v.items[i - 1]))
  }
}
