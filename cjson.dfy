/**
 * The parsed JSON tree the pack loader walks, and the few cJSON accessors it
 * uses. An object keeps its members in document order because
 * `cJSON_GetObjectItem` compares keys ignoring ASCII case and returns the
 * FIRST member that matches; asked of anything but an object it finds
 * nothing.
 */
module CJson {
  import opened Wrappers
  import opened Text

  datatype Json =
    | Null
    | Bool(b: bool)
    | Num(value: real)
    | Str(s: string)
    | Arr(items: seq<Json>)
    | Obj(members: seq<Member>)

  datatype Member = Member(key: string, value: Json)

  /** The index of the first member whose key equals `name` ignoring case. */
  function FindMember(members: seq<Member>, name: string): (r: Option<nat>)
    ensures r.None? <==> forall i :: 0 <= i < |members| ==> !EqualsIgnoreCase(members[i].key, name)
    ensures r.Some? ==> r.value < |members| && EqualsIgnoreCase(members[r.value].key, name)
    ensures r.Some? ==> forall i :: 0 <= i < r.value ==> !EqualsIgnoreCase(members[i].key, name)
  {
    if |members| == 0 then None
    else if EqualsIgnoreCase(members[0].key, name) then Some(0)
    else
      match FindMember(members[1..], name)
      case None => None
      case Some(i) => Some(i + 1)
  }

  /** `cJSON_GetObjectItem(j, name)`; `None` stands for the NULL it returns. */
  function GetObjectItem(j: Json, name: string): (r: Option<Json>)
    ensures r.Some? ==> j.Obj?
    ensures j.Obj? ==> (r.None? <==> forall i :: 0 <= i < |j.members| ==> !EqualsIgnoreCase(j.members[i].key, name))
  {
    if !j.Obj? then None
    else
      match FindMember(j.members, name)
      case None => None
      case Some(i) => Some(j.members[i].value)
  }

  /**
   * C's conversion `(int)d` of a double: the fraction is dropped, rounding
   * toward zero.
   */
  function Trunc(d: real): (r: int)
    ensures d >= 0.0 ==> 0 <= r && r as real <= d < r as real + 1.0
    ensures d < 0.0 ==> r <= 0 && r as real - 1.0 < d <= r as real
  {
    if d >= 0.0 then d.Floor else -((-d).Floor)
  }

  /** `cJSON_IsNumber(v)`; false for the NULL of a missing member. */
  predicate IsNumber(v: Option<Json>)
  {
    v.Some? && v.value.Num?
  }

  /** `cJSON_IsNumber(v) ? v->valuedouble : default`. */
  function NumberOr(v: Option<Json>, default: real): real
  {
    match v
    case Some(Num(d)) => d
    case _ => default
  }

  /** An integer field: `(int)v->valuedouble` when numeric, else the default. */
  function IntOr(v: Option<Json>, default: int): int
  {
    match v
    case Some(Num(d)) => Trunc(d)
    case _ => default
  }

  /** The children of `v` when it is an array, none otherwise. */
  function ArrayItems(v: Option<Json>): seq<Json>
  {
    match v
    case Some(Arr(items)) => items
    case _ => []
  }

  /**
   * A member that comes first among those matching `name` decides the
   * lookup, whatever later members with the same key hold.
   */
  lemma FirstMemberWins(members: seq<Member>, i: nat, name: string)
    requires i < |members| && EqualsIgnoreCase(members[i].key, name)
    requires forall k :: 0 <= k < i ==> !EqualsIgnoreCase(members[k].key, name)
    ensures GetObjectItem(Obj(members), name) == Some(members[i].value)
  {
  }
}
