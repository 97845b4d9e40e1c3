/**
 * The faction commands: `faction info`, `faction members` and `faction
 * recruiting` send fixed shapes; `faction requests` parses its ID argument
 * first and only then maps its type argument to the ID member name.
 */
module Faction {
  import opened Wrappers
  import opened Requests

  /** The type argument of `faction requests`, matched exactly (letter case
      included). */
  function RequestIdType(t: string): (r: Result<string>)
    ensures r.Ok? <==> t == "faction" || t == "user"
    ensures t == "faction" ==> r == Ok("factionId")
    ensures t == "user" ==> r == Ok("bcId")
    ensures r.Err? ==> r.msg == "Invalid type " + t + ", must be 'faction' or 'user'"
  {
    if t == "faction" then Ok("factionId")
    else if t == "user" then Ok("bcId")
    else Err("Invalid type " + t + ", must be 'faction' or 'user'")
  }

  /** `faction requests <faction|user> <id>`: a bad ID is reported even
      when the type is bad too; then exactly type, idType and id. */
  function RequestsPayload(t: string, arg: string): (r: Result<Payload>)
    ensures ParseId(arg).Err? ==> r == Err(ParseId(arg).msg)
    ensures ParseId(arg).Ok? && RequestIdType(t).Err? ==> r == Err(RequestIdType(t).msg)
    ensures r.Ok? <==> ParseId(arg).Ok? && RequestIdType(t).Ok?
    ensures r.Ok? ==> r.value.Keys == {"type", "idType", "id"}
    ensures r.Ok? ==>
      && r.value["type"] == JStr("factionJoinRequests")
      && r.value["idType"] == JStr(RequestIdType(t).value)
      && r.value["id"] == JInt(ParseId(arg).value)
  {
    match ParseId(arg)
    case Err(msg) => Err(msg)
    case Ok(id) =>
      match RequestIdType(t)
      case Err(msg) => Err(msg)
      case Ok(idType) => Ok(map["type" := JStr("factionJoinRequests"), "idType" := JStr(idType), "id" := JInt(id)])
  }

  /** `faction info <id>` and `faction members <id>`: exactly type and id. */
  function IdPayload(kind: string, arg: string): (r: Result<Payload>)
    ensures r.Ok? <==> ParseId(arg).Ok?
    ensures r.Err? ==> r.msg == ParseId(arg).msg
    ensures r.Ok? ==> r.value.Keys == {"type", "id"}
    ensures r.Ok? ==> r.value["type"] == JStr(kind) && r.value["id"] == JInt(ParseId(arg).value)
  {
    match ParseId(arg)
    case Err(msg) => Err(msg)
    case Ok(id) => Ok(map["type" := JStr(kind), "id" := JInt(id)])
  }

  /** `faction info <id>`. */
  function InfoPayload(arg: string): (r: Result<Payload>)
    ensures r.Ok? <==> ParseId(arg).Ok?
    ensures r.Err? ==> r.msg == "Invalid ID: " + arg
    ensures r.Ok? ==> r.value == map["type" := JStr("faction"), "id" := JInt(ParseId(arg).value)]
  {
    IdPayload("faction", arg)
  }

  /** `faction members <id>`. */
  function MembersPayload(arg: string): (r: Result<Payload>)
    ensures r.Ok? <==> ParseId(arg).Ok?
    ensures r.Err? ==> r.msg == "Invalid ID: " + arg
    ensures r.Ok? ==> r.value == map["type" := JStr("factionMembers"), "id" := JInt(ParseId(arg).value)]
  {
    IdPayload("factionMembers", arg)
  }

  /** `faction recruiting`: the type alone. */
  function RecruitingPayload(): (r: Payload)
    ensures r.Keys == {"type"} && r["type"] == JStr("recruitingFactions")
  {
    map["type" := JStr("recruitingFactions")]
  }
}
