/**
 * The log commands: each turns its positional arguments and page flag into
 * one request payload. `logs idtype` maps its first argument to the ID
 * member name before it parses the ID. The page flag is optional here and
 * reads as 1 when it is not given.
 */
module Logs {
  import opened Wrappers
  import opened Requests

  /** The first argument of `logs idtype`, matched exactly (letter case
      included). */
  function IdTypeOf(t: string): (r: Result<string>)
    ensures r.Ok? <==> t == "faction" || t == "item"
    ensures t == "faction" ==> r == Ok("factionId")
    ensures t == "item" ==> r == Ok("itemId")
    ensures r.Err? ==> r.msg == "Invalid ID type '" + t + "', must be 'faction' or 'item'"
  {
    if t == "faction" then Ok("factionId")
    else if t == "item" then Ok("itemId")
    else Err("Invalid ID type '" + t + "', must be 'faction' or 'item'")
  }

  /** `logs bcid <bcId>`: exactly type, id and page. */
  function BcIdPayload(arg: string, page: Option<int>): (r: Result<Payload>)
    ensures r.Ok? <==> ParseId(arg).Ok?
    ensures r.Err? ==> r.msg == ParseId(arg).msg
    ensures r.Ok? ==> r.value.Keys == {"type", "id", "page"}
    ensures r.Ok? ==>
      && r.value["type"] == JStr("richLogsByBcId")
      && r.value["id"] == JInt(ParseId(arg).value)
      && r.value["page"] == JInt(FlagValue(page, 1))
  {
    match ParseId(arg)
    case Err(msg) => Err(msg)
    case Ok(id) => Ok(map["type" := JStr("richLogsByBcId"), "id" := JInt(id), "page" := JInt(FlagValue(page, 1))])
  }

  /** `logs idtype <faction|item> <id>`: the type is checked first, so a bad
      type is reported even when the ID is bad too; then exactly type,
      idType, id and page. */
  function IdTypePayload(t: string, arg: string, page: Option<int>): (r: Result<Payload>)
    ensures IdTypeOf(t).Err? ==> r == Err(IdTypeOf(t).msg)
    ensures IdTypeOf(t).Ok? && ParseId(arg).Err? ==> r == Err(ParseId(arg).msg)
    ensures r.Ok? <==> IdTypeOf(t).Ok? && ParseId(arg).Ok?
    ensures r.Ok? ==> r.value.Keys == {"type", "idType", "id", "page"}
    ensures r.Ok? ==>
      && r.value["type"] == JStr("richLogsByIdType")
      && r.value["idType"] == JStr(IdTypeOf(t).value)
      && r.value["id"] == JInt(ParseId(arg).value)
      && r.value["page"] == JInt(FlagValue(page, 1))
  {
    match IdTypeOf(t)
    case Err(msg) => Err(msg)
    case Ok(idType) =>
      match ParseId(arg)
      case Err(msg) => Err(msg)
      case Ok(id) =>
        Ok(map["type" := JStr("richLogsByIdType"), "idType" := JStr(idType), "id" := JInt(id),
               "page" := JInt(FlagValue(page, 1))])
  }

  /** `logs logtype <logType>`: type, logType and page, and no id. */
  function LogTypePayload(logType: string, page: Option<int>): (r: Payload)
    ensures r.Keys == {"type", "logType", "page"} && "id" !in r
    ensures r["type"] == JStr("richLogsByLogType") && r["logType"] == JStr(logType)
    ensures r["page"] == JInt(FlagValue(page, 1))
  {
    map["type" := JStr("richLogsByLogType"), "logType" := JStr(logType), "page" := JInt(FlagValue(page, 1))]
  }

  /** `logs inputs <bcId> <date>`: type, id and date, and no page. */
  function InputsPayload(arg: string, date: string): (r: Result<Payload>)
    ensures r.Ok? <==> ParseId(arg).Ok?
    ensures r.Err? ==> r.msg == ParseId(arg).msg
    ensures r.Ok? ==> r.value.Keys == {"type", "id", "date"} && "page" !in r.value
    ensures r.Ok? ==>
      && r.value["type"] == JStr("dailyUserInputs")
      && r.value["id"] == JInt(ParseId(arg).value)
      && r.value["date"] == JStr(date)
  {
    match ParseId(arg)
    case Err(msg) => Err(msg)
    case Ok(id) => Ok(map["type" := JStr("dailyUserInputs"), "id" := JInt(id), "date" := JStr(date)])
  }
}
