/**
 * The leaderboard commands: `leaderboard user` checks its conditional flags
 * in order and then builds its payload by adding the optional members one
 * by one; `leaderboard faction` and `leaderboard pets` send fixed shapes.
 * A flag is an Option: None when it was not given on the command line.
 * Every command marks its page flag (and `faction` its stat flag, `user`
 * its lbType flag) as required, so cobra refuses to run it without them
 * and the declared defaults never reach a payload.
 */
module Leaderboard {
  import opened Wrappers
  import opened Requests

  const StatRequired := "Error: --stat is required when --lbType=stat"
  const ItemRequired := "Error: --itemId is required when --lbType=item"

  /** The required flags of `leaderboard user` that were not given. */
  function UserMissing(lbType: Option<string>, page: Option<int>): seq<string>
  {
    (if lbType.None? then ["lbType"] else []) + (if page.None? then ["page"] else [])
  }

  /** `leaderboard user`: the stat check, then the item check, then the
      payload with type, lbType and page, plus stat when it is non-empty and
      itemId when it is non-zero, whatever the leaderboard type. */
  method UserPayload(lbType: Option<string>, stat: Option<string>, itemId: Option<int>, page: Option<int>)
    returns (r: Result<Payload>)
    ensures lbType.None? || page.None? ==> r == Err(MissingFlags(UserMissing(lbType, page)))
    ensures lbType.Some? && page.Some? ==>
      var st, id := FlagValue(stat, ""), FlagValue(itemId, 0);
      && (r.Err? <==> (lbType.value == "stat" && st == "") || (lbType.value == "item" && id == 0))
      && (lbType.value == "stat" && st == "" ==> r == Err(StatRequired))
      && (lbType.value == "item" && id == 0 ==> r == Err(ItemRequired))
    ensures r.Ok? ==>
      var st, id := FlagValue(stat, ""), FlagValue(itemId, 0);
      && lbType.Some? && page.Some?
      && r.value.Keys == UserKeys(st, id)
      && r.value["type"] == JStr("userLeaderboard")
      && r.value["lbType"] == JStr(lbType.value)
      && r.value["page"] == JInt(page.value)
      && (st != "" ==> r.value["stat"] == JStr(st))
      && (id != 0 ==> r.value["itemId"] == JInt(id))
  {
    if lbType.None? || page.None? {
      return Err(MissingFlags(UserMissing(lbType, page)));
    }
    var kind, pg := lbType.value, page.value;
    var st, id := FlagValue(stat, ""), FlagValue(itemId, 0);
    if kind == "stat" && st == "" {
      return Err(StatRequired);
    }
    if kind == "item" && id == 0 {
      return Err(ItemRequired);
    }
    var payload: Payload := map["type" := JStr("userLeaderboard"), "lbType" := JStr(kind), "page" := JInt(pg)];
    if st != "" {
      payload := payload["stat" := JStr(st)];
    }
    if id != 0 {
      payload := payload["itemId" := JInt(id)];
    }
    return Ok(payload);
  }

  /** The member names of a user payload for the given stat and item ID. */
  function UserKeys(st: string, id: int): set<string>
  {
    {"type", "lbType", "page"} + (if st != "" then {"stat"} else {}) + (if id != 0 then {"itemId"} else {})
  }

  /** The required flags of `leaderboard faction` that were not given. */
  function FactionMissing(stat: Option<string>, page: Option<int>): seq<string>
  {
    (if page.None? then ["page"] else []) + (if stat.None? then ["stat"] else [])
  }

  /** `leaderboard faction`: exactly type, stat and page. */
  function FactionPayload(stat: Option<string>, page: Option<int>): (r: Result<Payload>)
    ensures r.Ok? <==> stat.Some? && page.Some?
    ensures r.Err? ==> r.msg == MissingFlags(FactionMissing(stat, page))
    ensures r.Ok? ==> r.value.Keys == {"type", "stat", "page"}
    ensures r.Ok? ==>
      r.value["type"] == JStr("factionLeaderboard") && r.value["stat"] == JStr(stat.value) && r.value["page"] == JInt(page.value)
  {
    if stat.None? || page.None? then Err(MissingFlags(FactionMissing(stat, page)))
    else Ok(map["type" := JStr("factionLeaderboard"), "stat" := JStr(stat.value), "page" := JInt(page.value)])
  }

  /** `leaderboard pets`: exactly type and page. */
  function PetsPayload(page: Option<int>): (r: Result<Payload>)
    ensures r.Ok? <==> page.Some?
    ensures r.Err? ==> r.msg == MissingFlags(["page"])
    ensures r.Ok? ==> r.value.Keys == {"type", "page"}
    ensures r.Ok? ==> r.value["type"] == JStr("petsLeaderboard") && r.value["page"] == JInt(page.value)
  {
    if page.None? then Err(MissingFlags(["page"]))
    else Ok(map["type" := JStr("petsLeaderboard"), "page" := JInt(page.value)])
  }
}
