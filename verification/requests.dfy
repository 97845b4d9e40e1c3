/**
 * What every command sends: a JSON object built from a Go map literal of
 * string keys to strings or integers, and the positional ID argument parsed
 * as common.ParseID and client.ParseID do. A parse failure is the message
 * the command prints before exiting.
 */
module Requests {
  import opened Wrappers
  import opened Text

  datatype Value = JStr(s: string) | JInt(i: int)

  /** A request payload: the JSON object's members. */
  type Payload = map<string, Value>

  /** The positional ID argument: strconv.Atoi, or an "Invalid ID" error
      naming the argument as given. */
  function ParseId(arg: string): (r: Result<int>)
    ensures r.Ok? <==> Atoi(arg).Some?
    ensures r.Ok? ==> r.value == Atoi(arg).value && IsInt64(r.value)
    ensures r.Err? ==> r.msg == "Invalid ID: " + arg
  {
    match Atoi(arg)
    case Some(id) => Ok(id)
    case None => Err("Invalid ID: " + arg)
  }

  /** Any 64-bit ID written in decimal is accepted and read back unchanged;
      an empty argument or one with no digits is refused. */
  lemma ParseIdRoundTrip(n: int, arg: string)
    requires IsInt64(n)
    ensures ParseId(FormatInt(n)) == Ok(n)
    ensures arg == "" || arg == "-" || arg == "+" ==> ParseId(arg).Err?
  {
    AtoiFormatInt(n);
  }

  /** A cobra flag as the command sees it: given on the command line or not.
      GetString and GetInt read the declared default when it was not given. */
  function FlagValue<T>(flag: Option<T>, default: T): (v: T)
    ensures flag.Some? ==> v == flag.value
    ensures flag.None? ==> v == default
  {
    flag.GetOr(default)
  }

  /** cobra's refusal to run a command whose required flags were not given:
      the missing names, quoted, in the flags' name order. */
  function MissingFlags(names: seq<string>): string
  {
    "required flag(s) \"" + QuotedTail(names) + " not set"
  }

  function QuotedTail(names: seq<string>): string
  {
    if names == [] then "\""
    else if |names| == 1 then names[0] + "\""
    else names[0] + "\", \"" + QuotedTail(names[1..])
  }
}
