/**
 * The item search and emoji clean-up of gamedata/commands.go.
 */
module GameData {
  import opened Wrappers
  import opened Text
  import opened Seqs
  import opened Catalogue

  /** An item whose name or ID name equals `lower` once lower-cased. */
  predicate NameMatches(it: Item, lower: string)
  {
    ToLower(it.name) == lower || ToLower(it.idName) == lower
  }

  /** findItem: when the argument parses as an integer, the first item with
      that ID; otherwise (also when no ID matches) the first item whose name
      or ID name equals the argument case-insensitively; otherwise an
      error. */
  function FindItem(items: seq<Item>, arg: string): (r: Result<Item>)
    ensures r.Ok? ==> r.value in items
    ensures forall i :: FirstIdMatch(items, arg, i) ==> r == Ok(items[i])
    ensures NoIdMatch(items, arg) ==>
      forall i :: FirstNameMatch(items, ToLower(arg), i) ==> r == Ok(items[i])
    ensures NoIdMatch(items, arg) && NoNameMatch(items, ToLower(arg)) ==> r == Err("item " + Quote(arg) + " not found")
  {
    match ById(items, arg)
    case Some(i) => Ok(items[i])
    case None =>
      match ByName(items, ToLower(arg))
      case Some(i) => Ok(items[i])
      case None => Err("item " + Quote(arg) + " not found")
  }

  /** The first loop: only an argument that parses as an integer can match. */
  function ById(items: seq<Item>, arg: string): (r: Option<nat>)
    ensures r.Some? ==> FirstIdMatch(items, arg, r.value)
    ensures r.None? ==> NoIdMatch(items, arg)
  {
    if Atoi(arg).None? then None else FirstIndex(items, (it: Item) => IdMatches(it, arg))
  }

  /** The second loop: names and ID names, compared in lower case. */
  function ByName(items: seq<Item>, lower: string): (r: Option<nat>)
    ensures r.Some? ==> FirstNameMatch(items, lower, r.value)
    ensures r.None? ==> NoNameMatch(items, lower)
  {
    FirstIndex(items, (it: Item) => NameMatches(it, lower))
  }

  /** The argument parses as an integer equal to the item's ID. */
  predicate IdMatches(it: Item, arg: string) { Atoi(arg) == Some(it.id) }

  predicate FirstIdMatch(items: seq<Item>, arg: string, i: int)
  {
    0 <= i < |items| && IdMatches(items[i], arg) && forall j :: 0 <= j < i ==> !IdMatches(items[j], arg)
  }

  predicate NoIdMatch(items: seq<Item>, arg: string)
  {
    forall i :: 0 <= i < |items| ==> !IdMatches(items[i], arg)
  }

  predicate FirstNameMatch(items: seq<Item>, lower: string, i: int)
  {
    0 <= i < |items| && NameMatches(items[i], lower) && forall j :: 0 <= j < i ==> !NameMatches(items[j], lower)
  }

  predicate NoNameMatch(items: seq<Item>, lower: string)
  {
    forall i :: 0 <= i < |items| ==> !NameMatches(items[i], lower)
  }

  predicate HasPrefix(s: string, p: string) { |p| <= |s| && s[..|p|] == p }

  predicate HasSuffix(s: string, p: string) { |p| <= |s| && s[|s| - |p|..] == p }

  /** sanitizeEmoji: a custom emoji "<:name:id>" shows as ":name:" (the
      second ':'-separated piece); anything else is kept. */
  function SanitizeEmoji(e: string): (r: string)
    ensures !HasPrefix(e, "<:") || !HasSuffix(e, ">") ==> r == e
    ensures HasPrefix(e, "<:") && HasSuffix(e, ">") ==> |r| >= 2 && r[0] == ':' && r[|r| - 1] == ':'
  {
    if HasPrefix(e, "<:") && HasSuffix(e, ">") then
      var parts := Split(e, ':');
      assert |parts| >= 2 by { ColonSplits(e); }
      if |parts| >= 2 then ":" + parts[1] + ":" else e
    else e
  }

  /** A string starting "<:" splits on ':' into at least two pieces. */
  lemma ColonSplits(e: string)
    requires HasPrefix(e, "<:")
    ensures |Split(e, ':')| >= 2
  {
    assert e == "<" + [':'] + e[2..];
    SplitAppend("<", e[2..], ':');
  }

  /** "<:name:id>" becomes ":name:" for any name and id free of ':'. */
  lemma SanitizeCustomEmoji(name: string, id: string)
    requires ':' !in name && ':' !in id
    ensures SanitizeEmoji("<:" + name + ":" + id + ">") == ":" + name + ":"
  {
    var e := "<:" + name + ":" + id + ">";
    assert e == "<" + [':'] + (name + [':'] + (id + ">"));
    SplitAppend("<", name + [':'] + (id + ">"), ':');
    SplitAppend(name, id + ">", ':');
    SplitNoSep("<", ':');
    SplitNoSep(name, ':');
    SplitNoSep(id + ">", ':');
    assert HasPrefix(e, "<:") && HasSuffix(e, ">");
    assert Split(e, ':') == ["<", name, id + ">"];
  }
}
