/**
 * The result post-processing of market/commands.go: the ID-to-name map
 * built from the item table, the rows of the market overview (data keys
 * "item<N>"), their sort order, and the name fallbacks of the three
 * listing commands.
 */
module Market {
  import opened Wrappers
  import opened Text
  import opened Seqs
  import opened Sorting
  import opened Catalogue
  import opened GameData

  // ---------------------------------------------------------------------
  // nameByID
  // ---------------------------------------------------------------------

  /** The map the loop `nameByID[it.ID] = it.Name` leaves: a later item
      overwrites an earlier one with the same ID. */
  function NameMap(items: seq<Item>): map<int, string>
  {
    if items == [] then map[]
    else NameMap(items[..|items| - 1])[items[|items| - 1].id := items[|items| - 1].name]
  }

  method NameById(items: seq<Item>) returns (m: map<int, string>)
    ensures m == NameMap(items)
  {
    m := map[];
    var i := 0;
    while i < |items|
      invariant 0 <= i <= |items|
      invariant m == NameMap(items[..i])
    {
      assert items[..i + 1][..i] == items[..i];
      m := m[items[i].id := items[i].name];
      i := i + 1;
    }
    assert items[..i] == items;
  }

  /** The map holds exactly the IDs of the items. */
  lemma {:induction false} NameMapDomain(items: seq<Item>, id: int)
    ensures id in NameMap(items) <==> exists i :: 0 <= i < |items| && items[i].id == id
  {
    if items != [] {
      var init := items[..|items| - 1];
      NameMapDomain(init, id);
      if exists i :: 0 <= i < |init| && init[i].id == id {
        var i :| 0 <= i < |init| && init[i].id == id;
        assert items[i] == init[i];
      }
      if exists i :: 0 <= i < |items| && items[i].id == id {
        var i :| 0 <= i < |items| && items[i].id == id;
        if i < |init| {
          assert init[i] == items[i];
        }
      }
    }
  }

  /** The name kept for an ID is that of the last item with the ID. */
  lemma {:induction false} NameMapLastWins(items: seq<Item>, i: nat)
    requires i < |items|
    requires forall j :: i < j < |items| ==> items[j].id != items[i].id
    ensures items[i].id in NameMap(items) && NameMap(items)[items[i].id] == items[i].name
  {
    if i < |items| - 1 {
      var init := items[..|items| - 1];
      assert init[i] == items[i];
      forall j | i < j < |init| ensures init[j].id != init[i].id {
        assert init[j] == items[j];
      }
      NameMapLastWins(init, i);
    }
  }

  /** nameByID keeps the last item with an ID where LookUpItemName keeps
      the first: two items sharing ID 1 tell them apart. */
  lemma FirstAndLastDiffer()
    ensures var items := [Item(1, "first", ""), Item(1, "last", "")];
      LookUpItemName(1, items) == "first" && NameMap(items)[1] == "last"
  {
    var items := [Item(1, "first", ""), Item(1, "last", "")];
    assert items[..1] == [Item(1, "first", "")];
  }

  // ---------------------------------------------------------------------
  // Name fallbacks
  // ---------------------------------------------------------------------

  function Unknown(id: int): string
  {
    "UNKNOWN(" + FormatInt(id) + ")"
  }

  /** overviewCmd and itemCmd: `name := nameByID[id]` reads "" for a missing
      ID, and an empty name is replaced by UNKNOWN(<id>). */
  function ShownName(names: map<int, string>, id: int): (r: string)
    ensures r != ""
    ensures id in names && names[id] != "" ==> r == names[id]
    ensures id !in names || names[id] == "" ==> r == Unknown(id)
  {
    var name := if id in names then names[id] else "";
    if name == "" then Unknown(id) else name
  }

  /** userCmd: only a missing ID is replaced; a present empty name stays. */
  function UserListingName(names: map<int, string>, id: int): (r: string)
    ensures id in names ==> r == names[id]
    ensures id !in names ==> r == Unknown(id)
  {
    if id in names then names[id] else Unknown(id)
  }

  /** The two rules differ exactly on an item whose name is empty. */
  lemma ListingNamesDiffer(names: map<int, string>, id: int)
    ensures ShownName(names, id) != UserListingName(names, id) <==> id in names && names[id] == ""
  {
  }

  // ---------------------------------------------------------------------
  // Overview rows
  // ---------------------------------------------------------------------

  datatype Row = Row(id: int, name: string, value: int)

  /** The row one data entry gives: keys "item<N>" with N an integer (in
      strconv.Atoi's syntax) give a row with the data value; other keys are
      skipped. */
  function RowOf(key: string, value: int, names: map<int, string>): (r: Option<Row>)
    ensures r.Some? <==> HasPrefix(key, "item") && Atoi(key[4..]).Some?
    ensures r.Some? ==> r.value == Row(Atoi(key[4..]).value, ShownName(names, Atoi(key[4..]).value), value)
  {
    if !HasPrefix(key, "item") then None
    else match Atoi(key[4..])
      case None => None
      case Some(id) => Some(Row(id, ShownName(names, id), value))
  }

  /** The rows of the data entries, in the order they are visited. */
  function RowsOf(data: seq<(string, int)>, names: map<int, string>): seq<Row>
  {
    if data == [] then []
    else RowsOf(data[..|data| - 1], names) + Emit(RowOf(data[|data| - 1].0, data[|data| - 1].1, names))
  }

  /** The rows `append` adds for one entry. */
  function Emit(row: Option<Row>): seq<Row>
  {
    if row.Some? then [row.value] else []
  }

  /** Step 5 of overviewCmd. Go visits the data map in an unspecified order;
      `data` is that order. */
  method BuildRows(data: seq<(string, int)>, names: map<int, string>) returns (rows: seq<Row>)
    ensures rows == RowsOf(data, names)
  {
    rows := [];
    var i := 0;
    while i < |data|
      invariant 0 <= i <= |data|
      invariant rows == RowsOf(data[..i], names)
    {
      RowsStep(data, i, names);
      var key, val := data[i].0, data[i].1;
      if HasPrefix(key, "item") {
        var idNum := Atoi(key[4..]);
        if idNum.Some? {
          var name := if idNum.value in names then names[idNum.value] else "";
          if name == "" {
            name := Unknown(idNum.value);
          }
          rows := rows + [Row(idNum.value, name, val)];
        }
      }
      i := i + 1;
    }
    assert data[..i] == data;
  }

  lemma RowsStep(data: seq<(string, int)>, i: nat, names: map<int, string>)
    requires i < |data|
    ensures RowsOf(data[..i + 1], names) == RowsOf(data[..i], names) + Emit(RowOf(data[i].0, data[i].1, names))
  {
    assert data[..i + 1][..i] == data[..i];
  }

  /** There are no more rows than data entries. */
  lemma {:induction false} RowsOfBound(data: seq<(string, int)>, names: map<int, string>)
    ensures |RowsOf(data, names)| <= |data|
  {
    if data != [] {
      RowsOfBound(data[..|data| - 1], names);
    }
  }

  /** Every row is the row of some "item<N>" entry, with its value. */
  lemma {:induction false} RowsOfSound(data: seq<(string, int)>, names: map<int, string>, k: nat)
    requires k < |RowsOf(data, names)|
    ensures exists i :: 0 <= i < |data| && RowOf(data[i].0, data[i].1, names) == Some(RowsOf(data, names)[k])
  {
    var init := data[..|data| - 1];
    var rest := RowsOf(init, names);
    if k < |rest| {
      RowsOfSound(init, names, k);
      var i :| 0 <= i < |init| && RowOf(init[i].0, init[i].1, names) == Some(rest[k]);
      assert data[i] == init[i];
      assert RowsOf(data, names)[k] == rest[k];
    } else {
      var last := |data| - 1;
      assert RowOf(data[last].0, data[last].1, names) == Some(RowsOf(data, names)[k]);
    }
  }

  /** Every "item<N>" entry gives a row. */
  lemma {:induction false} RowsOfComplete(data: seq<(string, int)>, names: map<int, string>, i: nat)
    requires i < |data| && RowOf(data[i].0, data[i].1, names).Some?
    ensures RowOf(data[i].0, data[i].1, names).value in RowsOf(data, names)
  {
    var init := data[..|data| - 1];
    if i < |init| {
      assert data[i] == init[i];
      RowsOfComplete(init, names, i);
    }
  }

  // ---------------------------------------------------------------------
  // Overview sort
  // ---------------------------------------------------------------------

  datatype RowOrder = ById | ByName | ByPrice

  /** The --sort option, case-insensitively; anything else is an error. */
  function ParseSortOption(field: string): (r: Result<RowOrder>)
    ensures r.Ok? <==> ToLower(field) in {"id", "name", "price"}
    ensures ToLower(field) == "id" ==> r == Ok(ById)
    ensures ToLower(field) == "name" ==> r == Ok(ByName)
    ensures ToLower(field) == "price" ==> r == Ok(ByPrice)
    ensures r.Err? ==> r.msg == "invalid sort option: " + field + " (must be id, name, or price)"
  {
    var f := ToLower(field);
    if f == "id" then Ok(ById)
    else if f == "name" then Ok(ByName)
    else if f == "price" then Ok(ByPrice)
    else Err("invalid sort option: " + field + " (must be id, name, or price)")
  }

  function IdKey(r: Row): Key { IntKey(r.id) }
  function NameKey(r: Row): Key { StrKey(r.name) }
  function PriceKey(r: Row): Key { IntKey(r.value) }

  function RowKey(order: RowOrder): Row -> Key
  {
    match order
    case ById => IdKey
    case ByName => NameKey
    case ByPrice => PriceKey
  }

  /** Steps 5 and 6 of overviewCmd: the rows, sorted ascending by the chosen
      field; an invalid option is an error (the process exits). */
  method Overview(data: seq<(string, int)>, names: map<int, string>, sortField: string) returns (r: Result<seq<Row>>)
    ensures ParseSortOption(sortField).Err? ==> r == Err(ParseSortOption(sortField).msg)
    ensures ParseSortOption(sortField).Ok? ==>
      r == Ok(SortBy(RowsOf(data, names), RowKey(ParseSortOption(sortField).value)))
  {
    var rows := BuildRows(data, names);
    var order := ParseSortOption(sortField);
    if order.Err? {
      return Err(order.msg);
    }
    var sorted := SortSeq(rows, RowKey(order.value));
    return Ok(sorted);
  }

  /** A sorted overview is a permutation of the rows, ascending by the
      chosen field. */
  lemma OverviewOrdered(data: seq<(string, int)>, names: map<int, string>, order: RowOrder)
    ensures multiset(SortBy(RowsOf(data, names), RowKey(order))) == multiset(RowsOf(data, names))
    ensures SortedBy(SortBy(RowsOf(data, names), RowKey(order)), RowKey(order))
  {
    SortByPermutation(RowsOf(data, names), RowKey(order));
    SortBySorted(RowsOf(data, names), RowKey(order));
  }
}
