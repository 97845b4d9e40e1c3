/**
 * The owned-pets listing (`pet owned`): the fetched pets are sorted in place
 * by the field the sort flag names, then, when a group flag is given, split
 * into groups keyed by the chosen field rendered as text, the groups listed
 * in ascending string order of their keys.
 */
module Pets {
  import opened Wrappers
  import opened Text
  import opened Seqs
  import opened Sorting

  /** The pet fields the listing sorts, groups or shows. */
  datatype Pet = Pet(
    id: int,
    name: string,
    species: string,
    tier: int,
    xp: int,
    adventureType: string,
    itemsFound: int,
    boost: int,
    cravingItemId: int)

  // ---------------------------------------------------------------------
  // Sorting
  // ---------------------------------------------------------------------

  datatype SortField = ById | ByName | BySpecies | ByTier | ByXp | ByAdventure | ByItems | ByBoost

  function SortFieldName(f: SortField): string
  {
    match f
    case ById => "id"
    case ByName => "name"
    case BySpecies => "species"
    case ByTier => "tier"
    case ByXp => "xp"
    case ByAdventure => "adventure"
    case ByItems => "items"
    case ByBoost => "boost"
  }

  const SortFieldNames: set<string> := {"id", "name", "species", "tier", "xp", "adventure", "items", "boost"}

  /** The sort flag: empty means no sorting; otherwise the field named, in
      any letter case, or an error naming the flag as given. */
  function ParseSortKey(sortKey: string): (r: Result<Option<SortField>>)
    ensures r == Ok(None) <==> sortKey == ""
    ensures r.Err? <==> sortKey != "" && ToLower(sortKey) !in SortFieldNames
    ensures r.Ok? && r.value.Some? ==> SortFieldName(r.value.value) == ToLower(sortKey)
    ensures r.Err? ==> r.msg == "Invalid sort field: " + sortKey
  {
    if sortKey == "" then Ok(None)
    else
      var f := ToLower(sortKey);
      if f == "id" then Ok(Some(ById))
      else if f == "name" then Ok(Some(ByName))
      else if f == "species" then Ok(Some(BySpecies))
      else if f == "tier" then Ok(Some(ByTier))
      else if f == "xp" then Ok(Some(ByXp))
      else if f == "adventure" then Ok(Some(ByAdventure))
      else if f == "items" then Ok(Some(ByItems))
      else if f == "boost" then Ok(Some(ByBoost))
      else Err("Invalid sort field: " + sortKey)
  }

  /** Every field name selects its field, whatever the case of its letters. */
  lemma ParseSortFieldName(f: SortField, flag: string)
    requires ToLower(flag) == SortFieldName(f)
    ensures ParseSortKey(flag) == Ok(Some(f))
  {
    assert flag != "" by {
      assert |ToLower(flag)| == |flag|;
    }
  }

  /** The value a sort field compares: Go's `<` on the field. */
  function PetKey(f: SortField): Pet -> Key
  {
    match f
    case ById => (p: Pet) => IntKey(p.id)
    case ByName => (p: Pet) => StrKey(p.name)
    case BySpecies => (p: Pet) => StrKey(p.species)
    case ByTier => (p: Pet) => IntKey(p.tier)
    case ByXp => (p: Pet) => IntKey(p.xp)
    case ByAdventure => (p: Pet) => StrKey(p.adventureType)
    case ByItems => (p: Pet) => IntKey(p.itemsFound)
    case ByBoost => (p: Pet) => IntKey(p.boost)
  }

  /** The pets in the order the listing shows them, for a valid sort flag. */
  function Ordered(pets: seq<Pet>, sortKey: string): seq<Pet>
    requires ParseSortKey(sortKey).Ok?
  {
    match ParseSortKey(sortKey).value
    case None => pets
    case Some(f) => SortBy(pets, PetKey(f))
  }

  /** The listed order is a permutation of the fetched pets; an empty flag
      keeps their order and a field flag sorts ascending by that field. */
  lemma OrderedProperties(pets: seq<Pet>, sortKey: string)
    requires ParseSortKey(sortKey).Ok?
    ensures multiset(Ordered(pets, sortKey)) == multiset(pets)
    ensures sortKey == "" ==> Ordered(pets, sortKey) == pets
    ensures ParseSortKey(sortKey).value.Some? ==>
      SortedBy(Ordered(pets, sortKey), PetKey(ParseSortKey(sortKey).value.value))
  {
    match ParseSortKey(sortKey).value
    case None =>
    case Some(f) =>
      SortByPermutation(pets, PetKey(f));
      SortBySorted(pets, PetKey(f));
  }

  /** Sorts the pets in place as the sort flag says; an invalid flag leaves
      them alone and reports the error the command exits with. */
  method SortPets(pets: array<Pet>, sortKey: string) returns (err: Option<string>)
    modifies pets
    ensures ParseSortKey(sortKey).Err? ==> err == Some(ParseSortKey(sortKey).msg) && pets[..] == old(pets[..])
    ensures ParseSortKey(sortKey).Ok? ==> err == None && pets[..] == Ordered(old(pets[..]), sortKey)
  {
    if sortKey != "" {
      match ParseSortKey(sortKey)
      case Err(msg) =>
        return Some(msg);
      case Ok(f) =>
        SortInPlace(pets, PetKey(f.value));
    }
    return None;
  }

  // ---------------------------------------------------------------------
  // Grouping
  // ---------------------------------------------------------------------

  datatype GroupField = Species | Tier | Boost | Adventure | Craving

  function GroupFieldName(g: GroupField): string
  {
    match g
    case Species => "species"
    case Tier => "tier"
    case Boost => "boost"
    case Adventure => "adventure"
    case Craving => "craving"
  }

  const GroupFieldNames: set<string> := {"species", "tier", "boost", "adventure", "craving"}

  /** The group flag, in any letter case. */
  function ParseGroupField(groupKey: string): (r: Option<GroupField>)
    ensures r.Some? <==> ToLower(groupKey) in GroupFieldNames
    ensures r.Some? ==> GroupFieldName(r.value) == ToLower(groupKey)
  {
    var f := ToLower(groupKey);
    if f == "species" then Some(Species)
    else if f == "tier" then Some(Tier)
    else if f == "boost" then Some(Boost)
    else if f == "adventure" then Some(Adventure)
    else if f == "craving" then Some(Craving)
    else None
  }

  /** A pet's group: the chosen field, numbers in decimal as fmt.Sprint
      renders them. */
  function GroupKeyOf(p: Pet, g: GroupField): string
  {
    match g
    case Species => p.species
    case Tier => FormatInt(p.tier)
    case Boost => FormatInt(p.boost)
    case Adventure => p.adventureType
    case Craving => FormatInt(p.cravingItemId)
  }

  function KeyFor(g: GroupField): Pet -> string
  {
    (p: Pet) => GroupKeyOf(p, g)
  }

  /** The group keys the pets produce. */
  ghost function PetKeys(pets: seq<Pet>, g: GroupField): set<string>
  {
    set p | p in pets :: GroupKeyOf(p, g)
  }

  datatype Group = Group(key: string, pets: seq<Pet>)

  function KeyList(groups: seq<Group>): seq<string>
  {
    seq(|groups|, i requires 0 <= i < |groups| => groups[i].key)
  }

  /** Strictly ascending in Go's string order (sort.Strings of distinct keys). */
  predicate Ascending(keys: seq<string>)
  {
    forall i, j :: 0 <= i < j < |keys| ==> StrLess(keys[i], keys[j])
  }

  /** What the grouped listing is: one group per key some pet produces, the
      keys in ascending string order, and each group holding exactly the
      pets with its key in their listed order. */
  ghost predicate IsGrouping(groups: seq<Group>, pets: seq<Pet>, g: GroupField)
  {
    && Ascending(KeyList(groups))
    && (forall k :: k in KeyList(groups) <==> k in PetKeys(pets, g))
    && forall i :: 0 <= i < |groups| ==> groups[i].pets == Having(pets, KeyFor(g), groups[i].key)
  }

  /** Appending a pet extends its own group and no other. */
  lemma GroupStep(s: seq<Pet>, p: Pet, g: GroupField, k: string)
    ensures Having(s + [p], KeyFor(g), k) == Having(s, KeyFor(g), k) + (if GroupKeyOf(p, g) == k then [p] else [])
  {
    HavingAppend(s, [p], KeyFor(g), k);
    assert Having([p], KeyFor(g), k) == (if GroupKeyOf(p, g) == k then [p] else []) + Having([], KeyFor(g), k);
  }

  /** No pet has a key outside PetKeys. */
  lemma GroupAbsent(s: seq<Pet>, g: GroupField, k: string)
    ensures k !in PetKeys(s, g) ==> Having(s, KeyFor(g), k) == []
  {
    var h := Having(s, KeyFor(g), k);
    if h != [] {
      assert h[0] in s && GroupKeyOf(h[0], g) == k;
    }
  }

  /** The key-to-pets map holds, for each key the pets produce, the pets
      with that key in order. */
  ghost predicate GroupsOf(groups: map<string, seq<Pet>>, s: seq<Pet>, g: GroupField)
  {
    && groups.Keys == PetKeys(s, g)
    && forall k :: k in groups ==> groups[k] == Having(s, KeyFor(g), k)
  }

  /** `groups[key] = append(groups[key], p)` keeps GroupsOf, one pet on. */
  lemma GroupInsert(groups: map<string, seq<Pet>>, s: seq<Pet>, p: Pet, g: GroupField)
    requires GroupsOf(groups, s, g)
    ensures GroupsOf(groups[GroupKeyOf(p, g) :=
      (if GroupKeyOf(p, g) in groups then groups[GroupKeyOf(p, g)] else []) + [p]], s + [p], g)
  {
    var key := GroupKeyOf(p, g);
    var next := groups[key := (if key in groups then groups[key] else []) + [p]];
    PetKeysAppend(s, p, g);
    forall k | k in next ensures next[k] == Having(s + [p], KeyFor(g), k) {
      GroupStep(s, p, g, k);
      if k == key {
        GroupAbsent(s, g, key);
      }
    }
  }

  /** The loop step over pets[i]. */
  lemma GroupNext(groups: map<string, seq<Pet>>, pets: seq<Pet>, i: nat, g: GroupField)
    requires i < |pets| && GroupsOf(groups, pets[..i], g)
    ensures GroupsOf(groups[GroupKeyOf(pets[i], g) :=
      (if GroupKeyOf(pets[i], g) in groups then groups[GroupKeyOf(pets[i], g)] else []) + [pets[i]]], pets[..i + 1], g)
  {
    GroupInsert(groups, pets[..i], pets[i], g);
    assert pets[..i + 1] == pets[..i] + [pets[i]];
  }

  lemma PetKeysAppend(s: seq<Pet>, p: Pet, g: GroupField)
    ensures PetKeys(s + [p], g) == PetKeys(s, g) + {GroupKeyOf(p, g)}
  {
    forall k ensures k in PetKeys(s + [p], g) <==> k in PetKeys(s, g) || k == GroupKeyOf(p, g) {
      if k in PetKeys(s + [p], g) {
        var q :| q in s + [p] && GroupKeyOf(q, g) == k;
        assert q in s || q == p;
      }
      if k == GroupKeyOf(p, g) {
        assert p in s + [p];
      }
      if k in PetKeys(s, g) {
        var q :| q in s && GroupKeyOf(q, g) == k;
        assert q in s + [p];
      }
    }
  }

  /** `for k := range groups`: the map's keys, each once, in an order the
      model leaves open as Go does. */
  method MapKeys(groups: map<string, seq<Pet>>) returns (keys: seq<string>)
    ensures Distinct(keys)
    ensures forall k :: k in keys <==> k in groups
    ensures groups == map[] ==> keys == []
  {
    keys := [];
    var rest := groups.Keys;
    while rest != {}
      invariant Distinct(keys)
      invariant forall k :: k in groups <==> k in keys || k in rest
      invariant forall k :: k in keys ==> k !in rest
      invariant groups == map[] ==> keys == []
      decreases |rest|
    {
      var k :| k in rest;
      keys := keys + [k];
      rest := rest - {k};
    }
  }

  /** Sorted distinct strings are strictly ascending. */
  lemma SortedDistinctAscending(keys: seq<string>)
    requires SortedBy(keys, TextKey) && Distinct(keys)
    ensures Ascending(keys)
  {
    forall i, j | 0 <= i < j < |keys| ensures StrLess(keys[i], keys[j]) {
      assert KeyLe(TextKey(keys[i]), TextKey(keys[j]));
      StrLessTotal(keys[i], keys[j]);
    }
  }

  function TextKey(s: string): Key { StrKey(s) }

  /** The grouping step of the listing: builds the key-to-pets map by
      appending each pet to its key's slice, collects the map's keys in
      whatever order the map yields them, sorts them, and lists the groups.
      An invalid field is reported from inside the loop over the pets, so
      with no pets there is no error and no group. */
  method GroupPets(pets: seq<Pet>, groupKey: string) returns (r: Result<seq<Group>>)
    ensures r.Err? <==> |pets| > 0 && ParseGroupField(groupKey).None?
    ensures r.Err? ==> r.msg == "Invalid group field: " + groupKey
    ensures |pets| == 0 ==> r == Ok([])
    ensures r.Ok? && ParseGroupField(groupKey).Some? ==>
      IsGrouping(r.value, pets, ParseGroupField(groupKey).value)
  {
    var field := ParseGroupField(groupKey);
    ghost var g := field.GetOr(Species);
    var groups: map<string, seq<Pet>> := map[];
    var i := 0;
    while i < |pets|
      invariant 0 <= i <= |pets|
      invariant i > 0 ==> field == Some(g)
      invariant GroupsOf(groups, pets[..i], g)
    {
      if field.None? {
        return Err("Invalid group field: " + groupKey);
      }
      var p := pets[i];
      var key := GroupKeyOf(p, field.value);
      GroupNext(groups, pets, i, g);
      groups := groups[key := (if key in groups then groups[key] else []) + [p]];
      i := i + 1;
    }
    assert pets[..i] == pets;

    var keys := MapKeys(groups);
    var sorted := SortSeq(keys, TextKey);
    SortedKeys(keys, sorted);
    var out := seq(|sorted|, j requires 0 <= j < |sorted| => Group(sorted[j], groups[sorted[j]]));
    Listed(groups, pets, g, sorted, out);
    if |pets| == 0 {
      assert groups == map[];
    }
    return Ok(out);
  }

  /** Listing the map's entries in the order of the sorted keys gives the
      grouping. */
  lemma Listed(groups: map<string, seq<Pet>>, pets: seq<Pet>, g: GroupField, sorted: seq<string>, out: seq<Group>)
    requires GroupsOf(groups, pets, g)
    requires Ascending(sorted) && forall k :: k in sorted <==> k in groups
    requires |out| == |sorted| && forall j :: 0 <= j < |sorted| ==> out[j] == Group(sorted[j], groups[sorted[j]])
    ensures IsGrouping(out, pets, g)
  {
    assert KeyList(out) == sorted;
  }

  /** sort.Strings on the distinct map keys: the same keys, strictly ascending. */
  lemma SortedKeys(keys: seq<string>, sorted: seq<string>)
    requires Distinct(keys) && sorted == SortBy(keys, TextKey)
    ensures Ascending(sorted)
    ensures forall k :: k in sorted <==> k in keys
    ensures keys == [] ==> sorted == []
  {
    SortByPermutation(keys, TextKey);
    SortBySorted(keys, TextKey);
    DistinctPermutation(keys, sorted);
    SortedDistinctAscending(sorted);
    assert forall k :: k in sorted <==> k in multiset(keys);
  }

  // ---------------------------------------------------------------------
  // What a grouping is
  // ---------------------------------------------------------------------

  function TotalSize(groups: seq<Group>): nat
  {
    if groups == [] then 0 else |groups[0].pets| + TotalSize(groups[1..])
  }

  lemma {:induction false} TotalIsSumOfSizes(groups: seq<Group>, pets: seq<Pet>, g: GroupField)
    requires forall i :: 0 <= i < |groups| ==> groups[i].pets == Having(pets, KeyFor(g), groups[i].key)
    ensures TotalSize(groups) == SumOfSizes(pets, KeyFor(g), KeyList(groups))
  {
    if groups != [] {
      assert KeyList(groups)[1..] == KeyList(groups[1..]);
      TotalIsSumOfSizes(groups[1..], pets, g);
    }
  }

  /** The groups partition the pets: their sizes add up to the pet count. */
  lemma GroupingPartition(groups: seq<Group>, pets: seq<Pet>, g: GroupField)
    requires IsGrouping(groups, pets, g)
    ensures TotalSize(groups) == |pets|
  {
    var keys := KeyList(groups);
    TotalIsSumOfSizes(groups, pets, g);
    assert Distinct(keys) by {
      forall i, j | 0 <= i < j < |keys| ensures keys[i] != keys[j] {
        StrLessIrreflexive(keys[i]);
      }
    }
    forall i | 0 <= i < |pets| ensures KeyFor(g)(pets[i]) in keys {
      assert GroupKeyOf(pets[i], g) in PetKeys(pets, g);
    }
    SumOfSizesPartition(pets, KeyFor(g), keys);
  }

  /** Every pet is in exactly one group: the one whose key it produces. */
  lemma GroupingMembership(groups: seq<Group>, pets: seq<Pet>, g: GroupField, p: Pet)
    requires IsGrouping(groups, pets, g) && p in pets
    ensures exists j :: 0 <= j < |groups| && groups[j].key == GroupKeyOf(p, g)
    ensures forall j :: 0 <= j < |groups| ==> (p in groups[j].pets <==> groups[j].key == GroupKeyOf(p, g))
    ensures forall i, j :: 0 <= i < |groups| && 0 <= j < |groups| && p in groups[i].pets && p in groups[j].pets ==> i == j
  {
    var keys := KeyList(groups);
    assert GroupKeyOf(p, g) in PetKeys(pets, g);
    assert GroupKeyOf(p, g) in keys;
    forall j | 0 <= j < |groups| ensures p in groups[j].pets <==> groups[j].key == GroupKeyOf(p, g) {
      var h := Having(pets, KeyFor(g), groups[j].key);
      if p in h {
        var k :| 0 <= k < |h| && h[k] == p;
      }
    }
    forall i, j | 0 <= i < |groups| && 0 <= j < |groups| && p in groups[i].pets && p in groups[j].pets
      ensures i == j
    {
      assert keys[i] == keys[j];
      if i < j {
        StrLessIrreflexive(keys[i]);
      } else if j < i {
        StrLessIrreflexive(keys[j]);
      }
    }
  }

  /** Two strictly ascending sequences of the same strings are equal. */
  lemma {:induction false} AscendingUnique(x: seq<string>, y: seq<string>)
    requires Ascending(x) && Ascending(y)
    requires forall k :: k in x <==> k in y
    ensures x == y
  {
    assert x != [] ==> x[0] in x;
    assert y != [] ==> y[0] in y;
    if x != [] && y != [] {
      assert x[0] == y[0] by {
        if x[0] != y[0] {
          assert x[0] in x && y[0] in y;
          var j :| 0 < j < |y| && y[j] == x[0];
          var i :| 0 < i < |x| && x[i] == y[0];
          StrLessTransitive(x[0], y[0], x[0]);
          StrLessIrreflexive(x[0]);
        }
      }
      assert x[0] !in x[1..] && y[0] !in y[1..] by {
        StrLessIrreflexive(x[0]);
      }
      forall k ensures k in x[1..] <==> k in y[1..] {
        assert x == [x[0]] + x[1..] && y == [y[0]] + y[1..];
        assert k in x <==> k == x[0] || k in x[1..];
        assert k in y <==> k == y[0] || k in y[1..];
      }
      AscendingUnique(x[1..], y[1..]);
      assert x == [x[0]] + x[1..] && y == [y[0]] + y[1..];
    }
  }

  /** The grouped listing does not depend on the order in which the map
      yields its keys: there is only one grouping of a list of pets. */
  lemma GroupingUnique(a: seq<Group>, b: seq<Group>, pets: seq<Pet>, g: GroupField)
    requires IsGrouping(a, pets, g) && IsGrouping(b, pets, g)
    ensures a == b
  {
    AscendingUnique(KeyList(a), KeyList(b));
    assert |a| == |KeyList(a)| == |KeyList(b)| == |b|;
    forall i | 0 <= i < |a| ensures a[i] == b[i] {
      assert KeyList(a)[i] == KeyList(b)[i];
    }
  }

  lemma TierTexts()
    ensures FormatInt(2) == "2" && FormatInt(10) == "10"
  {
    assert NatToDigits(10) == NatToDigits(1) + [DigitChar(0)];
  }

  /** Numeric keys are ordered as strings: tier 10 is listed before tier 2. */
  lemma TierKeysAsStrings(groups: seq<Group>, two: Pet, ten: Pet)
    requires two.tier == 2 && ten.tier == 10
    requires IsGrouping(groups, [two, ten], Tier)
    ensures groups == [Group("10", [ten]), Group("2", [two])]
  {
    TierGrouping(two, ten);
    GroupingUnique(groups, [Group("10", [ten]), Group("2", [two])], [two, ten], Tier);
  }

  lemma TierGrouping(two: Pet, ten: Pet)
    requires two.tier == 2 && ten.tier == 10
    ensures IsGrouping([Group("10", [ten]), Group("2", [two])], [two, ten], Tier)
  {
    TierTexts();
    var pets := [two, ten];
    var expected := [Group("10", [ten]), Group("2", [two])];
    assert KeyList(expected) == ["10", "2"];
    assert StrLess("10", "2");
    TierKeys(two, ten);
    TierMembers(two, ten, "10");
    TierMembers(two, ten, "2");
  }

  lemma TierKeys(two: Pet, ten: Pet)
    requires GroupKeyOf(two, Tier) == "2" && GroupKeyOf(ten, Tier) == "10"
    ensures PetKeys([two, ten], Tier) == {"10", "2"}
  {
    PetKeysAppend([two], ten, Tier);
    PetKeysAppend([], two, Tier);
    assert [two] == [] + [two] && [two, ten] == [two] + [ten];
  }

  lemma TierMembers(two: Pet, ten: Pet, k: string)
    ensures Having([two, ten], KeyFor(Tier), k) ==
      (if GroupKeyOf(two, Tier) == k then [two] else []) + (if GroupKeyOf(ten, Tier) == k then [ten] else [])
  {
    GroupStep([two], ten, Tier, k);
    GroupStep([], two, Tier, k);
    assert [two] == [] + [two] && [two, ten] == [two] + [ten];
  }

  // ---------------------------------------------------------------------
  // The listing
  // ---------------------------------------------------------------------

  datatype Listing = Table(pets: seq<Pet>) | Grouped(groups: seq<Group>)

  /** `pet owned` after the fetch: sort on a working array, then either the
      plain table or the grouped listing. */
  method Owned(pets: seq<Pet>, sortKey: string, groupKey: string) returns (r: Result<Listing>)
    ensures ParseSortKey(sortKey).Err? ==> r == Err(ParseSortKey(sortKey).msg)
    ensures ParseSortKey(sortKey).Ok? && groupKey == "" ==> r == Ok(Table(Ordered(pets, sortKey)))
    ensures ParseSortKey(sortKey).Ok? && groupKey != "" ==>
      (r.Err? <==> |pets| > 0 && ParseGroupField(groupKey).None?)
    ensures ParseSortKey(sortKey).Ok? && groupKey != "" && r.Err? ==> r.msg == "Invalid group field: " + groupKey
    ensures ParseSortKey(sortKey).Ok? && groupKey != "" && |pets| == 0 ==> r == Ok(Grouped([]))
    ensures ParseSortKey(sortKey).Ok? && groupKey != "" && r.Ok? ==>
      r.value.Grouped? &&
      (ParseGroupField(groupKey).Some? ==>
         IsGrouping(r.value.groups, Ordered(pets, sortKey), ParseGroupField(groupKey).value))
  {
    var a := new Pet[|pets|](i requires 0 <= i < |pets| => pets[i]);
    assert a[..] == pets;
    var err := SortPets(a, sortKey);
    if err.Some? {
      return Err(err.value);
    }
    if groupKey == "" {
      return Ok(Table(a[..]));
    }
    var grouped := GroupPets(a[..], groupKey);
    match grouped
    case Err(msg) =>
      return Err(msg);
    case Ok(groups) =>
      return Ok(Grouped(groups));
  }
}
