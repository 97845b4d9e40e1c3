/**
 * The item catalogue of common/common.go: the item record decoded from
 * itemid.json, the built-in food, pet-boost and pet tables, and the
 * first-match and filter searches over them.
 */
module Catalogue {
  import opened Wrappers
  import opened Text
  import opened Seqs

  /** An entry of itemid.json, with the fields the client's logic reads. */
  datatype Item = Item(id: int, name: string, idName: string)

  datatype FoodItem = FoodItem(name: string, energy: int)

  datatype PetBoostItem = PetBoostItem(name: string, worth: int, effect: string)

  /** A pet type (its display icon is not modelled). */
  datatype PetData = PetData(name: string, category: string)

  const AllFoodItems: seq<FoodItem> := [
    FoodItem("Seaweed", 25),
    FoodItem("Sardine", 50),
    FoodItem("Exotic Bean", 150),
    FoodItem("Prawn", 150),
    FoodItem("Red Mushroom", 200),
    FoodItem("Bird Nest", 300),
    FoodItem("Jellyfish", 350),
    FoodItem("Soybean", 500),
    FoodItem("Milk", 500),
    FoodItem("Prime Steak", 600),
    FoodItem("Ocean Crab", 750),
    FoodItem("Blueberry", 750),
    FoodItem("Golden Wheat", 1000),
    FoodItem("Russet Potato", 1000),
    FoodItem("Blowfish", 2500),
    FoodItem("Electric Eel", 5000),
    FoodItem("Strawberry", 7500),
    FoodItem("Kiwi", 12500),
    FoodItem("Seafood Salad", 23000),
    FoodItem("Great White", 25000),
    FoodItem("Mango", 25000),
    FoodItem("Hearty Burger", 32500),
    FoodItem("Melon", 50000),
    FoodItem("Warm Broth", 58100),
    FoodItem("Pearled Oyster", 100000),
    FoodItem("Stone Soup", 268100),
    FoodItem("Coconut", 750000),
    FoodItem("Giant Squid", 1000000),
    FoodItem("Pumpkin", 7500000)
  ]

  const AllPetBoostItems: seq<PetBoostItem> := [
    PetBoostItem("Fragrant Dogrose", 2500000, "2\U{00D7} Pet Adventure Speed (2h)"),
    PetBoostItem("Mystical Rowan", 25000000, "4\U{00D7} Pet Adventure Speed (2h)"),
    PetBoostItem("Legendary Aguaje", 250000000, "8\U{00D7} Pet Adventure Speed (2h)"),
    PetBoostItem("Magic Token", 1000000000, "10\U{00D7} Pet Adventure Speed (1d)")
  ]

  const AllPetTypes: seq<PetData> := [
    PetData("Dolphin", "Fish"),
    PetData("Otter", "Fish"),
    PetData("Goose", "Fish"),
    PetData("Seal", "Fish"),
    PetData("Whale", "Fish"),
    PetData("Turtle", "Fish"),
    PetData("Dragon", "Fish"),
    PetData("Eagle", "Hunt"),
    PetData("Tiger", "Hunt"),
    PetData("Gorilla", "Hunt"),
    PetData("Crocodile", "Hunt"),
    PetData("Snake", "Hunt"),
    PetData("Scorpion", "Hunt"),
    PetData("Phoenix", "Hunt"),
    PetData("Poodle", "Explore"),
    PetData("Dog", "Explore"),
    PetData("Mustang", "Explore"),
    PetData("Pig", "Explore"),
    PetData("Peacock", "Explore"),
    PetData("Donkey", "Explore"),
    PetData("Ox", "Explore"),
    PetData("Junglefowl", "Explore"),
    PetData("Rabbit", "Explore"),
    PetData("Dove", "Explore"),
    PetData("Kangaroo", "Explore"),
    PetData("Visitor", "Explore"),
    PetData("Bat", "Mine"),
    PetData("Rat", "Mine"),
    PetData("Snail", "Mine"),
    PetData("Lizard", "Mine"),
    PetData("Invader", "Mine")
  ]

  /** LookUpItemName: the name of the first item with the ID, otherwise
      "Unknown Item ID <id>". */
  function LookUpItemName(id: int, items: seq<Item>): (r: string)
    ensures forall i :: 0 <= i < |items| && items[i].id == id && (forall j :: 0 <= j < i ==> items[j].id != id) ==>
      r == items[i].name
    ensures (forall i :: 0 <= i < |items| ==> items[i].id != id) ==> r == "Unknown Item ID " + FormatInt(id)
  {
    match FirstIndex(items, (it: Item) => it.id == id)
    case Some(i) => items[i].name
    case None => "Unknown Item ID " + FormatInt(id)
  }

  /** The energy of the first food in `table` whose name equals `name`
      case-insensitively, otherwise 0. */
  function EnergyIn(table: seq<FoodItem>, name: string): (r: int)
    ensures forall i :: (0 <= i < |table| && EqualFold(table[i].name, name)
      && (forall j :: 0 <= j < i ==> !EqualFold(table[j].name, name))) ==> r == table[i].energy
    ensures (forall i :: 0 <= i < |table| ==> !EqualFold(table[i].name, name)) ==> r == 0
  {
    match FirstIndex(table, (it: FoodItem) => EqualFold(it.name, name))
    case Some(i) => table[i].energy
    case None => 0
  }

  /** GetEnergy: a search of the food table. */
  function GetEnergy(name: string): int
  {
    EnergyIn(AllFoodItems, name)
  }

  /** Worth and effect of the first boost in `table` whose name equals
      `name` case-insensitively, otherwise (0, ""). */
  function BoostIn(table: seq<PetBoostItem>, name: string): (r: (int, string))
    ensures forall i :: (0 <= i < |table| && EqualFold(table[i].name, name)
      && (forall j :: 0 <= j < i ==> !EqualFold(table[j].name, name))) ==> r == (table[i].worth, table[i].effect)
    ensures (forall i :: 0 <= i < |table| ==> !EqualFold(table[i].name, name)) ==> r == (0, "")
  {
    match FirstIndex(table, (b: PetBoostItem) => EqualFold(b.name, name))
    case Some(i) => (table[i].worth, table[i].effect)
    case None => (0, "")
  }

  /** GetPetBoostDetails: a search of the pet-boost table. */
  function GetPetBoostDetails(name: string): (int, string)
  {
    BoostIn(AllPetBoostItems, name)
  }

  /** The category of the first pet in `table` whose name equals `name`
      case-insensitively, otherwise "". */
  function CategoryIn(table: seq<PetData>, name: string): (r: string)
    ensures forall i :: (0 <= i < |table| && EqualFold(table[i].name, name)
      && (forall j :: 0 <= j < i ==> !EqualFold(table[j].name, name))) ==> r == table[i].category
    ensures (forall i :: 0 <= i < |table| ==> !EqualFold(table[i].name, name)) ==> r == ""
  {
    match FirstIndex(table, (p: PetData) => EqualFold(p.name, name))
    case Some(i) => table[i].category
    case None => ""
  }

  /** GetPetCategory: a search of the pet table. */
  function GetPetCategory(name: string): string
  {
    CategoryIn(AllPetTypes, name)
  }

  function CategoryKey(p: PetData): string { ToLower(p.category) }

  /** The pets of `table` whose category equals `category`
      case-insensitively, in table order. */
  function InCategory(table: seq<PetData>, category: string): (r: seq<PetData>)
    ensures forall i :: 0 <= i < |r| ==> r[i] in table && EqualFold(r[i].category, category)
    ensures forall i :: 0 <= i < |table| && EqualFold(table[i].category, category) ==> table[i] in r
  {
    Having(table, CategoryKey, ToLower(category))
  }

  /** Selection keeps table order: the matches of a concatenation are the
      matches of its first part followed by those of its second, and a
      single pet is kept exactly when its category matches. */
  lemma InCategoryOrder(t1: seq<PetData>, t2: seq<PetData>, p: PetData, category: string)
    ensures InCategory(t1 + t2, category) == InCategory(t1, category) + InCategory(t2, category)
    ensures InCategory([p], category) == if EqualFold(p.category, category) then [p] else []
  {
    HavingAppend(t1, t2, CategoryKey, ToLower(category));
    assert [p][1..] == [];
  }

  /** Each matching pet is listed as many times as the table holds it, and
      no other pet is listed. */
  lemma InCategoryCount(table: seq<PetData>, category: string)
    ensures forall p :: multiset(InCategory(table, category))[p]
                          == if EqualFold(p.category, category) then multiset(table)[p] else 0
  {
    HavingMultiset(table, CategoryKey, ToLower(category));
  }

  /** GetPetsByCategory: exactly the pets whose category equals `category`
      case-insensitively, in table order. */
  function GetPetsByCategory(category: string): seq<PetData>
  {
    InCategory(AllPetTypes, category)
  }
}
