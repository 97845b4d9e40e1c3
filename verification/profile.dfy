/**
 * The argument shaping of profile/commands.go: the section filter
 * (parseFilter and the `want` predicate of renderProfile) and the optional
 * farm-plot ordering (sortFarmPlots, run on a copy of the profile's plots).
 */
module Profile {
  import opened Text
  import opened Seqs
  import opened Sorting

  // ---------------------------------------------------------------------
  // Section filter
  // ---------------------------------------------------------------------

  /** One filter piece as parseFilter keeps it: trimmed and lower-cased. */
  function Clean(piece: string): string
  {
    ToLower(TrimSpace(piece))
  }

  /** The set parseFilter builds from a sequence of pieces. */
  function FilterOf(pieces: seq<string>): set<string>
  {
    if |pieces| == 0 then {} else Entry(pieces[0]) + FilterOf(pieces[1..])
  }

  /** What one piece adds to the filter: nothing when it cleans to "". */
  function Entry(piece: string): set<string>
  {
    var f := Clean(piece);
    if f == "" then {} else {f}
  }

  /** parseFilter: the non-empty cleaned comma-separated pieces; an empty
      argument gives the empty (nil) set. */
  method ParseFilter(raw: string) returns (r: set<string>)
    ensures raw == "" ==> r == {}
    ensures r == FilterOf(Split(raw, ','))
  {
    if raw == "" {
      return {};
    }
    var pieces := Split(raw, ',');
    r := {};
    var i := 0;
    while i < |pieces|
      invariant 0 <= i <= |pieces|
      invariant r + FilterOf(pieces[i..]) == FilterOf(pieces)
    {
      var f := Clean(pieces[i]);
      FilterStep(pieces, i);
      if f != "" {
        r := r + {f};
      }
      i := i + 1;
    }
  }

  /** The filter of a suffix is its first piece's entry plus the rest. */
  lemma FilterStep(pieces: seq<string>, i: nat)
    requires i < |pieces|
    ensures FilterOf(pieces[i..]) == Entry(pieces[i]) + FilterOf(pieces[i + 1..])
  {
    assert pieces[i..][1..] == pieces[i + 1..];
  }

  /** The filter holds exactly the non-empty cleaned pieces. */
  lemma {:induction false} FilterOfMembers(pieces: seq<string>, f: string)
    ensures f in FilterOf(pieces) <==> f != "" && exists i :: 0 <= i < |pieces| && Clean(pieces[i]) == f
  {
    if pieces != [] {
      var rest := pieces[1..];
      FilterOfMembers(rest, f);
      if f in FilterOf(rest) {
        var i :| 0 <= i < |rest| && Clean(rest[i]) == f;
        assert pieces[i + 1] == rest[i];
      }
      if f != "" && exists i :: 0 <= i < |pieces| && Clean(pieces[i]) == f {
        var i :| 0 <= i < |pieces| && Clean(pieces[i]) == f;
        if i > 0 {
          assert rest[i - 1] == pieces[i];
        }
      }
    }
  }

  /** A lower-cased character is white space exactly when the original is. */
  lemma LowerCharSpace(c: char)
    ensures IsSpace(LowerChar(c)) == IsSpace(c)
  {
  }

  /** Every filter entry is non-empty, lower case, free of commas and of
      white space at either end. */
  lemma FilterEntriesClean(raw: string, f: string)
    requires f in FilterOf(Split(raw, ','))
    ensures f != "" && ',' !in f
    ensures forall k :: 0 <= k < |f| ==> !('A' <= f[k] <= 'Z')
    ensures !IsSpace(f[0]) && !IsSpace(f[|f| - 1])
  {
    var pieces := Split(raw, ',');
    FilterOfMembers(pieces, f);
    var i :| 0 <= i < |pieces| && Clean(pieces[i]) == f;
    CleanShape(pieces[i], f);
  }

  /** Cleaning a comma-free piece gives a comma-free lower-case string that
      neither starts nor ends with white space. */
  lemma CleanShape(piece: string, f: string)
    requires ',' !in piece && f == Clean(piece)
    ensures ',' !in f
    ensures forall k :: 0 <= k < |f| ==> !('A' <= f[k] <= 'Z')
    ensures f != "" ==> !IsSpace(f[0]) && !IsSpace(f[|f| - 1])
  {
    var t := TrimSpace(piece);
    var j :| InfixAt(t, piece, j);
    InfixWithout(t, piece, j, ',');
    LowerWithout(t, ',');
    if t != "" {
      LowerCharSpace(t[0]);
      LowerCharSpace(t[|t| - 1]);
    }
  }

  /** An infix of a string lacks every character the string lacks. */
  lemma InfixWithout(t: string, s: string, j: int, c: char)
    requires InfixAt(t, s, j) && c !in s
    ensures c !in t
  {
    forall k | 0 <= k < |t| ensures t[k] != c {
      assert t[k] == s[j + k];
    }
  }

  /** Lower-casing adds no comma. */
  lemma LowerWithout(t: string, c: char)
    requires c !in t && !('A' <= c <= 'Z') && !('a' <= c <= 'z')
    ensures c !in ToLower(t)
  {
    var l := ToLower(t);
    forall k | 0 <= k < |l| ensures l[k] != c {
      assert l[k] == LowerChar(t[k]);
      assert t[k] != c;
    }
  }

  /** renderProfile's `want`: every section when the filter is empty,
      otherwise the sections whose lower-cased name it holds. */
  predicate Wanted(filters: set<string>, name: string)
  {
    |filters| == 0 || ToLower(name) in filters
  }

  /** Section names match the filter case-insensitively: a section is
      wanted when some filter piece equals its name up to case. */
  lemma {:induction false} WantedByPiece(raw: string, name: string, i: nat)
    ensures i < |Split(raw, ',')| && Clean(Split(raw, ',')[i]) == ToLower(name) && name != "" ==>
      Wanted(FilterOf(Split(raw, ',')), name)
  {
    FilterOfMembers(Split(raw, ','), ToLower(name));
  }

  /** The faction section is shown only for a profile in a faction. */
  predicate ShowFaction(filters: set<string>, factionId: int)
  {
    Wanted(filters, "faction") && factionId != 0
  }

  /** A filter that names other sections only hides the faction section,
      and no filter shows it for a profile outside any faction. */
  lemma FactionHidden(filters: set<string>, factionId: int)
    requires factionId == 0 || (filters != {} && "faction" !in filters)
    ensures !ShowFaction(filters, factionId)
  {
    assert ToLower("faction") == "faction";
  }

  // ---------------------------------------------------------------------
  // Farm plots
  // ---------------------------------------------------------------------

  datatype FarmPlot = FarmPlot(level: int, itemId: int, isPlanted: bool, isExtra: bool)

  function ItemKey(p: FarmPlot): Key { IntKey(p.itemId) }

  function LevelKey(p: FarmPlot): Key { IntKey(p.level) }

  datatype FarmSort = Unsorted | ByItem | ByLevel

  /** Which ordering a sort flag selects: "farm:<key>" with "farm" in any
      case, and key "plant" or "item" (by item ID) or "level" (by level),
      in any case. Everything else leaves the plots as they are. */
  function FarmSortOf(sortFlag: string): FarmSort
  {
    if sortFlag == "" then Unsorted
    else
      var parts := Split(sortFlag, ':');
      if |parts| != 2 || ToLower(parts[0]) != "farm" then Unsorted
      else
        var key := ToLower(parts[1]);
        if key == "plant" || key == "item" then ByItem
        else if key == "level" then ByLevel
        else Unsorted
  }

  /** The plots in the order sortFarmPlots leaves them. */
  function FarmOrder(plots: seq<FarmPlot>, sortFlag: string): seq<FarmPlot>
  {
    match FarmSortOf(sortFlag)
    case Unsorted => plots
    case ByItem => SortBy(plots, ItemKey)
    case ByLevel => SortBy(plots, LevelKey)
  }

  /** sortFarmPlots: a stable in-place sort chosen by the flag. */
  method SortFarmPlots(plots: array<FarmPlot>, sortFlag: string)
    modifies plots
    ensures plots[..] == FarmOrder(old(plots[..]), sortFlag)
  {
    if plots.Length == 0 || sortFlag == "" {
      return;
    }
    var parts := Split(sortFlag, ':');
    if |parts| != 2 || ToLower(parts[0]) != "farm" {
      return;
    }
    var key := ToLower(parts[1]);
    if key == "plant" || key == "item" {
      SortInPlace(plots, ItemKey);
    } else if key == "level" {
      SortInPlace(plots, LevelKey);
    }
  }

  /** The order is always a permutation of the plots. */
  lemma FarmOrderPermutation(plots: seq<FarmPlot>, sortFlag: string)
    ensures multiset(FarmOrder(plots, sortFlag)) == multiset(plots)
  {
    match FarmSortOf(sortFlag)
    case Unsorted =>
    case ByItem => SortByPermutation(plots, ItemKey);
    case ByLevel => SortByPermutation(plots, LevelKey);
  }

  /** With a recognised key the plots end in ascending order of that key,
      and plots with equal keys keep their relative order. */
  lemma FarmOrderSorted(plots: seq<FarmPlot>, sortFlag: string)
    ensures FarmSortOf(sortFlag) == ByItem ==> SortedBy(FarmOrder(plots, sortFlag), ItemKey)
    ensures FarmSortOf(sortFlag) == ByLevel ==> SortedBy(FarmOrder(plots, sortFlag), LevelKey)
    ensures FarmSortOf(sortFlag) == ByItem ==>
      forall k :: Having(FarmOrder(plots, sortFlag), ItemKey, k) == Having(plots, ItemKey, k)
    ensures FarmSortOf(sortFlag) == ByLevel ==>
      forall k :: Having(FarmOrder(plots, sortFlag), LevelKey, k) == Having(plots, LevelKey, k)
  {
    match FarmSortOf(sortFlag)
    case Unsorted =>
    case ByItem =>
      SortBySorted(plots, ItemKey);
      forall k { SortByStable(plots, ItemKey, k); }
    case ByLevel =>
      SortBySorted(plots, LevelKey);
      forall k { SortByStable(plots, LevelKey, k); }
  }

  /** Every flag that is not "farm:<plant|item|level>" leaves the order. */
  lemma FarmOrderUnsorted(plots: seq<FarmPlot>, sortFlag: string)
    requires |Split(sortFlag, ':')| != 2
    ensures FarmOrder(plots, sortFlag) == plots
  {
  }

  /** renderProfile's farm section: the plots are copied, and only the copy
      is sorted, so the profile's own order is untouched. */
  method SortedFarmPlots(farmPlots: array<FarmPlot>, sortFlag: string) returns (plots: array<FarmPlot>)
    ensures fresh(plots)
    ensures plots[..] == FarmOrder(farmPlots[..], sortFlag)
  {
    plots := new FarmPlot[farmPlots.Length](i requires 0 <= i < farmPlots.Length reads farmPlots => farmPlots[i]);
    assert plots[..] == farmPlots[..];
    SortFarmPlots(plots, sortFlag);
  }
}
