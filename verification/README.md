# bcncli helpers and request shaping, in Dafny

bcncli is a command-line client for the bconomy game API. Every command
builds a JSON request payload, posts it, and prints or reshapes the
response. This project models the parts of the client that decide
something:

- **Price formatting** (`FormatPrice`). Plain mode groups the decimal
  digits in threes. Unit mode picks the T/B/M/K suffix.
- **Duration rendering** (`TimeUntilISO8601`, `ElapsedSinceISO8601`). A
  second count becomes weeks, days, hours, minutes and seconds, and only
  the non-zero parts are shown.
- **The item-data cache** (`LoadItemData`, `fetchAndCache`,
  `loadJSONFile`, `loadItems`). This is a class over an abstract file
  system, clock and API.
- **Catalogue searches**: `LookUpItemName`, `GetEnergy`,
  `GetPetBoostDetails`, `GetPetCategory`, `GetPetsByCategory` and
  gamedata's `findItem`.
- **Argument shaping**: the profile section filter and `want`, the
  farm-plot sort and `sanitizeEmoji`.
- **Result post-processing**: the market overview rows, names and sort,
  and pet sorting and grouping.
- **Payload construction with ordered error checks** for the leaderboard,
  logs and faction commands.

Modules follow the source files:

| module | source file |
|---|---|
| `Price`, `Duration`, `ItemCache`, `Catalogue` | `common/common.go` |
| `Profile` | `profile/commands.go` |
| `GameData` | `gamedata/commands.go` |
| `Market` | `market/commands.go` |
| `Pets` | `pet/commands.go` |
| `Leaderboard` | `leaderboard/commands.go` |
| `Logs` | `logs/commands.go` |
| `Faction` | `faction/commands.go` |

Shared helper modules:

- `Text`: `strconv.Atoi` and `FormatInt`, `strconv.Quote` (the `%q` verb), ASCII `strings.ToLower` and `EqualFold`, `TrimSpace`, `Split` and `Join`.
- `Seqs`: first-match search and order-preserving selection.
- `Sorting`: a stable insertion sort on arrays, proved equal to the specification function `SortBy`.
- `Requests`: payload values, ID parsing and cobra flags.

## How the source's forms are modelled

- Where the source updates state, the model is imperative:
  - `FormatPrice`'s grouping loop, the duration decomposition and the filter loop are loops with invariants.
  - The two in-place sorts (`sortFarmPlots` and the pets slice) work on `array`s.
  - The `nameByID`, overview-row and pet-group maps are built in loops.
  - The leaderboard payload map is mutated in place.
  - The cache is a `Store` class whose methods modify the file map and count API requests.
- The searches, `sanitizeEmoji`, and the logs and faction payloads are pure, as in the source. They are functions.
- A process exit is an `Err` (or `Exited`) result carrying the message the source prints. The trailing newline is dropped.
- Go map iteration order is left open:
  - The overview's data map is an input sequence of entries.
  - The pet-group map's keys are taken out by a nondeterministic choice.
  - `GroupingUnique` shows that the grouped output does not depend on that order.
- `sort.Slice` (in market and pet) is not stable in Go. The model uses the same stable sort as `sort.SliceStable`. The proved properties (sorted and a permutation) hold for any sort.

Two behaviours of the code that its declarations do not suggest:

- **Write failure in the cache.** A failed cache write in `fetchAndCache` discards the fetched data and returns the error. `LoadItemData` passes that error on (common/common.go:282-288, 243-245).
- **Leaderboard page default.** The leaderboard commands declare a default page of 1, but they also mark `page` as required (leaderboard/commands.go:24-34). cobra refuses to run them without it, so the default never reaches a payload. In the logs commands `page` is optional and does default to 1.

## Model

| member | source | states |
|---|---|---|
| Price.FormatPlain | common/common.go:151-173 | a leading "-" exactly when n < 0; after it, the text is grouped (a first group of 1-3 digits, then " " and 3 digits per group), and with the spaces removed it is exactly the decimal digits of \|n\| |
| Price.GroupDigits | common/common.go:158-167 | the grouping loop turns any non-empty digit string into grouped text whose digits, spaces removed, are that string |
| Price.GroupedShape | common/common.go:158-167 | in grouped text, counting from the end, every fourth character is a space and all others are digits; the length is never a multiple of 4 |
| Price.GroupedStartsWithDigit | common/common.go:159-163 | grouped text is non-empty and starts with a digit, so in plain mode the sign is present iff n < 0 |
| Price.UnspacedAppend | common/common.go:164-167 | removing spaces distributes over concatenation |
| Price.Abs64 | common/common.go:176-179 | the int64 magnitude: \|n\| for every n except MinInt64, whose negation overflows and stays negative |
| Price.SelectUnit | common/common.go:180-201 | no unit iff \|n\| < 1000; otherwise the unit with the largest threshold that \|n\| reaches |
| Price.FormatPrice | common/common.go:144-202 | plain mode gives the grouped digits with the sign; unit mode below 1000 gives strconv.FormatInt(n); from 1000 up it gives n scaled by the largest reached threshold among T, B, M, K |
| Price.MinInt64IsPlain | common/common.go:176-179 | MinInt64's overflowed magnitude reaches no threshold, so unit mode prints it without a suffix |
| Duration.Decompose | common/common.go:369-377 | weeks·604800 + days·86400 + hours·3600 + minutes·60 + seconds = total, with days < 7, hours < 24, minutes < 60 and seconds < 60 |
| Duration.DecompositionUnique | common/common.go:369-377 | two in-range breakdowns with the same total are equal, so Decompose's answer is the only one |
| Duration.ShownCanonical | common/common.go:380-396 | the parts collected for a breakdown are in unit order, non-zero and in range (or "0s" alone), and add up to the breakdown's seconds |
| Duration.CanonicalUnique | common/common.go:380-396 | two canonical part lists with the same total are equal |
| Duration.CanonicalZero | common/common.go:394-396 | a canonical part list is "0s" exactly when it stands for zero seconds |
| Duration.Humanize | common/common.go:369-398 | the text is the space-joined rendering of canonical parts that add up to the given second count |
| Duration.RendersUnique | common/common.go:369-398 | each second count has exactly one rendering |
| Duration.RendersNotSentinel | common/common.go:379-398 | a rendering starts with a digit and ends with a unit letter, so it is never the "0" or "-" of the early returns |
| Duration.Sub | common/common.go:361 | time.Time.Sub: the exact nanosecond difference when it fits in int64, otherwise the nearest int64 bound; positive exactly when t is later, zero exactly when they are equal |
| Duration.SubMonotone | common/common.go:411 | a later end or an earlier start never gives a shorter duration, and past MaxInt64 the duration stays there |
| Duration.TimeUntil | common/common.go:354-399 | "-" for an unparseable timestamp, "0" when the target is not in the future, otherwise the rendering of the whole seconds of the saturated difference; a target 2^63−1 ns or more away renders as 9223372036 s |
| Duration.ElapsedSince | common/common.go:404-449 | "0" for an unparseable timestamp and for a future one, otherwise the rendering of the whole seconds of the saturated difference; a timestamp 2^63−1 ns or more in the past renders as 9223372036 s |
| ItemCache.Choose | common/common.go:229-275 | the file is read iff duration ≠ 0, the file exists and its age (time.Since, saturated like time.Time.Sub) is at most duration seconds; the process ends iff duration ≠ 0 and stat fails for another reason; every other case fetches |
| ItemCache.CachedMonotone | common/common.go:260-275 | a longer duration or an earlier clock never turns a cached read into a fetch |
| ItemCache.Store.Resolve | common/common.go:205-216 | an absolute name is kept; a relative one needs the executable's directory and is then absolute |
| ItemCache.Store.LoadItems | common/common.go:311-321 | nil data is an error, undecodable data is a parse error, and decodable data gives its items; it never ends the process |
| ItemCache.Store.FetchAndCache | common/common.go:279-289 | one API request; the process ends when the API call fails; with shouldCache the data is written to the path; a write refused at the open returns the error and leaves the file as it was, and a write that fails after the open returns the error and leaves a truncated file holding the first bytes, stamped now; without shouldCache nothing is written |
| ItemCache.Prefix | common/common.go:283 | the bytes a cut-short write leaves: the first n bytes of the data, or all of it when it is shorter |
| ItemCache.FreshFileCached | common/common.go:260-275 | a file written within the last duration seconds is read, not fetched, so a truncated file left by a failed write is what the next call decodes |
| ItemCache.Store.LoadJsonFile | common/common.go:292-308 | a path that cannot be resolved, a missing file and an unreadable file are errors; otherwise the file's bytes |
| ItemCache.Store.LoadItemData | common/common.go:221-276 | shouldCache defaults to true; a read of the file never calls the API or writes; each fetch branch calls the API exactly once, writes only when asked (whole, or truncated when the write fails after the open) and decodes the fetched data only when the write did not fail |
| ItemCache.Store.FetchThenLoad | common/common.go:232-250 | the fetch branches of LoadItemData: fetchAndCache, with its three write outcomes, then loadItems on the fetched data when it was not discarded |
| Catalogue.LookUpItemName | common/common.go:452-459 | the name of the first item with the ID, otherwise "Unknown Item ID <id>" |
| Catalogue.EnergyIn | common/common.go:463-470 | GetEnergy: the energy of the first food whose name matches case-insensitively, otherwise 0 |
| Catalogue.BoostIn | common/common.go:475-482 | GetPetBoostDetails: worth and effect of the first matching boost, otherwise (0, "") |
| Catalogue.CategoryIn | common/common.go:486-493 | GetPetCategory: the category of the first matching pet, otherwise "" |
| Catalogue.InCategory | common/common.go:497-505 | GetPetsByCategory: exactly the pets whose category matches case-insensitively, each drawn from the table |
| Catalogue.InCategoryOrder | common/common.go:499-503 | the matches keep table order: those of a concatenation are the first part's followed by the second's, and one pet is kept exactly when its category matches |
| Catalogue.InCategoryCount | common/common.go:499-503 | each matching pet appears as many times as in the table, every other pet not at all |
| Requests.ParseId | common/common.go:331-338 | strconv.Atoi's value, or "Invalid ID: <arg>" when the argument is not a 64-bit decimal integer |
| Requests.ParseIdRoundTrip | client/client.go:29-36 | every 64-bit integer written in decimal parses back to itself; "", "-" and "+" are refused |
| Requests.FlagValue | leaderboard/commands.go:41-44 | a flag reads its given value, or its declared default when not given |
| Text.AtoiFormatInt | common/common.go:331-338 | strconv.Atoi inverts strconv.FormatInt on 64-bit integers |
| Text.FormatInt | common/common.go:152-156 | a leading '-' exactly for negative n, followed by the decimal digits of \|n\| |
| Text.DigitsRoundTrip | common/common.go:152 | the decimal digits of n read back as n |
| Text.TrimSpace | profile/commands.go:536 | the result neither starts nor ends with white space and is the input with only white space removed before and after it |
| Text.Quote | gamedata/commands.go:91 | the %q text: the argument between double quotes, whose inner text unquotes back to the argument; `"` and `\` are escaped, and ASCII control characters become `\a` … `\v` or `\xNN` |
| Text.QuoteRoundTrip | gamedata/commands.go:91 | unquoting the escaped text gives back the argument, so no quote inside it ends the literal early and distinct arguments give distinct messages |
| Text.ToLower | profile/commands.go:536 | same length, every character lower-cased (ASCII letters) |
| Text.Split | profile/commands.go:535 | at least one piece, none containing the separator |
| Text.JoinSplit | profile/commands.go:535 | joining the pieces of a split with the separator rebuilds the input |
| Text.SplitJoin | profile/commands.go:535 | splitting a join of separator-free pieces gives back the pieces |
| Profile.ParseFilter | profile/commands.go:530-543 | "" gives the empty set; otherwise the set of the trimmed, lower-cased, non-empty comma-separated pieces |
| Profile.FilterOfMembers | profile/commands.go:534-542 | a string is in the filter iff it is non-empty and some piece cleans to it |
| Profile.FilterEntriesClean | profile/commands.go:536-540 | every entry is non-empty, free of commas and upper-case letters, and has no white space at either end |
| Profile.WantedByPiece | profile/commands.go:333-335 | a section is wanted when some filter piece equals its name up to case |
| Profile.FactionHidden | profile/commands.go:353 | the faction section is not rendered for a profile outside any faction, nor under a non-empty filter without "faction" |
| Profile.SortFarmPlots | profile/commands.go:503-523 | the plots end as FarmOrder of the old plots: unchanged for an empty slice or flag, a flag that is not two ':' parts or lacks "farm", and any unknown key |
| Profile.FarmOrderPermutation | profile/commands.go:515-521 | the ordering is always a permutation of the plots |
| Profile.FarmOrderSorted | profile/commands.go:512-522 | "plant"/"item" sorts ascending by item ID and "level" by level, both stably |
| Profile.FarmOrderUnsorted | profile/commands.go:507-510 | a flag without exactly two ':' parts leaves the order |
| Profile.SortedFarmPlots | profile/commands.go:366-367 | a fresh copy is sorted, so the profile's own plots are untouched |
| Sorting.SortInPlace | profile/commands.go:515-521 | sort.SliceStable: the array ends as SortBy of its old contents |
| Sorting.SortByPermutation | profile/commands.go:515-521 | a stable sort is a permutation of its input |
| Sorting.SortBySorted | profile/commands.go:515-521 | a stable sort's output is ascending by the key |
| Sorting.SortByStable | profile/commands.go:515-521 | for each key, the elements with that key keep their input order |
| GameData.FindItem | gamedata/commands.go:75-92 | when the argument parses as an integer, the first item with that ID; otherwise, or when no ID matches, the first item whose name or ID name matches case-insensitively; otherwise `item <Quote(arg)> not found`, the argument written as %q writes it; a found item is in the list |
| GameData.SanitizeEmoji | gamedata/commands.go:95-104 | text that does not start with "<:" and end with ">" is unchanged; otherwise the result is wrapped in ':' |
| GameData.SanitizeCustomEmoji | gamedata/commands.go:97-101 | "<:name:id>" becomes ":name:" |
| Market.NameById | market/commands.go:79-82 | the loop builds NameMap of the items |
| Market.NameMapDomain | market/commands.go:79-82 | the map holds exactly the item IDs |
| Market.NameMapLastWins | market/commands.go:79-82 | an ID maps to the name of the last item with that ID |
| Market.FirstAndLastDiffer | market/commands.go:79-82 | nameByID keeps the last duplicate, while LookUpItemName keeps the first |
| Market.ShownName | market/commands.go:99-102 | overview and item listing: the known non-empty name, otherwise "UNKNOWN(<id>)"; never empty |
| Market.UserListingName | market/commands.go:242-245 | user listing: any known name, even "", and "UNKNOWN(<id>)" only for a missing ID |
| Market.ListingNamesDiffer | market/commands.go:175-178 | the two fallback rules disagree exactly on a known item with an empty name |
| Market.RowOf | market/commands.go:91-103 | a row exactly for keys "item<N>" with N an integer, carrying N, its shown name and the data value |
| Market.BuildRows | market/commands.go:90-104 | the loop collects RowsOf the entries in visiting order |
| Market.RowsOfBound | market/commands.go:90-104 | there are no more rows than data entries |
| Market.RowsOfSound | market/commands.go:91-103 | every row comes from some "item<N>" entry and carries its value |
| Market.RowsOfComplete | market/commands.go:91-103 | every "item<N>" entry yields its row |
| Market.ParseSortOption | market/commands.go:107-116 | "id", "name" and "price" in any case select the field; anything else is the "invalid sort option" error |
| Market.Overview | market/commands.go:90-117 | the rows sorted by the chosen field, or the sort-option error |
| Market.OverviewOrdered | market/commands.go:107-113 | the sorted overview is a permutation of the rows and ascending by the field |
| Pets.ParseSortKey | pet/commands.go:111-132 | "" means no sort; a name in {id, name, species, tier, xp, adventure, items, boost}, in any case, picks that field; anything else is "Invalid sort field: <key>" |
| Pets.ParseSortFieldName | pet/commands.go:113-129 | each field name, in any letter case, selects its field |
| Pets.OrderedProperties | pet/commands.go:111-129 | the order is a permutation, the identity for "", and ascending by the chosen field |
| Pets.SortPets | pet/commands.go:110-133 | an invalid key leaves the pets and reports the error; otherwise the array ends in Ordered order |
| Pets.ParseGroupField | pet/commands.go:143-156 | a field iff the lower-cased key is one of species, tier, boost, adventure, craving |
| Pets.MapKeys | pet/commands.go:162-165 | the collected keys are exactly the map's keys, each once |
| Pets.GroupPets | pet/commands.go:137-171 | an invalid field is an error only when there is a pet; no pets give no groups; otherwise the groups have strictly ascending string keys, exactly the pets' keys, and each holds the pets with that key in input order |
| Pets.GroupingPartition | pet/commands.go:140-159 | group sizes add up to the number of pets |
| Pets.GroupingMembership | pet/commands.go:140-159 | every pet is in exactly one group, the one keyed by its field |
| Pets.GroupingUnique | pet/commands.go:162-171 | the grouping is determined by the pets and the field, whatever order the map yields its keys in |
| Pets.TierKeysAsStrings | pet/commands.go:146-166 | tiers 2 and 10 are grouped as "10" before "2", because the keys compare as strings |
| Pets.Owned | pet/commands.go:110-197 | the sort error first; no group key gives the sorted table; otherwise the grouping of the sorted pets, or the group-field error, which needs a pet; no pets with a group key give no groups, whatever the key |
| Leaderboard.UserPayload | leaderboard/commands.go:40-66 | missing required flags are refused first, then stat-without-stat, then item-without-itemId; otherwise exactly type, lbType and page, plus stat iff non-empty and itemId iff non-zero |
| Leaderboard.FactionPayload | leaderboard/commands.go:76-84 | exactly {type "factionLeaderboard", stat, page} when both required flags are given |
| Leaderboard.PetsPayload | leaderboard/commands.go:94-100 | exactly {type "petsLeaderboard", page} when page is given |
| Logs.IdTypeOf | logs/commands.go:54-64 | "faction" maps to "factionId" and "item" to "itemId", case-sensitively; anything else is the "Invalid ID type" error |
| Logs.BcIdPayload | logs/commands.go:34-42 | exactly {type "richLogsByBcId", id, page}, page defaulting to 1 |
| Logs.IdTypePayload | logs/commands.go:53-73 | the type is checked before the ID; then exactly {type, idType, id, page} |
| Logs.LogTypePayload | logs/commands.go:84-92 | {type, logType, page}, with no id |
| Logs.InputsPayload | logs/commands.go:103-111 | {type, id, date}, with no page |
| Faction.RequestIdType | faction/commands.go:62-70 | "faction" maps to "factionId" and "user" to "bcId", case-sensitively; anything else is the "Invalid type" error |
| Faction.RequestsPayload | faction/commands.go:59-71 | the ID is parsed before the type is checked; then exactly {type "factionJoinRequests", idType, id} |
| Faction.IdPayload | faction/commands.go:26-27 | exactly {type, id}, or the ID error |
| Faction.InfoPayload | faction/commands.go:25-27 | {type "faction", id} |
| Faction.MembersPayload | faction/commands.go:37-39 | {type "factionMembers", id} |
| Faction.RecruitingPayload | faction/commands.go:48-49 | only {type "recruitingFactions"} |

## Left out

- Unit-mode digits of `FormatPrice`: the `float64` division and `FormatFloat` rounding with zero trimming (common/common.go:191-195) are floating point. `FormatPrice` returns the value and the chosen unit instead of the text.
- Clock and timestamps: `time.Now`, `time.Parse` with RFC 3339, and `EpochToISO8601`. Instants are inputs in Unix nanoseconds. An unparseable timestamp is `None`.
- `int64(diff.Seconds())` is modelled as truncating integer division of the nanosecond difference. From 2^24 s (about 194 days) on, the float sum in `Seconds()` can round a remainder of 999999999 ns up to the next whole second, so Go shows one second more than the model; the window of remainders that round up widens as the difference grows. This rounding is not modelled.
- `ItemCache.Choose` compares the age in whole nanoseconds with `duration` seconds. The source compares the float `Seconds()` with `float64(duration)`.
- `filepath.Join` and `filepath.Dir`: a relative name is appended to the executable's directory with "/". `LoadItemData` requires that directory, when known, to be absolute.
- JSON decoding: `json.Unmarshal` is the opaque `decode` function. Payloads are maps of strings and integers, and no serialisation is modelled.
- Network and process I/O: `FetchDataOrExit` is the store's `api` field. A process exit is a result value. The API key lookup and the HTTP request are not part of this model.
- Text.Quote: only the ASCII escapes of `strconv.Quote` are modelled. Go also writes non-printable non-ASCII characters as `\u`/`\U` escapes and invalid UTF-8 bytes as `\x` escapes; the model copies every character from U+0080 up unchanged, and Dafny strings hold no invalid UTF-8.
- Letter case: `strings.ToLower` and `EqualFold` are modelled on ASCII letters only, without Unicode case folding.
- Pet icons: the emoji icon field of each pet type is not part of the catalogue.
- Catalogue boost effects spell the multiplication sign as the character ×.
- cobra's required-flag message: it is modelled as `required flag(s) "a", "b" not set`, listing the missing flags in name order. The message text comes from cobra, not from this repository.
- Printing: tabwriter tables, `PrintJSON`, the `--debug` JSON dumps and the pet table's `EpochToISO8601` column are output only.
- `printItemDetails` does not type-check against `common.Item`, and `itemsCmd` is I/O only. Both are left out.
- search/commands.go and egg/commands.go only pass arguments into payload literals. main.go is cobra wiring.
- `sort.Slice` instability: market and pet rows are sorted stably in the model. Go may order equal keys differently.
- `Market.Overview`: returns the sort-option error without the rows, which the source built before exiting.
