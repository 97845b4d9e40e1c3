/**
 * The item-data cache of common/common.go (LoadItemData, fetchAndCache,
 * loadJSONFile, loadItems): the item table is read from a local JSON file
 * when that file is younger than a freshness duration, and fetched from the
 * API (and optionally written back to the file) otherwise.
 *
 * The file system, the clock and the API are the fields of a Store: a map
 * from path to contents and modification time, the sets of paths whose
 * stat, write open or read fails, the paths whose write is cut short after
 * some bytes, the current time in Unix nanoseconds, and the
 * API's answer (None when FetchDataOrExit would end the process). JSON
 * decoding is the opaque function `decode`.
 */
module ItemCache {
  import opened Wrappers
  import opened Catalogue
  import Duration

  newtype byte = b: int | 0 <= b < 256

  type Bytes = seq<byte>

  const NanosPerSecond := 1_000_000_000

  datatype FileEntry = FileEntry(data: Bytes, modTime: int)

  /** What os.Stat reports for a path. */
  datatype Stat = NotExist | StatError | Info(modTime: int)

  datatype Failure =
    | ResolveFailed
    | WriteFailed(path: string)
    | FileMissing(path: string)
    | ReadFailed(path: string)
    | NilData
    | ParseFailed

  /** A result, an error returned to the caller, or the end of the process
      (os.Exit in the stat branch or inside FetchDataOrExit). */
  datatype Outcome<T> = Done(value: T) | Failed(why: Failure) | Exited

  /** Where LoadItemData takes the item data from. */
  datatype Source = Remote | Cached | Exit

  /** The freshness rule: fetch when the duration is 0, when the file does
      not exist, or when it is older than `duration` seconds; end the
      process when stat fails otherwise; read the file in every other case. */
  function Choose(duration: int, stat: Stat, now: int): (c: Source)
    ensures c == Cached <==> duration != 0 && stat.Info? && Duration.Sub(now, stat.modTime) <= duration * NanosPerSecond
    ensures c == Exit <==> duration != 0 && stat.StatError?
  {
    if duration == 0 then Remote
    else match stat
      case NotExist => Remote
      case StatError => Exit
      case Info(m) => if Duration.Sub(now, m) > duration * NanosPerSecond then Remote else Cached
  }

  /** Raising the duration or moving the clock back never turns a cached
      read into a fetch. */
  lemma CachedMonotone(d1: int, d2: int, stat: Stat, n1: int, n2: int)
    requires 0 < d1 <= d2 && n2 <= n1
    requires Choose(d1, stat, n1) == Cached
    ensures Choose(d2, stat, n2) == Cached
  {
    assert d1 * NanosPerSecond <= d2 * NanosPerSecond;
    if stat.Info? {
      Duration.SubMonotone(n2, n1, stat.modTime, stat.modTime);
    }
  }

  /** The first n bytes of data (all of it when it is shorter). */
  function Prefix(data: Bytes, n: nat): (r: Bytes)
    ensures |r| <= |data| && |r| <= n && r == data[..|r|]
    ensures n < |data| ==> |r| == n
    ensures n >= |data| ==> r == data
  {
    if n < |data| then data[..n] else data
  }

  /** A file written just now is read, not fetched, by the next call with a
      positive duration: a write cut short leaves a fresh truncated file
      that is then decoded instead of the API's answer. */
  lemma FreshFileCached(duration: int, written: int, now: int)
    requires duration > 0 && written <= now && now - written <= duration * NanosPerSecond
    ensures Choose(duration, Info(written), now) == Cached
  {
  }

  predicate IsAbs(path: string) { |path| > 0 && path[0] == '/' }

  class Store {
    var files: map<string, FileEntry>
    var statBroken: set<string>
    /** Paths whose os.WriteFile fails at the open: the file is untouched. */
    var unwritable: set<string>
    /** Paths whose os.WriteFile opens (and truncates) the file but fails
        after writing that many bytes. */
    var writeCut: map<string, nat>
    var unreadable: set<string>
    var now: int
    var api: Option<Bytes>
    /** How many requests were sent to the API. */
    var fetches: nat
    /** The directory of the executable (None when os.Executable fails). */
    const exeDir: Option<string>
    const decode: Bytes -> Option<seq<Item>>

    constructor(files: map<string, FileEntry>, statBroken: set<string>, unwritable: set<string>,
                writeCut: map<string, nat>, unreadable: set<string>, now: int, api: Option<Bytes>, exeDir: Option<string>,
                decode: Bytes -> Option<seq<Item>>)
      ensures this.files == files && this.statBroken == statBroken && this.unwritable == unwritable
      ensures this.writeCut == writeCut
      ensures this.unreadable == unreadable && this.now == now && this.api == api && this.fetches == 0
      ensures this.exeDir == exeDir && this.decode == decode
    {
      this.files := files;
      this.statBroken := statBroken;
      this.unwritable := unwritable;
      this.writeCut := writeCut;
      this.unreadable := unreadable;
      this.now := now;
      this.api := api;
      this.fetches := 0;
      this.exeDir := exeDir;
      this.decode := decode;
    }

    /** resolveFilePath: an absolute name as is, otherwise relative to the
        executable's directory. */
    function Resolve(filename: string): (r: Option<string>)
      ensures IsAbs(filename) ==> r == Some(filename)
      ensures !IsAbs(filename) && exeDir.None? ==> r.None?
      ensures r.Some? && exeDir.Some? && IsAbs(exeDir.value) ==> IsAbs(r.value)
    {
      if IsAbs(filename) then Some(filename)
      else if exeDir.None? then None
      else Some(exeDir.value + "/" + filename)
    }

    function StatOf(path: string): Stat
      reads this
    {
      if path in statBroken then StatError
      else if path in files then Info(files[path].modTime)
      else NotExist
    }

    /** loadItems: nil data is an error, and so is data that does not
        decode. */
    function LoadItems(jsondata: Option<Bytes>): (r: Outcome<seq<Item>>)
      ensures jsondata.None? ==> r == Failed(NilData)
      ensures jsondata.Some? && decode(jsondata.value).None? ==> r == Failed(ParseFailed)
      ensures jsondata.Some? && decode(jsondata.value).Some? ==> r == Done(decode(jsondata.value).value)
      ensures !r.Exited?
    {
      if jsondata.None? then Failed(NilData)
      else match decode(jsondata.value)
        case None => Failed(ParseFailed)
        case Some(items) => Done(items)
    }

    /** fetchAndCache: one request to the API; with shouldCache the answer
        is written to the path, and a failed write discards it. A write
        that fails after the open leaves the truncated file behind. */
    method FetchAndCache(path: string, shouldCache: bool) returns (r: Outcome<Bytes>)
      modifies this
      ensures fetches == old(fetches) + 1
      ensures old(api).None? ==> r == Exited && files == old(files)
      ensures old(api).Some? && shouldCache && path in unwritable ==> r == Failed(WriteFailed(path)) && files == old(files)
      ensures old(api).Some? && shouldCache && path !in unwritable && path in writeCut ==>
        r == Failed(WriteFailed(path)) && files == old(files)[path := FileEntry(Prefix(old(api).value, writeCut[path]), now)]
      ensures old(api).Some? && shouldCache && path !in unwritable && path !in writeCut ==>
        r == Done(old(api).value) && files == old(files)[path := FileEntry(old(api).value, now)]
      ensures old(api).Some? && !shouldCache ==> r == Done(old(api).value) && files == old(files)
      ensures statBroken == old(statBroken) && unwritable == old(unwritable) && unreadable == old(unreadable)
      ensures writeCut == old(writeCut)
      ensures now == old(now) && api == old(api)
    {
      fetches := fetches + 1;
      if api.None? {
        return Exited;
      }
      var data := api.value;
      if shouldCache {
        if path in unwritable {
          return Failed(WriteFailed(path));
        }
        if path in writeCut {
          files := files[path := FileEntry(Prefix(data, writeCut[path]), now)];
          return Failed(WriteFailed(path));
        }
        files := files[path := FileEntry(data, now)];
      }
      return Done(data);
    }

    /** loadJSONFile: a missing file and an unreadable file are errors. */
    method LoadJsonFile(filename: string) returns (r: Outcome<Bytes>)
      ensures Resolve(filename).None? ==> r == Failed(ResolveFailed)
      ensures Resolve(filename).Some? && StatOf(Resolve(filename).value) == NotExist ==>
        r == Failed(FileMissing(Resolve(filename).value))
      ensures Resolve(filename).Some? && StatOf(Resolve(filename).value) != NotExist ==>
        var p := Resolve(filename).value;
        r == if p in unreadable || p !in files then Failed(ReadFailed(p)) else Done(files[p].data)
    {
      var path := Resolve(filename);
      if path.None? {
        return Failed(ResolveFailed);
      }
      var p := path.value;
      if StatOf(p) == NotExist {
        return Failed(FileMissing(p));
      }
      if p in unreadable || p !in files {
        return Failed(ReadFailed(p));
      }
      return Done(files[p].data);
    }

    /** LoadItemData(filename, duration, cache...): shouldCache is the first
        optional argument and defaults to true. */
    method LoadItemData(filename: string, duration: int, cache: seq<bool>) returns (r: Outcome<seq<Item>>)
      requires exeDir.Some? ==> IsAbs(exeDir.value)
      modifies this
      ensures Resolve(filename).None? ==> r == Failed(ResolveFailed) && files == old(files) && fetches == old(fetches)
      ensures Resolve(filename).Some? ==>
        var p := Resolve(filename).value;
        var should := |cache| == 0 || cache[0];
        match Choose(duration, old(StatOf(p)), old(now))
        case Exit => r == Exited && files == old(files) && fetches == old(fetches)
        case Cached =>
          && fetches == old(fetches) && files == old(files)
          && r == (if p in unreadable then Failed(ReadFailed(p)) else LoadItems(Some(files[p].data)))
        case Remote =>
          && fetches == old(fetches) + 1
          && (old(api).None? ==> r == Exited)
          && (old(api).Some? && should && p in unwritable ==> r == Failed(WriteFailed(p)) && files == old(files))
          && (old(api).Some? && should && p !in unwritable && p in writeCut ==>
                r == Failed(WriteFailed(p)) && files == old(files)[p := FileEntry(Prefix(old(api).value, writeCut[p]), now)])
          && (old(api).Some? && should && p !in unwritable && p !in writeCut ==>
                files == old(files)[p := FileEntry(old(api).value, now)])
          && (old(api).Some? && !should ==> files == old(files))
          && (old(api).Some? && (!should || (p !in unwritable && p !in writeCut)) ==> r == LoadItems(old(api)))
      ensures statBroken == old(statBroken) && unwritable == old(unwritable) && unreadable == old(unreadable)
      ensures writeCut == old(writeCut)
      ensures now == old(now) && api == old(api)
    {
      var shouldCache := true;
      if |cache| > 0 {
        shouldCache := cache[0];
      }
      var path := Resolve(filename);
      if path.None? {
        return Failed(ResolveFailed);
      }
      var p := path.value;
      if duration == 0 {
        r := FetchThenLoad(p, shouldCache);
        return;
      }
      var stat := StatOf(p);
      if stat == NotExist {
        r := FetchThenLoad(p, shouldCache);
        return;
      }
      if stat == StatError {
        return Exited;
      }
      if Duration.Sub(now, stat.modTime) > duration * NanosPerSecond {
        r := FetchThenLoad(p, shouldCache);
        return;
      }
      var data := LoadJsonFile(p);
      match data
      case Done(bytes) => r := LoadItems(Some(bytes));
      case Failed(why) => r := Failed(why);
      case Exited => r := Exited;
    }

    /** The three fetching branches of LoadItemData: fetchAndCache, then
        loadItems on its data. */
    method FetchThenLoad(p: string, shouldCache: bool) returns (r: Outcome<seq<Item>>)
      modifies this
      ensures fetches == old(fetches) + 1
      ensures old(api).None? ==> r == Exited && files == old(files)
      ensures old(api).Some? && shouldCache && p in unwritable ==> r == Failed(WriteFailed(p)) && files == old(files)
      ensures old(api).Some? && shouldCache && p !in unwritable && p in writeCut ==>
        r == Failed(WriteFailed(p)) && files == old(files)[p := FileEntry(Prefix(old(api).value, writeCut[p]), now)]
      ensures old(api).Some? && shouldCache && p !in unwritable && p !in writeCut ==> files == old(files)[p := FileEntry(old(api).value, now)]
      ensures old(api).Some? && !shouldCache ==> files == old(files)
      ensures old(api).Some? && (!shouldCache || (p !in unwritable && p !in writeCut)) ==> r == LoadItems(old(api))
      ensures statBroken == old(statBroken) && unwritable == old(unwritable) && unreadable == old(unreadable)
      ensures writeCut == old(writeCut)
      ensures now == old(now) && api == old(api)
    {
      var data := FetchAndCache(p, shouldCache);
      match data
      case Done(bytes) => r := LoadItems(Some(bytes));
      case Failed(why) => r := Failed(why);
      case Exited => r := Exited;
    }
  }
}
