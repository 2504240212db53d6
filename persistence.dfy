/**
 * The series registry of src/persistence.rs: TimeseriesPersistenceManager
 * keeps a map from series name to an open storage handle, discovers series
 * at startup, creates them on demand, and guards the read, write and ad-hoc
 * query paths.
 *
 * The storage engine is outside the model. Where the source calls it, the
 * engine's answer is a parameter: `attempt` is what opening or creating a
 * storage unit yields, `written` what an insert yields, `stored` the rows a
 * range query runs over, `table` what the SQL parser makes of a query.
 * The source opens storage units with create set, which never fails, so
 * the `Err` paths of `attempt` describe an engine that can refuse.
 */
module Persistence {
  import opened Wrappers
  import opened Strings

  /** An open storage unit of one series; what it holds is not modelled. */
  datatype Handle = Handle(id: nat)

  datatype Uuid = Uuid(bits: bv128)

  /** An f64, kept opaque: nothing here computes with it. */
  datatype Float64 = Float64(bits: bv64)

  /** One stored observation; `time` is the key range queries select on (the column the source's query calls `key`). */
  datatype Measurement = Measurement(
    id: Uuid,
    time: int,
    createdAt: int,
    name: string,
    value: Float64,
    tags: map<string, string>)

  datatype StorageError =
    | NoStorage                          // lookup without create found nothing
    | OpenFailed(reason: string)         // the engine could not open or create the storage unit
    | CreateFailed(cause: StorageError)  // check_database could not create the series
    | CheckFailed(cause: StorageError)   // save or range query could not resolve the series
    | WriteFailed(reason: string)        // the engine rejected the insert
    | QueryFailed(reason: string)        // the engine could not run the range query
    | InvalidQuery                       // an ad-hoc query with a mutation keyword
    | ValidatorError(reason: string)     // the SQL parser found no table in the query
    | UnknownTable                       // the query's table is not a registered series

  /** One entry of the base directory: its path, whether it is a directory, and what opening it yields. */
  datatype DirEntry = DirEntry(path: string, isDir: bool, attempt: Result<Handle, string>)

  /** The base path as setup finds it. */
  datatype BaseDir = Missing | NotADirectory | Directory(entries: seq<DirEntry>)

  // ---------------------------------------------------------------------------
  // Series names and paths
  // ---------------------------------------------------------------------------

  /** The storage location check_database gives a new series. */
  function SeriesPath(basepath: string, name: string): string
  {
    basepath + "/" + name
  }

  /** The key load_or_create_database files a handle under: the last '/'-separated segment of its path. */
  function SeriesKey(path: string): string
  {
    var parts := Split(path, '/');
    parts[|parts| - 1]
  }

  /** A series created by name is filed under that name, provided the name holds no '/'. */
  lemma SeriesKeyOfPath(basepath: string, name: string)
    requires '/' !in name
    ensures SeriesKey(SeriesPath(basepath, name)) == name
  {
    assert SeriesPath(basepath, name) == basepath + ['/'] + name;
    SplitAround(basepath, '/', name);
    assert IndexOf(name, '/') == |name|;
  }

  // ---------------------------------------------------------------------------
  // The registry as a function of its map
  // ---------------------------------------------------------------------------

  /** load_or_create_database: file the handle the engine opened under the path's last segment, or fail. */
  function Register(m: map<string, Handle>, path: string, attempt: Result<Handle, string>)
    : (Result<Handle, StorageError>, map<string, Handle>)
  {
    match attempt
    case Ok(h) => (Ok(h), m[SeriesKey(path) := h])
    case Err(e) => (Err(OpenFailed(e)), m)
  }

  /** check_database: the stored handle if the name is known; else create it at basepath/name, if asked to. */
  function Check(m: map<string, Handle>, basepath: string, name: string, create: bool, attempt: Result<Handle, string>)
    : (Result<Handle, StorageError>, map<string, Handle>)
  {
    if name in m then (Ok(m[name]), m)
    else if !create then (Err(NoStorage), m)
    else
      var (r, m') := Register(m, SeriesPath(basepath, name), attempt);
      (if r.Ok? then r else Err(CreateFailed(r.error)), m')
  }

  /** load_persistence: every directory entry registered in turn; failures to open are skipped. */
  function Scan(m: map<string, Handle>, entries: seq<DirEntry>): map<string, Handle>
    decreases |entries|
  {
    if entries == [] then m
    else
      var before := Scan(m, entries[..|entries| - 1]);
      var e := entries[|entries| - 1];
      if e.isDir then Register(before, e.path, e.attempt).1 else before
  }

  /**
   * check_database's cases: a known name yields its handle and changes
   * nothing; an unknown name without create is an error and changes nothing;
   * with create, a failed open is an error and changes nothing, and a
   * successful one adds exactly that name (when it holds no '/'), leaving
   * every other entry as it was. No entry is ever removed.
   */
  lemma CheckCases(m: map<string, Handle>, basepath: string, name: string, create: bool, attempt: Result<Handle, string>)
    ensures m.Keys <= Check(m, basepath, name, create, attempt).1.Keys
    ensures name in m ==> Check(m, basepath, name, create, attempt) == (Ok(m[name]), m)
    ensures name !in m && !create ==> Check(m, basepath, name, create, attempt) == (Err(NoStorage), m)
    ensures name !in m && create && attempt.Err? ==>
      Check(m, basepath, name, create, attempt) == (Err(CreateFailed(OpenFailed(attempt.error))), m)
    ensures name !in m && create && attempt.Ok? && '/' !in name ==>
      Check(m, basepath, name, create, attempt) == (Ok(attempt.value), m[name := attempt.value])
  {
    if name !in m && create && attempt.Ok? && '/' !in name {
      SeriesKeyOfPath(basepath, name);
    }
  }

  /** Once check_database resolves a name without '/', the registry holds that name with the returned handle. */
  lemma ResolvedIsRegistered(m: map<string, Handle>, basepath: string, name: string, create: bool, attempt: Result<Handle, string>)
    requires '/' !in name
    requires Check(m, basepath, name, create, attempt).0.Ok?
    ensures name in Check(m, basepath, name, create, attempt).1
    ensures Check(m, basepath, name, create, attempt).1[name] == Check(m, basepath, name, create, attempt).0.value
  {
    CheckCases(m, basepath, name, create, attempt);
  }

  /** What a step run under the registry's lock does: it returns, or it waits forever for a lock held by its own caller. */
  datatype Locked<T> = Blocks | Returns(value: T)

  /**
   * load_or_create_database when its caller may hold the registry's lock:
   * the engine is asked first, without the lock; filing a handle then takes
   * the lock, which never comes free when the caller holds it.
   */
  function RegisterWhileHeld(m: map<string, Handle>, path: string, attempt: Result<Handle, string>, held: bool)
    : Locked<(Result<Handle, StorageError>, map<string, Handle>)>
  {
    match attempt
    case Err(e) => Returns((Err(OpenFailed(e)), m))
    case Ok(_) => if held then Blocks else Returns(Register(m, path, attempt))
  }

  /**
   * check_database as written: the lock guard taken for the lookup is a
   * temporary of the `match` scrutinee, so it is held until the whole match
   * ends, including the create path.
   */
  function CheckAsWritten(m: map<string, Handle>, basepath: string, name: string, create: bool, attempt: Result<Handle, string>)
    : Locked<(Result<Handle, StorageError>, map<string, Handle>)>
  {
    if name in m then Returns((Ok(m[name]), m))
    else if !create then Returns((Err(NoStorage), m))
    else
      match RegisterWhileHeld(m, SeriesPath(basepath, name), attempt, true)
      case Blocks => Blocks
      case Returns((r, m')) => Returns((if r.Ok? then r else Err(CreateFailed(r.error)), m'))
  }

  /**
   * As written, creating a series whose storage opens never returns, where
   * the intended check_database (Check) registers it; on every other path
   * the two agree.
   */
  lemma CreateBlocksAsWritten(m: map<string, Handle>, basepath: string, name: string, create: bool, attempt: Result<Handle, string>)
    ensures name !in m && create && attempt.Ok? ==>
      && CheckAsWritten(m, basepath, name, create, attempt) == Blocks
      && Check(m, basepath, name, create, attempt).0 == Ok(attempt.value)
    ensures !(name !in m && create && attempt.Ok?) ==>
      CheckAsWritten(m, basepath, name, create, attempt) == Returns(Check(m, basepath, name, create, attempt))
  {
  }

  /** The startup scan registers exactly the last path segments of the directories that opened. */
  lemma {:induction false} ScanKeys(m: map<string, Handle>, entries: seq<DirEntry>)
    ensures Scan(m, entries).Keys
         == m.Keys + (set e | e in entries && e.isDir && e.attempt.Ok? :: SeriesKey(e.path))
    decreases |entries|
  {
    if entries != [] {
      var prefix := entries[..|entries| - 1];
      var e := entries[|entries| - 1];
      ScanKeys(m, prefix);
      assert entries == prefix + [e];
      assert (set x | x in entries && x.isDir && x.attempt.Ok? :: SeriesKey(x.path))
          == (set x | x in prefix && x.isDir && x.attempt.Ok? :: SeriesKey(x.path))
           + (if e.isDir && e.attempt.Ok? then {SeriesKey(e.path)} else {});
    }
  }

  // ---------------------------------------------------------------------------
  // Read path and query guard
  // ---------------------------------------------------------------------------

  /** The selection of get_measurement_range: keys between start and end, both bounds included. */
  function SelectRange(rows: seq<Measurement>, start: int, end: int): (r: seq<Measurement>)
    ensures forall m :: m in r <==> m in rows && start <= m.time <= end
    ensures |r| <= |rows|
    decreases |rows|
  {
    if rows == [] then []
    else
      var rest := SelectRange(rows[..|rows| - 1], start, end);
      var last := rows[|rows| - 1];
      assert rows == rows[..|rows| - 1] + [last];
      if start <= last.time <= end then rest + [last] else rest
  }

  const MutationKeywords: seq<string> := ["INSERT", "DELETE", "UPDATE", "DROP", "CREATE"]

  /**
   * `char::to_uppercase` where it maps one character to one: ASCII letters,
   * and the two non-ASCII letters whose capital is an ASCII letter
   * (dotless i to I, long s to S).
   */
  function UpperChar(c: char): char
  {
    if 'a' <= c <= 'z' then ((c as int) - 32) as char
    else if c == '\U{0131}' then 'I'
    else if c == '\U{017F}' then 'S'
    else c
  }

  function ToUpper(s: string): (u: string)
    ensures |u| == |s|
  {
    seq(|s|, i requires 0 <= i < |s| => UpperChar(s[i]))
  }

  predicate OccursAt(s: string, sub: string, i: int) {
    0 <= i && i + |sub| <= |s| && s[i..i + |sub|] == sub
  }

  /** `str::contains`: sub occurs somewhere in s. */
  function Contains(s: string, sub: string): (b: bool)
    ensures b <==> exists i :: OccursAt(s, sub, i)
    decreases |s|
  {
    if |s| < |sub| then false
    else if s[..|sub|] == sub then
      assert OccursAt(s, sub, 0);
      true
    else
      assert forall i :: OccursAt(s, sub, i + 1) <==> OccursAt(s[1..], sub, i);
      assert !OccursAt(s, sub, 0);
      assert forall i :: OccursAt(s, sub, i) ==> OccursAt(s[1..], sub, i - 1);
      Contains(s[1..], sub)
  }

  /** The guard of query_measurements: the upper-cased query contains a mutation keyword. */
  function IsMutationQuery(query: string): (b: bool)
    ensures b <==> exists kw, i :: kw in MutationKeywords && OccursAt(ToUpper(query), kw, i)
  {
    var u := ToUpper(query);
    Contains(u, "INSERT") || Contains(u, "DELETE") || Contains(u, "UPDATE")
    || Contains(u, "DROP") || Contains(u, "CREATE")
  }

  /** A keyword written in any letter case anywhere in the query trips the guard. */
  lemma KeywordInAnyCase(query: string, kw: string, i: int)
    requires kw in MutationKeywords
    requires 0 <= i && i + |kw| <= |query|
    requires ToUpper(query[i..i + |kw|]) == kw
    ensures IsMutationQuery(query)
  {
    assert ToUpper(query)[i..i + |kw|] == ToUpper(query[i..i + |kw|]);
    assert OccursAt(ToUpper(query), kw, i);
  }

  // ---------------------------------------------------------------------------
  // The manager
  // ---------------------------------------------------------------------------

  class TimeseriesPersistenceManager {
    const basepath: string
    var storages: map<string, Handle>

    /** `new`: an empty registry at basepath, then `setup`. */
    constructor (basepath: string, base: BaseDir)
      ensures this.basepath == basepath
      ensures storages == if base.Directory? then Scan(map[], base.entries) else map[]
    {
      this.basepath := basepath;
      storages := map[];
      new;
      var createdDir := Setup(base);
    }

    /** `list_timeseries`: every registered name, each once. */
    method ListTimeseries() returns (names: seq<string>)
      ensures forall n :: n in names <==> n in storages
      ensures forall i, j :: 0 <= i < j < |names| ==> names[i] != names[j]
    {
      names := [];
      var rest := storages.Keys;
      while rest != {}
        invariant rest <= storages.Keys
        invariant forall n :: n in names <==> n in storages && n !in rest
        invariant forall i, j :: 0 <= i < j < |names| ==> names[i] != names[j]
        decreases |rest|
      {
        var n :| n in rest;
        names := names + [n];
        rest := rest - {n};
      }
    }

    /** `timeseries_exists`: whether the name is registered. */
    function TimeseriesExists(name: string): (b: bool)
      reads this
      ensures b <==> name in storages
    {
      name in storages
    }

    /** `load_or_create_database`: file the opened handle under the last segment of the path. */
    method LoadOrCreateDatabase(path: string, attempt: Result<Handle, string>) returns (r: Result<Handle, StorageError>)
      modifies this
      ensures (r, storages) == Register(old(storages), path, attempt)
    {
      match attempt {
        case Ok(pfm) =>
          storages := storages[SeriesKey(path) := pfm];
          return Ok(pfm);
        case Err(e) =>
          return Err(OpenFailed(e));
      }
    }

    /** `check_database`: look the name up; if absent and asked to, create it at basepath/name. */
    method CheckDatabase(name: string, createIfNotExists: bool, attempt: Result<Handle, string>)
      returns (r: Result<Handle, StorageError>)
      modifies this
      ensures (r, storages) == Check(old(storages), basepath, name, createIfNotExists, attempt)
    {
      if name in storages {
        return Ok(storages[name]);
      }
      if createIfNotExists {
        var d := LoadOrCreateDatabase(SeriesPath(basepath, name), attempt);
        match d {
          case Ok(h) => return Ok(h);
          case Err(e) => return Err(CreateFailed(e));
        }
      }
      return Err(NoStorage);
    }

    /**
     * `save_measurement`: resolve the series (creating it if asked), then
     * insert one row stamped with the clock's reading `nowMillis` as both
     * its time and its creation time.
     */
    method SaveMeasurement(
      seriesName: string, name: string, value: Float64, tags: map<string, string>, createDatabase: bool,
      attempt: Result<Handle, string>, id: Uuid, nowMillis: int, written: Outcome<string>)
      returns (r: Result<Measurement, StorageError>)
      modifies this
      ensures storages == Check(old(storages), basepath, seriesName, createDatabase, attempt).1
      ensures var resolved := Check(old(storages), basepath, seriesName, createDatabase, attempt).0;
        && (resolved.Err? ==> r == Err(CheckFailed(resolved.error)))
        && (resolved.Ok? && written.Fail? ==> r == Err(WriteFailed(written.error)))
        && (resolved.Ok? && written.Pass? ==> r == Ok(Measurement(id, nowMillis, nowMillis, name, value, tags)))
    {
      var dbe := CheckDatabase(seriesName, createDatabase, attempt);
      match dbe {
        case Err(e) =>
          return Err(CheckFailed(e));
        case Ok(_) =>
          match written {
            case Pass =>
              return Ok(Measurement(id, nowMillis, nowMillis, name, value, tags));
            case Fail(e) =>
              return Err(WriteFailed(e));
          }
      }
    }

    /**
     * The dispatch of `query_measurements`: reject a query carrying a
     * mutation keyword before anything else, then find the series of the
     * table the SQL parser names. The result is the handle the query runs on.
     */
    function QueryMeasurements(query: string, table: Result<string, string>): (r: Result<Handle, StorageError>)
      reads this
      ensures IsMutationQuery(query) ==> r == Err(InvalidQuery)
      ensures r.Ok? <==> !IsMutationQuery(query) && table.Ok? && table.value in storages
      ensures r.Ok? ==> r.value == storages[table.value]
    {
      if IsMutationQuery(query) then Err(InvalidQuery)
      else
        match table
        case Err(e) => Err(ValidatorError(e))
        case Ok(t) => if t in storages then Ok(storages[t]) else Err(UnknownTable)
    }

    /**
     * `get_measurement_range`: resolve the series without creating it, then
     * select the rows whose key lies in [startKey, endKey].
     */
    method GetMeasurementRange(seriesName: string, startKey: int, endKey: int, stored: Result<seq<Measurement>, string>)
      returns (r: Result<seq<Measurement>, StorageError>)
      modifies this
      ensures storages == old(storages)
      ensures seriesName !in storages ==> r == Err(CheckFailed(NoStorage))
      ensures seriesName in storages && stored.Ok? ==> r == Ok(SelectRange(stored.value, startKey, endKey))
      ensures seriesName in storages && stored.Err? ==> r == Err(QueryFailed(stored.error))
    {
      // never creates: the engine's answer to an open is not consulted
      var db := CheckDatabase(seriesName, false, Err(""));
      match db {
        case Err(e) =>
          return Err(CheckFailed(e));
        case Ok(_) =>
          match stored {
            case Ok(rows) => return Ok(SelectRange(rows, startKey, endKey));
            case Err(e) => return Err(QueryFailed(e));
          }
      }
    }

    /** `load_persistence`: register every directory under the base path; one that fails to open is skipped. */
    method LoadPersistence(base: BaseDir)
      modifies this
      ensures storages == if base.Directory? then Scan(old(storages), base.entries) else old(storages)
    {
      if base.Directory? {
        var entries := base.entries;
        var i := 0;
        while i < |entries|
          invariant 0 <= i <= |entries|
          invariant storages == Scan(old(storages), entries[..i])
        {
          assert entries[..i + 1][..i] == entries[..i];
          var entry := entries[i];
          if entry.isDir {
            var loaded := LoadOrCreateDatabase(entry.path, entry.attempt);
          }
          i := i + 1;
        }
        assert entries[..i] == entries;
      }
    }

    /** `setup`: create a missing base path and stop; otherwise load what is there. */
    method Setup(base: BaseDir) returns (createdDir: bool)
      modifies this
      ensures createdDir <==> base.Missing?
      ensures storages == if base.Directory? then Scan(old(storages), base.entries) else old(storages)
    {
      if base.Missing? {
        return true;
      }
      LoadPersistence(base);
      return false;
    }
  }
}
