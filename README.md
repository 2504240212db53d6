# refluxdb core: line protocol and series registry

This project models the two core components of refluxdb, a small time-series
store written in Rust, and proves properties of that model:

- **The line protocol** (`src/protocol.rs`). `LineProtocol` is a mutable record
  made of a measurement name, a tag map, a field map and an i64 timestamp. It is
  filled by `tag`/`field` and by `parse`, and written back by `serialize`, in the
  un-escaped subset
  `<name>[,<tag>=<value>...] <field>=<value>[,<field>=<value>...] <timestamp>`.
  Module `Protocol` states the codec as functions on values: `ParseLine`,
  `Render` and `SerializeRecord`. It proves:
  - the round trip `serialize(parse(line)) == line` for every well-formed line;
  - what parse accepts and rejects.
  
  The class `Protocol.LineProtocol` keeps the source's step-by-step
  construction. Its methods are proved against those functions.
- **The series registry** (`src/persistence.rs`). `TimeseriesPersistenceManager`
  maps series names to open storage handles. It:
  - discovers series at startup;
  - creates them on demand in `check_database`;
  - resolves the series for writes and range reads;
  - rejects ad-hoc SQL that contains a mutation keyword.
  
  Module `Persistence` states the registry's behaviour as functions of its
  map (`Register`, `Check`, `Scan`). The class
  `Persistence.TimeseriesPersistenceManager` is proved against them.

Supporting modules:
- `Strings`: `split_whitespace`, `split`, `split_once` and `join`, with their
  algebra.
- `Int64Text`: i64 `Display` and `FromStr`, with `parse(format(n)) == n`.
- `Pairs`: `HashMap` as an insertion-ordered sequence of entries with
  distinct keys.
- `Wrappers`: `Option`, `Result` and `Outcome`.

Modelling decisions that a reader should know:

- The tag and field maps are insertion-ordered. Rust's `HashMap` fixes no
  iteration order, so the source's round trip holds only up to order.
  `RoundTripAnyOrder` proves what survives for any order. `SwappedTagsChangeLine`
  shows that order is visible in the line (see Findings).
- The storage engine is never modelled. Where the source asks it for something,
  its answer is a parameter:
  - `attempt`: the outcome of opening or creating a `ParquetFileManager`;
  - `written`: the outcome of the insert;
  - `stored`: the rows a range query runs over;
  - `table`: the table name the SQL parser extracts.
  
  Clock readings (`now`, `nowMillis`) and the new row's `Uuid` are parameters
  too.
- `load_or_create_database` calls `ParquetFileManager::new` with create set, and
  that call never returns an error: a failed load falls through to `Ok`
  (`src/utils/filemanager.rs:192-202`). So in the source `attempt` is always
  `Ok`. The `Err` paths of the model (`OpenFailed`, `CreateFailed`, and the
  entries `Scan` skips) cannot occur there, and every create in
  `check_database` as written reaches the second lock (see Findings).
- `load_or_create_database` files a handle under the last `/`-separated
  segment of its path. So `check_database` (once its lock is released, as
  `Check` models it) files a series name that contains `/` under that name's
  last segment. If a series is already filed under that segment, its handle is
  replaced by the new one. `CheckCases` states the plain-name case, and `Check`
  keeps the general one.
- `parse` accepts a field token that holds no `key=value` pair and returns a
  record without fields, which `serialize` then rejects (`ParseAcceptsNoFields`).
  The code has no separate "no fields" error at parse time, and the model
  follows the code.
- A third token that is not an i64 makes the source panic in `unwrap`. Here it
  is the error `MalformedTimestamp`.

## Model

| member | source | states |
|---|---|---|
| Protocol.LineProtocol.Default | src/protocol.rs:12-21 | the default record has name "_", no tags, no fields and the clock's reading as its timestamp, and is valid |
| Protocol.LineProtocol.New | src/protocol.rs:24-32 | a new record has the given name, no tags or fields and the clock's reading, and is valid |
| Protocol.LineProtocol.Tag | src/protocol.rs:34-38 | a tag is inserted (or its value replaced) only when key and value are non-empty; fields, name and timestamp are unchanged; validity is kept |
| Protocol.LineProtocol.Field | src/protocol.rs:40-44 | a field is inserted (or replaced) only when key and value are non-empty; the rest is unchanged; validity is kept |
| Protocol.GuardedInsertStored | src/protocol.rs:34-44 | the guard of tag/field keeps keys distinct and never stores an empty key or value |
| Pairs.InsertLookup | src/protocol.rs:36 | HashMap::insert: afterwards the key maps to the new value, every other key keeps its value, keys stay distinct, and the size grows only for a new key |
| Protocol.LineProtocol.Serialize | src/protocol.rs:46-73 | the buffer built by the loops equals SerializeRecord of the record: an error "No FieldKey set" without fields, else name, tags, fields and timestamp in the protocol's layout |
| Int64Text.FormatI64 | src/protocol.rs:70 | i64 Display yields one non-empty token without whitespace, ',' or '=' |
| Int64Text.ParseFormat | src/protocol.rs:136 | FromStr for i64 reads back every i64 that Display writes |
| Int64Text.ParseI64 | src/protocol.rs:136 | FromStr for i64 only ever yields values in the i64 range |
| Protocol.LineProtocol.Parse | src/protocol.rs:79-144 | parse fails exactly as ParseLine does and otherwise returns a fresh, valid record equal to ParseLine's |
| Protocol.ParseErrors | src/protocol.rs:79-142 | the line is rejected as empty, broken, without field key or without timestamp exactly when it is empty or has 0, 1 or 2 tokens; with 3 or more tokens it fails exactly when the third is no i64, and then with MalformedTimestamp (the source's panic) |
| Protocol.ParsedLookup | src/protocol.rs:87-143 | in an accepted line, each tag key holds the value of its last `k=v` among the ','-pieces of the first token after the name, each field key that of its last `k=v` among the ','-pieces of the second token, and the timestamp is the third token's i64 value |
| Protocol.ParsedRecord | src/protocol.rs:89-127 | a parsed name is the first token up to its first ','; parsed tags and fields have distinct non-empty keys without whitespace, ',' or '=' and non-empty values without whitespace or ','; the timestamp is an i64 |
| Protocol.SegmentsIsSplit | src/protocol.rs:92-98 | the special case for a token without ',' gives the same segments as str::split |
| Protocol.AddSegmentsLookup | src/protocol.rs:100-127 | after the tag or field loop each key holds the value of its last `k=v` segment with non-empty k and v; segments without '=' or with an empty side are dropped |
| Protocol.LineProtocol.AddTags | src/protocol.rs:100-105 | the tag loop leaves exactly the tags of AddSegments over the segments after the name, and touches nothing else |
| Protocol.LineProtocol.AddFields | src/protocol.rs:122-127 | the field loop leaves exactly the fields of AddSegments over the field segments, and touches nothing else |
| Protocol.ExtraTokensIgnored | src/protocol.rs:133-143 | tokens after the timestamp do not change the result |
| Protocol.ParseAcceptsNoFields | src/protocol.rs:113-127 | a field token without any `k=v` is accepted and gives a record with no fields, which serialize rejects with "No FieldKey set" |
| Protocol.RoundTrip | src/protocol.rs:46-144 | parsing the serialization of a writable record gives back that record |
| Protocol.LineRoundTrip | src/protocol.rs:151-185 | serialize(parse(line)) == line for every well-formed line, as the unit tests assert |
| Protocol.RoundTripAnyOrder | src/protocol.rs:49-51 | whatever order serialize visits the maps in, parsing its line yields the same name, timestamp, tags and fields |
| Protocol.SwappedTagsChangeLine | src/protocol.rs:161-167 | two tags written in the other order give a different line |
| Strings.Words | src/protocol.rs:87 | split_whitespace yields non-empty tokens without whitespace |
| Strings.WordsAroundSpace | src/protocol.rs:87 | a whitespace character separates the tokens on its two sides |
| Strings.SplitJoin | src/protocol.rs:94 | splitting at ',' a join of pieces without ',' gives back the pieces |
| Strings.SplitOnceAt | src/protocol.rs:101 | split_once at '=' of `k=v`, with k free of '=', gives (k, v) |
| Persistence.TimeseriesPersistenceManager.constructor | src/persistence.rs:301-309 | a new manager has the base path and holds what setup loads from an existing directory, else nothing |
| Persistence.TimeseriesPersistenceManager.ListTimeseries | src/persistence.rs:54-63 | the list holds every registered series name exactly once and nothing else |
| Persistence.TimeseriesPersistenceManager.TimeseriesExists | src/persistence.rs:77-79 | true exactly when the name is registered |
| Persistence.TimeseriesPersistenceManager.CheckDatabase | src/persistence.rs:81-106 | the result and new registry are those of Check |
| Persistence.CheckCases | src/persistence.rs:81-106 | a known name gives its handle and changes nothing; an unknown name without create gives "No storage found" and changes nothing; a failed create changes nothing; a successful one, for a name without '/', adds exactly that name; no entry is ever removed |
| Persistence.ResolvedIsRegistered | src/persistence.rs:81-106 | once a plain name resolves, it is registered with the returned handle |
| Persistence.SeriesKeyOfPath | src/persistence.rs:257 | a series created by a name without '/' is filed under that name |
| Persistence.TimeseriesPersistenceManager.LoadOrCreateDatabase | src/persistence.rs:253-269 | the result and new registry are those of Register: on success the handle is filed under the last path segment, on failure nothing changes |
| Persistence.TimeseriesPersistenceManager.SaveMeasurement | src/persistence.rs:108-162 | the registry changes as Check does; an unresolved series gives CheckFailed; a failed write gives WriteFailed; otherwise the row carries the clock's reading as both time and created_at, with the given id, name, value and tags |
| Persistence.TimeseriesPersistenceManager.QueryMeasurements | src/persistence.rs:185-222 | a query with a mutation keyword is refused first; otherwise it runs on the handle of the table the parser names, exactly when that table is registered |
| Persistence.IsMutationQuery | src/persistence.rs:186-193 | true exactly when INSERT, DELETE, UPDATE, DROP or CREATE occurs in the upper-cased query |
| Persistence.Contains | src/persistence.rs:186 | str::contains: true exactly when the pattern occurs at some position |
| Persistence.KeywordInAnyCase | src/persistence.rs:186-193 | a mutation keyword in any letter case anywhere in the query trips the guard |
| Persistence.TimeseriesPersistenceManager.GetMeasurementRange | src/persistence.rs:224-251 | never creates or changes a series; an unknown series gives CheckFailed(NoStorage); otherwise the rows with start <= key <= end, or the engine's error |
| Persistence.SelectRange | src/persistence.rs:236-240 | a row is selected exactly when it is stored and its key lies between the bounds, both included |
| Persistence.TimeseriesPersistenceManager.LoadPersistence | src/persistence.rs:271-290 | the registry becomes Scan over the directory's entries; nothing changes when the base path is no directory |
| Persistence.ScanKeys | src/persistence.rs:271-290 | the startup scan registers exactly the last path segments of the directory entries that opened |
| Persistence.TimeseriesPersistenceManager.Setup | src/persistence.rs:292-299 | a missing base path is created and nothing is loaded; otherwise the directory is loaded |
| Persistence.CreateBlocksAsWritten | src/persistence.rs:85-104 | as written, creating a series whose storage opens never returns, where Check registers it; on every other path the two agree |

## Left out

- Persistence.TimeseriesPersistenceManager.LoadOrCreateDatabase: the source opens a `ParquetFileManager` at the base path, not at the series path it was given. The engine's answer is a parameter here, so which directory it opens is not modelled.
- The storage engine (`src/utils/filemanager.rs`, DataFusion, Parquet files) is not part of this model. Its outcomes are parameters, as listed above.
- Persistence.TimeseriesPersistenceManager.QueryMeasurements: the source unwraps the engine's SQL result and panics on an engine error. The model returns the handle the query would run on.
- `write_to_parquet`, the SQL text built by `save_measurement` and `get_measurement_range`, and the table-name extraction of `src/utils/db.rs` are left out. They are string building for, and calls into, the engine.
- Persistence.TimeseriesPersistenceManager.SaveMeasurement: for a name containing '/', when `create_database` is set, the source as written blocks in `check_database`, because such a name is never a registry key and can resolve only through the create path (see Findings). Once that lock is released, as `Check` does, the name is filed under its last segment. `write_to_parquet` then looks the series up again by its full name and unwraps the result (`src/persistence.rs:170-176`), which panics. The model returns `Ok` instead. `written` stands for the whole write, so this panic is not modelled.
- Persistence.SelectRange: the selection keeps the stored order. The source's query has no ORDER BY, so row order is the engine's.
- Persistence.SelectRange: the SQL at `src/persistence.rs:238` filters on a column named `key`, which the Parquet schema in `src/utils/filemanager.rs` does not have. The model reads `key` as the measurement's `time`, as the comment at `src/persistence.rs:46` calls it. The range predicate depends on that reading.
- Persistence.IsMutationQuery: only one-to-one case mappings are modelled in `Persistence.UpperChar` (ASCII, dotless i, long s). Full Unicode `to_uppercase` can also map one character to several, e.g. U+1E97 to "T" followed by U+0308. Likewise U+FB01 upper-cases to "FI". So the source rejects "inser\u{1E97}" and "\u{FB01}nsert" as containing INSERT, but the model's guard accepts them: the model's guard accepts some queries the source rejects.
- The `Arc<Mutex<…>>` around the registry, `async`/`await` and concurrent callers are left out. The registry is a single-threaded map, apart from the lock analysis behind `CheckAsWritten`.
- `Measurement.value` is an opaque f64. No floating-point arithmetic is modelled.
- Clocks (`Local::now`), `Uuid::new_v4`, file-system reads and `create_dir_all` are parameters or left out. A failing `create_dir_all` panics in the source and is not modelled.
- Persistence.TimeseriesPersistenceManager.SaveMeasurement: the source returns formatted strings ("Error checking database …", "Error saving measurement: … <query>"); the model returns the error kind (`CheckFailed`, `WriteFailed`) with the engine's reason, not the message text.
- Persistence.TimeseriesPersistenceManager.GetMeasurementRange: the source's "Error checking database …" and "Error querying: …" become `CheckFailed` and `QueryFailed`, without the message text.
- Persistence.TimeseriesPersistenceManager.QueryMeasurements: the source's "Invalid query <query>", "Validator error: …" and "Error querying" become `InvalidQuery`, `ValidatorError` and `UnknownTable`, without the message text.
- Protocol.LineProtocol.Parse: the source builds its error messages with the line in them. The model returns the error kind (`ParseError`) instead.
- The writer path in `src/udpserver.rs` that splits a parsed line into measurements is not part of this model.

## Findings

| source | as written | input that shows it | evidently intended | confidence | as-written member | corrected member |
|---|---|---|---|---|---|---|
| src/persistence.rs:85-104 | the `MutexGuard` from `self.storages.lock().unwrap()` is a temporary of the `match` scrutinee, so it lives to the end of the match. The create path calls `load_or_create_database`, which locks the same mutex again after the storage opens | `check_database("cpu", true)` on a registry without "cpu", with the storage opening successfully | release the lock before creating, then register the new series and return its handle | high (Rust temporary-lifetime rules; the source comments "deadlock" at line 92); not executed | Persistence.CheckAsWritten (Persistence.CreateBlocksAsWritten) | Persistence.Check (Persistence.CheckCases) |
| src/protocol.rs:49-60 | `serialize` writes tags and fields in `HashMap` iteration order, which is unspecified, while the tests at lines 161-185 assert that `serialize(parse(line)) == line` for two tags and for two fields | "myMultipleTagMeasurement,tag1=value1,tag2=value2 fieldKey=\"fieldValue\" 1556813561098000000", whose tags can come back as `tag2=value2,tag1=value1` | write entries in the order they were parsed (an insertion-ordered map) | high; not executed | Protocol.SwappedTagsChangeLine | Protocol.RoundTrip (Protocol.LineRoundTrip) |
