# InfluxDB-to-TimescaleDB migration core, modelled in Dafny

The tool copies an InfluxDB measurement into a TimescaleDB hypertable. This project models the two
classes that do the work.

- The source side (`classes/InfluxDB.py`, module `Influx`):
  - it lists measurements and shards;
  - it reduces the shard boundaries to the oldest start and the newest end;
  - it reads a measurement's field keys (with their types) and its tag keys, after truncating the
    measurement name at its first space;
  - it turns fields and tags into column definitions: `time TIMESTAMPTZ NOT NULL`, then one
    `name TYPE` per field, then one per tag.
- The destination side (`classes/TimescaleDB.py`, module `Timescale`): `create_hypertable` renders
  `CREATE TABLE name (c1, c2, …);` and `SELECT create_hypertable('name', 'time')`. It runs them in
  two idempotent steps: an "already exists" or "already a hypertable" error is rolled back and
  skipped. In a dry run it only returns both statements.

Supporting modules:
- `Text`: digits, decimal rendering, `Join`, substring search.
- `Dicts`: an insertion-ordered Python `dict` whose assignment overwrites in place.
- `Timestamps`: the `%Y-%m-%dT%H:%M:%SZ` format, its parser and its chronological order.

How the model represents each side:
- The InfluxDB client is a value that says what the server answers: the measurement list, and a
  result set for each query, keyed by series name. A result set indexed by a name that has no
  series yields no rows.
- The TimescaleDB connection is a class. It records the statements executed, the commits and the
  open cursors. Its `replies` field is the sequence of answers the server will give.
- `CreateHypertable` is proved against `Provision`, a pure function of those answers. The
  properties of provisioning are lemmas about `Provision`.

Behaviour the model keeps as the code has it, though a reader might expect otherwise:
- Only the space character truncates a measurement name. `cpu; DROP TABLE x` queries `cpu;`,
  not `cpu`; tabs and other characters are kept (`SanitiseStopsAtSpace`,
  `SanitiseOtherWhitespace`).
- On the two `return False` paths, `create_hypertable` neither commits nor closes its cursor. A
  ROLLBACK that fails lets its exception escape in the same way. Only the paths that reach the
  end commit and close (`CommitUnlessFalse`).
- A dry run executes nothing, but it still commits and closes the cursor (`DryRunPlan`).

## Model

| member | source | states |
|---|---|---|
| Influx.GetMeasurements | classes/InfluxDB.py:24-34 | one name per measurement row, in the client's order |
| Influx.GetShards | classes/InfluxDB.py:36-48 | the rows of `show shards` under the database's own name, in order, none added or dropped |
| Influx.GetTimeRange | classes/InfluxDB.py:50-77 | fails exactly when some shard has a malformed timestamp, and then with the first bad text; no shards gives `(None, None)`; otherwise the oldest start is not after any shard's start and the newest end is not before any shard's end, and each is attained by some shard |
| Influx.EarliestStartStep | classes/InfluxDB.py:66-73 | replacing the running oldest when a shard starts earlier keeps it the minimum start of the shards seen |
| Influx.LatestEndStep | classes/InfluxDB.py:68-75 | replacing the running newest when a shard ends later keeps it the maximum end of the shards seen |
| Influx.SpansFirst | classes/InfluxDB.py:66-69 | after the first shard, its own start and end are the minimum and the maximum |
| Influx.SpansStep | classes/InfluxDB.py:59-75 | one loop iteration keeps the running (oldest, newest) pair the extremes of the shards scanned |
| Influx.Sanitise | classes/InfluxDB.py:87 | the result is a prefix of the name and holds no space; it stops only at a space, and a name without spaces is unchanged |
| Influx.SanitiseIdempotent | classes/InfluxDB.py:87 | truncating twice gives the same name as truncating once |
| Influx.SanitiseStopsAtSpace | classes/InfluxDB.py:86-87 | `cpu; DROP TABLE x` is cut to `cpu;`: the semicolon survives |
| Influx.SanitiseOtherWhitespace | classes/InfluxDB.py:86-87 | a tab does not cut, and a leading space leaves the empty name |
| Influx.Fields | classes/InfluxDB.py:94-96 | every key recorded for the fields has a value |
| Influx.Tags | classes/InfluxDB.py:115-117 | every key recorded for the tags has a value |
| Influx.GetFields | classes/InfluxDB.py:79-98 | the dict built from the rows returned for the truncated name, under that name |
| Influx.GetTags | classes/InfluxDB.py:100-119 | the dict built from the tag rows returned for the truncated name, under that name |
| Influx.FieldsSpec | classes/InfluxDB.py:94-96 | the field dict has distinct keys in first-occurrence order, and each key maps to the type on its last row |
| Influx.TagsSpec | classes/InfluxDB.py:115-117 | the tag dict's keys are the returned tag keys in first-occurrence order |
| Influx.TagsAreStrings | classes/InfluxDB.py:117 | every tag has the type `"string"` |
| Influx.ColumnType | classes/InfluxDB.py:129-134 | the type is TEXT exactly when the source type is not float, integer or boolean (string included) |
| Influx.ColumnTypeInjective | classes/InfluxDB.py:129-134 | a non-TEXT column type names one source type, and a FLOAT column names one precision |
| Influx.ColumnDef | classes/InfluxDB.py:143-148 | `name TYPE`: the column name and one space, followed by a non-empty type |
| Influx.TagColumnsAreText | classes/InfluxDB.py:146-148 | every tag column is `name TEXT`, whatever the precision |
| Influx.ColumnDefExamples | classes/InfluxDB.py:129-148 | at precisions 2 and 4: float gives FLOAT(2) and FLOAT(4), integer gives INT, boolean gives BOOL, string and an unknown type give TEXT |
| Influx.AppendColumnDefs | classes/InfluxDB.py:142-148 | the columns so far are kept, followed by one definition per key, in key order |
| Influx.GetHypertableColumns | classes/InfluxDB.py:121-150 | the time column first, then each field's definition in field order, then each tag's in tag order; nothing else |
| Text.Digits | classes/InfluxDB.py:60-63 | a `w`-character string of digits |
| Text.ParseDigits | classes/InfluxDB.py:60-63 | reading back `w` digits of `n < 10^w` gives `n` |
| Text.DigitsParse | classes/InfluxDB.py:60-63 | rewriting a digit string at its own width gives the string back |
| Text.Decimal | classes/InfluxDB.py:131 | a non-empty string of digits |
| Text.ParseDecimal | classes/InfluxDB.py:131 | the decimal rendering of `n` reads back as `n` |
| Text.IntToString | classes/InfluxDB.py:131 | the text of the precision: non-empty, with a leading minus sign exactly when it is negative; `IntToStringRoundTrip` shows it loses nothing |
| Text.IntToStringRoundTrip | classes/InfluxDB.py:131 | the rendering of any integer precision, negative included, reads back as that integer |
| Text.JoinCons | classes/TimescaleDB.py:36-39 | joining puts the separator between neighbours only |
| Text.Contains | classes/TimescaleDB.py:47 | `sub in s` (also at line 64), computed by scanning from the left; its meaning is stated by `ContainsIff` |
| Text.ContainsIff | classes/TimescaleDB.py:47 | `sub in s` holds exactly when `sub` occurs in `s` at some position |
| Dicts.Dict.Put | classes/InfluxDB.py:96 | assignment keeps a dict well-formed: distinct keys, and exactly the keys that have values |
| Dicts.FromPairs | classes/InfluxDB.py:94-96 | every recorded key has a value |
| Dicts.FromPairsValid | classes/InfluxDB.py:94-96 | the dict built by successive assignment is well-formed |
| Dicts.FirstOccurrencesSpec | classes/InfluxDB.py:94-96 | the first occurrences are distinct, are exactly the elements, and are ordered by first position |
| Dicts.FromPairsKeys | classes/InfluxDB.py:94-96 | the dict's keys are the first occurrences of the assigned keys |
| Dicts.FromPairsLastWins | classes/InfluxDB.py:94-96 | every assigned key is present and holds the value of its last assignment |
| Dicts.FirstIndex | classes/InfluxDB.py:94-96 | the position of the first occurrence: it holds the element and none before it does |
| Dicts.FirstIndexAppend | classes/InfluxDB.py:94-96 | appending does not move the first occurrence of an element already present |
| Timestamps.BeforeStrictTotalOrder | classes/InfluxDB.py:72-75 | datetime comparison is irreflexive, total and asymmetric |
| Timestamps.BeforeTransitive | classes/InfluxDB.py:72-75 | datetime comparison is transitive |
| Timestamps.ParseTimestamp | classes/InfluxDB.py:60-63 | `strptime` with `%Y-%m-%dT%H:%M:%SZ` on fixed-width fields, `None` for its `ValueError`; its meaning is stated by `FormatParse` and `ParseFormat`: it accepts exactly the renderings of valid date-times |
| Timestamps.FormatTimestamp | classes/InfluxDB.py:60-63 | the rendering has the format's fixed length, 20 |
| Timestamps.ParseFormat | classes/InfluxDB.py:60-63 | every valid date-time, rendered in `%Y-%m-%dT%H:%M:%SZ`, parses back to itself |
| Timestamps.FormatParse | classes/InfluxDB.py:60-63 | whatever parses is a valid date-time, and it is exactly the rendering of that date-time |
| Timescale.RenderCreateTable | classes/TimescaleDB.py:35-40 | the loop builds the CREATE TABLE statement with `", "` between the column definitions |
| Timescale.CreateTableShape | classes/TimescaleDB.py:35-40 | no separator follows the last column, and no columns give `()` |
| Timescale.CreateTableStatement | classes/TimescaleDB.py:35-40 | the CREATE TABLE statement: it starts with `CREATE TABLE ` and ends with `);`; `CreateTableShape` states the separators |
| Timescale.HypertableStatement | classes/TimescaleDB.py:58 | the `SELECT create_hypertable('name', 'time')` statement: it starts with `SELECT create_hypertable('` and ends with `')` |
| Timescale.RunStep | classes/TimescaleDB.py:43-53 | one guarded step as a function of the answers: applied exactly when the statement succeeds; it sends the statement first, and ROLLBACK second on the skipped and rollback-failed paths |
| Timescale.Provision | classes/TimescaleDB.py:42-82 | the whole run as a function of the answers: a dry run is exactly a run that sends nothing, any other run sends CREATE TABLE first, and the cursor is closed exactly when the run commits |
| Timescale.StatementsDiffer | classes/TimescaleDB.py:35-65 | the table, hypertable and ROLLBACK statements are pairwise distinct |
| Timescale.DryRunPlan | classes/TimescaleDB.py:54-82 | a dry run executes nothing, consumes no answer, commits, and returns both statements in order |
| Timescale.CreateErrorAborts | classes/TimescaleDB.py:43-53 | an unexpected step-1 error returns False, never sends the hypertable statement, and neither commits nor closes |
| Timescale.ExistingTableSkipped | classes/TimescaleDB.py:45-61 | an "already exists" error is followed by ROLLBACK and then by the hypertable statement |
| Timescale.HypertableStep | classes/TimescaleDB.py:59-80 | after step 1, "already a hypertable" is rolled back, committed and answered True; any other error answers False without a commit |
| Timescale.StepSkipped | classes/TimescaleDB.py:45-50 | a duplicate error followed by a successful ROLLBACK skips the step, sends the statement and ROLLBACK, and consumes both answers |
| Timescale.StepApplied | classes/TimescaleDB.py:43-44 | a statement that succeeds is applied, sent once, and consumes one answer |
| Timescale.ProvisionIdempotent | classes/TimescaleDB.py:42-80 | re-running against an existing table and hypertable answers True and commits, exactly like a first run |
| Timescale.CommitUnlessFalse | classes/TimescaleDB.py:42-82 | commit and close happen exactly when the answer is neither False nor an escaped error; dry runs are the ones answering with commands |
| Timescale.TimescaleDB.Execute | classes/TimescaleDB.py:44 | a statement is recorded and consumes the server's next answer |
| Timescale.TimescaleDB.GetCursor | classes/TimescaleDB.py:32 | one more cursor is open; nothing else changes |
| Timescale.TimescaleDB.Commit | classes/TimescaleDB.py:76 | one more commit; nothing else changes |
| Timescale.TimescaleDB.CloseCursor | classes/TimescaleDB.py:77 | one cursor fewer is open; nothing else changes |
| Timescale.TimescaleDB.ExecuteOrSkip | classes/TimescaleDB.py:43-53 | one guarded step: its status, the statements it sent and the answers left are those of `RunStep` |
| Timescale.TimescaleDB.CreateHypertable | classes/TimescaleDB.py:20-82 | the answer, the statements executed, the commit count, the cursors left open and the answers left are those of `Provision` |

## Left out

- The `InfluxDB` and `TimescaleDB` constructors are not modelled past their fields. The creation of
  `InfluxDBClient` (`classes/InfluxDB.py:9-13`) and `psycopg2.connect` (`classes/TimescaleDB.py:8-13`)
  are network I/O. The client becomes a value that says what the server answers, and the
  connection a class whose `replies` field says the same. `get_client` (`classes/InfluxDB.py:15-22`)
  is a plain accessor that no modelled function calls, so it is left out; `get_cursor` is
  `TimescaleDB.GetCursor`.
- The `print` diagnostics of `create_hypertable` and of the connection constructor are left out;
  they change no state the model tracks.
- Timestamps.ParseTimestamp: `strptime` also accepts a single-digit month, day, hour, minute or
  second, a space-padded day (`2021-01- 1T00:00:00Z`), a lower-case `t` or `z`, and non-ASCII
  digits. The model accepts only the fixed-width, zero-padded, ASCII, upper-case form that InfluxDB
  emits, so those other inputs are errors in the model. It checks the calendar, and the year must
  be in 1..9999. The function has no contract of its own; what it accepts is stated by the lemmas
  `FormatParse` and `ParseFormat`.
- Influx.GetTimeRange: a malformed timestamp raises `ValueError` in the source. The model returns
  `Err` carrying the offending text instead.
- Influx.GetShards: the source keeps every column of a shard row. The model keeps only
  `start_time` and `end_time`, the two the time range reads.
- A failing source query is not modelled. In the source, `get_list_measurements()` and
  `client.query(...)` raise on connection or query errors (`classes/InfluxDB.py:29`, `41`, `90-91`,
  `111-112`), and every function lets the error escape. The model's `Client` always answers.
- Rows that lack `name`, `fieldKey`, `tagKey`, `start_time` or `end_time` raise `KeyError` in Python.
  The model's row types always carry those keys.
- A result set is a map from series name to rows, so two series with the same name cannot be
  represented.
- Timescale.TimescaleDB.Execute: every server error is a `Failure` with a message. Exceptions
  other than `psycopg2.Error` are not modelled, nor are errors raised by `commit` or `close`. Once
  `replies` runs out, the server is taken to accept every statement.
- Timescale.TimescaleDB.ExecuteOrSkip and Influx.AppendColumnDefs each factor out a code block that
  the source writes twice (the two guarded steps, and the two conversion loops). The statements they
  run are the source's own.
- Concurrent use of one connection, and the server's own transaction semantics, are not modelled.
  ROLLBACK is a statement whose answer comes from `replies`.
- The command-line plumbing around these classes is not part of this model.
