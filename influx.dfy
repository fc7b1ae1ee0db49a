/**
 * The source side (classes/InfluxDB.py): listing measurements and shards, reading a measurement's
 * field and tag keys, reducing shard boundaries to a time range, and turning fields and tags into
 * the column definitions of the destination table.
 */
module Influx {
  import opened Wrappers
  import opened Text
  import opened Dicts
  import opened Timestamps

  /** A query as the client sends it: statement text and the database it runs against. */
  datatype Query = Query(text: string, database: string)

  /** A query result keyed by series name; indexing it by a name with no series yields no rows. */
  type ResultSet<R> = map<string, seq<R>>

  function Points<R>(rs: ResultSet<R>, key: string): seq<R> {
    if key in rs then rs[key] else []
  }

  datatype MeasurementRow = MeasurementRow(name: string)
  datatype FieldRow = FieldRow(fieldKey: string, fieldType: string)
  datatype TagRow = TagRow(tagKey: string)
  datatype ShardRow = ShardRow(startTime: string, endTime: string)

  /**
   * The network client, given by what it answers: the list of measurements, and the result set it
   * returns for each `show field keys`, `show tag keys` and `show shards` query.
   */
  datatype Client = Client(
    measurementList: seq<MeasurementRow>,
    fieldKeys: Query -> ResultSet<FieldRow>,
    tagKeys: Query -> ResultSet<TagRow>,
    shards: Query -> ResultSet<ShardRow>)

  /** The connection wrapper: its client, and the host and database it was configured with. */
  datatype InfluxDB = InfluxDB(client: Client, host: string, database: string)

  datatype TimeRange = TimeRange(oldest: Option<Timestamp>, newest: Option<Timestamp>)

  // ---------------------------------------------------------------------------------------------
  // Listing measurements and shards

  method GetMeasurements(db: InfluxDB) returns (measurements: seq<string>)
    ensures |measurements| == |db.client.measurementList|
    ensures forall i :: 0 <= i < |measurements| ==> measurements[i] == db.client.measurementList[i].name
  {
    var raw := db.client.measurementList;
    measurements := [];
    for i := 0 to |raw|
      invariant |measurements| == i
      invariant forall j :: 0 <= j < i ==> measurements[j] == raw[j].name
    {
      measurements := measurements + [raw[i].name];
    }
  }

  function ShowShardsQuery(db: InfluxDB): Query {
    Query("show shards", db.database)
  }

  /** The shard rows the client reports, under the database's own name. */
  function ShardRows(db: InfluxDB): seq<ShardRow> {
    Points(db.client.shards(ShowShardsQuery(db)), db.database)
  }

  method GetShards(db: InfluxDB) returns (shards: seq<ShardRow>)
    ensures shards == ShardRows(db)
  {
    var raw := db.client.shards(ShowShardsQuery(db));
    var rows := Points(raw, db.database);
    shards := [];
    for i := 0 to |rows|
      invariant shards == rows[..i]
    {
      shards := shards + [rows[i]];
    }
  }

  // ---------------------------------------------------------------------------------------------
  // Time range

  predicate WellFormed(shard: ShardRow) {
    ParseTimestamp(shard.startTime).Some? && ParseTimestamp(shard.endTime).Some?
  }

  function StartOf(shard: ShardRow): Timestamp
    requires WellFormed(shard)
  {
    ParseTimestamp(shard.startTime).value
  }

  function EndOf(shard: ShardRow): Timestamp
    requires WellFormed(shard)
  {
    ParseTimestamp(shard.endTime).value
  }

  /** Over the first `n` shards (all well-formed), `oldest` is the earliest start: none precedes it and one equals it. */
  ghost predicate EarliestStart(shards: seq<ShardRow>, n: nat, oldest: Timestamp)
    requires n <= |shards|
  {
    && (forall j :: 0 <= j < n ==> WellFormed(shards[j]) && !Before(StartOf(shards[j]), oldest))
    && (exists j :: 0 <= j < n && WellFormed(shards[j]) && StartOf(shards[j]) == oldest)
  }

  /** Over the first `n` shards (all well-formed), `newest` is the latest end: none follows it and one equals it. */
  ghost predicate LatestEnd(shards: seq<ShardRow>, n: nat, newest: Timestamp)
    requires n <= |shards|
  {
    && (forall j :: 0 <= j < n ==> WellFormed(shards[j]) && !Before(newest, EndOf(shards[j])))
    && (exists j :: 0 <= j < n && WellFormed(shards[j]) && EndOf(shards[j]) == newest)
  }

  /** The text that makes the scan fail: shard `i` is the first malformed one and `text` its first bad field. */
  ghost predicate FirstMalformed(shards: seq<ShardRow>, text: string) {
    exists i :: 0 <= i < |shards| && !WellFormed(shards[i])
      && (forall j :: 0 <= j < i ==> WellFormed(shards[j]))
      && text == (if ParseTimestamp(shards[i].startTime).None? then shards[i].startTime else shards[i].endTime)
  }

  /** Folding shard `i` into the running minimum of start times extends `EarliestStart` to `i + 1` shards. */
  lemma EarliestStartStep(shards: seq<ShardRow>, i: nat, oldest: Timestamp)
    requires i < |shards| && WellFormed(shards[i]) && EarliestStart(shards, i, oldest)
    ensures EarliestStart(shards, i + 1, if Before(StartOf(shards[i]), oldest) then StartOf(shards[i]) else oldest)
  {
    var s := StartOf(shards[i]);
    var o := if Before(s, oldest) then s else oldest;
    forall j | 0 <= j < i + 1
      ensures WellFormed(shards[j]) && !Before(StartOf(shards[j]), o)
    {
      if j < i {
        if Before(StartOf(shards[j]), s) && Before(s, oldest) {
          BeforeTransitive(StartOf(shards[j]), s, oldest);
        }
      } else {
        BeforeStrictTotalOrder(s, s);
      }
    }
    if o == s {
      assert StartOf(shards[i]) == o;
    } else {
      var j :| 0 <= j < i && WellFormed(shards[j]) && StartOf(shards[j]) == oldest;
    }
  }

  /** Folding shard `i` into the running maximum of end times extends `LatestEnd` to `i + 1` shards. */
  lemma LatestEndStep(shards: seq<ShardRow>, i: nat, newest: Timestamp)
    requires i < |shards| && WellFormed(shards[i]) && LatestEnd(shards, i, newest)
    ensures LatestEnd(shards, i + 1, if Before(newest, EndOf(shards[i])) then EndOf(shards[i]) else newest)
  {
    var e := EndOf(shards[i]);
    var n := if Before(newest, e) then e else newest;
    forall j | 0 <= j < i + 1
      ensures WellFormed(shards[j]) && !Before(n, EndOf(shards[j]))
    {
      if j < i {
        if Before(newest, e) && Before(e, EndOf(shards[j])) {
          BeforeTransitive(newest, e, EndOf(shards[j]));
        }
      } else {
        BeforeStrictTotalOrder(e, e);
      }
    }
    if n == e {
      assert EndOf(shards[i]) == n;
    } else {
      var j :| 0 <= j < i && WellFormed(shards[j]) && EndOf(shards[j]) == newest;
    }
  }

  /** What the scan knows after `n` shards: nothing yet, or the earliest start and the latest end so far. */
  ghost predicate Spans(shards: seq<ShardRow>, n: nat, oldest: Option<Timestamp>, newest: Option<Timestamp>)
    requires n <= |shards|
  {
    if n == 0 then oldest.None? && newest.None?
    else oldest.Some? && newest.Some? && EarliestStart(shards, n, oldest.value) && LatestEnd(shards, n, newest.value)
  }

  /** After the first well-formed shard, its start is the earliest start and its end the latest end. */
  lemma SpansFirst(shards: seq<ShardRow>)
    requires 0 < |shards| && WellFormed(shards[0])
    ensures Spans(shards, 1, Some(StartOf(shards[0])), Some(EndOf(shards[0])))
  {
    var s, e := StartOf(shards[0]), EndOf(shards[0]);
    BeforeStrictTotalOrder(s, s);
    BeforeStrictTotalOrder(e, e);
    forall j | 0 <= j < 1
      ensures WellFormed(shards[j]) && !Before(StartOf(shards[j]), s) && !Before(e, EndOf(shards[j]))
    {
      assert j == 0;
    }
  }

  /** Folding the well-formed shard `i` into the scan, as the loop body of `get_time_range` does, keeps `Spans`. */
  lemma SpansStep(shards: seq<ShardRow>, i: nat, oldest: Option<Timestamp>, newest: Option<Timestamp>)
    requires i < |shards| && WellFormed(shards[i]) && Spans(shards, i, oldest, newest)
    ensures var s := StartOf(shards[i]);
      var e := EndOf(shards[i]);
      Spans(shards, i + 1,
            Some(if oldest.None? || Before(s, oldest.value) then s else oldest.value),
            Some(if newest.None? || Before(newest.value, e) then e else newest.value))
  {
    if i == 0 {
      SpansFirst(shards);
    } else {
      EarliestStartStep(shards, i, oldest.value);
      LatestEndStep(shards, i, newest.value);
    }
  }

  method GetTimeRange(db: InfluxDB) returns (r: Result<TimeRange>)
    ensures r.Err? <==> exists i :: 0 <= i < |ShardRows(db)| && !WellFormed(ShardRows(db)[i])
    ensures r.Err? ==> FirstMalformed(ShardRows(db), r.error)
    ensures r.Ok? && |ShardRows(db)| == 0 ==> r.value == TimeRange(None, None)
    ensures r.Ok? && |ShardRows(db)| > 0 ==>
      r.value.oldest.Some? && r.value.newest.Some?
      && EarliestStart(ShardRows(db), |ShardRows(db)|, r.value.oldest.value)
      && LatestEnd(ShardRows(db), |ShardRows(db)|, r.value.newest.value)
  {
    var shards := GetShards(db);
    var oldest: Option<Timestamp> := None;
    var newest: Option<Timestamp> := None;
    for i := 0 to |shards|
      invariant forall j :: 0 <= j < i ==> WellFormed(shards[j])
      invariant Spans(shards, i, oldest, newest)
    {
      var startTime := ParseTimestamp(shards[i].startTime);
      if startTime.None? {
        return Err(shards[i].startTime);
      }
      var endTime := ParseTimestamp(shards[i].endTime);
      if endTime.None? {
        return Err(shards[i].endTime);
      }
      ghost var before := (oldest, newest);
      if oldest.None? {
        oldest := startTime;
      }
      if newest.None? {
        newest := endTime;
      }
      if Before(startTime.value, oldest.value) {
        oldest := startTime;
      }
      if Before(newest.value, endTime.value) {
        newest := endTime;
      }
      SpansStep(shards, i, before.0, before.1);
    }
    return Ok(TimeRange(oldest, newest));
  }

  // ---------------------------------------------------------------------------------------------
  // Fields and tags

  /** `measurement.split(" ")[0]`: everything before the first space character (other whitespace is kept). */
  function Sanitise(measurement: string): (name: string)
    ensures name <= measurement
    ensures ' ' !in name
    ensures |name| < |measurement| ==> measurement[|name|] == ' '
    ensures ' ' !in measurement ==> name == measurement
  {
    if measurement == [] || measurement[0] == ' ' then [] else [measurement[0]] + Sanitise(measurement[1..])
  }

  /** Truncating twice is truncating once. */
  lemma SanitiseIdempotent(measurement: string)
    ensures Sanitise(Sanitise(measurement)) == Sanitise(measurement)
  {
  }

  /** A semicolon does not cut: only the space before `DROP` does. */
  lemma SanitiseStopsAtSpace()
    ensures Sanitise("cpu; DROP TABLE x") == "cpu;"
  {
    var m := "cpu; DROP TABLE x";
    var name := Sanitise(m);
    assert m[4] == ' ' && m[..4] == "cpu;";
    assert |name| == 4 by {
      assert m[..|name|] == name;
      assert forall j :: 0 <= j < 4 ==> m[j] != ' ';
    }
    assert name == m[..4];
  }

  /** Other whitespace is kept, and a leading space leaves nothing. */
  lemma SanitiseOtherWhitespace()
    ensures Sanitise("cpu\tload") == "cpu\tload"
    ensures Sanitise(" cpu") == ""
  {
    assert ' ' !in "cpu\tload";
  }

  function FieldKeysQuery(db: InfluxDB, measurement: string): Query {
    Query("show field keys from " + Sanitise(measurement), db.database)
  }

  function TagKeysQuery(db: InfluxDB, measurement: string): Query {
    Query("show tag keys from " + Sanitise(measurement), db.database)
  }

  /** The field rows the client returns for the sanitised name, looked up under that same name. */
  function FieldRows(db: InfluxDB, measurement: string): seq<FieldRow> {
    Points(db.client.fieldKeys(FieldKeysQuery(db, measurement)), Sanitise(measurement))
  }

  function TagRows(db: InfluxDB, measurement: string): seq<TagRow> {
    Points(db.client.tagKeys(TagKeysQuery(db, measurement)), Sanitise(measurement))
  }

  /** The assignments `fields[fieldKey] = fieldType`, one per row, in row order. */
  function FieldPairs(rows: seq<FieldRow>): seq<(string, string)> {
    seq(|rows|, i requires 0 <= i < |rows| => (rows[i].fieldKey, rows[i].fieldType))
  }

  /** Every tag is recorded with the type `"string"`. */
  function TagPairs(rows: seq<TagRow>): seq<(string, string)> {
    seq(|rows|, i requires 0 <= i < |rows| => (rows[i].tagKey, "string"))
  }

  function Fields(db: InfluxDB, measurement: string): (d: Dict<string>)
    ensures d.Keyed()
  {
    FromPairs(FieldPairs(FieldRows(db, measurement)))
  }

  function Tags(db: InfluxDB, measurement: string): (d: Dict<string>)
    ensures d.Keyed()
  {
    FromPairs(TagPairs(TagRows(db, measurement)))
  }

  method GetFields(db: InfluxDB, measurement: string) returns (fields: Dict<string>)
    ensures fields == Fields(db, measurement)
  {
    var name := Sanitise(measurement);
    var fieldKeys := db.client.fieldKeys(Query("show field keys from " + name, db.database));
    var rows := Points(fieldKeys, name);
    ghost var ps := FieldPairs(rows);
    fields := Dict([], map[]);
    for i := 0 to |rows|
      invariant fields == FromPairs(ps[..i])
    {
      assert ps[..i + 1][..i] == ps[..i];
      fields := fields.Put(rows[i].fieldKey, rows[i].fieldType);
    }
    assert ps[..|rows|] == ps;
  }

  method GetTags(db: InfluxDB, measurement: string) returns (tags: Dict<string>)
    ensures tags == Tags(db, measurement)
  {
    var name := Sanitise(measurement);
    var tagKeys := db.client.tagKeys(Query("show tag keys from " + name, db.database));
    var rows := Points(tagKeys, name);
    ghost var ps := TagPairs(rows);
    tags := Dict([], map[]);
    for i := 0 to |rows|
      invariant tags == FromPairs(ps[..i])
    {
      assert ps[..i + 1][..i] == ps[..i];
      tags := tags.Put(rows[i].tagKey, "string");
    }
    assert ps[..|rows|] == ps;
  }

  /** `get_fields`: the keys are the returned `fieldKey`s in first-occurrence order, each with the last `fieldType` seen for it. */
  lemma FieldsSpec(rows: seq<FieldRow>)
    ensures var d := FromPairs(FieldPairs(rows));
      && d.Valid()
      && d.keys == FirstOccurrences(Firsts(FieldPairs(rows)))
      && forall k :: k in d.values ==>
           exists i :: 0 <= i < |rows| && rows[i].fieldKey == k && rows[i].fieldType == d.values[k]
             && forall j :: i < j < |rows| ==> rows[j].fieldKey != k
  {
    var ps := FieldPairs(rows);
    FromPairsValid(ps);
    FromPairsKeys(ps);
    FromPairsLastWins(ps);
    var d := FromPairs(ps);
    forall k | k in d.values
      ensures exists i :: (0 <= i < |rows| && rows[i].fieldKey == k && rows[i].fieldType == d.values[k]
                           && forall j :: i < j < |rows| ==> rows[j].fieldKey != k)
    {
      var i :| LastAt(ps, k, i) && ps[i].1 == d.values[k];
      assert forall j :: i < j < |rows| ==> rows[j].fieldKey != k by {
        forall j | i < j < |rows| ensures rows[j].fieldKey != k { assert ps[j].0 != k; }
      }
    }
  }

  /** `get_tags`: the keys are the returned `tagKey`s in first-occurrence order. */
  lemma TagsSpec(rows: seq<TagRow>)
    ensures var d := FromPairs(TagPairs(rows));
      d.keys == FirstOccurrences(Firsts(TagPairs(rows)))
  {
    var ps := TagPairs(rows);
    FromPairsKeys(ps);
  }

  /** `get_tags`: every recorded tag has the type `"string"`. */
  lemma TagsAreStrings(rows: seq<TagRow>)
    ensures var d := FromPairs(TagPairs(rows));
      forall k :: k in d.values ==> d.values[k] == "string"
  {
    FromPairsLastWins(TagPairs(rows));
  }

  // ---------------------------------------------------------------------------------------------
  // Column generation

  const TimeColumn := "time TIMESTAMPTZ NOT NULL"

  function FloatType(precision: int): string {
    "FLOAT(" + IntToString(precision) + ")"
  }

  /** `INFLUX_TYPES_TO_COLUMN_TYPES.get(sourceType, 'TEXT')`. */
  function ColumnType(sourceType: string, precision: int): (columnType: string)
    ensures columnType == "TEXT" <==> sourceType != "float" && sourceType != "integer" && sourceType != "boolean"
  {
    if sourceType == "string" then "TEXT"
    else if sourceType == "float" then FloatType(precision)
    else if sourceType == "integer" then "INT"
    else if sourceType == "boolean" then "BOOL"
    else "TEXT"
  }

  /**
   * The mapping is total and loses only what goes to the default: each non-default destination type
   * names one source type, and a FLOAT column determines its precision.
   */
  lemma ColumnTypeInjective(t1: string, p1: int, t2: string, p2: int)
    requires ColumnType(t1, p1) == ColumnType(t2, p2)
    ensures ColumnType(t1, p1) != "TEXT" ==> t1 == t2
    ensures t1 == "float" ==> p1 == p2
  {
    var c1, c2 := ColumnType(t1, p1), ColumnType(t2, p2);
    assert FloatType(p1)[0] == 'F' && FloatType(p2)[0] == 'F';
    if t1 == "float" {
      assert t2 == "float";
      var s1, s2 := IntToString(p1), IntToString(p2);
      assert c1 == "FLOAT(" + s1 + ")" && c2 == "FLOAT(" + s2 + ")";
      assert |s1| == |s2|;
      assert s1 == c1[6..|c1| - 1] && s2 == c2[6..|c2| - 1];
      IntToStringRoundTrip(p1);
      IntToStringRoundTrip(p2);
    }
  }

  /** `f"{name} {type}"`: one column definition. */
  function ColumnDef(name: string, sourceType: string, precision: int): (definition: string)
    ensures name + " " < definition
  {
    name + " " + ColumnType(sourceType, precision)
  }

  /** Tags always become TEXT columns, whatever the float precision. */
  lemma TagColumnsAreText(rows: seq<TagRow>, precision: int)
    ensures var d := FromPairs(TagPairs(rows));
      forall k :: k in d.values ==> ColumnDef(k, d.values[k], precision) == k + " TEXT"
  {
    TagsAreStrings(rows);
  }

  /** The column definitions of fields `{a: float, b: integer}` and tag `c` at the default precision. */
  lemma ColumnDefExamples()
    ensures ColumnDef("a", "float", 2) == "a FLOAT(2)"
    ensures ColumnDef("b", "integer", 2) == "b INT"
    ensures ColumnDef("c", "string", 2) == "c TEXT"
    ensures ColumnDef("d", "boolean", 4) == "d BOOL" && ColumnDef("e", "float", 4) == "e FLOAT(4)"
    ensures ColumnDef("f", "unsigned", 2) == "f TEXT"
  {
  }

  /** One of the two conversion loops: append a definition for every key of `d`, in key order. */
  method AppendColumnDefs(columns: seq<string>, d: Dict<string>, floatPrecision: int) returns (result: seq<string>)
    requires d.Keyed()
    ensures |result| == |columns| + |d.keys| && result[..|columns|] == columns
    ensures forall i :: 0 <= i < |d.keys| ==>
      result[|columns| + i] == ColumnDef(d.keys[i], d.values[d.keys[i]], floatPrecision)
  {
    result := columns;
    for i := 0 to |d.keys|
      invariant |result| == |columns| + i && result[..|columns|] == columns
      invariant forall j :: 0 <= j < i ==> result[|columns| + j] == ColumnDef(d.keys[j], d.values[d.keys[j]], floatPrecision)
    {
      var name := d.keys[i];
      result := result + [ColumnDef(name, d.values[name], floatPrecision)];
    }
  }

  /**
   * `get_hypertable_columns`: the time column, then one definition per field in field order, then one
   * per tag in tag order; nothing is merged, so a name that is both a field and a tag gives two columns.
   */
  method GetHypertableColumns(db: InfluxDB, measurement: string, floatPrecision: int := 2) returns (columns: seq<string>)
    ensures var fields, tags := Fields(db, measurement), Tags(db, measurement);
      && |columns| == 1 + |fields.keys| + |tags.keys|
      && columns[0] == TimeColumn
      && (forall i :: 0 <= i < |fields.keys| ==>
            columns[1 + i] == ColumnDef(fields.keys[i], fields.values[fields.keys[i]], floatPrecision))
      && (forall i :: 0 <= i < |tags.keys| ==>
            columns[1 + |fields.keys| + i] == ColumnDef(tags.keys[i], tags.values[tags.keys[i]], floatPrecision))
  {
    var fields := GetFields(db, measurement);
    var tags := GetTags(db, measurement);
    columns := [TimeColumn];
    columns := AppendColumnDefs(columns, fields, floatPrecision);
    ghost var withFields := columns;
    columns := AppendColumnDefs(columns, tags, floatPrecision);
    assert columns[..|withFields|][..1] == withFields[..1];
    forall i | 0 <= i < |fields.keys|
      ensures columns[1 + i] == ColumnDef(fields.keys[i], fields.values[fields.keys[i]], floatPrecision)
    {
      assert columns[1 + i] == columns[..|withFields|][1 + i];
    }
  }
}
