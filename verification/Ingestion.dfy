/** `ingestion/batch.py`: records become rows that carry scope, batch and row identity. */
module Ingestion {
  import opened Common
  import opened Rows
  import opened Identifiers
  import opened Layouts
  import opened ColumnTypes
  import opened Values
  import opened Sorts
  import Translator
  import RowFingerprint

  // ---- Requests -------------------------------------------------------------

  datatype Caller = Caller(tenant: Option<string>, scope: map<string, Json>)

  /** An append request; the library fingerprints the whole operation document. */
  datatype Request = Request(
    binding: string, operation: Json, requestId: string, idempotencyKey: Option<string>, caller: Caller)

  function ScopeDocument(c: Caller): Json {
    JObj(map["tenant" := (match c.tenant case None => JNull case Some(t) => JStr(t)), "scope" := JObj(c.scope)])
  }

  function ScopeFingerprint(c: Caller, hash: Json -> string): string { "sha256:" + hash(ScopeDocument(c)) }

  function ScopeDigestOf(c: Caller, hash: Json -> string): string { Translator.ScopeDigest(ScopeFingerprint(c, hash)) }

  lemma {:induction false} ScopeDigestIsHash(c: Caller, hash: Json -> string)
    ensures ScopeDigestOf(c, hash) == hash(ScopeDocument(c))
  {
    assert ("sha256:" + hash(ScopeDocument(c)))[7..] == hash(ScopeDocument(c));
  }

  /** Scope isolation: callers share a stored scope digest only if tenant and scope agree. */
  lemma {:induction false} ScopeIsolation(a: Caller, b: Caller, hash: Json -> string, docs: set<Json>)
    requires CollisionFree(hash, docs) && ScopeDocument(a) in docs && ScopeDocument(b) in docs
    ensures ScopeDigestOf(a, hash) == ScopeDigestOf(b, hash) <==> a == b
  {
    ScopeDigestIsHash(a, hash);
    ScopeDigestIsHash(b, hash);
    if ScopeDigestOf(a, hash) == ScopeDigestOf(b, hash) {
      var x, y := ScopeDocument(a).members, ScopeDocument(b).members;
      assert x == y;
      assert x["tenant"] == y["tenant"] && x["scope"] == y["scope"];
    }
  }

  // ---- Batch identity -------------------------------------------------------

  function StableKey(r: Request): string {
    if r.idempotencyKey.Some? && r.idempotencyKey.value != "" then r.idempotencyKey.value else r.requestId
  }

  function OperationFingerprint(r: Request, hash: Json -> string): string { "sha256:" + hash(r.operation) }

  function BatchMaterial(r: Request, l: Layout, hash: Json -> string): Json {
    JObj(map["bindingId" := JStr(r.binding),
             "operationFingerprint" := JStr(OperationFingerprint(r, hash)),
             "resource" := JStr(l.resource.Canonical()),
             "schemaFingerprint" := JStr(l.schemaFingerprint),
             "scopeFingerprint" := JStr(ScopeDigestOf(r.caller, hash)),
             "stableKey" := JStr(StableKey(r))])
  }

  /** `_batch_id`, also the deduplication token. */
  function BatchId(r: Request, l: Layout, hash: Json -> string): string { "mb1_" + hash(BatchMaterial(r, l, hash)) }

  lemma {:induction false} SameMaterial(a: Request, b: Request, l: Layout, m: Layout, hash: Json -> string)
    requires BatchMaterial(a, l, hash) == BatchMaterial(b, m, hash)
    ensures a.binding == b.binding && StableKey(a) == StableKey(b)
    ensures OperationFingerprint(a, hash) == OperationFingerprint(b, hash)
    ensures ScopeDigestOf(a.caller, hash) == ScopeDigestOf(b.caller, hash)
    ensures l.resource.Canonical() == m.resource.Canonical() && l.schemaFingerprint == m.schemaFingerprint
  {
    hide ScopeDigestOf, OperationFingerprint, StableKey;
    var x, y := BatchMaterial(a, l, hash).members, BatchMaterial(b, m, hash).members;
    assert x["bindingId"] == y["bindingId"];
    assert x["operationFingerprint"] == y["operationFingerprint"];
    assert x["resource"] == y["resource"];
    assert x["schemaFingerprint"] == y["schemaFingerprint"];
    assert x["scopeFingerprint"] == y["scopeFingerprint"];
    assert x["stableKey"] == y["stableKey"];
  }

  /** The client named the append with a key of its own. */
  predicate HasKey(r: Request) { r.idempotencyKey.Some? && r.idempotencyKey.value != "" }

  /** Whether two requests count as deliveries of one append: their keys decide, whatever the
      request ids; without keys the request ids decide. */
  predicate SameRetry(a: Request, b: Request) {
    if HasKey(a) && HasKey(b) then a.idempotencyKey == b.idempotencyKey
    else if HasKey(a) then a.idempotencyKey == Some(b.requestId)
    else if HasKey(b) then b.idempotencyKey == Some(a.requestId)
    else a.requestId == b.requestId
  }

  lemma {:induction false} RetryKeys(a: Request, b: Request)
    ensures StableKey(a) == StableKey(b) <==> SameRetry(a, b)
  {}

  /** The form of tokens and of the stored scope, given digests. */
  lemma {:induction false} TokenForm(r: Request, l: Layout, hash: Json -> string)
    requires RowFingerprint.IsDigest(hash(BatchMaterial(r, l, hash)))
    requires RowFingerprint.IsDigest(hash(ScopeDocument(r.caller)))
    ensures |BatchId(r, l, hash)| == 68 && BatchId(r, l, hash)[..4] == "mb1_"
    ensures RowFingerprint.IsDigest(BatchId(r, l, hash)[4..])
    ensures RowFingerprint.IsDigest(ScopeDigestOf(r.caller, hash))
  {
    hide BatchMaterial, ScopeDigestOf;
    ScopeDigestIsHash(r.caller, hash);
    assert BatchId(r, l, hash)[4..] == hash(BatchMaterial(r, l, hash));
  }

  /** Two requests have the same token exactly when they agree on everything that a retry
      repeats: binding, operation document, resource, schema, scope and key, or request id. */
  lemma {:induction false} TokenIdentity(a: Request, b: Request, l: Layout, m: Layout, hash: Json -> string,
                                         docs: set<Json>)
    requires CollisionFree(hash, docs)
    requires BatchMaterial(a, l, hash) in docs && BatchMaterial(b, m, hash) in docs
    requires a.operation in docs && b.operation in docs
    requires ScopeDocument(a.caller) in docs && ScopeDocument(b.caller) in docs
    ensures BatchId(a, l, hash) == BatchId(b, m, hash) <==>
            && a.binding == b.binding && a.operation == b.operation
            && a.caller == b.caller && SameRetry(a, b)
            && l.resource.Canonical() == m.resource.Canonical() && l.schemaFingerprint == m.schemaFingerprint
  {
    hide ScopeDocument, ScopeDigestOf, StableKey, SameRetry;
    RetryKeys(a, b);
    if BatchId(a, l, hash) == BatchId(b, m, hash) {
      assert BatchId(a, l, hash)[4..] == hash(BatchMaterial(a, l, hash))
          && BatchId(b, m, hash)[4..] == hash(BatchMaterial(b, m, hash));
      SameMaterial(a, b, l, m, hash);
      assert OperationFingerprint(a, hash)[7..] == hash(a.operation)
          && OperationFingerprint(b, hash)[7..] == hash(b.operation);
      ScopeIsolation(a.caller, b.caller, hash, docs);
    }
  }

  /** A retry under the same key has the same token, whatever its request id. */
  lemma {:induction false} RetryKeepsToken(r: Request, requestId: string, l: Layout, hash: Json -> string)
    requires r.idempotencyKey.Some? && r.idempotencyKey.value != ""
    ensures BatchId(r.(requestId := requestId), l, hash) == BatchId(r, l, hash)
  {}

  /** Without a key, two deliveries of the same append have the same token only under the same
      request id. */
  lemma {:induction false} KeylessToken(r: Request, requestId: string, l: Layout, hash: Json -> string, docs: set<Json>)
    requires r.idempotencyKey == None || r.idempotencyKey == Some("")
    requires CollisionFree(hash, docs) && r.operation in docs && ScopeDocument(r.caller) in docs
    requires BatchMaterial(r, l, hash) in docs && BatchMaterial(r.(requestId := requestId), l, hash) in docs
    ensures BatchId(r.(requestId := requestId), l, hash) == BatchId(r, l, hash) <==> requestId == r.requestId
  {
    hide BatchMaterial, BatchId, ScopeDocument;
    TokenIdentity(r.(requestId := requestId), r, l, l, hash, docs);
  }

  // ---- Records --------------------------------------------------------------

  type Record = map<string, Json>

  /** `record.get(name)`. */
  function Get(record: Record, name: string): Json {
    if name in record then record[name] else JNull
  }

  /** Every logical field, absent ones as null. */
  function CanonicalRecord(l: Layout, record: Record): Record {
    map name | name in Elements(l.Names()) :: Get(record, name)
  }

  predicate FieldOk(c: Column, raw: Json) {
    (raw.JNull? ==> c.nullable) && Coerce(raw, c.logicalType, c.many).Ok?
  }

  predicate RecordOk(l: Layout, record: Record) {
    && record.Keys <= Elements(l.Names())
    && forall i :: 0 <= i < |l.columns| ==> FieldOk(l.columns[i], Get(record, l.columns[i].logical))
  }

  /** A field may be missing exactly when its column is nullable and no array: an array column
      without a value is refused also where it is nullable. */
  lemma {:induction false} RecordAccepted(l: Layout, record: Record)
    ensures RecordOk(l, record) <==>
            && (forall name :: name in record ==> name in l.Names())
            && (forall i :: 0 <= i < |l.columns| ==>
                  if l.columns[i].logical in record then FieldOk(l.columns[i], record[l.columns[i].logical])
                  else l.columns[i].nullable && !l.columns[i].many)
  {
    hide CoerceKind, CoerceAll, KindOf;
    forall i | 0 <= i < |l.columns|
      ensures FieldOk(l.columns[i], JNull) <==> l.columns[i].nullable && !l.columns[i].many {}
    if forall name :: name in record ==> name in l.Names() { assert record.Keys <= Elements(l.Names()); }
    if RecordOk(l, record) {
      forall name | name in record ensures name in l.Names() { assert name in record.Keys; }
    }
  }

  function LogicalCells(l: Layout, record: Record): (r: seq<Py>)
    requires RecordOk(l, record)
    ensures |r| == |l.columns|
  {
    seq(|l.columns|, i requires 0 <= i < |l.columns| => Coerce(Get(record, l.columns[i].logical),
                                                               l.columns[i].logicalType, l.columns[i].many).value)
  }

  /** The hidden cells, in the order of the hidden columns; the ingestion time is counted in
      nanoseconds. */
  function HiddenCells(r: Request, l: Layout, record: Record, token: string, now: int,
                       hash: Json -> string): (cells: seq<Py>)
    ensures |cells| == 7
  {
    [PyStr(ScopeDigestOf(r.caller, hash)),
     PyStr(match r.caller.tenant case None => "" case Some(t) => t),
     PyStr(token),
     PyStr(hash(JObj(CanonicalRecord(l, record)))),
     PyStr(l.resource.Canonical()),
     PyStr(l.schemaVersion),
     PyInt(now)]
  }

  function PreparedRow(r: Request, l: Layout, record: Record, token: string, now: int,
                       hash: Json -> string): (cells: seq<Py>)
    requires RecordOk(l, record)
    ensures |cells| == 7 + |l.columns|
  {
    HiddenCells(r, l, record, token, now, hash) + LogicalCells(l, record)
  }

  /** `_prepare_row`. */
  method PrepareRow(r: Request, l: Layout, record: Record, token: string, now: int, hash: Json -> string)
    returns (row: Result<seq<Py>>)
    ensures row.Ok? <==> RecordOk(l, record)
    ensures row.Ok? ==> row.value == PreparedRow(r, l, record, token, now, hash)
  {
    hide Coerce;
    var unknown := record.Keys - Elements(l.Names());
    if unknown != {} { return Err(UnknownField); }
    assert record.Keys <= Elements(l.Names()) by {
      forall k | k in record.Keys ensures k in Elements(l.Names()) { assert k !in unknown; }
    }
    var logical: seq<Py> := [];
    for i := 0 to |l.columns|
      invariant |logical| == i
      invariant forall j :: 0 <= j < i ==> FieldOk(l.columns[j], Get(record, l.columns[j].logical))
      invariant forall j :: 0 <= j < i ==>
        logical[j] == Coerce(Get(record, l.columns[j].logical), l.columns[j].logicalType, l.columns[j].many).value
    {
      var column := l.columns[i];
      var raw := JNull;
      if column.logical !in record {
        if !column.nullable { return Err(BadBatch); }
      } else {
        raw := record[column.logical];
      }
      if raw.JNull? && !column.nullable { return Err(BadBatch); }
      var cell := Coerce(raw, column.logicalType, column.many);
      if cell.Err? { return Err(cell.error); }
      logical := logical + [cell.value];
    }
    var hidden := HiddenCells(r, l, record, token, now, hash);
    assert logical == LogicalCells(l, record);
    return Ok(hidden + logical);
  }

  /** `_records`: one record, or an array of records. */
  function Records(data: Json): Result<seq<Record>> {
    match data
    case JObj(m) => Ok([m])
    case JArr(items) =>
      if forall i :: 0 <= i < |items| ==> items[i].JObj?
      then Ok(seq(|items|, i requires 0 <= i < |items| && items[i].JObj? => items[i].members))
      else Err(BadType)
    case _ => Err(BadType)
  }

  /** Records written as documents. */
  function Documents(records: seq<Record>): (r: seq<Json>)
    ensures |r| == |records|
  {
    seq(|records|, i requires 0 <= i < |records| => JObj(records[i]))
  }

  /** Whatever records are written is read back. */
  lemma {:induction false} RecordsOfWritten(rs: seq<Record>)
    ensures Records(JArr(Documents(rs))) == Ok(rs)
    ensures |rs| == 1 ==> Records(JObj(rs[0])) == Ok(rs)
  {
    var items := Documents(rs);
    forall i | 0 <= i < |items| ensures items[i].JObj? {}
    assert Records(JArr(items)).value == rs;
    if |rs| == 1 { assert rs == [rs[0]]; }
  }

  lemma {:induction false} RecordsInverse(data: Json)
    ensures Records(data).Ok? ==>
            data == JArr(Documents(Records(data).value)) || [data] == Documents(Records(data).value)
    ensures Records(data).Err? ==> forall rs :: data != JArr(Documents(rs)) && [data] != Documents(rs)
  {
    if Records(data).Ok? {
      var rs := Records(data).value;
      if data.JArr? {
        assert data.items == Documents(rs);
      } else {
        assert [data] == Documents(rs);
      }
    } else {
      forall rs ensures data != JArr(Documents(rs)) && [data] != Documents(rs) {
        RecordsOfWritten(rs);
        assert [data][0] == data;
      }
    }
  }

  /** Reads back exactly what records can be written as: an array of them, or one alone;
      everything else is refused. */
  method ReadRecords(data: Json) returns (r: Result<seq<Record>>)
    ensures r == Records(data)
    ensures r.Ok? ==> data == JArr(Documents(r.value)) || [data] == Documents(r.value)
    ensures r.Err? ==> forall rs :: data != JArr(Documents(rs)) && [data] != Documents(rs)
  {
    RecordsInverse(data);
    if data.JObj? { return Ok([data.members]); }
    if !data.JArr? { return Err(BadType); }
    var result: seq<Record> := [];
    for i := 0 to |data.items|
      invariant |result| == i
      invariant forall j :: 0 <= j < i ==> data.items[j].JObj? && result[j] == data.items[j].members
    {
      if !data.items[i].JObj? { return Err(BadType); }
      result := result + [data.items[i].members];
    }
    assert result == Records(data).value;
    return Ok(result);
  }

  datatype Limits = Limits(rows: nat, bytes: nat)

  datatype Batch = Batch(token: string, rows: seq<seq<Py>>)

  predicate BatchOk(l: Layout, data: Json, limits: Limits, size: Json -> nat) {
    && Records(data).Ok?
    && 0 < |Records(data).value| <= limits.rows
    && size(JArr(Documents(Records(data).value))) <= limits.bytes
    && forall i :: 0 <= i < |Records(data).value| ==> RecordOk(l, Records(data).value[i])
  }

  function PreparedBatch(r: Request, l: Layout, data: Json, now: int, hash: Json -> string): (b: Batch)
    requires Records(data).Ok? && forall i :: 0 <= i < |Records(data).value| ==> RecordOk(l, Records(data).value[i])
    ensures |b.rows| == |Records(data).value|
  {
    var records, token := Records(data).value, BatchId(r, l, hash);
    Batch(token, seq(|records|, i requires 0 <= i < |records| => PreparedRow(r, l, records[i], token, now, hash)))
  }

  /** `prepare_batch`; `size` is the length of the canonical encoding. */
  method PrepareBatch(r: Request, l: Layout, data: Json, now: int, limits: Limits, size: Json -> nat,
                      hash: Json -> string)
    returns (b: Result<Batch>)
    ensures b.Ok? <==> BatchOk(l, data, limits, size)
    ensures b.Ok? ==> b.value == PreparedBatch(r, l, data, now, hash)
  {
    hide RecordOk, PreparedRow, BatchId;
    var records := ReadRecords(data);
    if records.Err? { return Err(records.error); }
    var values := records.value;
    if values == [] || |values| > limits.rows { return Err(BadBatch); }
    if size(JArr(Documents(values))) > limits.bytes { return Err(BadBatch); }
    var token := BatchId(r, l, hash);
    var rows: seq<seq<Py>> := [];
    for i := 0 to |values|
      invariant |rows| == i
      invariant forall j :: 0 <= j < i ==>
                RecordOk(l, values[j]) && rows[j] == PreparedRow(r, l, values[j], token, now, hash)
    {
      var row := PrepareRow(r, l, values[i], token, now, hash);
      if row.Err? { return Err(row.error); }
      rows := rows + [row.value];
    }
    assert rows == PreparedBatch(r, l, data, now, hash).rows;
    return Ok(Batch(token, rows));
  }

  datatype Insert = Insert(table: string, columns: seq<string>, rows: seq<seq<Py>>, settings: map<string, Json>)

  datatype Receipt = Receipt(batch: string, accepted: nat)

  /** `BatchExecutor.execute`: one insert whose deduplication token is the batch identity. */
  method Execute(l: Layout, batch: Batch, topology: string, quorum: int) returns (insert: Insert, receipt: Receipt)
    ensures insert.table == l.table && insert.columns == l.InsertColumns() && insert.rows == batch.rows
    ensures insert.settings.Keys == {"insert_deduplication_token"}
            + (if topology == "clickhouse-replicated" then {"insert_quorum"} else {})
    ensures insert.settings["insert_deduplication_token"] == JStr(batch.token)
    ensures "insert_quorum" in insert.settings ==> insert.settings["insert_quorum"] == JInt(quorum)
    ensures receipt == Receipt(batch.token, |batch.rows|)
  {
    var settings := map["insert_deduplication_token" := JStr(batch.token)];
    if topology == "clickhouse-replicated" {
      settings := settings["insert_quorum" := JInt(quorum)];
    }
    insert := Insert(l.table, l.InsertColumns(), batch.rows, settings);
    receipt := Receipt(batch.token, |batch.rows|);
  }

  // ---- Stored rows ----------------------------------------------------------

  /** Whether the engine keeps the integers of such a column as instants. */
  predicate HoldsTicks(ctype: string)
    decreases |ctype|
  {
    || ctype == TIMESTAMP_TYPE
    || (HasWrapper(ctype, "Array(") && HoldsTicks(Unwrapped(ctype, "Array(")))
    || (HasWrapper(ctype, "Nullable(") && HoldsTicks(Unwrapped(ctype, "Nullable(")))
  }

  function Innermost(t: TypeTree): TypeTree {
    match t
    case ArrayOf(item) => Innermost(item)
    case NullableOf(item) => Innermost(item)
    case _ => t
  }

  /** The types that hold ticks are the timestamps and nullables and arrays of them. */
  lemma {:induction false} TicksInside(t: TypeTree)
    requires Formed(t)
    ensures HoldsTicks(Spelled(t)) <==> Innermost(t) == Plain("DateTime64(9, 'UTC')")
  {
    var s, many, maybe, time := Spelled(t), "Array(", "Nullable(", TIMESTAMP_TYPE;
    assert many[0] == 'A' && maybe[0] == 'N' && time[0] == 'D';
    match t
    case Plain(name) => assert s == time <==> t == Plain("DateTime64(9, 'UTC')");
    case Dictionary => assert s[0] == 'L';
    case DecimalOf(p, q) => assert s[1] == 'e' && time[1] == 'a' && s[0] == 'D';
    case ArrayOf(item) =>
      TicksInside(item);
      assert s[0] == 'A' && Unwrapped(s, many) == Spelled(item);
    case NullableOf(item) =>
      TicksInside(item);
      assert s[0] == 'N' && Unwrapped(s, maybe) == Spelled(item);
  }

  function StoredCells(l: Layout, cells: seq<Py>): (r: seq<Value>)
    requires |cells| == 7 + |l.columns|
    ensures |r| == |cells|
  {
    seq(|cells|, i requires 0 <= i < |cells| =>
      Stored(cells[i], if i < 7 then i == 6 else HoldsTicks(l.columns[i - 7].ctype)))
  }

  /** A row tuple under its column names. */
  function Zip(names: seq<string>, values: seq<Value>): Row
    requires |names| == |values|
  {
    if names == [] then map[] else
    var n := |names| - 1;
    Zip(names[..n], values[..n])[names[n] := values[n]]
  }

  lemma {:induction false} ZipLookup(names: seq<string>, values: seq<Value>, i: nat)
    requires |names| == |values| && Unique(names) && i < |names|
    ensures Cell(Zip(names, values), names[i]) == values[i]
  {
    var n := |names| - 1;
    if i < n {
      ZipLookup(names[..n], values[..n], i);
      assert names[i] != names[n];
    }
  }

  /** The stored row of an inserted tuple. */
  function RowOf(l: Layout, cells: seq<Py>): Row
    requires |cells| == 7 + |l.columns|
  {
    Zip(l.InsertColumns(), StoredCells(l, cells))
  }

  /** No user column has the physical name of a hidden one. */
  predicate HiddenFree(l: Layout) { forall c :: c in l.columns ==> c.physical !in HIDDEN_COLUMNS }

  lemma {:induction false} HiddenUnique()
    ensures Unique(HIDDEN_COLUMNS)
  {
    assert |HIDDEN_SCOPE| == 27 && |HIDDEN_TENANT| == 16 && |HIDDEN_BATCH| == 18 && |HIDDEN_ROW| == 25;
    assert |HIDDEN_RESOURCE| == 18 && |HIDDEN_SCHEMA| == 24 && |HIDDEN_INGESTED| == 21;
    assert HIDDEN_BATCH[10] == 'b' && HIDDEN_RESOURCE[10] == 'r';
  }

  lemma {:induction false} InsertColumnsUnique(l: Layout)
    requires ColumnsOk(l)
    ensures Unique(l.InsertColumns()) <==> HiddenFree(l)
  {
    var names := PhysicalNames(l.columns);
    HiddenUnique();
    UniqueConcat(HIDDEN_COLUMNS, names);
    if HiddenFree(l) {
      forall x | x in names ensures x !in HIDDEN_COLUMNS {
        var i :| 0 <= i < |names| && names[i] == x;
        assert l.columns[i] in l.columns;
      }
    }
    if exists c :: c in l.columns && c.physical in HIDDEN_COLUMNS {
      var c :| c in l.columns && c.physical in HIDDEN_COLUMNS;
      var i :| 0 <= i < |l.columns| && l.columns[i] == c;
      assert names[i] in names && names[i] in Elements(HIDDEN_COLUMNS) && names[i] in Elements(names);
    }
  }

  lemma {:induction false} SameLogicalNames(l: Layout, renamed: Layout)
    requires l.columns != [] && renamed == l.(columns := [l.columns[0].(physical := HIDDEN_ROW)] + l.columns[1..])
    ensures renamed.Names() == l.Names()
  {}

  lemma {:induction false} RenamedUnique(l: Layout, renamed: Layout)
    requires l.columns != [] && HiddenFree(l) && Unique(PhysicalNames(l.columns))
    requires renamed == l.(columns := [l.columns[0].(physical := HIDDEN_ROW)] + l.columns[1..])
    ensures Unique(PhysicalNames(renamed.columns))
  {
    var names, before := PhysicalNames(renamed.columns), PhysicalNames(l.columns);
    assert HIDDEN_COLUMNS[3] == HIDDEN_ROW;
    forall i, j | 0 <= i < j < |names| ensures names[i] != names[j] {
      assert names[j] == before[j] && l.columns[j] in l.columns;
      if i > 0 { assert names[i] == before[i]; }
    }
  }

  lemma {:induction false} HiddenIsIdentifier()
    ensures PhysicalIdentifier(HIDDEN_ROW)
  {
    assert |HIDDEN_ROW| == 25;
  }

  lemma {:induction false} RenamedValid(l: Layout, renamed: Layout)
    requires ColumnsOk(l) && renamed == l.(columns := [l.columns[0].(physical := HIDDEN_ROW)] + l.columns[1..])
    ensures forall c :: c in renamed.columns ==> c.Valid()
  {
    hide ValidColumnType, PhysicalIdentifier, Unique;
    HiddenIsIdentifier();
    forall c | c in renamed.columns ensures c.Valid() {
      var i :| 0 <= i < |renamed.columns| && renamed.columns[i] == c;
      assert l.columns[i] in l.columns;
    }
  }

  lemma {:induction false} RenamedColumns(l: Layout, renamed: Layout)
    requires ColumnsOk(l) && HiddenFree(l) && renamed == l.(columns := [l.columns[0].(physical := HIDDEN_ROW)]
             + l.columns[1..])
    ensures ColumnsOk(renamed)
  {
    hide Column.Valid, HiddenFree;
    SameLogicalNames(l, renamed);
    RenamedValid(l, renamed);
    RenamedUnique(l, renamed);
  }

  /** Construction reserves the prefix for logical names only: giving a column the physical
      name of a hidden one is accepted, and then insert columns repeat a name. */
  lemma {:induction false} ReservedNameAccepted(l: Layout)
    requires Acceptable(l) && HiddenFree(l)
    ensures var renamed := l.(columns := [l.columns[0].(physical := HIDDEN_ROW)] + l.columns[1..]);
            Acceptable(renamed) && !Unique(renamed.InsertColumns())
  {
    var renamed := l.(columns := [l.columns[0].(physical := HIDDEN_ROW)] + l.columns[1..]);
    assert HIDDEN_COLUMNS[3] == HIDDEN_ROW;
    SameLogicalNames(l, renamed);
    RenamedColumns(l, renamed);
    InsertColumnsUnique(renamed);
    assert renamed.columns[0] in renamed.columns;
  }

  // ---- Entries --------------------------------------------------------------

  /** What an append adds: a canonical record in a scope. */
  datatype Entry = Entry(caller: Caller, record: Record)

  /** The stored value of a column for a record. */
  function ColumnValue(c: Column, record: Record): Value
    requires FieldOk(c, Get(record, c.logical))
  {
    Stored(Coerce(Get(record, c.logical), c.logicalType, c.many).value, HoldsTicks(c.ctype))
  }

  /** The identity and the content that a stored row must have to be a row of an entry. */
  ghost predicate RowFor(l: Layout, row: Row, e: Entry, hash: Json -> string) {
    && e.record.Keys == Elements(l.Names()) && RecordOk(l, e.record)
    && Cell(row, HIDDEN_SCOPE) == StrV(ScopeDigestOf(e.caller, hash))
    && Cell(row, HIDDEN_ROW) == StrV(hash(JObj(e.record)))
    && forall i :: 0 <= i < |l.columns| ==> Cell(row, l.columns[i].physical) == ColumnValue(l.columns[i], e.record)
  }

  lemma {:induction false} CanonicalGet(l: Layout, record: Record, i: nat)
    requires i < |l.columns|
    ensures Get(CanonicalRecord(l, record), l.columns[i].logical) == Get(record, l.columns[i].logical)
  {
    assert l.Names()[i] in l.Names();
  }

  lemma {:induction false} CanonicalOk(l: Layout, record: Record)
    requires RecordOk(l, record)
    ensures CanonicalRecord(l, record).Keys == Elements(l.Names()) && RecordOk(l, CanonicalRecord(l, record))
  {
    hide FieldOk;
    forall i | 0 <= i < |l.columns|
      ensures FieldOk(l.columns[i], Get(CanonicalRecord(l, record), l.columns[i].logical)) {
      CanonicalGet(l, record, i);
      assert FieldOk(l.columns[i], Get(record, l.columns[i].logical));
    }
  }

  lemma {:induction false} HiddenStored(r: Request, l: Layout, record: Record, token: string, now: int,
                                        hash: Json -> string)
    requires ColumnsOk(l) && HiddenFree(l) && RecordOk(l, record)
    ensures var row := RowOf(l, PreparedRow(r, l, record, token, now, hash));
            && Cell(row, HIDDEN_SCOPE) == StrV(ScopeDigestOf(r.caller, hash))
            && Cell(row, HIDDEN_ROW) == StrV(hash(JObj(CanonicalRecord(l, record))))
            && Cell(row, HIDDEN_BATCH) == StrV(token) && Cell(row, HIDDEN_INGESTED) == TimeV(now)
            && Cell(row, HIDDEN_TENANT) == StrV(if r.caller.tenant.Some? then r.caller.tenant.value else "")
            && Cell(row, HIDDEN_RESOURCE) == StrV(l.resource.Canonical())
            && Cell(row, HIDDEN_SCHEMA) == StrV(l.schemaVersion)
  {
    hide RecordOk, ScopeDigestOf, Zip, ColumnsOk, HiddenFree, CanonicalRecord, LogicalCells, HoldsTicks;
    InsertColumnsUnique(l);
    var cells := PreparedRow(r, l, record, token, now, hash);
    var names, values := l.InsertColumns(), StoredCells(l, cells);
    ZipLookup(names, values, 0);
    ZipLookup(names, values, 1);
    ZipLookup(names, values, 2);
    ZipLookup(names, values, 4);
    ZipLookup(names, values, 5);
    ZipLookup(names, values, 3);
    ZipLookup(names, values, 6);
  }

  lemma {:induction false} ColumnStored(r: Request, l: Layout, record: Record, token: string, now: int,
                                        hash: Json -> string, i: nat)
    requires ColumnsOk(l) && HiddenFree(l) && RecordOk(l, record) && i < |l.columns|
    ensures FieldOk(l.columns[i], Get(CanonicalRecord(l, record), l.columns[i].logical))
    ensures Cell(RowOf(l, PreparedRow(r, l, record, token, now, hash)), l.columns[i].physical)
            == ColumnValue(l.columns[i], CanonicalRecord(l, record))
  {
    hide Coerce, ScopeDigestOf, HoldsTicks, Zip, ColumnsOk, HiddenFree, CanonicalRecord, HiddenCells, Get;
    InsertColumnsUnique(l);
    var cells := PreparedRow(r, l, record, token, now, hash);
    var names, values := l.InsertColumns(), StoredCells(l, cells);
    ZipLookup(names, values, 7 + i);
    assert names[7 + i] == l.columns[i].physical && cells[7 + i] == LogicalCells(l, record)[i];
    CanonicalGet(l, record, i);
  }

  /** A prepared row is stored as a row of its scope and canonical record. */
  lemma {:induction false} PreparedIsRowFor(r: Request, l: Layout, record: Record, token: string, now: int,
                                            hash: Json -> string)
    requires ColumnsOk(l) && HiddenFree(l) && RecordOk(l, record)
    ensures RowFor(l, RowOf(l, PreparedRow(r, l, record, token, now, hash)),
                   Entry(r.caller, CanonicalRecord(l, record)), hash)
  {
    hide PreparedRow, ScopeDigestOf, ColumnsOk, HiddenFree, CanonicalRecord, RowOf, RecordOk, ColumnValue;
    CanonicalOk(l, record);
    HiddenStored(r, l, record, token, now, hash);
    forall i | 0 <= i < |l.columns|
      ensures FieldOk(l.columns[i], Get(CanonicalRecord(l, record), l.columns[i].logical))
      ensures Cell(RowOf(l, PreparedRow(r, l, record, token, now, hash)), l.columns[i].physical)
              == ColumnValue(l.columns[i], CanonicalRecord(l, record))
    {
      ColumnStored(r, l, record, token, now, hash, i);
    }
  }

  // ---- Replacement keys -----------------------------------------------------

  lemma {:induction false} PhysicalCell(l: Layout, row: Row, e: Entry, hash: Json -> string, name: string)
    requires RowFor(l, row, e, hash) && name in l.Names()
    ensures FieldOk(l.ColumnOf(name).value, Get(e.record, name))
    ensures Cell(row, l.Physical(name)) == ColumnValue(l.ColumnOf(name).value, e.record)
  {
    hide Coerce, ScopeDigestOf, HoldsTicks, FieldOk, ColumnValue;
    var c := l.ColumnOf(name).value;
    var i :| 0 <= i < |l.columns| && l.columns[i] == c;
    assert FieldOk(l.columns[i], Get(e.record, l.columns[i].logical));
  }

  /** Rows of the same entry agree on every column that a key, an order or a filter can read. */
  lemma {:induction false} SameEntrySameCells(l: Layout, a: Row, b: Row, e: Entry, hash: Json -> string, name: string)
    requires RowFor(l, a, e, hash) && RowFor(l, b, e, hash) && name in l.Names()
    ensures Cell(a, l.Physical(name)) == Cell(b, l.Physical(name))
  {
    PhysicalCell(l, a, e, hash, name);
    PhysicalCell(l, b, e, hash, name);
  }

  lemma {:induction false} KeyParts(l: Layout)
    requires RolesOk(l)
    ensures var k := KeyColumns(l);
            && |k| == 2 + |l.identityFields| + (if l.appendOnly then 1 else 0)
            && k[0] == HIDDEN_SCOPE && k[1] == l.Physical(l.timestampField)
            && (forall i :: 0 <= i < |l.identityFields| ==> k[2 + i] == PhysicalOf(l, l.identityFields)[i])
            && (l.appendOnly ==> k[|k| - 1] == HIDDEN_ROW)
  {}

  predicate SameValue(l: Layout, a: Row, b: Row, name: string) {
    name in l.Names() && Cell(a, l.Physical(name)) == Cell(b, l.Physical(name))
  }

  /** Rows share a replacement key exactly when scope, timestamp and identity values agree
      and, for an append-only layout, the row fingerprints agree as well. */
  lemma {:induction false} KeyAgreement(l: Layout, a: Row, b: Row)
    requires RolesOk(l)
    ensures KeyOf(l, a) == KeyOf(l, b) <==>
            && Cell(a, HIDDEN_SCOPE) == Cell(b, HIDDEN_SCOPE)
            && SameValue(l, a, b, l.timestampField)
            && (forall name :: name in l.identityFields ==> SameValue(l, a, b, name))
            && (l.appendOnly ==> Cell(a, HIDDEN_ROW) == Cell(b, HIDDEN_ROW))
  {
    hide KeyColumns;
    KeyParts(l);
    RoleNames(l);
    var k, ids := KeyColumns(l), PhysicalOf(l, l.identityFields);
    if KeyOf(l, a) == KeyOf(l, b) {
      forall i | 0 <= i < |k| ensures Cell(a, k[i]) == Cell(b, k[i]) { assert KeyOf(l, a)[i] == KeyOf(l, b)[i]; }
      assert Cell(a, k[0]) == Cell(b, k[0]) && Cell(a, k[1]) == Cell(b, k[1]);
      forall name | name in l.identityFields ensures SameValue(l, a, b, name) {
        var i :| 0 <= i < |l.identityFields| && l.identityFields[i] == name;
        assert k[2 + i] == ids[i];
      }
    } else {
      var i :| 0 <= i < |k| && KeyOf(l, a)[i] != KeyOf(l, b)[i];
      assert Cell(a, k[i]) != Cell(b, k[i]);
      if 2 <= i < 2 + |l.identityFields| {
        assert k[2 + (i - 2)] == ids[i - 2] && l.identityFields[i - 2] in l.identityFields;
      }
    }
  }

  /** The documents that were hashed are told apart. */
  ghost predicate Told(hash: Json -> string, docs: set<Json>, e: Entry) {
    CollisionFree(hash, docs) && ScopeDocument(e.caller) in docs && JObj(e.record) in docs
  }

  lemma {:induction false} RowIdentity(l: Layout, row: Row, e: Entry, hash: Json -> string)
    requires RowFor(l, row, e, hash)
    ensures Cell(row, HIDDEN_SCOPE) == StrV(ScopeDigestOf(e.caller, hash))
    ensures Cell(row, HIDDEN_ROW) == StrV(hash(JObj(e.record)))
  {}

  /** Append-only: two rows share a replacement key exactly when their scopes and canonical
      records are equal. */
  lemma {:induction false} KeyIsEntry(l: Layout, a: Row, e: Entry, b: Row, f: Entry, hash: Json -> string,
                                      docs: set<Json>)
    requires RolesOk(l) && l.appendOnly && RowFor(l, a, e, hash) && RowFor(l, b, f, hash)
    requires Told(hash, docs, e) && Told(hash, docs, f)
    ensures KeyOf(l, a) == KeyOf(l, b) <==> e == f
  {
    hide RowFor, KeyOf, ScopeDigestOf, ScopeDocument;
    KeyAgreement(l, a, b);
    RowIdentity(l, a, e, hash);
    RowIdentity(l, b, f, hash);
    ScopeIsolation(e.caller, f.caller, hash, docs);
    if e == f {
      RoleNames(l);
      SameEntrySameCells(l, a, b, e, hash, l.timestampField);
      forall name | name in l.identityFields ensures SameValue(l, a, b, name) {
        SameEntrySameCells(l, a, b, e, hash, name);
      }
    }
    assert JObj(e.record) == JObj(f.record) ==> e.record == f.record;
  }

  /** The stored value of a field of a record, null where it cannot be stored. */
  function FieldValue(l: Layout, record: Record, name: string): Value {
    match l.ColumnOf(name)
    case None => Null
    case Some(c) => if FieldOk(c, Get(record, c.logical)) then ColumnValue(c, record) else Null
  }

  /** Same scope, timestamp and identity values. */
  ghost predicate SameIdentity(l: Layout, e: Entry, f: Entry) {
    && e.caller == f.caller
    && FieldValue(l, e.record, l.timestampField) == FieldValue(l, f.record, l.timestampField)
    && forall name :: name in l.identityFields ==> FieldValue(l, e.record, name) == FieldValue(l, f.record, name)
  }

  lemma {:induction false} FieldCell(l: Layout, row: Row, e: Entry, hash: Json -> string, name: string)
    requires RowFor(l, row, e, hash) && name in l.Names()
    ensures Cell(row, l.Physical(name)) == FieldValue(l, e.record, name)
  {
    hide RowFor, FieldOk, ColumnValue;
    PhysicalCell(l, row, e, hash, name);
  }

  /** Without the append-only marker, rows share a key exactly when their scopes and the
      stored values of timestamp and identity agree, whatever else the records hold. */
  lemma {:induction false} LegacyKey(l: Layout, a: Row, e: Entry, b: Row, f: Entry, hash: Json -> string,
                                     docs: set<Json>)
    requires RolesOk(l) && !l.appendOnly && RowFor(l, a, e, hash) && RowFor(l, b, f, hash)
    requires Told(hash, docs, e) && Told(hash, docs, f)
    ensures KeyOf(l, a) == KeyOf(l, b) <==> SameIdentity(l, e, f)
  {
    hide RowFor, KeyOf, ScopeDigestOf, ScopeDocument, FieldValue;
    KeyAgreement(l, a, b);
    RowIdentity(l, a, e, hash);
    RowIdentity(l, b, f, hash);
    ScopeIsolation(e.caller, f.caller, hash, docs);
    RoleNames(l);
    forall name | name in l.Names()
      ensures SameValue(l, a, b, name) <==> FieldValue(l, e.record, name) == FieldValue(l, f.record, name)
    {
      FieldCell(l, a, e, hash, name);
      FieldCell(l, b, f, hash, name);
    }
  }

  /** A row belongs to one entry only. */
  lemma {:induction false} OneEntry(l: Layout, row: Row, e: Entry, f: Entry, hash: Json -> string, docs: set<Json>)
    requires RowFor(l, row, e, hash) && RowFor(l, row, f, hash) && Told(hash, docs, e) && Told(hash, docs, f)
    ensures e == f
  {
    hide RowFor, ScopeDigestOf, ScopeDocument;
    RowIdentity(l, row, e, hash);
    RowIdentity(l, row, f, hash);
    ScopeIsolation(e.caller, f.caller, hash, docs);
    assert JObj(e.record) == JObj(f.record);
  }
}
