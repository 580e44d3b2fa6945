/** The replacing table behind a layout: concurrent inserts, retries, deduplication,
    background merges and FINAL reads as steps of a state machine. */
module AppendStore {
  import opened Common
  import opened Rows
  import opened Layouts
  import opened Sorts
  import opened Keysets
  import opened Ingestion
  import opened Identifiers
  import opened Schema
  import opened Definitions
  import opened Timestamps
  import Calendar

  // ---- Partitions and versions ----------------------------------------------

  const SECOND := 1_000_000_000

  /** What the partition functions of an engine make of a value: the hour, the day or the month;
      values that are no timestamps, and other functions, share one partition. */
  function PartitionValue(f: string, v: Value): Option<int> {
    if !v.TimeV? then None else
    var days := v.ticks / (86_400 * SECOND);
    if f == "toStartOfHour" then Some(v.ticks / (3_600 * SECOND))
    else if f == "toDate" then Some(days)
    else if f == "toYYYYMM" && 0 <= Calendar.EPOCH_DAY + days <= Calendar.LAST_DAY then
      var date := Calendar.DateOfDay(Calendar.EPOCH_DAY + days);
      Some(date.year * 100 + date.month)
    else None
  }

  /** The partition that the definition of the table puts a row in. */
  function PartitionOf(t: TableDef, row: Row): Option<int> {
    match t.partition
    case None => None
    case Some((f, column)) => PartitionValue(f, Cell(row, column))
  }

  /** The values of the columns that the definition names as key. */
  function KeyIn(t: TableDef, row: Row): (k: seq<Value>)
    ensures |k| == |t.key|
  {
    seq(|t.key|, i requires 0 <= i < |t.key| => Cell(row, t.key[i]))
  }

  /** The value of the column that the definition names as version. */
  function Version(t: TableDef, row: Row): int {
    match Cell(row, t.version) case TimeV(ticks) => ticks case _ => 0
  }

  /** The partition is decided by a column of the key. */
  predicate KeyedPartition(t: TableDef) { t.partition.Some? ==> t.partition.value.1 in t.key }

  lemma {:induction false} KeyedRows(t: TableDef, a: Row, b: Row)
    requires KeyedPartition(t) && KeyIn(t, a) == KeyIn(t, b)
    ensures PartitionOf(t, a) == PartitionOf(t, b)
  {
    hide PartitionValue;
    if t.partition.Some? {
      var i :| 0 <= i < |t.key| && t.key[i] == t.partition.value.1;
      assert KeyIn(t, a)[i] == KeyIn(t, b)[i];
    }
  }

  ghost predicate CreatedAs(t: TableDef, l: Layout, database: string, names: seq<string>)
    requires RolesOk(l)
  {
    && PhysicalIdentifier(database) && IndexNames(l, names)
    && ReadTable(CreateTable(database, l, names)) == Some(Statement(database, l.table, t))
  }

  /** The table was created by the statement that is emitted for the layout. */
  ghost predicate Created(t: TableDef, l: Layout)
    requires RolesOk(l)
  {
    exists database, names :: CreatedAs(t, l, database, names)
  }

  /** What the engine read from that statement. */
  lemma {:induction false} CreatedTable(t: TableDef, l: Layout)
    requires HeaderOk(l) && ColumnsOk(l) && RolesOk(l) && IndexesOk(l) && Created(t, l)
    ensures t.key == KeyColumns(l) && t.version == HIDDEN_INGESTED && KeyedPartition(t)
    ensures t.partition == Some((PartitionFunction(l.partition), l.Physical(l.timestampField)))
    ensures forall row :: KeyIn(t, row) == KeyOf(l, row)
  {
    hide ReadTable, CreateTable, HeaderOk, ColumnsOk, IndexesOk, IndexNames, PhysicalIdentifier, PartitionFunction,
         LayoutTable;
    var database, names :| CreatedAs(t, l, database, names);
    TableIsRead(database, l, names);
    assert TableFor(t, database, l);
    TableForFields(t, database, l);
    assert KeyColumns(l)[1] == l.Physical(l.timestampField);
    forall row ensures KeyIn(t, row) == KeyOf(l, row) {}
  }

  /** In the table that is created, rows with equal replacement keys always lie in the same
      partition, for every layout and interval. */
  lemma {:induction false} SameKeySamePartition(t: TableDef, l: Layout, a: Row, b: Row)
    requires HeaderOk(l) && ColumnsOk(l) && RolesOk(l) && IndexesOk(l) && Created(t, l)
    requires KeyOf(l, a) == KeyOf(l, b)
    ensures PartitionOf(t, a) == PartitionOf(t, b)
  {
    hide HeaderOk, ColumnsOk, IndexesOk, Created, KeyOf, PartitionOf, KeyIn, KeyedPartition, PartitionFunction;
    CreatedTable(t, l);
    KeyedRows(t, a, b);
  }

  lemma {:induction false} DayOfTicks(ticks: int)
    requires Storable(ticks)
    ensures var day := Calendar.EPOCH_DAY + ticks / (86_400 * SECOND);
            && 0 <= day <= Calendar.LAST_DAY
            && CivilOfSeconds(ticks / 1_000_000_000).date == Calendar.DateOfDay(day)
  {
    hide Calendar.DateOfDay;
    assert ticks / (86_400 * SECOND) == ticks / 1_000_000_000 / 86_400;
  }

  /** The interval of a partition of timestamps. */
  ghost predicate SameInterval(interval: string, x: int, y: int)
    requires Storable(x) && Storable(y)
  {
    if interval == "hour" then x / 3_600_000_000_000 == y / 3_600_000_000_000
    else if interval == "day" then x / 86_400_000_000_000 == y / 86_400_000_000_000
    else var c, d := CivilOfSeconds(x / 1_000_000_000).date, CivilOfSeconds(y / 1_000_000_000).date;
         c.year == d.year && c.month == d.month
  }

  lemma {:induction false} HourAndDay(x: int, y: int)
    ensures PartitionValue("toStartOfHour", TimeV(x)) == PartitionValue("toStartOfHour", TimeV(y)) <==>
            x / 3_600_000_000_000 == y / 3_600_000_000_000
    ensures PartitionValue("toDate", TimeV(x)) == PartitionValue("toDate", TimeV(y)) <==>
            x / 86_400_000_000_000 == y / 86_400_000_000_000
  {}

  lemma {:induction false} MonthValue(x: int)
    requires Storable(x)
    ensures var c := CivilOfSeconds(x / 1_000_000_000).date;
            PartitionValue("toYYYYMM", TimeV(x)) == Some(c.year * 100 + c.month) && 1 <= c.month <= 12
  {
    hide Calendar.DateOfDay;
    DayOfTicks(x);
    assert CivilOfSeconds(x / 1_000_000_000).Valid();
  }

  /** A partition covers one hour, one day or the month that the printed timestamps show, as the
      layout asks. */
  lemma {:induction false} PartitionInterval(t: TableDef, l: Layout, a: Row, b: Row, x: int, y: int)
    requires HeaderOk(l) && ColumnsOk(l) && RolesOk(l) && IndexesOk(l) && Created(t, l)
    requires Cell(a, l.Physical(l.timestampField)) == TimeV(x) && Cell(b, l.Physical(l.timestampField)) == TimeV(y)
    requires Storable(x) && Storable(y)
    ensures PartitionOf(t, a) == PartitionOf(t, b) <==> SameInterval(l.partition, x, y)
  {
    hide HeaderOk, ColumnsOk, IndexesOk, Created, KeyOf, KeyIn, KeyedPartition, CivilOfSeconds, PartitionValue;
    CreatedTable(t, l);
    HourAndDay(x, y);
    MonthValue(x);
    MonthValue(y);
  }

  /** The key of the table is the replacement key of the layout, and decides the partition. */
  ghost predicate KeyedBy(t: TableDef, l: Layout)
    requires RolesOk(l)
  {
    KeyedPartition(t) && t.key == KeyColumns(l)
  }

  lemma {:induction false} KeyInIs(t: TableDef, l: Layout, row: Row)
    requires RolesOk(l) && KeyedBy(t, l)
    ensures KeyIn(t, row) == KeyOf(l, row)
  {}

  ghost predicate Supersedes(t: TableDef, kept: Row, row: Row) {
    KeyIn(t, kept) == KeyIn(t, row) && Version(t, kept) >= Version(t, row)
  }

  /** Replacement of rows: nothing is invented, and each key keeps a row of its last version.
      The engine may or may not remove all other rows of a key. */
  ghost predicate Collapse(t: TableDef, rows: set<Row>, kept: set<Row>) {
    kept <= rows && forall row :: row in rows ==> exists k :: k in kept && Supersedes(t, k, row)
  }

  // ---- States ---------------------------------------------------------------

  /** What does not change during a run: the layout, its table, the digest, where an operation
      carries its records, and the documents that are hashed. */
  datatype World = World(l: Layout, table: TableDef, hash: Json -> string, dataOf: Json -> Json, docs: set<Json>)

  datatype Part = Part(partition: Option<int>, rows: set<Row>)

  /** One delivery of a batch; `done` are the partitions whose block has been dealt with. */
  datatype Attempt = Attempt(request: Request, now: int, done: set<Option<int>>)

  /** `rows` are all rows that ever landed, as a history; the table itself is `parts`. */
  datatype Store = Store(
    parts: seq<Part>,
    rows: set<Row>,
    seen: set<(string, Option<int>)>,
    open: map<nat, Attempt>,
    sent: set<Request>,
    landed: set<Entry>,
    acked: set<Entry>)

  const EMPTY := Store([], {}, {}, map[], {}, {}, {})

  function RecordsOf(w: World, r: Request): seq<Record> {
    match Records(w.dataOf(r.operation)) case Ok(records) => records case Err(_) => []
  }

  function EntryAt(w: World, r: Request, i: nat): Entry
    requires i < |RecordsOf(w, r)|
  {
    Entry(r.caller, CanonicalRecord(w.l, RecordsOf(w, r)[i]))
  }

  /** A request whose batch can be prepared, with its hashed documents among those of the run. */
  ghost predicate Writable(w: World, r: Request) {
    && Records(w.dataOf(r.operation)).Ok?
    && (forall i :: 0 <= i < |RecordsOf(w, r)| ==>
          RecordOk(w.l, RecordsOf(w, r)[i]) && JObj(EntryAt(w, r, i).record) in w.docs)
    && r.operation in w.docs && ScopeDocument(r.caller) in w.docs && BatchMaterial(r, w.l, w.hash) in w.docs
  }

  function Token(w: World, r: Request): string { BatchId(r, w.l, w.hash) }

  ghost function StoredRow(w: World, a: Attempt, i: nat): Row
    requires Writable(w, a.request) && i < |RecordsOf(w, a.request)|
  {
    RowOf(w.l, PreparedRow(a.request, w.l, RecordsOf(w, a.request)[i], Token(w, a.request), a.now, w.hash))
  }

  /** The version of a stored row is the time at which its delivery ingested it. */
  lemma {:induction false} StoredVersion(w: World, a: Attempt, i: nat)
    requires HeaderOk(w.l) && ColumnsOk(w.l) && RolesOk(w.l) && IndexesOk(w.l) && HiddenFree(w.l)
    requires Created(w.table, w.l) && Writable(w, a.request) && i < |RecordsOf(w, a.request)|
    ensures Version(w.table, StoredRow(w, a, i)) == a.now
  {
    hide PreparedRow, RowOf, ScopeDocument, BatchMaterial, Records, ColumnsOk, HeaderOk, IndexesOk, Created, KeyIn,
         RecordOk, HiddenFree;
    CreatedTable(w.table, w.l);
    HiddenStored(a.request, w.l, RecordsOf(w, a.request)[i], Token(w, a.request), a.now, w.hash);
  }

  /** The rows of a batch that go to one partition. */
  ghost function Block(w: World, a: Attempt, p: Option<int>): set<Row>
    requires Writable(w, a.request) && RolesOk(w.l)
  {
    set i: nat | i < |RecordsOf(w, a.request)| && PartitionOf(w.table, StoredRow(w, a, i)) == p :: StoredRow(w, a, i)
  }

  ghost function Partitions(w: World, a: Attempt): set<Option<int>>
    requires Writable(w, a.request) && RolesOk(w.l)
  {
    set i: nat | i < |RecordsOf(w, a.request)| :: PartitionOf(w.table, StoredRow(w, a, i))
  }

  /** The partition for a timestamp value. */
  function EntryPartition(w: World, v: Value): Option<int> {
    match w.table.partition case None => None case Some((f, _)) => PartitionValue(f, v)
  }

  ghost predicate EntryIn(w: World, e: Entry, p: Option<int>) {
    && RolesOk(w.l)
    && var c := w.l.ColumnOf(w.l.timestampField).value;
       FieldOk(c, Get(e.record, c.logical)) && EntryPartition(w, ColumnValue(c, e.record)) == p
  }

  ghost function AllEntries(w: World, r: Request): set<Entry> {
    set i: nat | i < |RecordsOf(w, r)| :: EntryAt(w, r, i)
  }

  ghost function BlockEntries(w: World, r: Request, p: Option<int>): set<Entry> {
    set e | e in AllEntries(w, r) && EntryIn(w, e, p)
  }

  // ---- Steps ----------------------------------------------------------------

  datatype Step =
    | Begin(id: nat, request: Request, now: int)
    | Land(id: nat, partition: Option<int>, rows: set<Row>, remember: bool)
    | Skip(id: nat, partition: Option<int>)
    | Acknowledge(id: nat)
    | Fail(id: nat)
    | Forget(token: string, partition: Option<int>)
    | Merge(i: nat, j: nat, rows: set<Row>)
    | Settle(i: nat, rows: set<Row>)

  ghost predicate Next(w: World, s: Store, step: Step, t: Store)
    requires RolesOk(w.l)
  {
    match step
    // A client, also one that repeats an earlier request, starts to deliver a batch.
    case Begin(id, r, now) =>
      id !in s.open && Writable(w, r) && t == s.(open := s.open[id := Attempt(r, now, {})], sent := s.sent + {r})
    // The block of one partition becomes a part; the engine may remember its token.
    case Land(id, p, rows, remember) =>
      && id in s.open && var a := s.open[id];
      && Writable(w, a.request) && p in Partitions(w, a) && Collapse(w.table, Block(w, a, p), rows)
      && t == s.(parts := s.parts + [Part(p, rows)],
                 rows := s.rows + Block(w, a, p),
                 seen := s.seen + (if remember then {(Token(w, a.request), p)} else {}),
                 open := s.open[id := a.(done := a.done + {p})],
                 landed := s.landed + BlockEntries(w, a.request, p))
    // A block whose token is remembered is dropped.
    case Skip(id, p) =>
      && id in s.open && var a := s.open[id];
      && (Token(w, a.request), p) in s.seen
      && t == s.(open := s.open[id := a.(done := a.done + {p})])
    // All blocks were dealt with, and the client is told so.
    case Acknowledge(id) =>
      && id in s.open && var a := s.open[id];
      && Writable(w, a.request) && Partitions(w, a) <= a.done
      && t == s.(open := s.open - {id}, acked := s.acked + AllEntries(w, a.request))
    // The delivery breaks off; blocks that landed stay.
    case Fail(id) => id in s.open && t == s.(open := s.open - {id})
    // The deduplication window ends.
    case Forget(token, p) => t == s.(seen := s.seen - {(token, p)})
    // Two parts of a partition are merged.
    case Merge(i, j, rows) =>
      && i < j < |s.parts| && s.parts[i].partition == s.parts[j].partition
      && Collapse(w.table, s.parts[i].rows + s.parts[j].rows, rows)
      && t == s.(parts := Merged(s.parts, i, j, rows))
    // One part is rewritten.
    case Settle(i, rows) =>
      && i < |s.parts| && Collapse(w.table, s.parts[i].rows, rows)
      && t == s.(parts := s.parts[i := Part(s.parts[i].partition, rows)])
  }

  // ---- The invariant --------------------------------------------------------

  ghost predicate Ready(w: World) {
    && HeaderOk(w.l) && ColumnsOk(w.l) && RolesOk(w.l) && IndexesOk(w.l) && HiddenFree(w.l) && Created(w.table, w.l)
    && CollisionFree(w.hash, w.docs)
  }

  lemma {:induction false} ReadyTable(w: World)
    requires Ready(w)
    ensures KeyedBy(w.table, w.l) && w.table.version == HIDDEN_INGESTED
    ensures w.table.partition == Some((PartitionFunction(w.l.partition), w.l.Physical(w.l.timestampField)))
    ensures forall row :: KeyIn(w.table, row) == KeyOf(w.l, row)
  {
    hide HeaderOk, ColumnsOk, IndexesOk, Created, KeyOf, KeyIn, PartitionFunction, RolesDisjoint, CollisionFree,
         HiddenFree;
    CreatedTable(w.table, w.l);
  }

  ghost predicate SetUp(w: World) { Ready(w) && w.l.appendOnly }

  ghost predicate RowHasEntry(w: World, entries: set<Entry>, row: Row) {
    exists e :: e in entries && RowFor(w.l, row, e, w.hash)
  }

  ghost predicate EntryHasRow(w: World, rows: set<Row>, e: Entry) {
    exists row :: row in rows && RowFor(w.l, row, e, w.hash)
  }

  ghost predicate PartOk(w: World, rows: set<Row>, part: Part)
    requires RolesOk(w.l)
  {
    part.rows <= rows && forall row :: row in part.rows ==> PartitionOf(w.table, row) == part.partition
  }

  /** The table still holds a row of the key, of the same or a later version. */
  ghost predicate Kept(w: World, parts: seq<Part>, row: Row)
    requires RolesOk(w.l)
  {
    exists i, k :: 0 <= i < |parts| && k in parts[i].rows && Supersedes(w.table, k, row)
  }

  /** The table consists of rows that landed, keeps the last version of every key, and rows
      that landed and entries that landed belong together. */
  ghost predicate PartsOk(w: World, entries: set<Entry>, rows: set<Row>, parts: seq<Part>)
    requires RolesOk(w.l)
  {
    && (forall i :: 0 <= i < |parts| ==> PartOk(w, rows, parts[i]))
    && (forall row :: row in rows ==> Kept(w, parts, row))
    && (forall row :: row in rows ==> RowHasEntry(w, entries, row))
    && (forall e :: e in entries ==> Told(w.hash, w.docs, e) && EntryHasRow(w, rows, e))
  }

  /** All entries of the batch in this partition have landed. */
  ghost predicate BlockLanded(w: World, r: Request, p: Option<int>, landed: set<Entry>) {
    BlockEntries(w, r, p) <= landed
  }

  ghost predicate TokenOk(w: World, s: Store, mark: (string, Option<int>)) {
    exists r :: r in s.sent && Token(w, r) == mark.0 && BlockLanded(w, r, mark.1, s.landed)
  }

  ghost predicate AttemptOk(w: World, s: Store, a: Attempt) {
    a.request in s.sent && forall p :: p in a.done ==> BlockLanded(w, a.request, p, s.landed)
  }

  ghost predicate Inv(w: World, s: Store)
    requires RolesOk(w.l)
  {
    && PartsOk(w, s.landed, s.rows, s.parts)
    && (forall r :: r in s.sent ==> Writable(w, r))
    && (forall mark :: mark in s.seen ==> TokenOk(w, s, mark))
    && (forall id :: id in s.open ==> AttemptOk(w, s, s.open[id]))
    && s.acked <= s.landed
  }

  // ---- Preservation ---------------------------------------------------------

  lemma {:induction false} SupersedesThrough(t: TableDef, a: Row, b: Row, c: Row)
    requires Supersedes(t, a, b) && Supersedes(t, b, c)
    ensures Supersedes(t, a, c)
  {
    hide KeyIn;
  }

  lemma {:induction false} EntryFacts(w: World, a: Attempt, i: nat)
    requires Ready(w) && Writable(w, a.request) && i < |RecordsOf(w, a.request)|
    ensures RowFor(w.l, StoredRow(w, a, i), EntryAt(w, a.request, i), w.hash)
    ensures Told(w.hash, w.docs, EntryAt(w, a.request, i))
    ensures forall p :: EntryIn(w, EntryAt(w, a.request, i), p) <==> PartitionOf(w.table, StoredRow(w, a, i)) == p
  {
    hide Created, RowFor, PreparedRow, RowOf, ScopeDocument, BatchMaterial, Records;
    ReadyTable(w);
    PreparedIsRowFor(a.request, w.l, RecordsOf(w, a.request)[i], Token(w, a.request), a.now, w.hash);
    RoleNames(w.l);
    PhysicalCell(w.l, StoredRow(w, a, i), EntryAt(w, a.request, i), w.hash, w.l.timestampField);
  }

  /** The rows of a block and its entries belong together. */
  lemma {:induction false} BlockFacts(w: World, a: Attempt, p: Option<int>)
    requires Ready(w) && Writable(w, a.request)
    ensures forall row :: row in Block(w, a, p) ==>
      RowHasEntry(w, BlockEntries(w, a.request, p), row) && PartitionOf(w.table, row) == p
    ensures forall e :: e in BlockEntries(w, a.request, p) ==>
      Told(w.hash, w.docs, e) && EntryHasRow(w, Block(w, a, p), e)
  {
    hide Created, RowFor, ColumnsOk, RolesOk, HiddenFree, Told, StoredRow, EntryAt, EntryIn, Writable, PartitionOf,
         Records, HeaderOk, IndexesOk;
    var entries := BlockEntries(w, a.request, p);
    forall row | row in Block(w, a, p) ensures RowHasEntry(w, entries, row) && PartitionOf(w.table, row) == p {
      var i: nat :| i < |RecordsOf(w, a.request)| && PartitionOf(w.table, StoredRow(w, a, i)) == p
          && row == StoredRow(w, a, i);
      EntryFacts(w, a, i);
      assert EntryAt(w, a.request, i) in AllEntries(w, a.request);
    }
    forall e | e in entries ensures Told(w.hash, w.docs, e) && EntryHasRow(w, Block(w, a, p), e) {
      var i: nat :| i < |RecordsOf(w, a.request)| && e == EntryAt(w, a.request, i);
      EntryFacts(w, a, i);
      assert StoredRow(w, a, i) in Block(w, a, p);
    }
  }

  lemma {:induction false} MoreEntries(w: World, few: set<Entry>, many: set<Entry>, row: Row)
    requires few <= many && RowHasEntry(w, few, row)
    ensures RowHasEntry(w, many, row)
  {
    hide RowFor;
  }

  lemma {:induction false} MoreRows(w: World, few: set<Row>, many: set<Row>, e: Entry)
    requires few <= many && EntryHasRow(w, few, e)
    ensures EntryHasRow(w, many, e)
  {
    hide RowFor;
  }

  lemma {:induction false} MoreParts(w: World, parts: seq<Part>, part: Part, row: Row)
    requires RolesOk(w.l) && (Kept(w, parts, row) || exists k :: k in part.rows && Supersedes(w.table, k, row))
    ensures Kept(w, parts + [part], row)
  {
    hide RolesOk, Supersedes;
    var after := parts + [part];
    if Kept(w, parts, row) {
      var i, k :| 0 <= i < |parts| && k in parts[i].rows && Supersedes(w.table, k, row);
      assert k in after[i].rows;
    } else {
      var k :| k in part.rows && Supersedes(w.table, k, row);
      assert k in after[|parts|].rows;
    }
  }

  lemma {:induction false} LandKeepsParts(w: World, entries: set<Entry>, rows: set<Row>, parts: seq<Part>, a: Attempt,
                                          p: Option<int>, landing: set<Row>)
    requires Ready(w) && PartsOk(w, entries, rows, parts)
    requires Writable(w, a.request) && Collapse(w.table, Block(w, a, p), landing)
    ensures PartsOk(w, entries + BlockEntries(w, a.request, p), rows + Block(w, a, p), parts + [Part(p, landing)])
  {
    hide Created, RowFor, Supersedes, ColumnsOk, RolesOk, HiddenFree, Told, Block, BlockEntries, Writable, RowHasEntry,
         EntryHasRow, Kept, PartitionOf, HeaderOk, IndexesOk;
    var block, more, after := Block(w, a, p), entries + BlockEntries(w, a.request, p), parts + [Part(p, landing)];
    BlockFacts(w, a, p);
    forall i | 0 <= i < |after| ensures PartOk(w, rows + block, after[i]) {
      if i < |parts| { assert PartOk(w, rows, parts[i]); }
    }
    forall row | row in rows + block ensures Kept(w, after, row) && RowHasEntry(w, more, row) {
      MoreParts(w, parts, Part(p, landing), row);
      MoreEntries(w, if row in rows then entries else BlockEntries(w, a.request, p), more, row);
    }
    forall e | e in more ensures EntryHasRow(w, rows + block, e) {
      MoreRows(w, if e in entries then rows else block, rows + block, e);
    }
  }

  lemma {:induction false} SettleKeepsParts(w: World, entries: set<Entry>, rows: set<Row>, parts: seq<Part>, i: nat,
                                            settled: set<Row>)
    requires Ready(w) && PartsOk(w, entries, rows, parts) && i < |parts| && Collapse(w.table, parts[i].rows, settled)
    ensures PartsOk(w, entries, rows, parts[i := Part(parts[i].partition, settled)])
  {
    hide Created, RowFor, Supersedes, ColumnsOk, RolesOk, HiddenFree, Told, PartitionOf, RowHasEntry, EntryHasRow,
         HeaderOk, IndexesOk;
    var after := parts[i := Part(parts[i].partition, settled)];
    assert PartOk(w, rows, parts[i]);
    forall row | row in rows ensures Kept(w, after, row) {
      assert Kept(w, parts, row);
      var j, k :| 0 <= j < |parts| && k in parts[j].rows && Supersedes(w.table, k, row);
      if j == i {
        var x :| x in settled && Supersedes(w.table, x, k);
        SupersedesThrough(w.table, x, k, row);
        assert x in after[i].rows;
      } else {
        assert k in after[j].rows;
      }
    }
  }

  function Merged(parts: seq<Part>, i: nat, j: nat, merged: set<Row>): (r: seq<Part>)
    requires i < j < |parts|
    ensures |r| == |parts| - 1
    ensures forall k :: 0 <= k < |r| ==>
      r[k] == if k == i then Part(parts[i].partition, merged) else if k < j then parts[k] else parts[k + 1]
  {
    parts[i := Part(parts[i].partition, merged)][..j] + parts[j + 1..]
  }

  lemma {:induction false} KeptByMerge(w: World, parts: seq<Part>, i: nat, j: nat, merged: set<Row>, row: Row)
    requires RolesOk(w.l) && i < j < |parts| && Kept(w, parts, row)
    requires Collapse(w.table, parts[i].rows + parts[j].rows, merged)
    ensures Kept(w, Merged(parts, i, j, merged), row)
  {
    hide Supersedes, RolesOk;
    var after := Merged(parts, i, j, merged);
    var n, k :| 0 <= n < |parts| && k in parts[n].rows && Supersedes(w.table, k, row);
    if n == i || n == j {
      var x :| x in merged && Supersedes(w.table, x, k);
      SupersedesThrough(w.table, x, k, row);
      assert x in after[i].rows;
    } else {
      assert k in after[if n < j then n else n - 1].rows;
    }
  }

  lemma {:induction false} MergeKeepsParts(w: World, entries: set<Entry>, rows: set<Row>, parts: seq<Part>, i: nat,
                                           j: nat, merged: set<Row>)
    requires Ready(w) && PartsOk(w, entries, rows, parts) && i < j < |parts| && parts[i].partition == parts[j].partition
    requires Collapse(w.table, parts[i].rows + parts[j].rows, merged)
    ensures PartsOk(w, entries, rows, Merged(parts, i, j, merged))
  {
    hide Created, RowFor, Supersedes, ColumnsOk, RolesOk, HiddenFree, Told, PartitionOf, RowHasEntry, EntryHasRow,
         Kept, HeaderOk, IndexesOk;
    var after := Merged(parts, i, j, merged);
    assert PartOk(w, rows, parts[i]) && PartOk(w, rows, parts[j]);
    assert merged <= parts[i].rows + parts[j].rows;
    forall k | 0 <= k < |after| ensures PartOk(w, rows, after[k]) {
      assert k != i ==> PartOk(w, rows, parts[if k < j then k else k + 1]);
    }
    forall row | row in rows ensures Kept(w, after, row) { KeptByMerge(w, parts, i, j, merged, row); }
  }

  lemma {:induction false} SameEntries(w: World, a: Request, b: Request)
    requires a.operation == b.operation && a.caller == b.caller
    ensures AllEntries(w, a) == AllEntries(w, b)
  {
    hide Records, CanonicalRecord;
    assert RecordsOf(w, a) == RecordsOf(w, b);
    forall i: nat | i < |RecordsOf(w, a)| ensures EntryAt(w, a, i) == EntryAt(w, b, i) {}
  }

  /** A remembered token stands for the same records, whichever request carries it. */
  lemma {:induction false} SameTokenSameBlock(w: World, a: Request, b: Request, p: Option<int>)
    requires Ready(w) && Writable(w, a) && Writable(w, b) && Token(w, a) == Token(w, b)
    ensures BlockEntries(w, a, p) == BlockEntries(w, b, p)
  {
    hide BatchMaterial, ScopeDocument, EntryIn, Records, CanonicalRecord, HeaderOk, ColumnsOk, IndexesOk, Created,
         HiddenFree, RolesOk, AllEntries, SameRetry;
    TokenIdentity(a, b, w.l, w.l, w.hash, w.docs);
    assert AllEntries(w, a) == AllEntries(w, b) by { SameEntries(w, a, b); }
  }

  lemma {:induction false} SkipProgress(w: World, s: Store, a: Attempt, p: Option<int>)
    requires Ready(w) && Inv(w, s) && a.request in s.sent && TokenOk(w, s, (Token(w, a.request), p))
    ensures BlockLanded(w, a.request, p, s.landed)
  {
    hide PartsOk, Writable, Token, BlockEntries, ColumnsOk, RolesOk, HiddenFree, HeaderOk, IndexesOk, Created;
    var r :| r in s.sent && Token(w, r) == Token(w, a.request) && BlockLanded(w, r, p, s.landed);
    SameTokenSameBlock(w, r, a.request, p);
  }

  /** A repeated delivery under the same key, whatever its request id: a block that is remembered
      can be dropped, stands for the same entries, and dropping it changes no row. */
  lemma {:induction false} RedeliverySkips(w: World, s: Store, id: nat, r: Request, p: Option<int>) returns (t: Store)
    requires Ready(w) && Inv(w, s) && id in s.open && r in s.sent && s.open[id].request in s.sent
    requires r.idempotencyKey.Some? && r.idempotencyKey.value != ""
    requires s.open[id].request == r.(requestId := s.open[id].request.requestId)
    requires (Token(w, r), p) in s.seen
    ensures Next(w, s, Skip(id, p), t)
    ensures t.rows == s.rows && t.parts == s.parts && t.landed == s.landed
    ensures id in t.open && p in t.open[id].done
    ensures BlockEntries(w, s.open[id].request, p) == BlockEntries(w, r, p) && BlockEntries(w, r, p) <= s.landed
  {
    hide ColumnsOk, RolesOk, HiddenFree, PartsOk, Writable, BlockEntries, HeaderOk, IndexesOk, Created;
    var a := s.open[id];
    RetryKeepsToken(r, a.request.requestId, w.l, w.hash);
    t := s.(open := s.open[id := a.(done := a.done + {p})]);
    assert Token(w, a.request) == Token(w, r);
    SameTokenSameBlock(w, a.request, r, p);
    SkipProgress(w, s, Attempt(r, 0, {}), p);
  }

  /** A complete delivery has landed all its entries. */
  lemma {:induction false} CompleteDelivery(w: World, s: Store, a: Attempt)
    requires Ready(w) && AttemptOk(w, s, a) && Writable(w, a.request) && Partitions(w, a) <= a.done
    ensures AllEntries(w, a.request) <= s.landed
  {
    hide Created, RowFor, EntryAt, StoredRow, PartitionOf, Told, EntryIn, ColumnsOk, HiddenFree, RolesOk, Writable,
         Records, HeaderOk, IndexesOk;
    forall e | e in AllEntries(w, a.request) ensures e in s.landed {
      var i: nat :| i < |RecordsOf(w, a.request)| && e == EntryAt(w, a.request, i);
      EntryFacts(w, a, i);
      var p := PartitionOf(w.table, StoredRow(w, a, i));
      assert p in Partitions(w, a);
      assert BlockLanded(w, a.request, p, s.landed);
      assert e in BlockEntries(w, a.request, p);
    }
  }

  lemma {:induction false} MoreLanded(w: World, s: Store, t: Store)
    requires RolesOk(w.l) && Inv(w, s) && s.landed <= t.landed && s.sent <= t.sent
    ensures forall mark :: TokenOk(w, s, mark) ==> TokenOk(w, t, mark)
    ensures forall a :: AttemptOk(w, s, a) ==> AttemptOk(w, t, a)
  {
    hide Token, BlockEntries, PartsOk;
    forall mark | TokenOk(w, s, mark) ensures TokenOk(w, t, mark) {
      var r :| r in s.sent && Token(w, r) == mark.0 && BlockLanded(w, r, mark.1, s.landed);
      assert BlockLanded(w, r, mark.1, t.landed);
    }
    forall a | AttemptOk(w, s, a) ensures AttemptOk(w, t, a) {
      forall p | p in a.done ensures BlockLanded(w, a.request, p, t.landed) {
        assert BlockLanded(w, a.request, p, s.landed);
      }
    }
  }

  lemma {:induction false} RequestSent(w: World, s: Store, a: Attempt)
    requires AttemptOk(w, s, a)
    ensures a.request in s.sent
  {}

  lemma {:induction false} NewAttempt(w: World, t: Store, a: Attempt)
    requires a.request in t.sent && a.done == {}
    ensures AttemptOk(w, t, a)
  {}

  lemma {:induction false} Remembered(w: World, t: Store, r: Request, p: Option<int>)
    requires r in t.sent && BlockEntries(w, r, p) <= t.landed
    ensures TokenOk(w, t, (Token(w, r), p)) && BlockLanded(w, r, p, t.landed)
  {}

  lemma {:induction false} Progress(w: World, t: Store, a: Attempt, p: Option<int>)
    requires AttemptOk(w, t, a) && BlockLanded(w, a.request, p, t.landed)
    ensures AttemptOk(w, t, a.(done := a.done + {p}))
  {}

  /** Every step keeps the invariant. */
  lemma {:induction false} StepKeepsInv(w: World, s: Store, step: Step, t: Store)
    requires Ready(w) && Inv(w, s) && Next(w, s, step, t)
    ensures Inv(w, t)
    ensures s.landed <= t.landed && s.acked <= t.acked
  {
    hide PartsOk, Writable, TokenOk, AttemptOk, Collapse, Block, BlockEntries, AllEntries, Partitions, Token,
         ColumnsOk, RolesOk, HiddenFree, HeaderOk, IndexesOk, Created;
    MoreLanded(w, s, t);
    match step
    case Begin(id, r, now) => NewAttempt(w, t, Attempt(r, now, {}));
    case Land(id, p, rows, remember) =>
      LandKeepsParts(w, s.landed, s.rows, s.parts, s.open[id], p, rows);
      assert AttemptOk(w, s, s.open[id]);
      RequestSent(w, s, s.open[id]);
      Remembered(w, t, s.open[id].request, p);
      Progress(w, t, s.open[id], p);
    case Skip(id, p) =>
      RequestSent(w, s, s.open[id]);
      SkipProgress(w, s, s.open[id], p);
      Progress(w, t, s.open[id], p);
    case Acknowledge(id) => CompleteDelivery(w, s, s.open[id]);
    case Fail(id) =>
    case Forget(token, p) =>
    case Merge(i, j, rows) => MergeKeepsParts(w, s.landed, s.rows, s.parts, i, j, rows);
    case Settle(i, rows) => SettleKeepsParts(w, s.landed, s.rows, s.parts, i, rows);
  }

  // ---- Runs -----------------------------------------------------------------

  ghost predicate StepBetween(w: World, s: Store, t: Store)
    requires RolesOk(w.l)
  {
    exists step :: Next(w, s, step, t)
  }

  /** Any interleaving of steps from the empty table. */
  ghost predicate IsTrace(w: World, trace: seq<Store>)
    requires RolesOk(w.l)
  {
    trace != [] && trace[0] == EMPTY && forall i :: 0 < i < |trace| ==> StepBetween(w, trace[i - 1], trace[i])
  }

  lemma {:induction false} EmptyInv(w: World)
    requires RolesOk(w.l)
    ensures Inv(w, EMPTY)
  {}

  /** Every state of every run satisfies the invariant, and nothing that landed or was
      acknowledged is ever forgotten. */
  lemma {:induction false} TraceKeepsInv(w: World, trace: seq<Store>, i: nat, j: nat)
    requires Ready(w) && IsTrace(w, trace) && i <= j < |trace|
    ensures Inv(w, trace[i]) && Inv(w, trace[j])
    ensures trace[i].landed <= trace[j].landed && trace[i].acked <= trace[j].acked
    decreases j
  {
    hide Inv, Next, ColumnsOk, RolesOk, HiddenFree, HeaderOk, IndexesOk, Created;
    if j == 0 {
      assert Inv(w, EMPTY) by { EmptyInv(w); }
    } else {
      assert StepBetween(w, trace[j - 1], trace[j]);
      var step :| Next(w, trace[j - 1], step, trace[j]);
      TraceKeepsInv(w, trace, if i < j then i else j - 1, j - 1);
      StepKeepsInv(w, trace[j - 1], step, trace[j]);
    }
  }

  lemma {:induction false} CollapseSelf(t: TableDef, rows: set<Row>)
    ensures Collapse(t, rows, rows)
  {
    hide KeyIn;
    forall row | row in rows ensures exists k :: k in rows && Supersedes(t, k, row) {
      assert Supersedes(t, row, row);
    }
  }

  lemma {:induction false} TraceAppend(w: World, trace: seq<Store>, step: Step, t: Store)
    requires RolesOk(w.l) && IsTrace(w, trace) && Next(w, trace[|trace| - 1], step, t)
    ensures IsTrace(w, trace + [t])
  {
    hide Next, RolesOk;
    var longer := trace + [t];
    forall i | 0 < i < |longer| ensures StepBetween(w, longer[i - 1], longer[i]) {
      if i < |trace| { assert StepBetween(w, trace[i - 1], trace[i]); }
    }
  }

  lemma {:induction false} SamePartitions(w: World, a: Attempt, b: Attempt)
    requires RolesOk(w.l) && Writable(w, a.request) && b.request == a.request && b.now == a.now
    ensures Partitions(w, a) == Partitions(w, b)
  {
    hide RolesOk, Writable, PartitionOf, PreparedRow, RowOf;
    forall i: nat | i < |RecordsOf(w, a.request)| ensures StoredRow(w, a, i) == StoredRow(w, b, i) {}
  }

  /** The blocks of an open delivery can land one after the other. */
  lemma {:induction false} BlocksCanLand(w: World, trace: seq<Store>, id: nat, todo: set<Option<int>>)
    returns (longer: seq<Store>)
    requires RolesOk(w.l) && IsTrace(w, trace) && id in trace[|trace| - 1].open
    requires var a := trace[|trace| - 1].open[id]; Writable(w, a.request) && todo <= Partitions(w, a)
    ensures IsTrace(w, longer) && trace <= longer && id in longer[|longer| - 1].open
    ensures var before, after := trace[|trace| - 1], longer[|longer| - 1];
            && after.open[id] == before.open[id].(done := before.open[id].done + todo)
            && after.acked == before.acked
    decreases |todo|
  {
    hide RolesOk, Writable, Partitions, Block, BlockEntries, Token, Collapse, StepBetween;
    var s := trace[|trace| - 1];
    var a := s.open[id];
    if todo == {} {
      longer := trace;
      assert a.done + todo == a.done;
    } else {
      var p :| p in todo;
      CollapseSelf(w.table, Block(w, a, p));
      var b := a.(done := a.done + {p});
      var t := s.(parts := s.parts + [Part(p, Block(w, a, p))], rows := s.rows + Block(w, a, p),
                  seen := s.seen + {(Token(w, a.request), p)},
                  open := s.open[id := b], landed := s.landed + BlockEntries(w, a.request, p));
      TraceAppend(w, trace, Land(id, p, Block(w, a, p), true), t);
      SamePartitions(w, a, b);
      longer := BlocksCanLand(w, trace + [t], id, todo - {p});
      assert a.done + {p} + (todo - {p}) == a.done + todo;
    }
  }

  lemma {:induction false} AckedLanded(w: World, s: Store)
    requires RolesOk(w.l) && Inv(w, s)
    ensures s.acked <= s.landed
  {}

  /** From every reachable state every writable request can be delivered and acknowledged:
      the acknowledged records are exactly those before and those of the request. */
  lemma {:induction false} CanBeAcknowledged(w: World, trace: seq<Store>, id: nat, r: Request, now: int)
    returns (longer: seq<Store>)
    requires Ready(w) && IsTrace(w, trace) && id !in trace[|trace| - 1].open && Writable(w, r)
    ensures IsTrace(w, longer) && trace <= longer
    ensures longer[|longer| - 1].acked == trace[|trace| - 1].acked + AllEntries(w, r)
    ensures AllEntries(w, r) <= longer[|longer| - 1].landed
  {
    hide RolesOk, ColumnsOk, HiddenFree, Writable, Partitions, AllEntries, StepBetween, Inv, HeaderOk, IndexesOk,
         Created;
    var s, a := trace[|trace| - 1], Attempt(r, now, {});
    var begun := s.(open := s.open[id := a], sent := s.sent + {r});
    TraceAppend(w, trace, Begin(id, r, now), begun);
    var delivered := BlocksCanLand(w, trace + [begun], id, Partitions(w, a));
    var t := delivered[|delivered| - 1];
    SamePartitions(w, a, t.open[id]);
    var u := t.(open := t.open - {id}, acked := t.acked + AllEntries(w, r));
    TraceAppend(w, delivered, Acknowledge(id), u);
    longer := delivered + [u];
    TraceKeepsInv(w, longer, |longer| - 1, |longer| - 1);
    AckedLanded(w, u);
  }

  // ---- FINAL ----------------------------------------------------------------

  function AllRows(parts: seq<Part>): set<Row> {
    if parts == [] then {} else AllRows(parts[..|parts| - 1]) + parts[|parts| - 1].rows
  }

  lemma {:induction false} AllRowsMember(parts: seq<Part>, row: Row)
    ensures row in AllRows(parts) <==> exists i :: 0 <= i < |parts| && row in parts[i].rows
  {
    if parts != [] {
      var n := |parts| - 1;
      AllRowsMember(parts[..n], row);
      if row in AllRows(parts[..n]) {
        var i :| 0 <= i < n && row in parts[..n][i].rows;
        assert row in parts[i].rows;
      }
      if exists i :: 0 <= i < |parts| && row in parts[i].rows {
        var i :| 0 <= i < |parts| && row in parts[i].rows;
        assert i < n ==> parts[..n][i] == parts[i];
      }
    }
  }

  /** A FINAL read: collapsed at read time, with one row for each key at least within each
      partition. */
  ghost predicate Final(t: TableDef, rows: set<Row>, view: set<Row>)
  {
    && Collapse(t, rows, view)
    && forall a, b ::
      a in view && b in view && KeyIn(t, a) == KeyIn(t, b) && PartitionOf(t, a) == PartitionOf(t, b) ==> a == b
  }

  /** Some row of the view supersedes this one. */
  ghost predicate Represented(t: TableDef, view: set<Row>, row: Row)
  {
    exists k :: k in view && Supersedes(t, k, row)
  }

  lemma {:induction false} IsFinal(t: TableDef, rows: set<Row>, view: set<Row>)
    requires view <= rows
    requires forall row :: row in rows ==> Represented(t, view, row)
    requires forall a, b :: a in view && b in view && KeyIn(t, a) == KeyIn(t, b) ==> a == b
    ensures Final(t, rows, view)
  {
    hide KeyIn, PartitionOf, Supersedes;
    forall row | row in rows ensures exists k :: k in view && Supersedes(t, k, row) {
      assert Represented(t, view, row);
    }
  }

  lemma {:induction false} FinalFacts(t: TableDef, rows: set<Row>, view: set<Row>)
    requires KeyedPartition(t) && Final(t, rows, view)
    ensures view <= rows && forall row :: row in rows ==> Represented(t, view, row)
    ensures forall a, b :: a in view && b in view && KeyIn(t, a) == KeyIn(t, b) ==> a == b
  {
    hide KeyIn, PartitionOf, Supersedes;
    forall a, b | a in view && b in view && KeyIn(t, a) == KeyIn(t, b) ensures a == b { KeyedRows(t, a, b); }
  }

  /** With one more row, its key is represented by the later of two versions. */
  lemma {:induction false} LaterVersion(t: TableDef, rest: set<Row>, k: Row, row: Row, r: Row)
    requires k in rest && KeyIn(t, k) == KeyIn(t, row)
    requires r == row || Represented(t, rest, r)
    ensures Represented(t, if Version(t, k) >= Version(t, row) then rest else rest - {k} + {row}, r)
  {
    hide KeyIn;
    var view := if Version(t, k) >= Version(t, row) then rest else rest - {k} + {row};
    if r == row {
      assert Supersedes(t, if Version(t, k) >= Version(t, row) then k else row, row);
    } else {
      var x :| x in rest && Supersedes(t, x, r);
      assert Supersedes(t, if x in view then x else row, r);
    }
  }

  lemma {:induction false} OneMoreRow(t: TableDef, rest: set<Row>, row: Row, r: Row)
    requires (r == row || Represented(t, rest, r))
    ensures Represented(t, rest + {row}, r)
  {
    hide KeyIn;
    assert Supersedes(t, row, row);
    if r != row { var x :| x in rest && Supersedes(t, x, r); }
  }

  /** Any finite set of rows has a FINAL read. */
  lemma {:induction false} FinalExists(t: TableDef, rows: set<Row>) returns (view: set<Row>)
    requires KeyedPartition(t)
    ensures Final(t, rows, view)
  {
    hide KeyIn, PartitionOf, Supersedes, Final, Represented;
    view := {};
    if rows != {} {
      var row :| row in rows;
      var rest := FinalExists(t, rows - {row});
      FinalFacts(t, rows - {row}, rest);
      if k :| k in rest && KeyIn(t, k) == KeyIn(t, row) {
        view := if Version(t, k) >= Version(t, row) then rest else rest - {k} + {row};
        forall r | r in rows ensures Represented(t, view, r) { LaterVersion(t, rest, k, row, r); }
      } else {
        view := rest + {row};
        forall r | r in rows ensures Represented(t, view, r) { OneMoreRow(t, rest, row, r); }
      }
    }
    IsFinal(t, rows, view);
  }

  lemma {:induction false} FinalKeysDiffer(t: TableDef, rows: set<Row>, view: set<Row>, a: Row, b: Row)
    requires KeyedPartition(t) && Final(t, rows, view) && a in view && b in view && KeyIn(t, a) == KeyIn(t, b)
    ensures a == b
  {
    hide KeyIn, PartitionOf, Collapse;
    KeyedRows(t, a, b);
  }

  lemma {:induction false} RepresentedThrough(t: TableDef, view: set<Row>, k: Row, row: Row)
    requires Represented(t, view, k) && Supersedes(t, k, row)
    ensures Represented(t, view, row)
  {
    hide Supersedes;
    var x :| x in view && Supersedes(t, x, k);
    SupersedesThrough(t, x, k, row);
  }

  /** Merges lose nothing that FINAL would show: whatever was merged before, a FINAL read of
      the table is a FINAL read of all rows that ever landed. */
  lemma {:induction false} FinalOfHistory(w: World, s: Store, view: set<Row>)
    requires Ready(w) && Inv(w, s) && Final(w.table, AllRows(s.parts), view)
    ensures Final(w.table, s.rows, view)
  {
    hide Created, RowFor, Supersedes, ColumnsOk, RolesOk, HiddenFree, AllRows, Told, Final, Represented, TokenOk,
         AttemptOk, Writable, RowHasEntry, EntryHasRow, KeyOf, PartitionOf, HeaderOk, IndexesOk;
    ReadyTable(w);
    FinalFacts(w.table, AllRows(s.parts), view);
    forall row | row in AllRows(s.parts) ensures row in s.rows {
      AllRowsMember(s.parts, row);
      var i :| 0 <= i < |s.parts| && row in s.parts[i].rows;
      assert PartOk(w, s.rows, s.parts[i]);
    }
    forall row | row in s.rows ensures Represented(w.table, view, row) {
      assert Kept(w, s.parts, row);
      var i, k :| 0 <= i < |s.parts| && k in s.parts[i].rows && Supersedes(w.table, k, row);
      AllRowsMember(s.parts, k);
      RepresentedThrough(w.table, view, k, row);
    }
    IsFinal(w.table, s.rows, view);
  }

  /** For any layout: a FINAL read has, for each row that ever landed, exactly one row of its
      key, and that is of the last version that landed under the key. */
  lemma {:induction false} FinalIsLatest(w: World, s: Store, view: set<Row>, row: Row)
    requires Ready(w) && Inv(w, s) && Final(w.table, AllRows(s.parts), view) && row in s.rows
    ensures exists k :: k in view && KeyIn(w.table, k) == KeyIn(w.table, row)
                        && forall r :: r in s.rows && KeyIn(w.table, r) == KeyIn(w.table, row) ==>
                          Version(w.table, k) >= Version(w.table, r)
    ensures forall a, b :: a in view && b in view && KeyIn(w.table, a) == KeyIn(w.table, b) ==> a == b
    ensures view <= s.rows
  {
    hide ColumnsOk, RolesOk, HiddenFree, AllRows, Final, Inv, KeyOf, HeaderOk, IndexesOk, Created;
    ReadyTable(w);
    FinalOfHistory(w, s, view);
    FinalFacts(w.table, s.rows, view);
    assert Represented(w.table, view, row);
    var k :| k in view && Supersedes(w.table, k, row);
    forall r | r in s.rows && KeyIn(w.table, r) == KeyIn(w.table, row)
      ensures Version(w.table, k) >= Version(w.table, r) {
      assert Represented(w.table, view, r);
      var x :| x in view && Supersedes(w.table, x, r);
    }
  }

  /** In one scope, rows of a FINAL read differ in the tuple of every completed order, also
      without the append-only marker. */
  lemma {:induction false} FinalTuplesDiffer(t: TableDef, l: Layout, rows: set<Row>, view: set<Row>, order: seq<Order>,
                                             a: Row, b: Row)
    requires RolesOk(l) && KeyedBy(t, l)
    requires ColumnsOk(l) && RolesOk(l) && AllSortable(l, order) && Final(t, rows, view) && a in view && b in view
    requires Cell(a, HIDDEN_SCOPE) == Cell(b, HIDDEN_SCOPE)
    requires TupleOf(a, Completed(l, order)) == TupleOf(b, Completed(l, order))
    ensures a == b
  {
    hide ColumnsOk, RolesOk, AllSortable, Final, KeyOf, KeyIn, Completed, TupleOf;
    CompletedIsUnique(l, order, a, b);
    KeyInIs(t, l, a);
    KeyInIs(t, l, b);
    FinalKeysDiffer(t, rows, view, a, b);
  }

  lemma {:induction false} HistoryFacts(w: World, s: Store)
    requires RolesOk(w.l) && Inv(w, s)
    ensures forall row :: row in s.rows ==> RowHasEntry(w, s.landed, row)
    ensures forall e :: e in s.landed ==> Told(w.hash, w.docs, e) && EntryHasRow(w, s.rows, e)
    ensures s.acked <= s.landed
  {}

  lemma {:induction false} Representative(t: TableDef, view: set<Row>, row: Row) returns (k: Row)
    requires Represented(t, view, row)
    ensures k in view && KeyIn(t, k) == KeyIn(t, row) && Version(t, k) >= Version(t, row)
  {
    hide KeyIn;
    k :| k in view && Supersedes(t, k, row);
  }

  lemma {:induction false} EntryOf(w: World, entries: set<Entry>, row: Row) returns (e: Entry)
    requires RowHasEntry(w, entries, row)
    ensures e in entries && RowFor(w.l, row, e, w.hash)
  {
    hide RowFor;
    e :| e in entries && RowFor(w.l, row, e, w.hash);
  }

  lemma {:induction false} LandedIsRead(w: World, s: Store, view: set<Row>, e: Entry)
    requires SetUp(w) && Inv(w, s) && Final(w.table, s.rows, view) && e in s.landed
    ensures exists row :: row in view && RowFor(w.l, row, e, w.hash)
  {
    hide Created, RowFor, ColumnsOk, RolesOk, HiddenFree, Final, Told, KeyOf, Inv, Supersedes, RowHasEntry,
         Represented, HeaderOk, IndexesOk;
    ReadyTable(w);
    HistoryFacts(w, s);
    assert EntryHasRow(w, s.rows, e);
    var row :| row in s.rows && RowFor(w.l, row, e, w.hash);
    FinalFacts(w.table, s.rows, view);
    var k := Representative(w.table, view, row);
    assert RowHasEntry(w, s.landed, k);
    var f := EntryOf(w, s.landed, k);
    KeyIsEntry(w.l, k, f, row, e, w.hash, w.docs);
  }

  lemma {:induction false} ReadOnce(w: World, rows: set<Row>, view: set<Row>, a: Row, b: Row, e: Entry)
    requires SetUp(w) && Final(w.table, rows, view) && Told(w.hash, w.docs, e)
    requires a in view && b in view && RowFor(w.l, a, e, w.hash) && RowFor(w.l, b, e, w.hash)
    ensures a == b
  {
    hide Created, RowFor, ColumnsOk, RolesOk, HiddenFree, Told, Final, HeaderOk, IndexesOk;
    ReadyTable(w);
    KeyIsEntry(w.l, a, e, b, e, w.hash, w.docs);
    FinalKeysDiffer(w.table, rows, view, a, b);
  }

  /** In every reachable state a FINAL read consists of exactly one row for each landed
      entry, so in particular for each acknowledged one, and of nothing else. */
  lemma {:induction false} FinalIsExact(w: World, s: Store, view: set<Row>)
    requires SetUp(w) && Inv(w, s) && Final(w.table, AllRows(s.parts), view)
    ensures forall row :: row in view ==> RowHasEntry(w, s.landed, row)
    ensures forall e :: e in s.landed ==> exists row :: row in view && RowFor(w.l, row, e, w.hash)
    ensures forall a, b, e ::
            a in view && b in view && e in s.landed && RowFor(w.l, a, e, w.hash) && RowFor(w.l, b, e, w.hash) ==> a == b
    ensures s.acked <= s.landed
  {
    hide Created, RowFor, RowHasEntry, ColumnsOk, HiddenFree, RolesOk, AllRows, Told, EntryHasRow, Inv, Final,
         HeaderOk, IndexesOk;
    ReadyTable(w);
    HistoryFacts(w, s);
    FinalOfHistory(w, s, view);
    FinalFacts(w.table, s.rows, view);
    forall e | e in s.landed ensures exists row :: row in view && RowFor(w.l, row, e, w.hash) {
      LandedIsRead(w, s, view, e);
    }
    forall a, b, e | a in view && b in view && e in s.landed && RowFor(w.l, a, e, w.hash) && RowFor(w.l, b, e, w.hash)
      ensures a == b {
      ReadOnce(w, AllRows(s.parts), view, a, b, e);
    }
  }

  ghost function ScopeFingerprints(view: set<Row>, digest: string): set<Value> {
    set row | row in view && Cell(row, HIDDEN_SCOPE) == StrV(digest) :: Cell(row, HIDDEN_ROW)
  }

  ghost function EntryFingerprints(entries: set<Entry>, c: Caller, hash: Json -> string): set<Value> {
    set e | e in entries && e.caller == c :: StrV(hash(JObj(e.record)))
  }

  /** A stored row has a caller's scope digest exactly when its entry is the caller's. */
  lemma {:induction false} EntryInScope(w: World, s: Store, row: Row, e: Entry, c: Caller)
    requires SetUp(w) && Inv(w, s) && e in s.landed && RowFor(w.l, row, e, w.hash) && ScopeDocument(c) in w.docs
    ensures Cell(row, HIDDEN_SCOPE) == StrV(ScopeDigestOf(c, w.hash)) <==> e.caller == c
    ensures Cell(row, HIDDEN_ROW) == StrV(w.hash(JObj(e.record)))
  {
    hide Created, RowFor, RolesOk, ScopeDigestOf, ScopeDocument, PartOk, EntryHasRow, Kept, TokenOk, AttemptOk,
         Writable, ColumnsOk, HiddenFree, HeaderOk, IndexesOk;
    RowIdentity(w.l, row, e, w.hash);
    assert Told(w.hash, w.docs, e);
    ScopeIsolation(e.caller, c, w.hash, w.docs);
  }

  /** The row fingerprints that a FINAL read shows in a scope are those of the distinct
      records that landed in it. */
  lemma {:induction false} FinalInScope(w: World, s: Store, view: set<Row>, c: Caller)
    requires SetUp(w) && Inv(w, s) && Final(w.table, AllRows(s.parts), view) && ScopeDocument(c) in w.docs
    ensures ScopeFingerprints(view, ScopeDigestOf(c, w.hash)) == EntryFingerprints(s.landed, c, w.hash)
  {
    hide Created, RowFor, Final, SetUp, RolesOk, AllRows, ScopeDigestOf, Inv;
    var digest := ScopeDigestOf(c, w.hash);
    FinalIsExact(w, s, view);
    forall row | row in view && Cell(row, HIDDEN_SCOPE) == StrV(digest)
      ensures Cell(row, HIDDEN_ROW) in EntryFingerprints(s.landed, c, w.hash)
    {
      var e :| e in s.landed && RowFor(w.l, row, e, w.hash);
      EntryInScope(w, s, row, e, c);
    }
    forall e | e in s.landed && e.caller == c
      ensures StrV(w.hash(JObj(e.record))) in ScopeFingerprints(view, digest)
    {
      var row :| row in view && RowFor(w.l, row, e, w.hash);
      RowIdentity(w.l, row, e, w.hash);
    }
  }

  // ---- Layouts that are not append-only -------------------------------------

  /** Rows of the two entries share a replacement key. */
  ghost predicate Clash(l: Layout, a: Row, b: Row, e: Entry, f: Entry, hash: Json -> string)
    requires RolesOk(l)
  {
    RowFor(l, a, e, hash) && RowFor(l, b, f, hash) && KeyOf(l, a) == KeyOf(l, b)
  }

  ghost predicate Tells(l: Layout, rows: set<Row>, entries: set<Entry>, hash: Json -> string)
    requires RolesOk(l)
  {
    forall a, b, e, f :: a in rows && b in rows && e in entries && f in entries && Clash(l, a, b, e, f, hash) ==> e == f
  }

  ghost predicate Shows(l: Layout, view: set<Row>, entries: set<Entry>, hash: Json -> string) {
    forall e :: e in entries ==> exists row :: row in view && RowFor(l, row, e, hash)
  }

  /** Every row is a row of one of the entries. */
  ghost predicate Owned(l: Layout, rows: set<Row>, entries: set<Entry>, hash: Json -> string) {
    forall row :: row in rows ==> exists e :: e in entries && RowFor(l, row, e, hash)
  }

  lemma {:induction false} FinalCollapses(t: TableDef, rows: set<Row>, view: set<Row>)
    requires Final(t, rows, view)
    ensures Collapse(t, rows, view)
  {}

  lemma {:induction false} KeptRow(t: TableDef, rows: set<Row>, view: set<Row>, row: Row) returns (k: Row)
    requires Collapse(t, rows, view) && row in rows
    ensures k in view && k in rows && Supersedes(t, k, row)
  {
    hide Supersedes;
    k :| k in view && Supersedes(t, k, row);
  }

  lemma {:induction false} SupersedingKey(t: TableDef, kept: Row, row: Row)
    requires Supersedes(t, kept, row)
    ensures KeyIn(t, kept) == KeyIn(t, row)
  {}

  lemma {:induction false} SameByTelling(l: Layout, rows: set<Row>, entries: set<Entry>, hash: Json -> string, a: Row,
                                         b: Row, e: Entry, f: Entry)
    requires RolesOk(l) && Tells(l, rows, entries, hash)
    requires a in rows && b in rows && e in entries && f in entries && Clash(l, a, b, e, f, hash)
    ensures e == f
  {}

  lemma {:induction false} ToldApartRow(t: TableDef, l: Layout, rows: set<Row>, view: set<Row>, entries: set<Entry>,
                                        hash: Json -> string, row: Row, e: Entry)
    requires RolesOk(l) && KeyedBy(t, l)
    requires RolesOk(l) && Collapse(t, rows, view) && Tells(l, rows, entries, hash)
    requires Owned(l, rows, entries, hash)
    requires row in rows && e in entries && RowFor(l, row, e, hash)
    ensures exists k :: k in view && RowFor(l, k, e, hash)
  {
    hide Created, RowFor, RolesOk, Tells, KeyOf, Supersedes, Collapse;
    var k := KeptRow(t, rows, view, row);
    SupersedingKey(t, k, row);
    KeyInIs(t, l, k);
    KeyInIs(t, l, row);
    var f :| f in entries && RowFor(l, k, f, hash);
    SameByTelling(l, rows, entries, hash, k, row, f, e);
  }

  lemma {:induction false} ToldApartShown(t: TableDef, l: Layout, rows: set<Row>, view: set<Row>, entries: set<Entry>,
                                          hash: Json -> string)
    requires RolesOk(l) && KeyedBy(t, l)
    requires RolesOk(l) && Final(t, rows, view)
    requires Shows(l, rows, entries, hash) && Tells(l, rows, entries, hash)
    requires Owned(l, rows, entries, hash)
    ensures Shows(l, view, entries, hash)
  {
    hide Created, RowFor, RolesOk, Final, Tells, Owned;
    forall e | e in entries ensures exists row :: row in view && RowFor(l, row, e, hash) {
      var row :| row in rows && RowFor(l, row, e, hash);
      FinalCollapses(t, rows, view);
      ToldApartRow(t, l, rows, view, entries, hash, row, e);
    }
  }

  /** Rows of one entry share a key, for any layout. */
  lemma {:induction false} KeyOfEntry(l: Layout, a: Row, b: Row, e: Entry, hash: Json -> string)
    requires RolesOk(l) && RowFor(l, a, e, hash) && RowFor(l, b, e, hash)
    ensures KeyOf(l, a) == KeyOf(l, b)
  {
    hide Created, RowFor, KeyOf;
    KeyAgreement(l, a, b);
    RowIdentity(l, a, e, hash);
    RowIdentity(l, b, e, hash);
    RoleNames(l);
    SameEntrySameCells(l, a, b, e, hash, l.timestampField);
    forall name | name in l.identityFields ensures SameValue(l, a, b, name) {
      SameEntrySameCells(l, a, b, e, hash, name);
    }
  }

  lemma {:induction false} ShownToldApart(t: TableDef, l: Layout, rows: set<Row>, view: set<Row>, entries: set<Entry>,
                                          hash: Json -> string, docs: set<Json>)
    requires RolesOk(l) && KeyedBy(t, l)
    requires RolesOk(l) && Final(t, rows, view) && Shows(l, view, entries, hash)
    requires forall e :: e in entries ==> Told(hash, docs, e)
    ensures Tells(l, rows, entries, hash)
  {
    hide Created, RowFor, KeyOf, Final, RolesOk, Told;
    forall a, b, e, f | a in rows && b in rows && e in entries && f in entries && Clash(l, a, b, e, f, hash)
      ensures e == f
    {
      var x :| x in view && RowFor(l, x, e, hash);
      var y :| y in view && RowFor(l, y, f, hash);
      KeyOfEntry(l, a, x, e, hash);
      KeyOfEntry(l, b, y, f, hash);
      KeyInIs(t, l, x);
      KeyInIs(t, l, y);
      FinalKeysDiffer(t, rows, view, x, y);
      OneEntry(l, x, e, f, hash, docs);
    }
  }

  /** For any layout, a FINAL read shows every stored entry exactly when no two different
      entries share a replacement key. */
  lemma {:induction false} FinalShowsAll(t: TableDef, l: Layout, rows: set<Row>, view: set<Row>, entries: set<Entry>,
                                         hash: Json -> string, docs: set<Json>)
    requires RolesOk(l) && KeyedBy(t, l)
    requires RolesOk(l) && Final(t, rows, view)
    requires Shows(l, rows, entries, hash)
    requires Owned(l, rows, entries, hash)
    requires forall e :: e in entries ==> Told(hash, docs, e)
    ensures Shows(l, view, entries, hash) <==> Tells(l, rows, entries, hash)
  {
    hide Created, RowFor, Final, Tells, Shows, RolesOk, Told, Owned;
    if Tells(l, rows, entries, hash) { ToldApartShown(t, l, rows, view, entries, hash); }
    if Shows(l, view, entries, hash) { ShownToldApart(t, l, rows, view, entries, hash, docs); }
  }

  lemma {:induction false} RowShown(l: Layout, rows: set<Row>, entries: set<Entry>, hash: Json -> string, e: Entry)
    returns (row: Row)
    requires Shows(l, rows, entries, hash) && e in entries
    ensures row in rows && RowFor(l, row, e, hash)
  {
    hide RowFor;
    row :| row in rows && RowFor(l, row, e, hash);
  }

  lemma {:induction false} TellsIf(l: Layout, rows: set<Row>, entries: set<Entry>, hash: Json -> string,
                                   docs: set<Json>)
    requires RolesOk(l) && !l.appendOnly
    requires forall e :: e in entries ==> Told(hash, docs, e)
    requires forall e, f :: e in entries && f in entries && SameIdentity(l, e, f) ==> e == f
    ensures Tells(l, rows, entries, hash)
  {
    hide Created, RowFor, RolesOk, Told, KeyOf, SameIdentity;
    forall a, b, e, f | a in rows && b in rows && e in entries && f in entries && Clash(l, a, b, e, f, hash)
      ensures e == f {
      LegacyKey(l, a, e, b, f, hash, docs);
    }
  }

  /** Without the append-only marker, a FINAL read loses nothing exactly when no two different
      records of one scope agree on timestamp and identity. */
  lemma {:induction false} LegacyShowsAll(t: TableDef, l: Layout, rows: set<Row>, view: set<Row>, entries: set<Entry>,
                                          hash: Json -> string, docs: set<Json>)
    requires RolesOk(l) && KeyedBy(t, l)
    requires RolesOk(l) && !l.appendOnly && Final(t, rows, view)
    requires Shows(l, rows, entries, hash) && Owned(l, rows, entries, hash)
    requires forall e :: e in entries ==> Told(hash, docs, e)
    ensures Shows(l, view, entries, hash) <==>
            forall e, f :: e in entries && f in entries && SameIdentity(l, e, f) ==> e == f
  {
    hide Created, RowFor, Final, RolesOk, Told, Owned, KeyOf, SameIdentity, Tells, Shows;
    FinalShowsAll(t, l, rows, view, entries, hash, docs);
    if forall e, f :: e in entries && f in entries && SameIdentity(l, e, f) ==> e == f {
      TellsIf(l, rows, entries, hash, docs);
    }
    if Tells(l, rows, entries, hash) {
      forall e, f | e in entries && f in entries && SameIdentity(l, e, f) ensures e == f {
        var a := RowShown(l, rows, entries, hash, e);
        var b := RowShown(l, rows, entries, hash, f);
        LegacyKey(l, a, e, b, f, hash, docs);
        SameByTelling(l, rows, entries, hash, a, b, e, f);
      }
    }
  }

  lemma {:induction false} HistoryShows(w: World, s: Store)
    requires RolesOk(w.l) && Inv(w, s)
    ensures Shows(w.l, s.rows, s.landed, w.hash) && Owned(w.l, s.rows, s.landed, w.hash)
  {
    hide Created, RowFor, RolesOk, Told, Inv;
    HistoryFacts(w, s);
    forall e | e in s.landed ensures exists row :: row in s.rows && RowFor(w.l, row, e, w.hash) {
      assert EntryHasRow(w, s.rows, e);
    }
    forall row | row in s.rows ensures exists e :: e in s.landed && RowFor(w.l, row, e, w.hash) {
      assert RowHasEntry(w, s.landed, row);
    }
  }

  /** Every reachable table without the marker: a FINAL read shows every landed entry exactly
      when no two different landed records of one scope agree on timestamp and identity. */
  lemma {:induction false} LegacyTableShowsAll(w: World, s: Store, view: set<Row>)
    requires Ready(w) && !w.l.appendOnly && Inv(w, s) && Final(w.table, AllRows(s.parts), view)
    ensures Shows(w.l, view, s.landed, w.hash) <==>
            forall e, f :: e in s.landed && f in s.landed && SameIdentity(w.l, e, f) ==> e == f
  {
    hide Created, RowFor, RowHasEntry, EntryHasRow, ColumnsOk, HiddenFree, RolesOk, AllRows, Told, Inv, Final,
         SameIdentity, HeaderOk, IndexesOk;
    ReadyTable(w);
    HistoryFacts(w, s);
    FinalOfHistory(w, s, view);
    HistoryShows(w, s);
    LegacyShowsAll(w.table, w.l, s.rows, view, s.landed, w.hash, w.docs);
  }

  ghost predicate Agreeing(w: World, s: Store, row: Row, e: Entry)
    requires RolesOk(w.l)
  {
    exists f :: f in s.landed && RowFor(w.l, row, f, w.hash) && SameIdentity(w.l, f, e)
  }

  /** The row that a FINAL read shows for the scope, timestamp and identity of an entry: a row
      of a landed entry that agrees with it on these, of the last version of all such rows. */
  ghost predicate LatestFor(w: World, s: Store, view: set<Row>, e: Entry, k: Row)
    requires RolesOk(w.l)
  {
    && k in view && Agreeing(w, s, k, e)
    && forall r :: r in s.rows && Agreeing(w, s, r, e) ==> Version(w.table, k) >= Version(w.table, r)
  }

  lemma {:induction false} AgreeingKey(w: World, s: Store, row: Row, sample: Row, e: Entry)
    requires Ready(w) && !w.l.appendOnly && Inv(w, s) && row in s.rows
    requires e in s.landed && RowFor(w.l, sample, e, w.hash)
    ensures Agreeing(w, s, row, e) <==> KeyIn(w.table, row) == KeyIn(w.table, sample)
  {
    hide Created, RowFor, ColumnsOk, HiddenFree, RolesOk, Told, Inv, KeyOf, SameIdentity, RowHasEntry, EntryHasRow,
         HeaderOk, IndexesOk;
    ReadyTable(w);
    HistoryFacts(w, s);
    var f := EntryOf(w, s.landed, row);
    LegacyKey(w.l, row, f, sample, e, w.hash, w.docs);
    if Agreeing(w, s, row, e) {
      var g :| g in s.landed && RowFor(w.l, row, g, w.hash) && SameIdentity(w.l, g, e);
      LegacyKey(w.l, row, g, sample, e, w.hash, w.docs);
    }
  }

  /** Without the marker, in every reachable state, a FINAL read has exactly one row for each
      landed combination of scope, timestamp and identity: one of its last version. */
  lemma {:induction false} LegacyShowsLatest(w: World, s: Store, view: set<Row>, e: Entry)
    requires Ready(w) && !w.l.appendOnly && Inv(w, s) && Final(w.table, AllRows(s.parts), view) && e in s.landed
    ensures exists k :: LatestFor(w, s, view, e, k)
    ensures forall a, b :: a in view && b in view && Agreeing(w, s, a, e) && Agreeing(w, s, b, e) ==> a == b
  {
    hide Created, RowFor, ColumnsOk, HiddenFree, RolesOk, Told, Inv, KeyOf, Final, AllRows, Agreeing, RowHasEntry,
         Version, HeaderOk, IndexesOk;
    ReadyTable(w);
    HistoryFacts(w, s);
    assert EntryHasRow(w, s.rows, e);
    var sample :| sample in s.rows && RowFor(w.l, sample, e, w.hash);
    FinalIsLatest(w, s, view, sample);
    forall r | r in s.rows ensures Agreeing(w, s, r, e) <==> KeyIn(w.table, r) == KeyIn(w.table, sample) {
      AgreeingKey(w, s, r, sample, e);
    }
    var k :| k in view && KeyIn(w.table, k) == KeyIn(w.table, sample)
             && forall r :: r in s.rows && KeyIn(w.table, r) == KeyIn(w.table, sample) ==>
               Version(w.table, k) >= Version(w.table, r);
    assert LatestFor(w, s, view, e, k);
  }
}
