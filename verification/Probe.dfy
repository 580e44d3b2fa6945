/** `probe/health.py` and the append-only rule of `descriptor/__init__.py`: what is advertised
    is checked against the tables that really exist. */
module Probe {
  import opened Common
  import opened Identifiers
  import opened Sorting
  import opened Layouts
  import opened LayoutDocuments
  import opened Sorts
  import opened Schema
  import opened Definitions

  /** The tables of one database, as the engine describes them. */
  type Tables = map<string, TableDef>

  // ---- Columns --------------------------------------------------------------

  /** `_expected_columns`. */
  function ExpectedColumns(l: Layout): seq<(string, string)> {
    [(HIDDEN_COLUMNS[0], "FixedString(64)"),
     (HIDDEN_COLUMNS[1], "String"),
     (HIDDEN_COLUMNS[2], "String"),
     (HIDDEN_COLUMNS[3], "FixedString(64)"),
     (HIDDEN_COLUMNS[4], "LowCardinality(String)"),
     (HIDDEN_COLUMNS[5], "String"),
     (HIDDEN_COLUMNS[6], "DateTime64(9, 'UTC')")]
    + seq(|l.columns|, i requires 0 <= i < |l.columns| => (l.columns[i].physical, l.columns[i].ctype))
  }

  lemma {:induction false} ExpectedAreCreated(l: Layout)
    ensures ExpectedColumns(l) == TableColumns(l)
  {
    var a, b := ExpectedColumns(l), TableColumns(l);
    assert |a| == |b|;
    forall i | 0 <= i < |a| ensures a[i] == b[i] {
      if i < 7 { assert i in {0, 1, 2, 3, 4, 5, 6}; }
    }
  }

  // ---- Sorting keys ---------------------------------------------------------

  /** A field of the order, by the name that the engine knows. */
  function OrderName(l: Layout, name: string): string
    requires name in HIDDEN_COLUMNS || name in l.Names()
  {
    if name in HIDDEN_COLUMNS then name else l.Physical(name)
  }

  lemma {:induction false} OrderFieldsKnown(l: Layout)
    requires RolesOk(l)
    ensures forall i :: 0 <= i < |l.OrderFields()| ==>
            l.OrderFields()[i] in HIDDEN_COLUMNS || l.OrderFields()[i] in l.Names()
  {
    assert HIDDEN_COLUMNS[0] == HIDDEN_SCOPE && HIDDEN_COLUMNS[3] == HIDDEN_ROW;
    forall i | 0 <= i < |l.OrderFields()|
      ensures l.OrderFields()[i] in HIDDEN_COLUMNS || l.OrderFields()[i] in l.Names() {
      if 2 <= i < 2 + |l.identityFields| { assert l.OrderFields()[i] in l.identityFields; }
    }
  }

  function OrderNames(l: Layout): (r: seq<string>)
    requires RolesOk(l)
    ensures |r| == |l.OrderFields()|
  {
    OrderFieldsKnown(l);
    seq(|l.OrderFields()|, i requires 0 <= i < |l.OrderFields()|
        && (l.OrderFields()[i] in HIDDEN_COLUMNS || l.OrderFields()[i] in l.Names()) =>
      OrderName(l, l.OrderFields()[i]))
  }

  lemma {:induction false} HiddenReserved(name: string)
    requires name in HIDDEN_COLUMNS
    ensures "_meridian_" <= name
  {
    assert HIDDEN_SCOPE[..10] == "_meridian_" && HIDDEN_TENANT[..10] == "_meridian_"
        && HIDDEN_BATCH[..10] == "_meridian_";
    assert HIDDEN_ROW[..10] == "_meridian_" && HIDDEN_RESOURCE[..10] == "_meridian_";
    assert HIDDEN_SCHEMA[..10] == "_meridian_" && HIDDEN_INGESTED[..10] == "_meridian_";
  }

  lemma {:induction false} LogicalNotHidden(l: Layout, name: string)
    requires ColumnsOk(l) && name in l.Names()
    ensures name !in HIDDEN_COLUMNS
  {
    hide ColumnsOk;
    NamesAreUnreserved(l, name);
    if name in HIDDEN_COLUMNS {
      HiddenReserved(name);
    }
  }

  lemma {:induction false} OrderNameAt(l: Layout, i: nat)
    requires ColumnsOk(l) && RolesOk(l) && i < |KeyColumns(l)|
    ensures |l.OrderFields()| == |KeyColumns(l)|
    ensures var name := l.OrderFields()[i];
            (name in HIDDEN_COLUMNS || name in l.Names()) && OrderName(l, name) == KeyColumns(l)[i]
  {
    hide ColumnsOk, Unique;
    var fields, key := l.OrderFields(), KeyColumns(l);
    assert HIDDEN_COLUMNS[0] == HIDDEN_SCOPE && HIDDEN_COLUMNS[3] == HIDDEN_ROW;
    RoleNames(l);
    if i == 1 {
      LogicalNotHidden(l, l.timestampField);
    } else if 2 <= i < 2 + |l.identityFields| {
      assert fields[i] == l.identityFields[i - 2] && fields[i] in l.identityFields;
      LogicalNotHidden(l, fields[i]);
      assert key[i] == PhysicalOf(l, l.identityFields)[i - 2];
    }
  }

  /** The key check and the table definition mean the same list of columns. */
  lemma {:induction false} OrderNamesAreKey(l: Layout)
    requires ColumnsOk(l) && RolesOk(l)
    ensures OrderNames(l) == KeyColumns(l)
  {
    hide ColumnsOk, OrderName;
    OrderFieldsKnown(l);
    assert |OrderNames(l)| == |KeyColumns(l)|;
    forall i | 0 <= i < |KeyColumns(l)| ensures OrderNames(l)[i] == KeyColumns(l)[i] {
      OrderNameAt(l, i);
    }
  }

  function ExpectedKey(l: Layout): string
    requires RolesOk(l)
  {
    JoinNames(OrderNames(l))
  }

  /** `_verify_append_order`: the engine's text of the key against the expected text. */
  function VerifyAppendOrder(tables: Tables, l: Layout): Result<string>
    requires RolesOk(l)
  {
    if l.table in tables && JoinNames(tables[l.table].key) == ExpectedKey(l) then Ok(ExpectedKey(l))
      else Err(Incompatible)
  }

  /** A character that only occurs in printed expressions and quoted names. */
  predicate Odd(c: char) { !IsPart(c) && c != ',' && c != ' ' }

  /** How engines print key elements: plain names bare, everything else with brackets,
      quotes or operators. */
  ghost predicate PrintedName(n: string) { n != "" && (AllParts(n) || exists i :: 0 <= i < |n| && Odd(n[i])) }

  ghost predicate PrintedNames(names: seq<string>) { forall n :: n in names ==> PrintedName(n) }

  ghost predicate PrintedTables(tables: Tables) { forall t :: t in tables ==> PrintedNames(tables[t].key) }

  lemma {:induction false} PlainJoin(names: seq<string>, i: nat)
    requires PlainNames(names) && i < |JoinNames(names)|
    ensures !Odd(JoinNames(names)[i])
  {
    assert names[0] in names;
    if |names| > 1 {
      var rest := JoinNames(names[1..]);
      assert JoinNames(names) == names[0] + ", " + rest;
      if i >= |names[0]| + 2 {
        forall n | n in names[1..] ensures n != "" && AllParts(n) { assert n in names; }
        PlainJoin(names[1..], i - |names[0]| - 2);
      }
    }
  }

  lemma {:induction false} JoinContains(names: seq<string>, k: nat, j: nat) returns (i: nat)
    requires k < |names| && j < |names[k]|
    ensures i < |JoinNames(names)| && JoinNames(names)[i] == names[k][j]
  {
    if |names| == 1 || k == 0 {
      i := j;
    } else {
      var inner := JoinContains(names[1..], k - 1, j);
      i := |names[0]| + 2 + inner;
      assert JoinNames(names) == names[0] + ", " + JoinNames(names[1..]);
    }
  }

  /** Comparing texts compares keys: only the plain list itself prints like a plain list. */
  lemma {:induction false} PrintedKeyEqual(actual: seq<string>, expected: seq<string>)
    requires PrintedNames(actual) && PlainNames(expected)
    ensures JoinNames(actual) == JoinNames(expected) <==> actual == expected
  {
    if JoinNames(actual) == JoinNames(expected) {
      forall n | n in actual ensures n != "" && AllParts(n) {
        assert PrintedName(n);
        if exists j :: 0 <= j < |n| && Odd(n[j]) {
          var j :| 0 <= j < |n| && Odd(n[j]);
          var k :| 0 <= k < |actual| && actual[k] == n;
          var i := JoinContains(actual, k, j);
          PlainJoin(expected, i);
        }
      }
      JoinInjective(actual, expected);
    }
  }

  /** The check passes exactly when the real replacement key is the compiled one. */
  lemma {:induction false} AppendOrderExact(tables: Tables, l: Layout)
    requires ColumnsOk(l) && RolesOk(l) && PrintedTables(tables)
    ensures VerifyAppendOrder(tables, l).Ok? <==> l.table in tables && tables[l.table].key == KeyColumns(l)
  {
    hide ColumnsOk, RolesOk, JoinNames, KeyColumns, PrintedNames, PlainNames, OrderNames;
    OrderNamesAreKey(l);
    KeyNamesPlain(l);
    if l.table in tables { PrintedKeyEqual(tables[l.table].key, KeyColumns(l)); }
  }

  /** Created tables verify: what an engine reads from the definition of a layout passes the
      column check, the engine check and the key check. */
  lemma {:induction false} CreatedTableVerifies(database: string, l: Layout, names: seq<string>, tables: Tables)
    requires PhysicalIdentifier(database)
    requires HeaderOk(l) && ColumnsOk(l) && RolesOk(l) && IndexesOk(l) && IndexNames(l, names)
    requires var s := ReadTable(CreateTable(database, l, names));
             s.Some? ==> s.value.table in tables && tables[s.value.table] == s.value.definition
    ensures l.table in tables && tables[l.table].columns == ExpectedColumns(l)
            && tables[l.table].engine == EngineName(l.topology)
    ensures VerifyAppendOrder(tables, l).Ok?
  {
    hide ReadTable, CreateTable, TableColumns, ExpectedColumns, EngineName, ColumnsOk, RolesOk, HeaderOk, KeyColumns,
         OrderNames, IndexesOk, TableIndexes, PathOf, RetentionOf, PartitionFunction, PhysicalIdentifier;
    TableIsRead(database, l, names);
    ExpectedAreCreated(l);
    OrderNamesAreKey(l);
  }

  // ---- Settings and guarantees ----------------------------------------------

  /** The closed binding: its layouts in the order of their resources. */
  datatype Settings = Settings(database: string, topology: string, layouts: seq<Layout>)

  function CanonicalOf(l: Layout): string { l.resource.Canonical() }

  predicate Evidence(l: Layout) { l.resource.catalog == "evidence" }

  const APPEND_ONLY := "append-only"

  /** The guarantees of the append capability. */
  function AppendGuarantees(layouts: seq<Layout>): seq<string> {
    var base := ["eventual-visibility", "retry-window-dedup", "scope-isolation"];
    if (exists l :: l in layouts && Evidence(l)) && (forall l :: l in layouts && Evidence(l) ==> l.appendOnly)
    then [APPEND_ONLY] + base else base
  }

  /** The advertised list, which begins with the append-only promise when it is made. */
  lemma {:induction false} GuaranteesInWords(layouts: seq<Layout>)
    ensures var promised := && (exists l :: l in layouts && l.resource.catalog == "evidence")
                            && (forall l :: l in layouts && l.resource.catalog == "evidence" ==> l.appendOnly);
            AppendGuarantees(layouts)
            == (if promised then ["append-only"] else []) + ["eventual-visibility", "retry-window-dedup",
                                                             "scope-isolation"]
  {}

  lemma {:induction false} AppendOnlyAdvertised(layouts: seq<Layout>)
    ensures APPEND_ONLY in AppendGuarantees(layouts) <==>
            (exists l :: l in layouts && Evidence(l)) && (forall l :: l in layouts && Evidence(l) ==> l.appendOnly)
  {
    assert |APPEND_ONLY| == 11 && |"eventual-visibility"| == 19 && |"retry-window-dedup"| == 18
        && |"scope-isolation"| == 15;
  }

  /** The promise is one of the whole binding: it survives added layouts exactly when they hold
      no evidence or would carry it alone. */
  lemma {:induction false} GuaranteeIsBindingWide(layouts: seq<Layout>, added: seq<Layout>)
    requires APPEND_ONLY in AppendGuarantees(layouts)
    ensures APPEND_ONLY in AppendGuarantees(layouts + added) <==>
            (forall l :: l in added ==> !Evidence(l)) || APPEND_ONLY in AppendGuarantees(added)
  {
    hide AppendGuarantees, Evidence;
    AppendOnlyAdvertised(layouts);
    AppendOnlyAdvertised(added);
    AppendOnlyAdvertised(layouts + added);
  }

  /** The manifest that a binding pins, as far as it depends on settings and layouts. */
  datatype Manifest = Manifest(profile: string, engineVersion: string, appendGuarantees: seq<string>, layoutSet: string)

  /** Resource and fingerprint of every layout. */
  function LayoutSet(layouts: seq<Layout>, hash: Json -> string): Json {
    JArr(seq(|layouts|, i requires 0 <= i < |layouts| =>
      JArr([JStr(CanonicalOf(layouts[i])), JStr(LayoutFingerprint(layouts[i], hash))])))
  }

  /** `capability_manifest`. */
  function ManifestOf(settings: Settings, selected: string, hash: Json -> string): Manifest {
    Manifest(settings.topology, selected, AppendGuarantees(settings.layouts),
             "sha256:" + hash(LayoutSet(settings.layouts, hash)))
  }

  lemma {:induction false} SameLayoutSet(a: seq<Layout>, b: seq<Layout>, hash: Json -> string)
    requires Injective(hash) && (forall l :: l in a ==> Valid(l)) && (forall l :: l in b ==> Valid(l))
    requires LayoutSet(a, hash) == LayoutSet(b, hash)
    ensures a == b
  {
    hide Valid, LayoutFingerprint, Injective;
    var x, y := LayoutSet(a, hash).items, LayoutSet(b, hash).items;
    assert |x| == |a| && |y| == |b|;
    forall i | 0 <= i < |a| ensures a[i] == b[i] {
      assert x[i].items[1] == y[i].items[1];
      DocumentInjective(a[i], b[i], hash);
    }
  }

  /** A manifest stands for one topology, one engine version and one list of layouts. */
  lemma {:induction false} ManifestPinsLayouts(a: Settings, b: Settings, va: string, vb: string, hash: Json -> string)
    requires Injective(hash) && (forall l :: l in a.layouts ==> Valid(l)) && (forall l :: l in b.layouts ==> Valid(l))
    ensures ManifestOf(a, va, hash) == ManifestOf(b, vb, hash) <==>
            a.topology == b.topology && va == vb && a.layouts == b.layouts
  {
    hide Valid, LayoutFingerprint, AppendGuarantees;
    if ManifestOf(a, va, hash) == ManifestOf(b, vb, hash) {
      var x, y := ManifestOf(a, va, hash).layoutSet, ManifestOf(b, vb, hash).layoutSet;
      assert hash(LayoutSet(a.layouts, hash)) == x[7..] && hash(LayoutSet(b.layouts, hash)) == y[7..];
      SameLayoutSet(a.layouts, b.layouts, hash);
    }
  }

  // ---- The probe ------------------------------------------------------------

  datatype Replica = Replica(table: string, readonly: bool, expired: bool, total: int, active: int) {
    predicate Healthy() { !readonly && !expired && total >= 2 && active == total }
  }

  /** What the engine answers to the probe's queries; an identity row is a version and a time
      zone. */
  datatype Observed = Observed(
    identity: seq<(string, string)>, functions: seq<string>, tables: Tables, replicas: seq<Replica>)

  /** A passed probe: the manifest and the report around it. */
  datatype ProbeResult = ProbeResult(
    manifest: Manifest, actualVersion: string, timezone: string, functionCount: nat, layoutCount: nat,
      replicaCount: int)

  function TableNames(layouts: seq<Layout>): set<string> { set l | l in layouts :: l.table }

  function ReplicaTables(rows: seq<Replica>): set<string> { set r | r in rows :: r.table }

  predicate VersionMatches(actual: string, selected: string) { actual == selected || selected + "." <= actual }

  /** The selected version or one of its patch levels. */
  lemma {:induction false} VersionInWords(actual: string, selected: string)
    ensures VersionMatches(actual, selected) <==>
            actual == selected || exists patch :: actual == selected + "." + patch
  {
    if selected + "." <= actual { assert actual == selected + "." + actual[|selected| + 1..]; }
    if patch :| actual == selected + "." + patch { assert actual[..|selected| + 1] == selected + "."; }
  }

  predicate ReplicasOk(names: set<string>, rows: seq<Replica>) {
    && ReplicaTables(rows) == names && rows != []
    && (forall r :: r in rows ==> r.Healthy() && r.total == rows[0].total)
  }

  /** The replicas are those of the layouts' tables, all of them and no other. */
  lemma {:induction false} ReplicasInWords(layouts: seq<Layout>, rows: seq<Replica>)
    ensures ReplicaTables(rows) == TableNames(layouts) <==>
            && (forall l :: l in layouts ==> exists row :: row in rows && row.table == l.table)
            && (forall row :: row in rows ==> exists l :: l in layouts && l.table == row.table)
  {
    var x, y := ReplicaTables(rows), TableNames(layouts);
    assert forall row :: row in rows ==> row.table in x;
    assert forall l :: l in layouts ==> l.table in y;
    assert x == y <==> (forall t :: t in x ==> t in y) && (forall t :: t in y ==> t in x);
  }

  lemma {:induction false} OneCount(counts: set<int>, count: int)
    requires |counts| == 1 && count in counts
    ensures counts == {count}
  {
    var others := counts - {count};
    assert counts == {count} + others;
    assert |counts| == 1 + |others|;
    assert others == {};
  }

  /** The set of counts has one element exactly when all replicated tables agree. */
  lemma {:induction false} CountsSize(rows: seq<Replica>, counts: set<int>)
    requires counts == set j | 0 <= j < |rows| :: rows[j].total
    ensures |counts| == 1 <==> rows != [] && forall r :: r in rows ==> r.total == rows[0].total
  {
    forall r | r in rows ensures r.total in counts {
      var j :| 0 <= j < |rows| && rows[j] == r;
    }
    if rows != [] {
      if forall r :: r in rows ==> r.total == rows[0].total {
        assert counts == {rows[0].total};
      } else if |counts| == 1 {
        OneCount(counts, rows[0].total);
      }
    }
  }

  /** `_verify_replicas`; the engine lists each table once. */
  method VerifyReplicas(names: set<string>, rows: seq<Replica>) returns (r: Result<int>)
    ensures r.Ok? <==> ReplicasOk(names, rows)
    ensures r.Ok? ==> r.value >= 2 && forall row :: row in rows ==>
      !row.readonly && !row.expired && row.active == row.total == r.value
  {
    if ReplicaTables(rows) != names { return Err(Incompatible); }
    var counts: set<int> := {};
    for i := 0 to |rows|
      invariant forall j :: 0 <= j < i ==> rows[j].Healthy()
      invariant counts == set j | 0 <= j < i :: rows[j].total
    {
      if rows[i].readonly || rows[i].expired || rows[i].total < 2 || rows[i].active != rows[i].total {
        assert rows[i] in rows;
        return Err(Incompatible);
      }
      counts := counts + {rows[i].total};
    }
    CountsSize(rows, counts);
    if |counts| != 1 { return Err(Incompatible); }
    var count :| count in counts;
    OneCount(counts, count);
    assert forall j :: 0 <= j < |rows| ==> rows[j].total in counts;
    assert rows[0] in rows;
    return Ok(count);
  }

  predicate EnginesOk(settings: Settings, tables: Tables) {
    && (forall l :: l in settings.layouts ==> l.table in tables)
    && (forall l :: l in settings.layouts && l.table in tables ==>
      tables[l.table].engine == EngineName(settings.topology))
  }

  predicate OrdersOk(layouts: seq<Layout>, tables: Tables)
    requires forall l :: l in layouts ==> RolesOk(l)
  {
    forall l :: l in layouts && l.appendOnly ==> VerifyAppendOrder(tables, l).Ok?
  }

  predicate ProbeOk(settings: Settings, required: seq<string>, selected: string, o: Observed)
    requires forall l :: l in settings.layouts ==> RolesOk(l)
  {
    && |o.identity| == 1
    && VersionMatches(o.identity[0].0, selected)
    && o.identity[0].1 in {"UTC", "Etc/UTC"}
    && o.functions == required
    && EnginesOk(settings, o.tables)
    && OrdersOk(settings.layouts, o.tables)
    && (settings.topology == "clickhouse-replicated" ==> ReplicasOk(TableNames(settings.layouts), o.replicas))
  }

  /** `probe_adapter`: passes exactly when every observation agrees with the settings, and then
      reports the manifest, what was observed and the replica count of every table. */
  method ProbeAdapter(settings: Settings, required: seq<string>, selected: string, o: Observed, hash: Json -> string)
    returns (r: Result<ProbeResult>)
    requires forall l :: l in settings.layouts ==> RolesOk(l)
    ensures r.Ok? <==> ProbeOk(settings, required, selected, o)
    ensures r.Ok? ==> r.value.manifest == ManifestOf(settings, selected, hash)
    ensures r.Ok? ==> (r.value.actualVersion, r.value.timezone) == o.identity[0]
    ensures r.Ok? ==> r.value.functionCount == |required| && r.value.layoutCount == |settings.layouts|
    ensures r.Ok? ==> if settings.topology == "clickhouse-replicated"
                      then forall row :: row in o.replicas ==> row.active == row.total == r.value.replicaCount
                      else r.value.replicaCount == 1
  {
    hide RolesOk, ManifestOf;
    if |o.identity| != 1 { return Err(Incompatible); }
    var (actual, timezone) := o.identity[0];
    if !VersionMatches(actual, selected) { return Err(Incompatible); }
    if timezone !in {"UTC", "Etc/UTC"} { return Err(Incompatible); }
    if o.functions != required { return Err(Incompatible); }
    var engine := if settings.topology == "clickhouse-replicated" then "ReplicatedReplacingMergeTree"
      else "ReplacingMergeTree";
    for i := 0 to |settings.layouts|
      invariant forall j :: 0 <= j < i ==>
                settings.layouts[j].table in o.tables && o.tables[settings.layouts[j].table].engine == engine
    {
      var table := settings.layouts[i].table;
      if table !in o.tables || o.tables[table].engine != engine {
        assert settings.layouts[i] in settings.layouts;
        return Err(Incompatible);
      }
    }
    for i := 0 to |settings.layouts|
      invariant forall j :: 0 <= j < i && settings.layouts[j].appendOnly ==>
                VerifyAppendOrder(o.tables, settings.layouts[j]).Ok?
    {
      var l := settings.layouts[i];
      if l.appendOnly && VerifyAppendOrder(o.tables, l).Err? {
        assert l in settings.layouts;
        return Err(Incompatible);
      }
    }
    var replicas := 1;
    if settings.topology == "clickhouse-replicated" {
      var counted := VerifyReplicas(TableNames(settings.layouts), o.replicas);
      if counted.Err? { return Err(counted.error); }
      replicas := counted.value;
    }
    return Ok(ProbeResult(ManifestOf(settings, selected, hash), actual, timezone, |o.functions|, |settings.layouts|,
                          replicas));
  }

  predicate EndsInRow(key: seq<string>) { key != [] && key[|key| - 1] == HIDDEN_ROW }

  lemma {:induction false} KeyEndsInRow(l: Layout)
    requires RolesOk(l) && l.appendOnly
    ensures EndsInRow(KeyColumns(l))
  {}

  /** An advertised append-only guarantee with a passed probe is real: every evidence layout
      has a replacing table whose key is the compiled one and ends in the row fingerprint. */
  lemma {:induction false} AdvertisedIsReal(settings: Settings, required: seq<string>, selected: string, o: Observed)
    requires forall l :: l in settings.layouts ==> ColumnsOk(l) && RolesOk(l)
    requires PrintedTables(o.tables) && ProbeOk(settings, required, selected, o)
    requires APPEND_ONLY in AppendGuarantees(settings.layouts)
    ensures exists l :: l in settings.layouts && Evidence(l)
    ensures forall l :: l in settings.layouts && Evidence(l) ==>
      && l.table in o.tables
      && o.tables[l.table].engine == EngineName(settings.topology)
      && o.tables[l.table].key == KeyColumns(l)
      && EndsInRow(KeyColumns(l))
  {
    hide ColumnsOk, RolesOk, VerifyAppendOrder, PrintedTables, AppendGuarantees, KeyColumns, EngineName;
    AppendOnlyAdvertised(settings.layouts);
    forall l | l in settings.layouts && Evidence(l)
      ensures l.table in o.tables && o.tables[l.table].engine == EngineName(settings.topology)
      ensures o.tables[l.table].key == KeyColumns(l) && EndsInRow(KeyColumns(l))
    {
      AppendOrderExact(o.tables, l);
      KeyEndsInRow(l);
    }
  }

  // ---- Physical verification ------------------------------------------------

  /** A resource of the registry that must exist physically. */
  datatype Declared = Declared(canonical: string, resourceFingerprint: string, schemaFingerprint: Option<string>,
                               profile: string)

  function DeclaredKey(d: Declared): string { d.canonical }

  function FindLayout(layouts: seq<Layout>, canonical: string): (r: Option<Layout>)
    ensures r.Some? ==> r.value in layouts && r.value.resource.Canonical() == canonical
    ensures r.None? ==> forall l :: l in layouts ==> l.resource.Canonical() != canonical
  {
    if layouts == [] then None else if CanonicalOf(layouts[0]) == canonical then Some(layouts[0])
      else FindLayout(layouts[1..], canonical)
  }

  /** The metadata row that must be stored for a resource. */
  function ExpectedRow(d: Declared, l: Layout, hash: Json -> string): seq<string> {
    [d.resourceFingerprint,
     if d.schemaFingerprint.Some? && d.schemaFingerprint.value != "" then d.schemaFingerprint.value
       else l.schemaFingerprint,
     d.profile, l.table, LayoutFingerprint(l, hash), l.schemaVersion]
  }

  predicate ResourceOk(settings: Settings, tables: Tables, metadata: map<string, seq<string>>, d: Declared,
                       hash: Json -> string)
    requires forall l :: l in settings.layouts ==> RolesOk(l)
  {
    var found := FindLayout(settings.layouts, d.canonical);
    && found.Some? && d.canonical in metadata
    && var l := found.value;
       && metadata[d.canonical] == ExpectedRow(d, l, hash)
       && l.table in tables
       && tables[l.table].columns == ExpectedColumns(l)
       && tables[l.table].engine == EngineName(l.topology)
       && (l.appendOnly ==> VerifyAppendOrder(tables, l).Ok?)
  }

  function DeclaredNames(declared: seq<Declared>): (r: seq<string>)
    ensures |r| == |declared| && forall i :: 0 <= i < |declared| ==> r[i] == declared[i].canonical
  {
    seq(|declared|, i requires 0 <= i < |declared| => declared[i].canonical)
  }

  predicate DistinctNames(declared: seq<Declared>) { Unique(DeclaredNames(declared)) }

  predicate PhysicalOk(settings: Settings, tables: Tables, metadata: map<string, seq<string>>, declared: seq<Declared>,
                       hash: Json -> string)
    requires forall l :: l in settings.layouts ==> RolesOk(l)
  {
    && declared != [] && DistinctNames(declared)
    && (forall l :: l in settings.layouts ==> l.table in tables)
    && (forall d :: d in declared ==> ResourceOk(settings, tables, metadata, d, hash))
  }

  function QualifiedTable(database: string, l: Layout): string { Quoted(database) + "." + Quoted(l.table) }

  /** A mapping names the very table that the definition creates. */
  lemma {:induction false} QualifiedIsCreated(database: string, l: Layout)
    requires database != "" && l.table != ""
    ensures ReadHeader("CREATE TABLE IF NOT EXISTS " + QualifiedTable(database, l) + " (") == Some((database, l.table))
  {
    hide ReadHeader, Doubled;
    HeaderIsRead(database, l.table);
    assert HeaderLine(database, l.table) == "CREATE TABLE IF NOT EXISTS " + QualifiedTable(database, l) + " (";
  }

  function TextOrNull(text: Option<string>): Json {
    match text case None => JNull case Some(t) => JStr(t)
  }

  function ColumnPairs(columns: seq<(string, string)>): Json {
    JArr(seq(|columns|, i requires 0 <= i < |columns| => JArr([JStr(columns[i].0), JStr(columns[i].1)])))
  }

  /** The recorded evidence for one resource; the sorting key is part of it for append-only
      layouts. */
  function EvidenceFor(database: string, l: Layout, d: Declared, hash: Json -> string): Json
    requires RolesOk(l)
  {
    var row := map[
      "columns" := ColumnPairs(ExpectedColumns(l)),
      "engine" := JStr(EngineName(l.topology)),
      "layoutFingerprint" := JStr(LayoutFingerprint(l, hash)),
      "mapping" := JStr(QualifiedTable(database, l)),
      "resource" := JStr(d.canonical),
      "resourceFingerprint" := JStr(d.resourceFingerprint),
      "schemaFingerprint" := TextOrNull(d.schemaFingerprint)];
    JObj(if l.appendOnly then row["sortingKey" := JStr(ExpectedKey(l))] else row)
  }

  predicate AllFound(settings: Settings, declared: seq<Declared>) {
    forall d :: d in declared ==> FindLayout(settings.layouts, d.canonical).Some?
  }

  /** The evidence for the resources in the given order. */
  function EvidenceRows(settings: Settings, ordered: seq<Declared>, hash: Json -> string): (r: seq<Json>)
    requires (forall l :: l in settings.layouts ==> RolesOk(l)) && AllFound(settings, ordered)
    ensures |r| == |ordered|
  {
    seq(|ordered|, i requires 0 <= i < |ordered| =>
      EvidenceFor(settings.database, FindLayout(settings.layouts, ordered[i].canonical).value, ordered[i], hash))
  }

  function EvidenceDigest(rows: seq<Json>, hash: Json -> string): string { "sha256:" + hash(JArr(rows)) }

  /** A passed verification: its digest and the table of every resource. */
  datatype Verification = Verification(digest: string, mappings: map<string, string>, resources: nat)

  lemma {:induction false} SortedMembers(declared: seq<Declared>)
    ensures |Sort(DeclaredKey, declared)| == |declared|
    ensures forall d :: d in Sort(DeclaredKey, declared) <==> d in declared
  {
    hide Sort;
    forall d ensures d in Sort(DeclaredKey, declared) <==> d in declared {
      assert d in multiset(Sort(DeclaredKey, declared)) <==> d in multiset(declared);
    }
  }

  lemma {:induction false} FoundLayout(settings: Settings, tables: Tables, metadata: map<string, seq<string>>,
                                       d: Declared, hash: Json -> string)
    requires forall l :: l in settings.layouts ==> RolesOk(l)
    requires ResourceOk(settings, tables, metadata, d, hash)
    ensures FindLayout(settings.layouts, d.canonical).Some? && d.canonical in metadata
    ensures metadata[d.canonical] == ExpectedRow(d, FindLayout(settings.layouts, d.canonical).value, hash)
  {}

  lemma {:induction false} PhysicalFound(settings: Settings, tables: Tables, metadata: map<string, seq<string>>,
                                         declared: seq<Declared>, hash: Json -> string)
    requires forall l :: l in settings.layouts ==> RolesOk(l)
    requires PhysicalOk(settings, tables, metadata, declared, hash)
    ensures AllFound(settings, declared) && AllFound(settings, Sort(DeclaredKey, declared))
  {
    hide RolesOk, ResourceOk, FindLayout, Sort, DistinctNames;
    SortedMembers(declared);
    forall d | d in declared ensures FindLayout(settings.layouts, d.canonical).Some? {
      FoundLayout(settings, tables, metadata, d, hash);
    }
  }

  /** The qualified table of every resource. */
  function MappingsOf(settings: Settings, ordered: seq<Declared>): map<string, string>
    requires AllFound(settings, ordered)
  {
    if ordered == [] then map[] else
    var d := ordered[|ordered| - 1];
    MappingsOf(settings, ordered[..|ordered| - 1])
      [d.canonical := QualifiedTable(settings.database, FindLayout(settings.layouts, d.canonical).value)]
  }

  lemma {:induction false} NothingRecorded(settings: Settings, ordered: seq<Declared>, hash: Json -> string)
    requires forall l :: l in settings.layouts ==> RolesOk(l)
    ensures ordered[..0] == [] && AllFound(settings, [])
    ensures EvidenceRows(settings, [], hash) == [] && MappingsOf(settings, []) == map[]
  {}

  lemma {:induction false} OneMoreRecorded(settings: Settings, ordered: seq<Declared>, i: nat, hash: Json -> string)
    requires forall l :: l in settings.layouts ==> RolesOk(l)
    requires i < |ordered| && AllFound(settings, ordered[..i])
    requires FindLayout(settings.layouts, ordered[i].canonical).Some?
    ensures AllFound(settings, ordered[..i + 1])
    ensures var d := ordered[i];
            var l := FindLayout(settings.layouts, d.canonical).value;
            && EvidenceRows(settings, ordered[..i + 1], hash)
            == EvidenceRows(settings, ordered[..i], hash) + [EvidenceFor(settings.database, l, d, hash)]
            && MappingsOf(settings, ordered[..i + 1])
            == MappingsOf(settings, ordered[..i])[d.canonical := QualifiedTable(settings.database, l)]
  {
    hide RolesOk, EvidenceFor, FindLayout, QualifiedTable;
    assert ordered[..i + 1] == ordered[..i] + [ordered[i]];
  }

  /** `_verify_metadata` and the comparisons with columns, engine and key. */
  method VerifyResource(settings: Settings, tables: Tables, metadata: map<string, seq<string>>, d: Declared,
                        hash: Json -> string) returns (ok: bool)
    requires forall l :: l in settings.layouts ==> RolesOk(l)
    ensures ok <==> ResourceOk(settings, tables, metadata, d, hash)
  {
    hide RolesOk, FindLayout, ExpectedColumns, LayoutFingerprint, VerifyAppendOrder;
    var found := FindLayout(settings.layouts, d.canonical);
    if found.None? || d.canonical !in metadata { return false; }
    var l, row := found.value, metadata[d.canonical];
    var schema := l.schemaFingerprint;
    if d.schemaFingerprint != None && d.schemaFingerprint != Some("") { schema := d.schemaFingerprint.value; }
    if row != [d.resourceFingerprint, schema, d.profile, l.table, LayoutFingerprint(l, hash), l.schemaVersion] {
      return false;
    }
    if l.table !in tables { return false; }
    if tables[l.table].columns != ExpectedColumns(l) { return false; }
    var engine := if l.topology == "clickhouse-replicated" then "ReplicatedReplacingMergeTree"
      else "ReplacingMergeTree";
    if tables[l.table].engine != engine { return false; }
    if l.appendOnly && VerifyAppendOrder(tables, l).Err? { return false; }
    return true;
  }

  /** The evidence of a verified resource: what was observed of its table, and the pins. */
  method EvidenceRow(settings: Settings, tables: Tables, metadata: map<string, seq<string>>, l: Layout, d: Declared,
                     hash: Json -> string) returns (evidence: Json)
    requires forall l :: l in settings.layouts ==> RolesOk(l)
    requires ResourceOk(settings, tables, metadata, d, hash) && FindLayout(settings.layouts, d.canonical) == Some(l)
    ensures evidence == EvidenceFor(settings.database, l, d, hash)
  {
    hide RolesOk, ExpectedColumns, LayoutFingerprint, QualifiedTable, ExpectedKey, FindLayout;
    var row := map[
      "columns" := ColumnPairs(tables[l.table].columns),
      "engine" := JStr(tables[l.table].engine),
      "layoutFingerprint" := JStr(LayoutFingerprint(l, hash)),
      "mapping" := JStr(QualifiedTable(settings.database, l)),
      "resource" := JStr(d.canonical),
      "resourceFingerprint" := JStr(d.resourceFingerprint),
      "schemaFingerprint" := if d.schemaFingerprint.Some? then JStr(d.schemaFingerprint.value) else JNull];
    if l.appendOnly {
      row := row["sortingKey" := JStr(JoinNames(tables[l.table].key))];
    }
    return JObj(row);
  }

  /** The loop of `verify_physical`. */
  method RecordResources(settings: Settings, tables: Tables, metadata: map<string, seq<string>>,
                         ordered: seq<Declared>, hash: Json -> string)
    returns (r: Result<(map<string, string>, seq<Json>)>)
    requires forall l :: l in settings.layouts ==> RolesOk(l)
    ensures r.Ok? <==> forall d :: d in ordered ==> ResourceOk(settings, tables, metadata, d, hash)
    ensures r.Ok? ==> AllFound(settings, ordered)
    ensures r.Ok? ==> r.value == (MappingsOf(settings, ordered), EvidenceRows(settings, ordered, hash))
  {
    hide RolesOk, ResourceOk, EvidenceFor, FindLayout, QualifiedTable, AllFound, EvidenceRows, MappingsOf;
    var mappings: map<string, string> := map[];
    var evidence: seq<Json> := [];
    NothingRecorded(settings, ordered, hash);
    for i := 0 to |ordered|
      invariant AllFound(settings, ordered[..i])
      invariant forall j :: 0 <= j < i ==> ResourceOk(settings, tables, metadata, ordered[j], hash)
      invariant evidence == EvidenceRows(settings, ordered[..i], hash)
      invariant mappings == MappingsOf(settings, ordered[..i])
    {
      var d := ordered[i];
      var found := FindLayout(settings.layouts, d.canonical);
      var verified := VerifyResource(settings, tables, metadata, d, hash);
      if !verified {
        assert d in ordered;
        return Err(Incompatible);
      }
      FoundLayout(settings, tables, metadata, d, hash);
      OneMoreRecorded(settings, ordered, i, hash);
      mappings := mappings[d.canonical := QualifiedTable(settings.database, found.value)];
      var row := EvidenceRow(settings, tables, metadata, found.value, d, hash);
      evidence := evidence + [row];
    }
    assert ordered[..|ordered|] == ordered;
    return Ok((mappings, evidence));
  }

  lemma {:induction false} DistinctDeclared(declared: seq<Declared>)
    requires DistinctNames(declared)
    ensures DistinctKeys(DeclaredKey, Sort(DeclaredKey, declared))
  {
    hide Sort;
    forall i, j | 0 <= i < j < |declared| ensures DeclaredKey(declared[i]) != DeclaredKey(declared[j]) {
      assert DeclaredNames(declared)[i] != DeclaredNames(declared)[j];
    }
    DistinctSort(DeclaredKey, declared);
  }

  lemma {:induction false} MappingsFound(settings: Settings, ordered: seq<Declared>)
    requires AllFound(settings, ordered) && DistinctKeys(DeclaredKey, ordered)
    ensures MappingsOf(settings, ordered).Keys == set d | d in ordered :: d.canonical
    ensures forall d :: d in ordered ==>
      MappingsOf(settings, ordered)[d.canonical]
      == QualifiedTable(settings.database, FindLayout(settings.layouts, d.canonical).value)
  {
    hide FindLayout, QualifiedTable;
    if ordered != [] {
      var n := |ordered| - 1;
      MappingsFound(settings, ordered[..n]);
      assert ordered == ordered[..n] + [ordered[n]];
      forall d | d in ordered[..n] ensures DeclaredKey(d) != DeclaredKey(ordered[n]) {
        var j :| 0 <= j < n && ordered[j] == d;
      }
    }
  }

  /** `verify_physical`, resource by resource in the order of their names: passes exactly when
      metadata and tables agree with registry and settings; the digest covers the evidence of
      all resources, and every resource is mapped to its qualified table. */
  method VerifyPhysical(settings: Settings, tables: Tables, metadata: map<string, seq<string>>,
                        declared: seq<Declared>, hash: Json -> string)
    returns (r: Result<Verification>)
    requires forall l :: l in settings.layouts ==> RolesOk(l)
    ensures r.Ok? <==> PhysicalOk(settings, tables, metadata, declared, hash)
    ensures r.Ok? ==> AllFound(settings, declared) && AllFound(settings, Sort(DeclaredKey, declared))
    ensures r.Ok? ==> r.value.digest == EvidenceDigest(EvidenceRows(settings, Sort(DeclaredKey, declared), hash), hash)
    ensures r.Ok? ==> r.value.resources == |declared| && r.value.mappings.Keys == set d | d in declared :: d.canonical
    ensures r.Ok? ==> forall d :: d in declared ==>
      r.value.mappings[d.canonical] == QualifiedTable(settings.database,
                                                      FindLayout(settings.layouts, d.canonical).value)
  {
    hide RolesOk, ResourceOk, EvidenceFor, FindLayout, Sort, Unique, QualifiedTable, AllFound, EvidenceRows, MappingsOf;
    if declared == [] { return Err(Incompatible); }
    UniqueBySize(DeclaredNames(declared));
    if |Elements(DeclaredNames(declared))| != |declared| { return Err(Incompatible); }
    if exists l :: l in settings.layouts && l.table !in tables { return Err(Incompatible); }
    var ordered := Sort(DeclaredKey, declared);
    SortedMembers(declared);
    var recorded := RecordResources(settings, tables, metadata, ordered, hash);
    if recorded.Err? { return Err(recorded.error); }
    var (mappings, evidence) := recorded.value;
    PhysicalFound(settings, tables, metadata, declared, hash);
    DistinctDeclared(declared);
    MappingsFound(settings, ordered);
    return Ok(Verification(EvidenceDigest(evidence, hash), mappings, |declared|));
  }

  lemma {:induction false} SameEvidence(x: string, k: Layout, d: Declared, y: string, m: Layout, e: Declared,
                                        hash: Json -> string)
    requires Injective(hash) && Valid(k) && RolesOk(k) && Valid(m) && RolesOk(m)
    requires EvidenceFor(x, k, d, hash) == EvidenceFor(y, m, e, hash)
    ensures k == m && d.canonical == e.canonical && d.resourceFingerprint == e.resourceFingerprint
    ensures d.schemaFingerprint == e.schemaFingerprint && QualifiedTable(x, k) == QualifiedTable(y, m)
  {
    hide Valid, RolesOk, Injective, LayoutFingerprint, ExpectedKey, ExpectedColumns, QualifiedTable, EngineName,
         ColumnPairs;
    var p, q := EvidenceFor(x, k, d, hash).members, EvidenceFor(y, m, e, hash).members;
    assert p["layoutFingerprint"] == q["layoutFingerprint"] && p["mapping"] == q["mapping"];
    assert p["resource"] == q["resource"] && p["resourceFingerprint"] == q["resourceFingerprint"];
    assert p["schemaFingerprint"] == q["schemaFingerprint"];
    DocumentInjective(k, m, hash);
  }

  /** The digest pins what was verified: equal digests stand for the same resources with the
      same registry fingerprints, in the same tables, under the very same layouts. */
  lemma {:induction false} DigestPinsEvidence(a: Settings, b: Settings, da: seq<Declared>, db: seq<Declared>,
                                              hash: Json -> string)
    requires Injective(hash)
    requires (forall l :: l in a.layouts ==> Valid(l) && RolesOk(l))
             && (forall l :: l in b.layouts ==> Valid(l) && RolesOk(l))
    requires AllFound(a, da) && AllFound(b, db)
    requires EvidenceDigest(EvidenceRows(a, da, hash), hash) == EvidenceDigest(EvidenceRows(b, db, hash), hash)
    ensures |da| == |db|
    ensures forall i :: 0 <= i < |da| ==>
      && da[i].canonical == db[i].canonical && da[i].resourceFingerprint == db[i].resourceFingerprint
      && da[i].schemaFingerprint == db[i].schemaFingerprint
      && FindLayout(a.layouts, da[i].canonical) == FindLayout(b.layouts, db[i].canonical)
      && QualifiedTable(a.database, FindLayout(a.layouts, da[i].canonical).value)
      == QualifiedTable(b.database, FindLayout(b.layouts, db[i].canonical).value)
  {
    hide Valid, RolesOk, EvidenceFor, FindLayout, QualifiedTable, LayoutFingerprint;
    var xs, ys := EvidenceRows(a, da, hash), EvidenceRows(b, db, hash);
    var x, y := EvidenceDigest(xs, hash), EvidenceDigest(ys, hash);
    assert hash(JArr(xs)) == x[7..] && hash(JArr(ys)) == y[7..];
    assert JArr(xs) == JArr(ys);
    forall i | 0 <= i < |da|
      ensures da[i].canonical == db[i].canonical && da[i].resourceFingerprint == db[i].resourceFingerprint
      ensures da[i].schemaFingerprint == db[i].schemaFingerprint
      ensures FindLayout(a.layouts, da[i].canonical) == FindLayout(b.layouts, db[i].canonical)
      ensures QualifiedTable(a.database, FindLayout(a.layouts, da[i].canonical).value)
           == QualifiedTable(b.database, FindLayout(b.layouts, db[i].canonical).value)
    {
      assert da[i] in da && db[i] in db;
      var k, m := FindLayout(a.layouts, da[i].canonical).value, FindLayout(b.layouts, db[i].canonical).value;
      assert xs[i] == ys[i];
      SameEvidence(a.database, k, da[i], b.database, m, db[i], hash);
    }
  }

  lemma {:induction false} VerifiedTable(settings: Settings, tables: Tables, metadata: map<string, seq<string>>,
                                         d: Declared, hash: Json -> string, l: Layout)
    requires forall m :: m in settings.layouts ==> RolesOk(m)
    requires PrintedTables(tables) && ResourceOk(settings, tables, metadata, d, hash)
    requires FindLayout(settings.layouts, d.canonical) == Some(l) && Valid(l)
    ensures l.table in tables && tables[l.table].columns == TableColumns(l)
    ensures l.appendOnly ==> tables[l.table].key == KeyColumns(l)
  {
    hide ColumnsOk, RolesOk, HeaderOk, PolicyOk, IndexesOk, VerifyAppendOrder, PrintedTables, KeyColumns, EngineName,
         ExpectedColumns, TableColumns, LayoutFingerprint, Normal;
    ExpectedAreCreated(l);
    AppendOrderExact(tables, l);
  }

  lemma {:induction false} PinnedLayout(l: Layout, d: Declared, hash: Json -> string)
    requires Valid(l) && Injective(hash)
    ensures forall m :: Valid(m) && LayoutFingerprint(m, hash) == ExpectedRow(d, l, hash)[4] ==> m == l
  {
    hide Valid, Injective, LayoutFingerprint;
    forall m | Valid(m) && LayoutFingerprint(m, hash) == ExpectedRow(d, l, hash)[4] ensures m == l {
      DocumentInjective(m, l, hash);
    }
  }

  /** Passed physical verification pins every append-only resource to a table with its
      compiled key, and to the metadata row of exactly its layout. */
  lemma {:induction false} VerifiedIsReal(settings: Settings, tables: Tables, metadata: map<string, seq<string>>,
                                          declared: seq<Declared>, hash: Json -> string, d: Declared)
    requires forall l :: l in settings.layouts ==> Valid(l) && RolesOk(l)
    requires PrintedTables(tables) && PhysicalOk(settings, tables, metadata, declared, hash) && d in declared
    ensures FindLayout(settings.layouts, d.canonical).Some?
    ensures d.canonical in metadata
    ensures var l := FindLayout(settings.layouts, d.canonical).value;
            && RolesOk(l) && l.table in tables && tables[l.table].columns == TableColumns(l)
            && (l.appendOnly ==> tables[l.table].key == KeyColumns(l))
            && metadata[d.canonical] == ExpectedRow(d, l, hash)
            && (Injective(hash) ==> forall m ::
              Valid(m) && LayoutFingerprint(m, hash) == ExpectedRow(d, l, hash)[4] ==> m == l)
  {
    hide PrintedTables, KeyColumns, TableColumns, LayoutFingerprint, ResourceOk, RolesOk, Injective, ColumnsOk,
         HeaderOk, PolicyOk, IndexesOk, Normal, ExpectedRow;
    assert ResourceOk(settings, tables, metadata, d, hash);
    FoundLayout(settings, tables, metadata, d, hash);
    var l := FindLayout(settings.layouts, d.canonical).value;
    VerifiedTable(settings, tables, metadata, d, hash, l);
    if Injective(hash) { PinnedLayout(l, d, hash); }
  }
}
