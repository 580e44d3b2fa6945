/** `schema/layout.py`: immutable logical-to-physical layouts and their documents. */
module Layouts {
  import opened Common
  import opened Sorting
  import opened Identifiers
  import Decimal
  import RowFingerprint

  const HIDDEN_SCOPE := "_meridian_scope_fingerprint"
  const HIDDEN_TENANT := "_meridian_tenant"
  const HIDDEN_BATCH := "_meridian_batch_id"
  const HIDDEN_ROW := "_meridian_row_fingerprint"
  const HIDDEN_RESOURCE := "_meridian_resource"
  const HIDDEN_SCHEMA := "_meridian_schema_version"
  const HIDDEN_INGESTED := "_meridian_ingested_at"
  const HIDDEN_COLUMNS := [HIDDEN_SCOPE, HIDDEN_TENANT, HIDDEN_BATCH, HIDDEN_ROW,
                           HIDDEN_RESOURCE, HIDDEN_SCHEMA, HIDDEN_INGESTED]

  // ---- Column types ---------------------------------------------------------

  const TIMESTAMP_TYPE := "DateTime64(9, 'UTC')"

  predicate Primitive(t: string) {
    t in {"Bool", "Date32", TIMESTAMP_TYPE, "Float64", "Int8", "Int16", "Int32", "Int64",
          "String", "Tuple(Float64, Float64)", "UUID"}
  }

  predicate HasWrapper(t: string, wrapper: string) {
    |t| > |wrapper| && wrapper <= t && t[|t| - 1] == ')'
  }

  function Unwrapped(t: string, wrapper: string): (r: string)
    requires HasWrapper(t, wrapper)
    ensures |r| < |t|
  {
    t[|wrapper|..|t| - 1]
  }

  /** Precision and scale, where the precision has `width` digits. */
  predicate DecimalBounds(inner: string, width: nat) {
    && 0 < width && width + 3 <= |inner| <= width + 4
    && Decimal.AllDigits(inner[..width]) && inner[0] != '0'
    && inner[width] == ',' && inner[width + 1] == ' ' && Decimal.AllDigits(inner[width + 2..])
    && Decimal.Number(inner[..width]) <= 76
    && Decimal.Number(inner[width + 2..]) <= Decimal.Number(inner[..width])
  }

  predicate DecimalType(t: string) {
    && HasWrapper(t, "Decimal(")
    && var inner := Unwrapped(t, "Decimal(");
       DecimalBounds(inner, 1) || DecimalBounds(inner, 2)
  }

  /** `_valid_column_type`: the closed grammar of column types. */
  predicate ValidColumnType(t: string)
    decreases |t|
  {
    || Primitive(t)
    || t == "LowCardinality(String)"
    || DecimalType(t)
    || (HasWrapper(t, "Array(") && ValidColumnType(Unwrapped(t, "Array(")))
    || (HasWrapper(t, "Nullable(") && ValidColumnType(Unwrapped(t, "Nullable(")))
  }

  // ---- Layouts --------------------------------------------------------------

  datatype Column = Column(
    logical: string, physical: string, logicalType: Json, ctype: string, nullable: bool, many: bool)
  {
    predicate Valid() {
      && logical != "" && !("_meridian_" <= logical)
      && PhysicalIdentifier(physical)
      && ValidColumnType(ctype)
    }
  }

  datatype Resource = Resource(catalog: string, space: string, name: string) {
    function Canonical(): string { catalog + ":" + space + "/" + name }
  }

  /** A text before the first separator is read off the whole. */
  lemma {:induction false} BeforeSeparator(a: string, x: string, b: string, y: string, separator: char)
    requires separator !in a && separator !in b && a + ([separator] + x) == b + ([separator] + y)
    ensures a == b && x == y
  {
    var s := a + ([separator] + x);
    assert s[|a|] == separator && s[|b|] == separator;
    assert forall i :: 0 <= i < |a| ==> s[i] == a[i] && a[i] in a;
    assert forall i :: 0 <= i < |b| ==> s[i] == b[i] && b[i] in b;
    assert |a| == |b|;
    assert a == s[..|a|] && b == s[..|b|] && x == s[|a| + 1..] && y == s[|b| + 1..];
  }

  /** Canonical names tell resources apart whose catalogs have no colon and namespaces no slash. */
  lemma {:induction false} CanonicalInjective(a: Resource, b: Resource)
    requires ':' !in a.catalog && ':' !in b.catalog && '/' !in a.space && '/' !in b.space
    ensures a.Canonical() == b.Canonical() ==> a == b
  {
    if a.Canonical() == b.Canonical() {
      var x, y := a.space + (['/'] + a.name), b.space + (['/'] + b.name);
      assert a.Canonical() == a.catalog + ([':'] + x) && b.Canonical() == b.catalog + ([':'] + y);
      BeforeSeparator(a.catalog, x, b.catalog, y, ':');
      BeforeSeparator(a.space, a.name, b.space, b.name, '/');
    }
  }

  function LogicalNames(columns: seq<Column>): (names: seq<string>)
    ensures |names| == |columns|
    ensures forall i :: 0 <= i < |columns| ==> names[i] == columns[i].logical
  {
    seq(|columns|, i requires 0 <= i < |columns| => columns[i].logical)
  }

  function PhysicalNames(columns: seq<Column>): (names: seq<string>)
    ensures |names| == |columns|
    ensures forall i :: 0 <= i < |columns| ==> names[i] == columns[i].physical
  {
    seq(|columns|, i requires 0 <= i < |columns| => columns[i].physical)
  }

  function FindColumn(columns: seq<Column>, name: string): (r: Option<Column>)
    ensures r.Some? <==> name in LogicalNames(columns)
    ensures r.Some? ==> r.value in columns && r.value.logical == name
  {
    if columns == [] then None
    else if columns[0].logical == name then
      assert LogicalNames(columns)[0] == name;
      Some(columns[0])
    else
      assert LogicalNames(columns) == [columns[0].logical] + LogicalNames(columns[1..]);
      FindColumn(columns[1..], name)
  }

  datatype Layout = Layout(
    resource: Resource,
    table: string,
    profile: string,
    schemaVersion: string,
    resourceFingerprint: string,
    schemaFingerprint: string,
    columns: seq<Column>,
    timestampField: string,
    identityFields: seq<string>,
    dimensionFields: seq<string>,
    measurementFields: seq<string>,
    retention: Option<int>,
    partition: string,
    topology: string,
    queryFinal: bool,
    administrative: seq<string>,
    indexes: map<string, seq<string>>,
    appendOnly: bool)
  {
    function Names(): seq<string> { LogicalNames(columns) }

    function OrderFields(): seq<string> {
      [HIDDEN_SCOPE, timestampField] + identityFields + (if appendOnly then [HIDDEN_ROW] else [])
    }

    function InsertColumns(): (names: seq<string>)
      ensures |names| == 7 + |columns|
    {
      HIDDEN_COLUMNS + PhysicalNames(columns)
    }

    /** `column_map[name]`. */
    function ColumnOf(name: string): (r: Option<Column>)
      ensures r.Some? <==> name in Names()
      ensures r.Some? ==> r.value in columns && r.value.logical == name
    {
      FindColumn(columns, name)
    }

    /** `physical_column(name)` for a known column. */
    function Physical(name: string): string
      requires name in Names()
    {
      ColumnOf(name).value.physical
    }
  }

  function LogicalName(c: Column): string { c.logical }

  function Identity(s: string): string { s }

  // ---- Uniqueness by set size -----------------------------------------------

  function Elements<T(==)>(xs: seq<T>): set<T> { set x | x in xs }

  predicate Unique<T(==)>(xs: seq<T>) { forall i, j :: 0 <= i < j < |xs| ==> xs[i] != xs[j] }

  lemma {:induction false} NothingUnique<T>(xs: seq<T>)
    requires xs == []
    ensures Unique(xs)
  {}

  lemma {:induction false} UniqueTail<T>(xs: seq<T>)
    requires xs != []
    ensures Unique(xs) <==> xs[0] !in xs[1..] && Unique(xs[1..])
  {
    var tail := xs[1..];
    if xs[0] in tail {
      var j :| 0 <= j < |tail| && tail[j] == xs[0];
      assert xs[j + 1] == xs[0];
    }
    if xs[0] !in tail && Unique(tail) {
      forall i, j | 0 <= i < j < |xs| ensures xs[i] != xs[j] {
        assert xs[j] == tail[j - 1];
        if i > 0 { assert xs[i] == tail[i - 1]; }
      }
    }
    if Unique(xs) {
      forall i, j | 0 <= i < j < |tail| ensures tail[i] != tail[j] {
        assert tail[i] == xs[i + 1] && tail[j] == xs[j + 1];
      }
    }
  }

  /** Comparing the size of the set with the length of the list tests for repetitions. */
  lemma {:induction false} UniqueBySize<T>(xs: seq<T>)
    ensures |Elements(xs)| <= |xs|
    ensures |Elements(xs)| == |xs| <==> Unique(xs)
  {
    hide Unique;
    if xs != [] {
      var tail := xs[1..];
      UniqueBySize(tail);
      UniqueTail(xs);
      assert xs == [xs[0]] + tail;
      assert Elements(xs) == {xs[0]} + Elements(tail);
      if xs[0] in tail {
        assert Elements(xs) == Elements(tail);
      } else {
        assert |Elements(xs)| == 1 + |Elements(tail)|;
      }
    } else {
      assert Unique(xs) by { NothingUnique(xs); }
    }
  }

  lemma {:induction false} UniqueConcat<T>(a: seq<T>, b: seq<T>)
    ensures Unique(a + b) <==> Unique(a) && Unique(b) && Elements(a) !! Elements(b)
  {
    var c := a + b;
    if Unique(c) {
      forall i, j | 0 <= i < j < |a| ensures a[i] != a[j] { assert c[i] == a[i] && c[j] == a[j]; }
      forall i, j | 0 <= i < j < |b| ensures b[i] != b[j] { assert c[|a| + i] == b[i] && c[|a| + j] == b[j]; }
    }
    forall x | x in a && x in b ensures !Unique(c) {
      var i :| 0 <= i < |a| && a[i] == x;
      var j :| 0 <= j < |b| && b[j] == x;
      assert c[i] == c[|a| + j];
    }
    if Unique(a) && Unique(b) && Elements(a) !! Elements(b) {
      forall i, j | 0 <= i < j < |c| ensures c[i] != c[j] {
        if i < |a| <= j {
          assert c[i] in Elements(a) && c[j] in Elements(b);
        }
      }
    }
  }

  // ---- Validation -----------------------------------------------------------

  predicate Fingerprint(s: string) {
    |s| == 71 && s[..7] == "sha256:" && forall i :: 7 <= i < 71 ==> '0' <= s[i] <= '9' || 'a' <= s[i] <= 'f'
  }

  lemma {:induction false} FingerprintExact(s: string)
    ensures Fingerprint(s) <==> exists digest :: RowFingerprint.IsDigest(digest) && s == "sha256:" + digest
  {
    if Fingerprint(s) {
      assert RowFingerprint.IsDigest(s[7..]) && s == "sha256:" + s[7..];
    }
    if digest :| RowFingerprint.IsDigest(digest) && s == "sha256:" + digest {
      assert s[..7] == "sha256:" && s[7..] == digest;
      forall i | 7 <= i < 71 ensures '0' <= s[i] <= '9' || 'a' <= s[i] <= 'f' {
        assert s[i] == digest[i - 7];
      }
    }
  }

  predicate MembersOk(values: seq<string>, allowed: set<string>, allowEmpty: bool) {
    && (allowEmpty || values != [])
    && Unique(values)
    && forall v :: v in values ==> v in allowed
  }

  /** The four roles name different columns. */
  predicate RolesDisjoint(l: Layout) {
    && l.timestampField !in l.identityFields
    && l.timestampField !in l.dimensionFields
    && l.timestampField !in l.measurementFields
    && Elements(l.identityFields) !! Elements(l.dimensionFields)
    && Elements(l.identityFields) !! Elements(l.measurementFields)
    && Elements(l.dimensionFields) !! Elements(l.measurementFields)
  }

  predicate HeaderOk(l: Layout) {
    && PhysicalIdentifier(l.table)
    && l.profile in {"log", "span", "metric", "usage", "cost", "time-series", "analytical"}
    && l.topology in {"clickhouse-standalone", "clickhouse-replicated"}
    && Fingerprint(l.resourceFingerprint) && Fingerprint(l.schemaFingerprint)
  }

  predicate ColumnsOk(l: Layout) {
    && l.columns != [] && (forall c :: c in l.columns ==> c.Valid())
    && Unique(l.Names()) && Unique(PhysicalNames(l.columns))
  }

  predicate RolesOk(l: Layout) {
    var names := Elements(l.Names());
    && l.timestampField in names
    && MembersOk(l.identityFields, names, false)
    && MembersOk(l.dimensionFields, names, true)
    && MembersOk(l.measurementFields, names, true)
    && RolesDisjoint(l)
  }

  predicate PolicyOk(l: Layout) {
    && (l.retention.Some? ==> l.retention.value > 0)
    && l.partition in {"hour", "day", "month"}
    && l.schemaVersion != ""
    && (l.appendOnly ==> l.resource.catalog == "evidence")
    && Unique(l.administrative) && "" !in l.administrative
  }

  predicate IndexOk(l: Layout, name: string)
    requires name in l.indexes
  {
    PhysicalIdentifier(name) && MembersOk(l.indexes[name], Elements(l.Names()), false)
  }

  predicate IndexesOk(l: Layout) { forall n :: n in l.indexes ==> IndexOk(l, n) }

  /** What a layout must satisfy to be constructed at all. */
  predicate Acceptable(l: Layout) {
    HeaderOk(l) && ColumnsOk(l) && RolesOk(l) && PolicyOk(l) && IndexesOk(l)
  }

  /** The stored form: columns by logical name, administrative profiles in order. */
  function Normal(l: Layout): Layout {
    l.(columns := Sort(LogicalName, l.columns), administrative := Sort(Identity, l.administrative))
  }

  function Construct(l: Layout): Result<Layout> {
    if Acceptable(l) then Ok(Normal(l)) else Err(BadLayout)
  }

  /** A layout as construction leaves it. */
  ghost predicate Valid(l: Layout) { Acceptable(l) && Normal(l) == l }

  method Members(values: seq<string>, allowed: set<string>, allowEmpty: bool) returns (ok: bool)
    ensures ok <==> MembersOk(values, allowed, allowEmpty)
  {
    UniqueBySize(values);
    if (!allowEmpty && values == []) || |Elements(values)| != |values| {
      return false;
    }
    for i := 0 to |values|
      invariant forall j :: 0 <= j < i ==> values[j] in allowed
    {
      if values[i] !in allowed { return false; }
    }
    return true;
  }

  /** `ColumnLayout.__post_init__`. */
  method CheckColumn(c: Column) returns (ok: bool)
    ensures ok <==> c.Valid()
  {
    if c.logical == "" { return false; }
    if |c.logical| >= 10 && c.logical[..10] == "_meridian_" { return false; }
    if !PhysicalIdentifier(c.physical) { return false; }
    if !ValidColumnType(c.ctype) { return false; }
    return true;
  }

  method CheckColumns(l: Layout) returns (ok: bool)
    ensures ok <==> ColumnsOk(l)
  {
    hide Column.Valid;
    for i := 0 to |l.columns|
      invariant forall j :: 0 <= j < i ==> l.columns[j].Valid()
    {
      var valid := CheckColumn(l.columns[i]);
      if !valid {
        assert l.columns[i] in l.columns;
        return false;
      }
    }
    UniqueBySize(l.Names());
    UniqueBySize(PhysicalNames(l.columns));
    ok := && l.columns != []
          && |Elements(l.Names())| == |l.columns|
          && |Elements(PhysicalNames(l.columns))| == |l.columns|;
  }

  method CheckHeader(l: Layout) returns (ok: bool)
    ensures ok <==> HeaderOk(l)
  {
    if !PhysicalIdentifier(l.table) { return false; }
    if l.profile !in ["log", "span", "metric", "usage", "cost", "time-series", "analytical"] { return false; }
    if l.topology != "clickhouse-standalone" && l.topology != "clickhouse-replicated" { return false; }
    if !Fingerprint(l.resourceFingerprint) { return false; }
    return Fingerprint(l.schemaFingerprint);
  }

  /** For role lists without repetitions, the size test is the same as pairwise disjointness. */
  lemma {:induction false} RolesBySize(l: Layout)
    requires Unique(l.identityFields) && Unique(l.dimensionFields) && Unique(l.measurementFields)
    ensures var roles := [l.timestampField] + l.identityFields + l.dimensionFields + l.measurementFields;
            |Elements(roles)| == 1 + |l.identityFields| + |l.dimensionFields| + |l.measurementFields|
            <==> RolesDisjoint(l)
  {
    var t, i, d, m := [l.timestampField], l.identityFields, l.dimensionFields, l.measurementFields;
    UniqueBySize(t + i + d + m);
    UniqueConcat(t + i + d, m);
    UniqueConcat(t + i, d);
    UniqueConcat(t, i);
    assert Elements(t) == {l.timestampField};
    assert Elements(t + i) == Elements(t) + Elements(i);
    assert Elements(t + i + d) == Elements(t) + Elements(i) + Elements(d);
    assert l.timestampField !in i <==> Elements(t) !! Elements(i);
    assert l.timestampField !in d <==> Elements(t) !! Elements(d);
    assert l.timestampField !in m <==> Elements(t) !! Elements(m);
  }

  /** The role lists one by one, then one size test over all of them together. */
  method CheckRoles(l: Layout) returns (ok: bool)
    ensures ok <==> RolesOk(l)
  {
    var names := Elements(l.Names());
    if l.timestampField !in names { return false; }
    var identities := Members(l.identityFields, names, false);
    var dimensions := Members(l.dimensionFields, names, true);
    var measurements := Members(l.measurementFields, names, true);
    if !identities || !dimensions || !measurements { return false; }
    RolesBySize(l);
    var roles := [l.timestampField] + l.identityFields + l.dimensionFields + l.measurementFields;
    ok := |Elements(roles)| == 1 + |l.identityFields| + |l.dimensionFields| + |l.measurementFields|;
  }

  method CheckPolicy(l: Layout) returns (ok: bool)
    ensures ok <==> PolicyOk(l)
  {
    UniqueBySize(l.administrative);
    ok := && (l.retention.Some? ==> l.retention.value > 0)
          && l.partition in {"hour", "day", "month"}
          && l.schemaVersion != ""
          && (l.appendOnly ==> l.resource.catalog == "evidence")
          && |Elements(l.administrative)| == |l.administrative|
          && "" !in l.administrative;
  }

  /** The index loop, over the names in sorted order. */
  method CheckIndexes(l: Layout, indexNames: seq<string>) returns (ok: bool)
    requires Elements(indexNames) == l.indexes.Keys
    ensures ok <==> IndexesOk(l)
  {
    var sorted := Sort(Identity, indexNames);
    forall n ensures n in sorted <==> n in l.indexes {
      assert n in multiset(sorted) <==> n in multiset(indexNames);
      assert n in Elements(indexNames) <==> n in indexNames;
    }
    for i := 0 to |sorted|
      invariant forall j :: 0 <= j < i ==> sorted[j] in l.indexes && IndexOk(l, sorted[j])
    {
      assert sorted[i] in sorted;
      var members := Members(l.indexes[sorted[i]], Elements(l.Names()), false);
      if !PhysicalIdentifier(sorted[i]) || !members { return false; }
    }
    return true;
  }

  /** `__post_init__`: construction succeeds exactly for acceptable layouts and yields the
      normal form. */
  method PostInit(l: Layout, indexNames: seq<string>) returns (r: Result<Layout>)
    requires Elements(indexNames) == l.indexes.Keys
    ensures r == Construct(l)
  {
    var header := CheckHeader(l);
    var columns := CheckColumns(l);
    var roles := CheckRoles(l);
    var policy := CheckPolicy(l);
    var indexes := CheckIndexes(l, indexNames);
    if !header || !columns || !roles || !policy || !indexes { return Err(BadLayout); }
    return Ok(Normal(l));
  }

  // ---- Normal form ----------------------------------------------------------

  /** Two raw layouts that list the same columns and profiles in different orders. */
  ghost predicate SameContent(a: Layout, b: Layout) {
    && multiset(a.columns) == multiset(b.columns)
    && multiset(a.administrative) == multiset(b.administrative)
    && b == a.(columns := b.columns, administrative := b.administrative)
  }

  lemma {:induction false} UniqueIsDistinct(columns: seq<Column>, texts: seq<string>)
    ensures Unique(LogicalNames(columns)) <==> DistinctKeys(LogicalName, columns)
    ensures Unique(texts) <==> DistinctKeys(Identity, texts)
  {
    var names := LogicalNames(columns);
    if Unique(names) {
      forall i, j | 0 <= i < j < |columns| ensures LogicalName(columns[i]) != LogicalName(columns[j]) {
        assert names[i] != names[j];
      }
    }
    if DistinctKeys(LogicalName, columns) {
      forall i, j | 0 <= i < j < |names| ensures names[i] != names[j] {
        assert LogicalName(columns[i]) != LogicalName(columns[j]);
      }
    }
  }

  /** The constructed layout does not depend on the order in which columns and
      administrative profiles were listed. */
  lemma {:induction false} OrderIndependent(a: Layout, b: Layout)
    requires SameContent(a, b) && Acceptable(a)
    ensures Normal(a) == Normal(b)
  {
    UniqueIsDistinct(a.columns, a.administrative);
    SortPermutation(LogicalName, a.columns, b.columns);
    SortPermutation(Identity, a.administrative, b.administrative);
  }

  lemma {:induction false} NamesOf(columns: seq<Column>)
    ensures Elements(LogicalNames(columns)) == (set c | c in columns :: c.logical)
    ensures Elements(PhysicalNames(columns)) == (set c | c in columns :: c.physical)
  {
    var logical, physical := LogicalNames(columns), PhysicalNames(columns);
    forall c | c in columns ensures c.logical in logical && c.physical in physical {
      var i :| 0 <= i < |columns| && columns[i] == c;
      assert logical[i] == c.logical && physical[i] == c.physical;
    }
  }

  lemma {:induction false} PermutedNames(a: seq<Column>, b: seq<Column>)
    requires multiset(a) == multiset(b)
    ensures Elements(LogicalNames(a)) == Elements(LogicalNames(b))
    ensures Elements(PhysicalNames(a)) == Elements(PhysicalNames(b))
    ensures |a| == |b|
    ensures forall c :: c in a <==> c in b
  {
    assert |a| == |multiset(a)| && |b| == |multiset(b)|;
    forall c ensures c in a <==> c in b { assert c in multiset(a) <==> c in multiset(b); }
    NamesOf(a);
    NamesOf(b);
  }

  lemma {:induction false} PermutedUnique<T>(a: seq<T>, b: seq<T>)
    requires multiset(a) == multiset(b)
    ensures Unique(a) <==> Unique(b)
    ensures Elements(a) == Elements(b)
  {
    assert |a| == |multiset(a)| && |b| == |multiset(b)|;
    forall x ensures x in a <==> x in b { assert x in multiset(a) <==> x in multiset(b); }
    assert Elements(a) == Elements(b);
    UniqueBySize(a);
    UniqueBySize(b);
  }

  /** Construction changes nothing but the order of columns and profiles, which it sorts. */
  lemma {:induction false} ConstructedContent(l: Layout)
    ensures SameContent(l, Normal(l))
    ensures Sorted(LogicalName, Normal(l).columns) && Sorted(Identity, Normal(l).administrative)
  {
    SortSorted(LogicalName, l.columns);
    SortSorted(Identity, l.administrative);
  }

  /** Construction is idempotent: what it produces is acceptable and already normal. */
  lemma {:induction false} NormalIsValid(l: Layout)
    requires Acceptable(l)
    ensures Valid(Normal(l))
  {
    var n := Normal(l);
    PermutedNames(l.columns, n.columns);
    UniqueBySize(l.Names());
    UniqueBySize(n.Names());
    UniqueBySize(PhysicalNames(l.columns));
    UniqueBySize(PhysicalNames(n.columns));
    PermutedUnique(l.administrative, n.administrative);
    assert "" in Elements(n.administrative) <==> "" in n.administrative;
    assert "" in Elements(l.administrative) <==> "" in l.administrative;
    UniqueIsDistinct(l.columns, l.administrative);
    SortPermutation(LogicalName, n.columns, l.columns) by { DistinctSort(LogicalName, l.columns); }
    SortPermutation(Identity, n.administrative, l.administrative) by { DistinctSort(Identity, l.administrative); }
    assert ColumnsOk(n) && RolesOk(n) && PolicyOk(n);
    assert IndexesOk(n) by {
      forall name | name in n.indexes ensures IndexOk(n, name) { assert IndexOk(l, name); }
    }
  }
}

/** `ResourceLayout.to_dict` and `from_mapping`. */
module LayoutDocuments {
  import opened Common
  import RowFingerprint
  import opened Layouts

  function Texts(values: seq<string>): (r: seq<Json>)
    ensures |r| == |values|
  {
    seq(|values|, i requires 0 <= i < |values| => JStr(values[i]))
  }

  function ColumnDocument(c: Column): Json {
    JObj(map["logicalName" := JStr(c.logical), "physicalName" := JStr(c.physical),
             "logicalType" := c.logicalType, "clickhouseType" := JStr(c.ctype),
             "nullable" := JBool(c.nullable), "many" := JBool(c.many)])
  }

  function ColumnDocuments(columns: seq<Column>): (r: seq<Json>)
    ensures |r| == |columns|
  {
    seq(|columns|, i requires 0 <= i < |columns| => ColumnDocument(columns[i]))
  }

  function ResourceDocument(r: Resource): Json {
    JObj(map["catalog" := JStr(r.catalog), "namespace" := JStr(r.space), "name" := JStr(r.name)])
  }

  const REQUIRED := {
    "resource", "table", "recordProfile", "schemaVersion", "resourceFingerprint", "schemaFingerprint",
    "columns", "timestampField", "identityFields", "dimensionFields", "measurementFields",
    "retentionSeconds", "partitionInterval", "topology", "queryFinal", "administrativeProfiles", "indexes"}

  function FieldDocument(l: Layout, key: string): Json {
    if key == "resource" then ResourceDocument(l.resource)
    else if key == "table" then JStr(l.table)
    else if key == "recordProfile" then JStr(l.profile)
    else if key == "schemaVersion" then JStr(l.schemaVersion)
    else if key == "resourceFingerprint" then JStr(l.resourceFingerprint)
    else if key == "schemaFingerprint" then JStr(l.schemaFingerprint)
    else if key == "columns" then JArr(ColumnDocuments(l.columns))
    else if key == "timestampField" then JStr(l.timestampField)
    else if key == "identityFields" then JArr(Texts(l.identityFields))
    else if key == "dimensionFields" then JArr(Texts(l.dimensionFields))
    else if key == "measurementFields" then JArr(Texts(l.measurementFields))
    else if key == "retentionSeconds" then (match l.retention case None => JNull case Some(s) => JInt(s))
    else if key == "partitionInterval" then JStr(l.partition)
    else if key == "topology" then JStr(l.topology)
    else if key == "queryFinal" then JBool(l.queryFinal)
    else if key == "administrativeProfiles" then JArr(Texts(l.administrative))
    else if key == "indexes" then JObj(map n | n in l.indexes :: JArr(Texts(l.indexes[n])))
    else JNull
  }

  /** `to_dict(include_fingerprint=False)`: `appendOnly` is present only when it is true. */
  function CoreDocument(l: Layout): map<string, Json> {
    var core := map key | key in REQUIRED :: FieldDocument(l, key);
    if l.appendOnly then core["appendOnly" := JBool(true)] else core
  }

  function LayoutFingerprint(l: Layout, hash: Json -> string): string {
    "sha256:" + hash(JObj(CoreDocument(l)))
  }

  function ToDict(l: Layout, hash: Json -> string): Json {
    JObj(CoreDocument(l)["layoutFingerprint" := JStr(LayoutFingerprint(l, hash))])
  }

  // ---- Reading --------------------------------------------------------------

  function ReadText(j: Json): Result<string> {
    if j.JStr? then Ok(j.text) else Err(BadType)
  }

  function ReadFlag(j: Json): Result<bool> {
    if j.JBool? then Ok(j.flag) else Err(BadType)
  }

  /** `_strings`. */
  function ReadTexts(j: Json): Result<seq<string>> {
    if !j.JArr? || exists i :: 0 <= i < |j.items| && !j.items[i].JStr? then Err(BadType)
    else Ok(seq(|j.items|, i requires 0 <= i < |j.items| && j.items[i].JStr? => j.items[i].text))
  }

  function ReadRetention(j: Json): Result<Option<int>> {
    match j
    case JNull => Ok(None)
    case JInt(n) => Ok(Some(n))
    case _ => Err(BadType)
  }

  function ReadResource(j: Json): Result<Resource> {
    if !j.JObj? || j.members.Keys != {"catalog", "namespace", "name"} then Err(BadType) else
    var catalog :- ReadText(j.members["catalog"]);
    var space :- ReadText(j.members["namespace"]);
    var name :- ReadText(j.members["name"]);
    Ok(Resource(catalog, space, name))
  }

  function ReadColumn(j: Json): Result<Column> {
    if !j.JObj? then Err(BadType) else
    var m := j.members;
    if m.Keys != {"logicalName", "physicalName", "logicalType", "clickhouseType", "nullable", "many"}
      then Err(BadLayout) else
    var logical :- ReadText(m["logicalName"]);
    var physical :- ReadText(m["physicalName"]);
    var ctype :- ReadText(m["clickhouseType"]);
    var nullable :- ReadFlag(m["nullable"]);
    var many :- ReadFlag(m["many"]);
    var c := Column(logical, physical, m["logicalType"], ctype, nullable, many);
    if c.Valid() then Ok(c) else Err(BadLayout)
  }

  function ReadColumns(items: seq<Json>): Result<seq<Column>> {
    if items == [] then Ok([]) else
    var first :- ReadColumn(items[0]);
    var rest :- ReadColumns(items[1..]);
    Ok([first] + rest)
  }

  function ReadIndexes(j: Json): Result<map<string, seq<string>>> {
    if !j.JObj? || exists n :: n in j.members && ReadTexts(j.members[n]).Err? then Err(BadType)
    else Ok(map n | n in j.members :: ReadTexts(j.members[n]).value)
  }

  /** The raw layout that a complete document describes. */
  function ReadLayout(m: map<string, Json>): Result<Layout>
    requires REQUIRED <= m.Keys
  {
    var resource :- ReadResource(m["resource"]);
    var table :- ReadText(m["table"]);
    var profile :- ReadText(m["recordProfile"]);
    var version :- ReadText(m["schemaVersion"]);
    var resourceFp :- ReadText(m["resourceFingerprint"]);
    var schemaFp :- ReadText(m["schemaFingerprint"]);
    if !m["columns"].JArr? then Err(BadType) else
    var columns :- ReadColumns(m["columns"].items);
    var timestamp :- ReadText(m["timestampField"]);
    var identities :- ReadTexts(m["identityFields"]);
    var dimensions :- ReadTexts(m["dimensionFields"]);
    var measurements :- ReadTexts(m["measurementFields"]);
    var retention :- ReadRetention(m["retentionSeconds"]);
    var partition :- ReadText(m["partitionInterval"]);
    var topology :- ReadText(m["topology"]);
    var queryFinal :- ReadFlag(m["queryFinal"]);
    var admin :- ReadTexts(m["administrativeProfiles"]);
    var indexes :- ReadIndexes(m["indexes"]);
    Ok(Layout(resource, table, profile, version, resourceFp, schemaFp, columns, timestamp, identities,
              dimensions, measurements, retention, partition, topology, queryFinal, admin, indexes,
              "appendOnly" in m))
  }

  /** `from_mapping`. */
  function FromMapping(j: Json, hash: Json -> string): Result<Layout> {
    if !j.JObj? then Err(BadType) else
    var m := j.members;
    if m.Keys - {"appendOnly"} != REQUIRED + {"layoutFingerprint"} then Err(BadLayout) else
    if "appendOnly" in m && m["appendOnly"] != JBool(true) then Err(BadLayout) else
    var raw :- ReadLayout(m);
    var layout :- Construct(raw);
    if m["layoutFingerprint"] == JStr(LayoutFingerprint(layout, hash)) then Ok(layout) else Err(BadLayout)
  }

  // ---- Round trip -----------------------------------------------------------

  lemma {:induction false} TextsRoundTrip(values: seq<string>)
    ensures ReadTexts(JArr(Texts(values))) == Ok(values)
  {
    assert ReadTexts(JArr(Texts(values))).value == values;
  }

  lemma {:induction false} ColumnRoundTrip(c: Column)
    requires c.Valid()
    ensures ReadColumn(ColumnDocument(c)) == Ok(c)
  {
    hide Column.Valid;
    var m := ColumnDocument(c).members;
    assert m.Keys == {"logicalName", "physicalName", "logicalType", "clickhouseType", "nullable", "many"};
    assert ReadText(m["logicalName"]) == Ok(c.logical) && ReadText(m["physicalName"]) == Ok(c.physical);
    assert ReadText(m["clickhouseType"]) == Ok(c.ctype);
    assert ReadFlag(m["nullable"]) == Ok(c.nullable) && ReadFlag(m["many"]) == Ok(c.many);
  }

  lemma {:induction false} ColumnsRoundTrip(columns: seq<Column>)
    requires forall c :: c in columns ==> c.Valid()
    ensures ReadColumns(ColumnDocuments(columns)) == Ok(columns)
  {
    hide Column.Valid, ReadColumn, ColumnDocument;
    if columns != [] {
      ColumnRoundTrip(columns[0]);
      ColumnsRoundTrip(columns[1..]);
      assert ColumnDocuments(columns)[1..] == ColumnDocuments(columns[1..]);
      assert columns == [columns[0]] + columns[1..];
    }
  }

  lemma {:induction false} IndexesRoundTrip(indexes: map<string, seq<string>>)
    ensures ReadIndexes(JObj(map n | n in indexes :: JArr(Texts(indexes[n])))) == Ok(indexes)
  {
    var j := JObj(map n | n in indexes :: JArr(Texts(indexes[n])));
    forall n | n in indexes ensures ReadTexts(j.members[n]) == Ok(indexes[n]) {
      TextsRoundTrip(indexes[n]);
    }
    assert ReadIndexes(j).value == indexes;
  }

  ghost predicate Describes(m: map<string, Json>, l: Layout) {
    && REQUIRED <= m.Keys
    && (forall key :: key in REQUIRED ==> m[key] == FieldDocument(l, key))
    && ("appendOnly" in m <==> l.appendOnly)
  }

  lemma {:induction false} TextFields(m: map<string, Json>, l: Layout)
    requires Describes(m, l)
    ensures m["resource"] == ResourceDocument(l.resource)
    ensures m["table"] == JStr(l.table) && m["recordProfile"] == JStr(l.profile)
    ensures m["schemaVersion"] == JStr(l.schemaVersion)
    ensures m["resourceFingerprint"] == JStr(l.resourceFingerprint)
    ensures m["schemaFingerprint"] == JStr(l.schemaFingerprint)
    ensures m["timestampField"] == JStr(l.timestampField)
    ensures m["partitionInterval"] == JStr(l.partition)
    ensures m["topology"] == JStr(l.topology) && m["queryFinal"] == JBool(l.queryFinal)
  {
    assert m["table"] == FieldDocument(l, "table");
  }

  lemma {:induction false} ListFields(m: map<string, Json>, l: Layout)
    requires Describes(m, l)
    requires forall c :: c in l.columns ==> c.Valid()
    ensures m["columns"] == JArr(ColumnDocuments(l.columns))
    ensures ReadTexts(m["identityFields"]) == Ok(l.identityFields)
    ensures ReadTexts(m["dimensionFields"]) == Ok(l.dimensionFields)
    ensures ReadTexts(m["measurementFields"]) == Ok(l.measurementFields)
    ensures ReadRetention(m["retentionSeconds"]) == Ok(l.retention)
    ensures ReadTexts(m["administrativeProfiles"]) == Ok(l.administrative)
    ensures ReadIndexes(m["indexes"]) == Ok(l.indexes)
  {
    hide ReadTexts, ReadIndexes;
    TextsRoundTrip(l.identityFields);
    TextsRoundTrip(l.dimensionFields);
    TextsRoundTrip(l.measurementFields);
    TextsRoundTrip(l.administrative);
    IndexesRoundTrip(l.indexes);
  }

  lemma {:induction false} AppendOnlyPresent(m: map<string, Json>, l: Layout)
    requires Describes(m, l)
    ensures "appendOnly" in m <==> l.appendOnly
  {}

  lemma {:induction false} ReadsBack(m: map<string, Json>, l: Layout)
    requires Describes(m, l)
    requires forall c :: c in l.columns ==> c.Valid()
    ensures ReadLayout(m) == Ok(l)
  {
    hide FieldDocument, ReadTexts, ReadIndexes, ReadRetention, ReadColumns, Describes;
    TextFields(m, l);
    ListFields(m, l);
    ColumnsRoundTrip(l.columns);
    assert "appendOnly" in m <==> l.appendOnly by { AppendOnlyPresent(m, l); }
  }

  lemma {:induction false} ValidColumns(l: Layout)
    requires Acceptable(l)
    ensures forall c :: c in l.columns ==> c.Valid()
  {}

  lemma {:induction false} ToDictShape(l: Layout, hash: Json -> string)
    ensures ToDict(l, hash).JObj?
    ensures var m := ToDict(l, hash).members;
            && Describes(m, l)
            && m.Keys - {"appendOnly"} == REQUIRED + {"layoutFingerprint"}
            && ("appendOnly" in m ==> m["appendOnly"] == JBool(true))
            && m["layoutFingerprint"] == JStr(LayoutFingerprint(l, hash))
  {
    hide FieldDocument, LayoutFingerprint;
    var m := ToDict(l, hash).members;
    assert "appendOnly" !in REQUIRED && "layoutFingerprint" !in REQUIRED && "layoutFingerprint" != "appendOnly";
    assert m.Keys == REQUIRED + {"layoutFingerprint"} + (if l.appendOnly then {"appendOnly"} else {});
  }

  /** Reading the document of a constructed layout gives the layout back. */
  lemma {:induction false} DocumentRoundTrip(l: Layout, hash: Json -> string)
    requires Valid(l)
    ensures FromMapping(ToDict(l, hash), hash) == Ok(l)
  {
    hide Describes, ReadLayout, CoreDocument, LayoutFingerprint, Acceptable;
    ToDictShape(l, hash);
    assert forall c :: c in l.columns ==> c.Valid() by { ValidColumns(l); }
    ReadsBack(ToDict(l, hash).members, l);
  }

  /** Different constructed layouts have different documents, also where one of them omits
      the append-only marker, and therefore different fingerprints. */
  lemma {:induction false} DocumentInjective(a: Layout, b: Layout, hash: Json -> string)
    requires Valid(a) && Valid(b) && Injective(hash)
    ensures ToDict(a, hash) == ToDict(b, hash) ==> a == b
    ensures LayoutFingerprint(a, hash) == LayoutFingerprint(b, hash) ==> a == b
  {
    DocumentRoundTrip(a, hash);
    DocumentRoundTrip(b, hash);
    if LayoutFingerprint(a, hash) == LayoutFingerprint(b, hash) {
      var ta, tb := LayoutFingerprint(a, hash), LayoutFingerprint(b, hash);
      assert hash(JObj(CoreDocument(a))) == ta[7..] && hash(JObj(CoreDocument(b))) == tb[7..];
    }
  }

  /** The document does not depend on the order in which columns and administrative
      profiles were listed. */
  lemma {:induction false} DocumentOrderIndependent(a: Layout, b: Layout, hash: Json -> string)
    requires SameContent(a, b) && Acceptable(a) && Acceptable(b)
    ensures ToDict(Construct(a).value, hash) == ToDict(Construct(b).value, hash)
  {
    OrderIndependent(a, b);
  }

  // ---- Accepted documents ---------------------------------------------------

  lemma {:induction false} TextsRead(j: Json)
    requires ReadTexts(j).Ok?
    ensures j == JArr(Texts(ReadTexts(j).value))
  {
    assert j.items == Texts(ReadTexts(j).value);
  }

  lemma {:induction false} ColumnRead(j: Json)
    requires ReadColumn(j).Ok?
    ensures j == ColumnDocument(ReadColumn(j).value) && ReadColumn(j).value.Valid()
  {
    hide Column.Valid;
    assert j.members == ColumnDocument(ReadColumn(j).value).members;
  }

  lemma {:induction false} ColumnsRead(items: seq<Json>)
    requires ReadColumns(items).Ok?
    ensures items == ColumnDocuments(ReadColumns(items).value)
    ensures forall c :: c in ReadColumns(items).value ==> c.Valid()
  {
    hide ReadColumn, ColumnDocument, Column.Valid;
    if items != [] {
      ColumnRead(items[0]);
      ColumnsRead(items[1..]);
      var rest := ReadColumns(items[1..]).value;
      assert ReadColumns(items).value == [ReadColumn(items[0]).value] + rest;
      assert items == [items[0]] + items[1..];
      assert ColumnDocuments(ReadColumns(items).value) == [items[0]] + ColumnDocuments(rest);
    }
  }

  lemma {:induction false} IndexesRead(j: Json)
    requires ReadIndexes(j).Ok?
    ensures var indexes := ReadIndexes(j).value; j == JObj(map n | n in indexes :: JArr(Texts(indexes[n])))
  {
    hide ReadTexts;
    var indexes := ReadIndexes(j).value;
    forall n | n in j.members ensures j.members[n] == JArr(Texts(indexes[n])) {
      TextsRead(j.members[n]);
    }
    assert j.members == map n | n in indexes :: JArr(Texts(indexes[n]));
  }

  lemma {:induction false} ResourceRead(j: Json)
    requires ReadResource(j).Ok?
    ensures j == ResourceDocument(ReadResource(j).value)
  {
    assert j.members == ResourceDocument(ReadResource(j).value).members;
  }

  lemma {:induction false} RetentionRead(j: Json)
    requires ReadRetention(j).Ok?
    ensures j == match ReadRetention(j).value case None => JNull case Some(s) => JInt(s)
  {}

  lemma {:induction false} TextsDescribe(m: map<string, Json>, l: Layout)
    requires REQUIRED <= m.Keys && m["resource"] == ResourceDocument(l.resource)
    requires m["table"] == JStr(l.table) && m["recordProfile"] == JStr(l.profile)
    requires m["schemaVersion"] == JStr(l.schemaVersion)
    requires m["resourceFingerprint"] == JStr(l.resourceFingerprint)
    requires m["schemaFingerprint"] == JStr(l.schemaFingerprint) && m["timestampField"] == JStr(l.timestampField)
    requires m["partitionInterval"] == JStr(l.partition) && m["topology"] == JStr(l.topology)
    requires m["queryFinal"] == JBool(l.queryFinal)
    ensures m["resource"] == FieldDocument(l, "resource")
    ensures m["table"] == FieldDocument(l, "table")
    ensures m["recordProfile"] == FieldDocument(l, "recordProfile")
    ensures m["schemaVersion"] == FieldDocument(l, "schemaVersion")
    ensures m["resourceFingerprint"] == FieldDocument(l, "resourceFingerprint")
    ensures m["schemaFingerprint"] == FieldDocument(l, "schemaFingerprint")
    ensures m["timestampField"] == FieldDocument(l, "timestampField")
    ensures m["partitionInterval"] == FieldDocument(l, "partitionInterval")
    ensures m["topology"] == FieldDocument(l, "topology")
    ensures m["queryFinal"] == FieldDocument(l, "queryFinal")
  {}

  lemma {:induction false} ListsDescribe(m: map<string, Json>, l: Layout)
    requires REQUIRED <= m.Keys && m["columns"] == JArr(ColumnDocuments(l.columns))
    requires m["identityFields"] == JArr(Texts(l.identityFields))
    requires m["dimensionFields"] == JArr(Texts(l.dimensionFields))
    requires m["measurementFields"] == JArr(Texts(l.measurementFields))
    requires m["retentionSeconds"] == match l.retention case None => JNull case Some(s) => JInt(s)
    requires m["administrativeProfiles"] == JArr(Texts(l.administrative))
    requires m["indexes"] == JObj(map n | n in l.indexes :: JArr(Texts(l.indexes[n])))
    ensures m["columns"] == FieldDocument(l, "columns")
    ensures m["identityFields"] == FieldDocument(l, "identityFields")
    ensures m["dimensionFields"] == FieldDocument(l, "dimensionFields")
    ensures m["measurementFields"] == FieldDocument(l, "measurementFields")
    ensures m["retentionSeconds"] == FieldDocument(l, "retentionSeconds")
    ensures m["administrativeProfiles"] == FieldDocument(l, "administrativeProfiles")
    ensures m["indexes"] == FieldDocument(l, "indexes")
  {}

  lemma {:induction false} AllKeys(m: map<string, Json>, l: Layout)
    requires REQUIRED <= m.Keys && ("appendOnly" in m <==> l.appendOnly)
    requires m["resource"] == FieldDocument(l, "resource")
    requires m["table"] == FieldDocument(l, "table")
    requires m["recordProfile"] == FieldDocument(l, "recordProfile")
    requires m["schemaVersion"] == FieldDocument(l, "schemaVersion")
    requires m["resourceFingerprint"] == FieldDocument(l, "resourceFingerprint")
    requires m["schemaFingerprint"] == FieldDocument(l, "schemaFingerprint")
    requires m["timestampField"] == FieldDocument(l, "timestampField")
    requires m["partitionInterval"] == FieldDocument(l, "partitionInterval")
    requires m["topology"] == FieldDocument(l, "topology")
    requires m["queryFinal"] == FieldDocument(l, "queryFinal")
    requires m["columns"] == FieldDocument(l, "columns")
    requires m["identityFields"] == FieldDocument(l, "identityFields")
    requires m["dimensionFields"] == FieldDocument(l, "dimensionFields")
    requires m["measurementFields"] == FieldDocument(l, "measurementFields")
    requires m["retentionSeconds"] == FieldDocument(l, "retentionSeconds")
    requires m["administrativeProfiles"] == FieldDocument(l, "administrativeProfiles")
    requires m["indexes"] == FieldDocument(l, "indexes")
    ensures Describes(m, l)
  {
    hide FieldDocument;
  }

  lemma {:induction false} LayoutRead(m: map<string, Json>)
    requires REQUIRED <= m.Keys && ReadLayout(m).Ok?
    ensures Describes(m, ReadLayout(m).value)
    ensures forall c :: c in ReadLayout(m).value.columns ==> c.Valid()
  {
    hide ReadTexts, ReadIndexes, ReadRetention, ReadColumns, ReadResource, Column.Valid, Describes, Texts,
         ResourceDocument, ColumnDocuments;
    ResourceRead(m["resource"]);
    ColumnsRead(m["columns"].items);
    TextsRead(m["identityFields"]);
    TextsRead(m["dimensionFields"]);
    TextsRead(m["measurementFields"]);
    RetentionRead(m["retentionSeconds"]);
    TextsRead(m["administrativeProfiles"]);
    IndexesRead(m["indexes"]);
    TextsDescribe(m, ReadLayout(m).value);
    ListsDescribe(m, ReadLayout(m).value);
    assert Describes(m, ReadLayout(m).value) by { AllKeys(m, ReadLayout(m).value); }
  }

  /** The document of a layout whose columns and profiles are in any order, with a fingerprint. */
  function Written(raw: Layout, fingerprint: string): Json {
    JObj(CoreDocument(raw)["layoutFingerprint" := JStr(fingerprint)])
  }

  lemma {:induction false} DescribedIsWritten(m: map<string, Json>, raw: Layout, fingerprint: string)
    requires Describes(m, raw) && m.Keys - {"appendOnly"} == REQUIRED + {"layoutFingerprint"}
    requires "appendOnly" in m ==> m["appendOnly"] == JBool(true)
    requires m["layoutFingerprint"] == JStr(fingerprint)
    ensures JObj(m) == Written(raw, fingerprint)
  {
    hide FieldDocument;
    var w := Written(raw, fingerprint).members;
    forall key ensures key in m <==> key in w {
      assert key in m <==> (key == "appendOnly" && "appendOnly" in m) || key in m.Keys - {"appendOnly"};
    }
    forall key | key in m ensures m[key] == w[key] {
      assert key == "appendOnly" || key in m.Keys - {"appendOnly"};
    }
    assert m == w;
  }

  lemma {:induction false} WrittenShape(raw: Layout, fingerprint: string)
    ensures var m := Written(raw, fingerprint).members;
            && Describes(m, raw)
            && m.Keys - {"appendOnly"} == REQUIRED + {"layoutFingerprint"}
            && ("appendOnly" in m ==> m["appendOnly"] == JBool(true))
            && m["layoutFingerprint"] == JStr(fingerprint)
  {
    hide FieldDocument;
    var m := Written(raw, fingerprint).members;
    assert "appendOnly" !in REQUIRED && "layoutFingerprint" !in REQUIRED && "layoutFingerprint" != "appendOnly";
    assert m.Keys == REQUIRED + {"layoutFingerprint"} + (if raw.appendOnly then {"appendOnly"} else {});
  }

  lemma {:induction false} WrittenIsObject(raw: Layout, fingerprint: string)
    ensures Written(raw, fingerprint).JObj?
  {}

  /** The accepted documents are exactly those that acceptable layouts can be written as, with
      columns and profiles in any order and the fingerprint of the constructed layout. */
  lemma {:induction false} DocumentAccepted(j: Json, l: Layout, hash: Json -> string)
    ensures FromMapping(j, hash) == Ok(l) <==>
            exists raw :: Acceptable(raw) && Normal(raw) == l && j == Written(raw, LayoutFingerprint(l, hash))
  {
    hide Describes, ReadLayout, CoreDocument, LayoutFingerprint, Acceptable, Written, Normal;
    if FromMapping(j, hash) == Ok(l) {
      var raw := ReadLayout(j.members).value;
      LayoutRead(j.members);
      DescribedIsWritten(j.members, raw, LayoutFingerprint(l, hash));
    }
    if raw :| Acceptable(raw) && Normal(raw) == l && j == Written(raw, LayoutFingerprint(l, hash)) {
      assert j.JObj? by { WrittenIsObject(raw, LayoutFingerprint(l, hash)); }
      WrittenShape(raw, LayoutFingerprint(l, hash));
      assert forall c :: c in raw.columns ==> c.Valid() by { ValidColumns(raw); }
      ReadsBack(j.members, raw);
    }
  }

  /** Layout fingerprints have the form that layouts demand of the fingerprints they carry. */
  lemma {:induction false} LayoutFingerprintForm(l: Layout, hash: Json -> string)
    requires RowFingerprint.IsDigest(hash(JObj(CoreDocument(l))))
    ensures Fingerprint(LayoutFingerprint(l, hash))
  {
    FingerprintExact(LayoutFingerprint(l, hash));
  }
}
