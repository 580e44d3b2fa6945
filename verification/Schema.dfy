/** `schema/compiler.py`: columns, types and the table definition that is created. */
module Schema {
  import opened Common
  import opened Identifiers
  import opened Layouts
  import opened ColumnTypes
  import opened Sorts
  import Decimal
  import Filters

  // ---- Column types ---------------------------------------------------------

  /** Kinds with one engine type each. */
  function PrimitiveType(kind: string): Option<string> {
    match kind
    case "boolean" => Some("Bool")
    case "int8" => Some("Int8")
    case "int16" => Some("Int16")
    case "int32" => Some("Int32")
    case "int64" => Some("Int64")
    case "float64" => Some("Float64")
    case "string" => Some("String")
    case "bytes" => Some("String")
    case "uuid" => Some("UUID")
    case "utcTimestamp" => Some(TIMESTAMP_TYPE)
    case "date" => Some("Date32")
    case "duration" => Some("Int64")
    case "enum" => Some("LowCardinality(String)")
    case "json" => Some("String")
    case "recordRef" => Some("String")
    case "objectRef" => Some("String")
    case "wgs84Point" => Some("Tuple(Float64, Float64)")
    case _ => None
  }

  const MAX_DECIMAL_PRECISION := 76

  /** A logical type: decimals carry precision and scale. */
  datatype LogicalType = Simple(kind: string) | DecimalKind(precision: nat, scale: nat) {
    /** What the library accepts as a type. */
    predicate Valid() {
      match this
      case Simple(kind) => PrimitiveType(kind).Some?
      case DecimalKind(precision, scale) => 1 <= precision && scale <= precision
    }
  }

  function DecimalText(precision: nat, scale: nat): string {
    "Decimal(" + Decimal.Natural(precision) + ", " + Decimal.Natural(scale) + ")"
  }

  /** `logical_type_to_clickhouse`. */
  function EngineType(t: LogicalType): Result<string>
    requires t.Valid()
  {
    match t
    case Simple(kind) => Ok(PrimitiveType(kind).value)
    case DecimalKind(precision, scale) =>
      if precision > MAX_DECIMAL_PRECISION then Err(OutOfRange) else Ok(DecimalText(precision, scale))
  }

  lemma {:induction false} DecimalTextValid(precision: nat, scale: nat)
    requires 1 <= precision <= MAX_DECIMAL_PRECISION && scale <= precision
    ensures ValidColumnType(DecimalText(precision, scale))
  {
    var p, s := Decimal.Natural(precision), Decimal.Natural(scale);
    var t := DecimalText(precision, scale);
    Decimal.NaturalShape(precision);
    Decimal.NaturalShape(scale);
    Decimal.NumberOfNatural(precision);
    Decimal.NumberOfNatural(scale);
    assert t[..8] == "Decimal(" && t[|t| - 1] == ')';
    var inner := Unwrapped(t, "Decimal(");
    assert inner == p + ", " + s;
    var i := |p|;
    assert inner[..i] == p && inner[i + 2..] == s;
    assert inner[i] == ',' && inner[i + 1] == ' ';
    assert DecimalBounds(inner, i);
    assert DecimalType(t);
  }

  /** Compiled types are always inside the closed grammar that layouts accept. */
  lemma {:induction false} EngineTypeValid(t: LogicalType)
    requires t.Valid() && EngineType(t).Ok?
    ensures ValidColumnType(EngineType(t).value)
  {
    match t
    case Simple(_) =>
    case DecimalKind(precision, scale) => DecimalTextValid(precision, scale);
  }

  // ---- Columns --------------------------------------------------------------

  /** A schema field; `ascii` and `digest` are the ASCII form and the digest of its name. */
  datatype FieldDefinition = FieldDefinition(
    name: string, ascii: string, digest: string, kind: LogicalType, wire: Json, nullable: bool, many: bool)

  function WrappedType(base: string, nullable: bool, many: bool): string {
    if many then "Array(" + (if nullable then "Nullable(" + base + ")" else base) + ")"
    else if nullable then "Nullable(" + base + ")"
    else base
  }

  /** `compile_column`; the column itself refuses reserved and empty names. */
  function CompileColumn(f: FieldDefinition): Result<Column>
    requires f.kind.Valid()
  {
    var base :- EngineType(f.kind);
    var c := Column(f.name, PhysicalName(f.ascii, f.digest, "c"), f.wire, WrappedType(base, f.nullable, f.many),
                    f.nullable, f.many);
    if c.Valid() then Ok(c) else Err(BadLayout)
  }

  lemma {:induction false} WrappedCases(base: string, nullable: bool, many: bool)
    ensures WrappedType(base, nullable, many) in
      {base, "Nullable(" + base + ")", "Array(" + base + ")", "Array(" + ("Nullable(" + base + ")") + ")"}
  {}

  /** A field compiles exactly when its name is not reserved and its precision is supported;
      the column then has an unreserved physical identifier and a type of the grammar. */
  lemma {:induction false} CompiledColumn(f: FieldDefinition)
    requires f.kind.Valid() && |f.digest| == 12 && AllParts(f.digest)
    ensures CompileColumn(f).Ok? <==> f.name != "" && !("_meridian_" <= f.name) && EngineType(f.kind).Ok?
    ensures CompileColumn(f).Ok? ==>
      var c := CompileColumn(f).value;
      c.Valid() && c.logical == f.name && c.physical !in HIDDEN_COLUMNS && c.nullable == f.nullable && c.many == f.many
  {
    hide ValidColumnType, EngineType, PhysicalName, PhysicalIdentifier;
    PhysicalNameIsIdentifier(f.ascii, f.digest, "c");
    if EngineType(f.kind).Ok? {
      var base := EngineType(f.kind).value;
      EngineTypeValid(f.kind);
      WrappedValid(base, "Nullable(");
      WrappedValid(base, "Array(");
      WrappedValid("Nullable(" + base + ")", "Array(");
      assert ValidColumnType(WrappedType(base, f.nullable, f.many)) by { WrappedCases(base, f.nullable, f.many); }
    }
  }

  /** The kinds that are stored as text, as seconds or as coordinates. */
  lemma {:induction false} CarriedKinds()
    ensures forall kind :: kind in ["string", "bytes", "json", "recordRef", "objectRef"] ==>
              PrimitiveType(kind) == Some("String")
    ensures PrimitiveType("duration") == PrimitiveType("int64") == Some("Int64")
    ensures PrimitiveType("enum") == Some("LowCardinality(String)")
    ensures PrimitiveType("wgs84Point") == Some("Tuple(Float64, Float64)")
  {}

  /** The type of a decimal field spells its precision and scale. */
  lemma {:induction false} DecimalReads(precision: nat, scale: nat)
    requires 1 <= precision <= 76 && scale <= precision
    ensures exists p, s ::
      && EngineType(DecimalKind(precision, scale)) == Ok(Spelled(DecimalOf(p, s)))
      && Formed(DecimalOf(p, s)) && Decimal.Number(p) == precision && Decimal.Number(s) == scale
  {
    var p, s := Decimal.Natural(precision), Decimal.Natural(scale);
    Decimal.NaturalShape(precision);
    Decimal.NaturalShape(scale);
    Decimal.NumberOfNatural(precision);
    Decimal.NumberOfNatural(scale);
    assert DecimalText(precision, scale) == Spelled(DecimalOf(p, s));
  }

  /** A compiled column has the type of its kind, nullable if the field is, as an array if it
      holds many values; then the items are nullable. */
  lemma {:induction false} CompiledType(f: FieldDefinition, base: TypeTree)
    requires f.kind.Valid() && CompileColumn(f).Ok? && EngineType(f.kind) == Ok(Spelled(base))
    ensures var item := if f.nullable then NullableOf(base) else base;
            CompileColumn(f).value.ctype == Spelled(if f.many then ArrayOf(item) else item)
  {
    hide PhysicalName, EngineType, Column.Valid;
  }

  /** A literal of a primitive kind is bound under the column type of that kind, a decimal under the
      widest decimal with 18 places, and any other as text. */
  lemma {:induction false} LiteralTypeIsColumnType(kind: string)
    ensures if kind in {"boolean", "date", "float64", "int8", "int16", "int32", "int64", "utcTimestamp", "uuid"}
            then PrimitiveType(kind) == Some(Filters.LiteralType(kind))
            else Filters.LiteralType(kind) == if kind == "decimal" then "Decimal256(18)" else "String"
  {}

  // ---- The table definition -------------------------------------------------

  function Quoted(name: string): string { "`" + Doubled(name) + "`" }

  function QuotedNames(names: seq<string>): (r: seq<string>)
    ensures |r| == |names|
  {
    seq(|names|, i requires 0 <= i < |names| => Quoted(names[i]))
  }

  function ColumnLine(name: string, ctype: string): string { "    " + Quoted(name) + " " + ctype }

  /** The hidden columns and their types, in order. */
  const HIDDEN_TYPES := ["FixedString(64)", "String", "String", "FixedString(64)", "LowCardinality(String)", "String",
                         TIMESTAMP_TYPE]

  function HiddenLines(): (r: seq<string>)
    ensures |r| == 7
  {
    seq(7, i requires 0 <= i < 7 => ColumnLine(HIDDEN_COLUMNS[i], HIDDEN_TYPES[i]))
  }

  function UserLines(l: Layout): (r: seq<string>)
    ensures |r| == |l.columns|
  {
    seq(|l.columns|, i requires 0 <= i < |l.columns| => ColumnLine(l.columns[i].physical, l.columns[i].ctype))
  }

  function IndexLine(l: Layout, name: string): string
    requires name in l.indexes && forall f :: f in l.indexes[name] ==> f in l.Names()
  {
    "    INDEX " + (Quoted(name) + (" (" + (JoinNames(QuotedNames(PhysicalOf(l, l.indexes[name])))
                                            + ") TYPE minmax GRANULARITY 1")))
  }

  function IndexLines(l: Layout, names: seq<string>): (r: seq<string>)
    requires forall n :: n in names ==> n in l.indexes && forall f :: f in l.indexes[n] ==> f in l.Names()
    ensures |r| == |names|
  {
    seq(|names|, i requires 0 <= i < |names| => IndexLine(l, names[i]))
  }

  function WithCommas(lines: seq<string>): (r: seq<string>)
    ensures |r| == |lines|
  {
    seq(|lines|, i requires 0 <= i < |lines| => lines[i] + (if i < |lines| - 1 then "," else ""))
  }

  function EngineName(topology: string): string {
    if topology == "clickhouse-replicated" then "ReplicatedReplacingMergeTree" else "ReplacingMergeTree"
  }

  /** Where the replicas of a table meet. */
  function ReplicaPath(database: string, table: string): string {
    "/clickhouse/tables/{shard}/" + database + "/" + table
  }

  /** The engine with its arguments; `version` is the printed version column. */
  function EngineText(database: string, table: string, topology: string, version: string): string {
    EngineName(topology)
    + ("(" + ((if topology == "clickhouse-replicated" then "'" + (ReplicaPath(database, table) + "', '{replica}', ")
      else "")
              + (version + ")")))
  }

  function EngineLine(database: string, l: Layout): string {
    "ENGINE = " + EngineText(database, l.table, l.topology, Quoted(HIDDEN_INGESTED))
  }

  function PartitionLine(l: Layout): string
    requires RolesOk(l)
  {
    var timestamp := Quoted(l.Physical(l.timestampField));
    "PARTITION BY " + ((if l.partition == "hour" then "toStartOfHour" else if l.partition == "day" then "toDate"
                        else "toYYYYMM")
                       + ("(" + (timestamp + ")")))
  }

  function OrderLine(l: Layout): string
    requires RolesOk(l)
  {
    "ORDER BY (" + JoinNames(QuotedNames(KeyColumns(l))) + ")"
  }

  function RetentionLines(l: Layout): seq<string>
    requires RolesOk(l)
  {
    match l.retention
    case None => []
    case Some(seconds) =>
      if seconds < 0 then [] else
      ["TTL toDateTime(" + (Quoted(l.Physical(l.timestampField))
                            + (") + toIntervalSecond(" + (Decimal.Natural(seconds) + ") DELETE")))]
  }

  function HeaderLine(database: string, table: string): string {
    "CREATE TABLE IF NOT EXISTS " + (Quoted(database) + ("." + (Quoted(table) + " (")))
  }

  /** The names of all indexes, each once; the layout keeps them in their order. */
  ghost predicate IndexNames(l: Layout, names: seq<string>) {
    && (forall n :: n in names ==> n in l.indexes && forall f :: f in l.indexes[n] ==> f in l.Names())
    && (forall n :: n in l.indexes ==> n in names) && Unique(names)
  }

  /** `create_table_ddl`, line by line; `names` are the index names in order. */
  function CreateTable(database: string, l: Layout, names: seq<string>): seq<string>
    requires RolesOk(l)
    requires forall n :: n in names ==> n in l.indexes && forall f :: f in l.indexes[n] ==> f in l.Names()
  {
    [HeaderLine(database, l.table)]
    + (WithCommas(HiddenLines() + UserLines(l) + IndexLines(l, names))
       + ([")", EngineLine(database, l), PartitionLine(l), OrderLine(l)] + RetentionLines(l)
         + ["SETTINGS index_granularity = 8192"]))
  }

  // ---- The metadata table ---------------------------------------------------

  const METADATA_TABLE := "_meridian_resources"

  const METADATA_COLUMNS := [
    ("resource_ref", "String"), ("resource_fingerprint", "FixedString(71)"), ("schema_fingerprint", "FixedString(71)"),
    ("profile", "LowCardinality(String)"), ("table_name", "String"), ("layout_fingerprint", "FixedString(71)"),
    ("schema_version", "String"), ("updated_at", "DateTime64(6, 'UTC')")]

  function MetadataLines(): (r: seq<string>)
    ensures |r| == 8
  {
    seq(8, i requires 0 <= i < 8 => "    " + METADATA_COLUMNS[i].0 + " " + METADATA_COLUMNS[i].1)
  }

  /** `metadata_table_ddl`, line by line. */
  function MetadataTable(database: string, topology: string): seq<string> {
    [HeaderLine(database, METADATA_TABLE)]
    + (WithCommas(MetadataLines())
       + [")", "ENGINE = " + EngineText(database, METADATA_TABLE, topology, "updated_at"), "ORDER BY resource_ref"])
  }
}
