/** From appended records to pages: what a client reads back through cursors. */
module EndToEnd {
  import opened Common
  import opened Rows
  import opened Sql
  import opened Layouts
  import opened Filters
  import opened SqlCompilers
  import opened FilterReading
  import opened MappingFirst
  import opened MappingReading
  import opened Values
  import opened Keysets
  import opened Sorts
  import opened Cursors
  import opened RowFingerprint
  import opened Translator
  import opened Windows
  import opened Traversals
  import opened Paging
  import opened Ingestion
  import opened AppendStore
  import opened Conditions
  import opened ColumnTypes
  import Identifiers
  import Schema
  import Timestamps
  import Sorting

  // ---- What a filter can see ------------------------------------------------

  ghost predicate AgreeAt(l: Layout, a: Row, b: Row, name: string)
    requires name in l.Names()
  {
    Cell(a, l.Physical(name)) == Cell(b, l.Physical(name))
  }

  /** The rows agree on all logical columns. */
  ghost predicate Agree(l: Layout, a: Row, b: Row) {
    forall name :: name in l.Names() ==> AgreeAt(l, a, b, name)
  }

  /** The value depends on logical columns only. */
  ghost predicate Respects(l: Layout, meaning: Row -> Value) {
    forall a, b :: Agree(l, a, b) ==> meaning(a) == meaning(b)
  }

  lemma {:induction false} AgreesAt(l: Layout, a: Row, b: Row, name: string)
    requires Agree(l, a, b) && name in l.Names()
    ensures AgreeAt(l, a, b, name)
  {}

  lemma {:induction false} MeaningAgrees(l: Layout, e: Filter, a: Row, b: Row)
    requires Compiles(l, e) && Agree(l, a, b)
    ensures Meaning(l, e, a) == Meaning(l, e, b)
    decreases e, 1
  {
    hide Agree, Compare, In3, Not3, LiteralMeaning, RangeMeaning, OperandType;
    match e
    case Field(_, name) => assert AgreeAt(l, a, b, name) by { AgreesAt(l, a, b, name); }
    case Literal(_, _) =>
    case Binary(_, left, right) =>
      MeaningAgrees(l, left, a, b);
      if !right.Literal? { MeaningAgrees(l, right, a, b); }
    case Boolean(_, operands) => MeaningsAgree(l, operands, a, b);
    case Unary(_, operand) => MeaningAgrees(l, operand, a, b);
    case NullTest(operand, _) => MeaningAgrees(l, operand, a, b);
    case Membership(operand, _, _) => MeaningAgrees(l, operand, a, b);
    case TimestampRange(operand, _, _, _, _) => MeaningAgrees(l, operand, a, b);
  }

  lemma {:induction false} MeaningsAgree(l: Layout, es: seq<Filter>, a: Row, b: Row)
    requires AllCompile(l, es) && Agree(l, a, b)
    ensures AllMeanings(l, es, a) == AllMeanings(l, es, b)
    decreases es, 0
  {
    hide Agree, Meaning, Compiles;
    if es != [] {
      MeaningAgrees(l, es[0], a, b);
      MeaningsAgree(l, es[1..], a, b);
    }
  }

  lemma {:induction false} WireRespects(l: Layout, filter: Option<Filter>)
    ensures Respects(l, WireMeaning(l, filter))
  {
    hide Agree, Meaning, Compiles;
    forall a, b | Agree(l, a, b) ensures WireMeaning(l, filter)(a) == WireMeaning(l, filter)(b) {
      if filter.Some? && Compiles(l, filter.value) { MeaningAgrees(l, filter.value, a, b); }
    }
  }

  lemma {:induction false} FieldAtomColumn(c: Column, test: Test, i: nat)
    requires i < |FieldAtoms(c, test)|
    ensures FieldAtoms(c, test)[i].column == c.physical
  {}

  lemma {:induction false} ItemColumns(l: Layout, items: Where, i: nat)
    requires KnownFields(l, items) && i < |ItemAtoms(l, items)|
    ensures exists name :: name in l.Names() && ItemAtoms(l, items)[i].column == l.Physical(name)
  {
    hide FieldAtoms;
    var c := l.ColumnOf(items[0].0).value;
    var first := FieldAtoms(c, items[0].1);
    if i < |first| {
      FieldAtomColumn(c, items[0].1, i);
    } else {
      ItemColumns(l, items[1..], i - |first|);
    }
  }

  lemma {:induction false} AtomAgrees(atom: Atom, a: Row, b: Row)
    requires AtomOk(atom) && Cell(a, atom.column) == Cell(b, atom.column)
    ensures AtomMeaning(atom, a) == AtomMeaning(atom, b)
  {}

  lemma {:induction false} MappingRespects(l: Layout, where: Where)
    ensures Respects(l, MappingMeaning(l, where))
  {
    hide Agree, AtomMeaning, AtomOk, Conjunction, ItemAtoms, Sorting.Sort;
    forall a, b | Agree(l, a, b) ensures MappingMeaning(l, where)(a) == MappingMeaning(l, where)(b) {
      if WhereOk(l, where) {
        var atoms := Atoms(l, where);
        forall i | 0 <= i < |atoms| ensures AtomMeaning(atoms[i], a) == AtomMeaning(atoms[i], b) {
          ItemColumns(l, Sorting.Sort(FieldOf, where), i);
          var name :| name in l.Names() && atoms[i].column == l.Physical(name);
          AgreesAt(l, a, b, name);
          AtomAgrees(atoms[i], a, b);
        }
        assert AtomMeanings(atoms, a) == AtomMeanings(atoms, b);
      }
    }
  }

  // ---- Rows of one entry ----------------------------------------------------

  /** The logical columns of an entry. */
  function EntryRow(l: Layout, e: Entry): Row {
    Zip(PhysicalNames(l.columns), seq(|l.columns|, i requires 0 <= i < |l.columns| => FieldValue(l, e.record,
      l.columns[i].logical)))
  }

  lemma {:induction false} EntryRowCell(l: Layout, e: Entry, name: string)
    requires ColumnsOk(l) && name in l.Names()
    ensures Cell(EntryRow(l, e), l.Physical(name)) == FieldValue(l, e.record, name)
  {
    hide FieldValue, Zip, Column.Valid;
    var c := l.ColumnOf(name).value;
    var i :| 0 <= i < |l.columns| && l.columns[i] == c;
    ZipLookup(PhysicalNames(l.columns), seq(|l.columns|, j requires 0 <= j < |l.columns| => FieldValue(l, e.record,
      l.columns[j].logical)), i);
  }

  lemma {:induction false} EntryRowAgrees(l: Layout, row: Row, e: Entry, hash: Json -> string)
    requires ColumnsOk(l) && RowFor(l, row, e, hash)
    ensures Agree(l, row, EntryRow(l, e))
  {
    hide RowFor, FieldValue, Zip, Column.Valid;
    forall name | name in l.Names() ensures AgreeAt(l, row, EntryRow(l, e), name) {
      FieldCell(l, row, e, hash, name);
      EntryRowCell(l, e, name);
    }
  }

  /** Whether the query's filter is true of the record of an entry. */
  ghost predicate Wanted(l: Layout, meaning: Row -> Value, e: Entry) { True(meaning(EntryRow(l, e))) }

  /** A wire query wants the entries on whose record its filter says so. */
  lemma {:induction false} WireWanted(l: Layout, filter: Option<Filter>, e: Entry)
    requires filter.Some? ==> Compiles(l, filter.value)
    ensures Wanted(l, WireMeaning(l, filter), e) <==> filter == None || Says(l, filter.value, EntryRow(l, e), true)
  {
    hide Meaning, Compiles, Says, EntryRow;
    if filter.Some? { MeaningSays(l, filter.value, EntryRow(l, e)); }
  }

  /** A mapping-first query wants the entries on whose record every item of the filter says so. */
  lemma {:induction false} MappingWanted(l: Layout, where: Where, e: Entry)
    requires WhereOk(l, where)
    ensures Wanted(l, MappingMeaning(l, where), e) <==>
            forall i :: 0 <= i < |where| ==> ItemSays(l, where[i], EntryRow(l, e))
  {
    hide WhereOk, ItemSays, EntryRow, MappingMeaning, Truth;
    MappingMeans(l, where, EntryRow(l, e));
  }

  /** With one plain value: the entries whose record holds that very value. */
  lemma {:induction false} EqualityWanted(l: Layout, field: string, value: Json, e: Entry)
    requires ColumnsOk(l) && WhereOk(l, [(field, Scalar(value))])
    ensures field in l.Names()
    ensures var v := LiteralMeaning(value, l.ColumnOf(field).value.ctype);
            Wanted(l, MappingMeaning(l, [(field, Scalar(value))]), e) <==>
            !v.Null? && FieldValue(l, e.record, field) == v
  {
    hide WhereOk, EntryRow, MappingMeaning, LiteralMeaning, FieldValue, ColumnsOk, Binds, Wanted;
    var where: Where := [(field, Scalar(value))];
    MappingMeans(l, where, EntryRow(l, e));
    assert ItemAccepted(l, where[0]);
    MappingWanted(l, where, e);
    EntryRowCell(l, e, field);
    assert ItemSays(l, where[0], EntryRow(l, e)) <==>
           Compared("eq", Cell(EntryRow(l, e), l.ColumnOf(field).value.physical),
                    LiteralMeaning(value, l.ColumnOf(field).value.ctype), true);
  }

  lemma {:induction false} WantedRow(l: Layout, meaning: Row -> Value, row: Row, e: Entry, hash: Json -> string)
    requires ColumnsOk(l) && RowFor(l, row, e, hash) && Respects(l, meaning)
    ensures True(meaning(row)) <==> Wanted(l, meaning, e)
  {
    hide RowFor, ColumnsOk, Agree, EntryRow, HeaderOk, IndexesOk, Created, HiddenFree;
    EntryRowAgrees(l, row, e, hash);
  }

  // ---- Values that cursors can carry ----------------------------------------

  /** A scalar column of a kind with lossless cursors, stored under its compiled type. */
  predicate Carried(c: Column) {
    && !c.nullable && !c.many && KindOf(c.logicalType).Ok?
    && var kind := KindOf(c.logicalType).value;
       || (kind == "utcTimestamp" && c.ctype == TIMESTAMP_TYPE)
       || (kind == "boolean" && c.ctype == "Bool")
       || (kind == "string" && c.ctype == "String")
       || (kind == "enum" && c.ctype == "LowCardinality(String)")
       || (kind == "int8" && c.ctype == "Int8") || (kind == "int16" && c.ctype == "Int16")
       || (kind == "int32" && c.ctype == "Int32") || (kind in {"int64", "duration"} && c.ctype == "Int64")
  }

  /** Columns that the schema compiler makes for required scalar fields of these kinds are
      carried. */
  lemma {:induction false} CompiledIsCarried(f: Schema.FieldDefinition)
    requires f.kind.Simple? && f.kind.kind in {"utcTimestamp", "boolean", "string", "enum", "int8", "int16", "int32",
                                               "int64", "duration"}
    requires KindOf(f.wire) == Ok(f.kind.kind) && !f.nullable && !f.many
    ensures f.kind.Valid()
    ensures Schema.CompileColumn(f).Ok? ==> Carried(Schema.CompileColumn(f).value)
  {
    hide ValidColumnType;
  }

  ghost predicate CarriedField(l: Layout, name: string) {
    name in l.Names() && Carried(l.ColumnOf(name).value)
  }

  /** The fields that the completed order consists of are carried by cursors. */
  ghost predicate CarriedOrder(l: Layout, order: seq<Order>) {
    && CarriedField(l, l.timestampField)
    && (forall name :: name in l.identityFields ==> CarriedField(l, name))
    && (forall i :: 0 <= i < |order| ==> CarriedField(l, order[i].field))
  }

  ghost predicate CarriedSort(l: Layout, sort: Sort) {
    || (sort.column == HIDDEN_ROW && sort.ctype == "String")
    || exists name ::
      CarriedField(l, name) && sort.column == l.Physical(name) && sort.ctype == l.ColumnOf(name).value.ctype
  }

  lemma {:induction false} PlainTypes(t: string)
    requires t in {TIMESTAMP_TYPE, "Bool", "String", "Int8", "Int16", "Int32", "Int64"}
    ensures ParameterType(t) == t && HoldsTicks(t) == (t == TIMESTAMP_TYPE)
    ensures "DateTime64(9" <= t <==> t == TIMESTAMP_TYPE
    ensures "Int" <= t <==> t in {"Int8", "Int16", "Int32", "Int64"}
  {
    assert "Nullable("[0] == 'N' && "LowCardinality("[0] == 'L' && "Array("[0] == 'A';
    assert t[0] != 'N' && t[0] != 'L' && t[0] != 'A';
    if t == TIMESTAMP_TYPE { assert t[..12] == "DateTime64(9"; } else { assert t[0] != 'D'; }
    if t in {"Int8", "Int16", "Int32", "Int64"} { assert t[..3] == "Int"; }
    if t == "Bool" { assert t[0] == 'B'; }
    if t == "String" { assert t[0] == 'S'; }
  }

  lemma {:induction false} EnumType()
    ensures ParameterType("LowCardinality(String)") == "String" && !HoldsTicks("LowCardinality(String)")
  {
    var t := "LowCardinality(String)";
    assert "Nullable("[0] == 'N' && "Array("[0] == 'A' && t[0] == 'L' && TIMESTAMP_TYPE[0] == 'D';
    assert t[..15] == "LowCardinality(";
    assert HasWrapper(t, "LowCardinality(") && Unwrapped(t, "LowCardinality(") == "String";
  }

  /** A carried column holds values that its sort alias can carry. */
  lemma {:induction false} CarriedIsTyped(c: Column, record: Record, descending: bool)
    requires Carried(c) && FieldOk(c, Get(record, c.logical)) && c.physical != HIDDEN_ROW
    ensures Typed(Sort(c.physical, descending, c.ctype), ColumnValue(c, record))
  {
    hide Timestamps.TimestampNanoseconds, ParameterType, HoldsTicks;
    var raw := Get(record, c.logical);
    if c.ctype == "LowCardinality(String)" { EnumType(); } else { PlainTypes(c.ctype); }
    if raw.JStr? { StorableTicks(raw.text); }
  }

  lemma {:induction false} CarriedFieldCell(w: World, row: Row, e: Entry, sort: Sort, name: string)
    requires SetUp(w) && RowFor(w.l, row, e, w.hash) && CarriedField(w.l, name)
    requires sort.column == w.l.Physical(name) && sort.ctype == w.l.ColumnOf(name).value.ctype
    ensures Typed(sort, Cell(row, sort.column))
  {
    hide RowFor, Typed, ColumnValue, FieldOk, RolesOk, ColumnsOk, Carried, HeaderOk, IndexesOk, Created;
    PhysicalCell(w.l, row, e, w.hash, name);
    var c := w.l.ColumnOf(name).value;
    assert HIDDEN_ROW == HIDDEN_COLUMNS[3];
    CarriedIsTyped(c, e.record, sort.descending);
  }

  lemma {:induction false} DigestTyped(sort: Sort, digest: string)
    requires sort.column == HIDDEN_ROW && sort.ctype == "String" && IsDigest(digest)
    ensures Typed(sort, StrV(digest))
  {
    PlainTypes("String");
  }

  lemma {:induction false} CarriedCell(w: World, row: Row, e: Entry, sort: Sort)
    requires SetUp(w) && RowFor(w.l, row, e, w.hash) && CarriedSort(w.l, sort) && IsDigest(w.hash(JObj(e.record)))
    ensures Typed(sort, Cell(row, sort.column))
  {
    hide RowFor, Typed, RolesOk, ColumnsOk, HiddenFree, IsDigest, Carried, HeaderOk, IndexesOk, Created;
    if sort.column == HIDDEN_ROW && sort.ctype == "String" {
      RowIdentity(w.l, row, e, w.hash);
      DigestTyped(sort, w.hash(JObj(e.record)));
    } else {
      var name :| CarriedField(w.l, name) && sort.column == w.l.Physical(name)
          && sort.ctype == w.l.ColumnOf(name).value.ctype;
      CarriedFieldCell(w, row, e, sort, name);
    }
  }

  lemma {:induction false} DefaultsCarried(l: Layout, names: seq<string>)
    requires forall n :: n in names ==> CarriedField(l, n)
    ensures forall n :: n in names ==> n in l.Names()
    ensures forall i :: 0 <= i < |IdentityDefaults(l, names)| ==> CarriedSort(l, IdentityDefaults(l, names)[i].0)
  {
    hide Carried;
    if names != [] {
      DefaultsCarried(l, names[1..]);
      assert CarriedField(l, names[0]);
    }
  }

  lemma {:induction false} MissingCarried(l: Layout, defaults: seq<(Sort, string)>, chosen: set<string>)
    requires forall i :: 0 <= i < |defaults| ==> CarriedSort(l, defaults[i].0)
    ensures forall i :: 0 <= i < |Missing(defaults, chosen)| ==> CarriedSort(l, Missing(defaults, chosen)[i])
  {
    hide CarriedSort;
    if defaults != [] {
      MissingCarried(l, defaults[1..], chosen);
    }
  }

  lemma {:induction false} CompletedCarried(l: Layout, order: seq<Order>)
    requires RolesOk(l) && AllSortable(l, order) && CarriedOrder(l, order)
    ensures forall i :: 0 <= i < |Completed(l, order)| ==> CarriedSort(l, Completed(l, order)[i])
  {
    hide Carried, RolesOk, HeaderOk, IndexesOk, Created, HiddenFree;
    var chosen, defaults := ChosenSorts(l, order), DefaultFields(l);
    forall i | 0 <= i < |chosen| ensures CarriedSort(l, chosen[i]) {
      assert CarriedField(l, order[i].field);
    }
    assert CarriedField(l, l.timestampField);
    DefaultsCarried(l, l.identityFields);
    MissingCarried(l, defaults, Fields(order));
  }

  /** Every digest of the run is a digest. */
  ghost predicate DigestForm(hash: Json -> string, docs: set<Json>) { forall d :: d in docs ==> IsDigest(hash(d)) }

  lemma {:induction false} LandedTold(w: World, s: Store, e: Entry)
    requires RolesOk(w.l) && Inv(w, s) && e in s.landed
    ensures Told(w.hash, w.docs, e) && JObj(e.record) in w.docs
  {}

  lemma {:induction false} RowIsTyped(w: World, s: Store, row: Row, sorts: seq<Sort>)
    requires SetUp(w) && DigestForm(w.hash, w.docs) && Inv(w, s) && RowHasEntry(w, s.landed, row)
    requires forall i :: 0 <= i < |sorts| ==> CarriedSort(w.l, sorts[i])
    ensures TypedTuple(sorts, TupleOf(row, sorts))
  {
    hide RowFor, Typed, CarriedSort, ColumnsOk, RolesOk, HiddenFree, IsDigest, Inv, HeaderOk, IndexesOk, Created;
    var e :| e in s.landed && RowFor(w.l, row, e, w.hash);
    LandedTold(w, s, e);
    forall i | 0 <= i < |sorts| ensures Typed(sorts[i], TupleOf(row, sorts)[i]) {
      CarriedCell(w, row, e, sorts[i]);
    }
  }

  lemma {:induction false} RowsAreTyped(w: World, s: Store, view: View, sorts: seq<Sort>)
    requires SetUp(w) && DigestForm(w.hash, w.docs) && Inv(w, s)
    requires forall row :: row in view ==> RowHasEntry(w, s.landed, row)
    requires forall i :: 0 <= i < |sorts| ==> CarriedSort(w.l, sorts[i])
    ensures TypedView(view, sorts)
  {
    hide RowFor, CarriedSort, SetUp, IsDigest, Inv, TypedTuple, TupleOf, RowHasEntry;
    forall row | row in view ensures TypedTuple(sorts, TupleOf(row, sorts)) {
      RowIsTyped(w, s, row, sorts);
    }
  }

  // ---- Sort tuples of entries -----------------------------------------------

  lemma {:induction false} TupleOfEntry(w: World, order: seq<Order>, a: Row, b: Row, e: Entry)
    requires SetUp(w) && AllSortable(w.l, order) && CarriedOrder(w.l, order)
    requires RowFor(w.l, a, e, w.hash) && RowFor(w.l, b, e, w.hash)
    ensures TupleOf(a, Completed(w.l, order)) == TupleOf(b, Completed(w.l, order))
  {
    hide RowFor, Completed, Carried, RolesOk, HeaderOk, IndexesOk, Created, HiddenFree;
    CompletedCarried(w.l, order);
    var sorts := Completed(w.l, order);
    RowIdentity(w.l, a, e, w.hash);
    RowIdentity(w.l, b, e, w.hash);
    forall i | 0 <= i < |sorts| ensures TupleOf(a, sorts)[i] == TupleOf(b, sorts)[i] {
      assert CarriedSort(w.l, sorts[i]);
      if sorts[i].column != HIDDEN_ROW {
        var name :| CarriedField(w.l, name) && sorts[i].column == w.l.Physical(name);
        SameEntrySameCells(w.l, a, b, e, w.hash, name);
      }
    }
  }

  /** In one scope, rows with equal tuples of a completed order are rows of the same entry. */
  lemma {:induction false} TupleIsEntry(w: World, order: seq<Order>, a: Row, e: Entry, b: Row, f: Entry)
    requires SetUp(w) && AllSortable(w.l, order)
    requires RowFor(w.l, a, e, w.hash) && RowFor(w.l, b, f, w.hash) && Told(w.hash, w.docs, e)
             && Told(w.hash, w.docs, f)
    requires Cell(a, HIDDEN_SCOPE) == Cell(b, HIDDEN_SCOPE)
    requires TupleOf(a, Completed(w.l, order)) == TupleOf(b, Completed(w.l, order))
    ensures e == f
  {
    hide RowFor, Completed, RolesOk, Told, KeyOf, ColumnsOk, HeaderOk, IndexesOk, Created, HiddenFree;
    CompletedIsUnique(w.l, order, a, b);
    KeyIsEntry(w.l, a, e, b, f, w.hash, w.docs);
  }

  // ---- Reading while others write -------------------------------------------

  /** What the query reads of a table: the collapsed view, or all rows. */
  ghost predicate ReadView(w: World, parts: seq<Part>, view: View) {
    if w.l.queryFinal then Final(w.table, AllRows(parts), view) else view == AllRows(parts)
  }

  /** The pages are read at later and later moments of one run of the table. */
  ghost predicate ReadDuring(w: World, trace: seq<Store>, moments: seq<nat>, views: seq<View>)
    requires RolesOk(w.l)
  {
    && |moments| == |views|
    && (forall i :: 0 <= i < |moments| ==> moments[i] < |trace| && ReadView(w, trace[moments[i]].parts, views[i]))
    && (forall i, j :: 0 <= i < j < |moments| ==> moments[i] <= moments[j])
  }

  /** The table when the first and when the last page was read. */
  ghost function AtFirst(trace: seq<Store>, moments: seq<nat>): Store {
    if moments != [] && moments[0] < |trace| then trace[moments[0]] else EMPTY
  }

  ghost function AtLast(trace: seq<Store>, moments: seq<nat>): Store {
    if moments != [] && moments[|moments| - 1] < |trace| then trace[moments[|moments| - 1]] else EMPTY
  }

  /** The setting of the end-to-end claims. */
  ghost predicate Setting(w: World, trace: seq<Store>, moments: seq<nat>, views: seq<View>, order: seq<Order>,
                          caller: Caller) {
    && SetUp(w) && w.l.queryFinal && DigestForm(w.hash, w.docs)
    && IsTrace(w, trace) && ReadDuring(w, trace, moments, views)
    && AllSortable(w.l, order) && CarriedOrder(w.l, order)
    && ScopeDocument(caller) in w.docs
  }

  /** One moment of reading: the state satisfies the invariant and its view is exact. */
  lemma {:induction false} MomentView(w: World, trace: seq<Store>, moments: seq<nat>, views: seq<View>, i: nat)
    requires SetUp(w) && w.l.queryFinal && IsTrace(w, trace) && ReadDuring(w, trace, moments, views) && i < |views|
    ensures |moments| == |views| && moments[i] < |trace| && Inv(w, trace[moments[i]])
            && Final(w.table, AllRows(trace[moments[i]].parts), views[i])
    ensures forall row :: row in views[i] ==> RowHasEntry(w, trace[moments[i]].landed, row)
  {
    hide ColumnsOk, RolesOk, HiddenFree, Inv, Final, RowHasEntry, AllRows, IsTrace, RowFor, HeaderOk, IndexesOk,
         Created;
    assert ReadView(w, trace[moments[i]].parts, views[i]);
    TraceKeepsInv(w, trace, moments[i], moments[i]);
    FinalIsExact(w, trace[moments[i]], views[i]);
  }

  lemma {:induction false} SetUpRoles(w: World)
    requires SetUp(w)
    ensures RolesOk(w.l) && ColumnsOk(w.l) && KeyedBy(w.table, w.l)
  {
    hide ColumnsOk, RolesOk, HeaderOk, IndexesOk, Created, HiddenFree, KeyedBy;
    ReadyTable(w);
  }

  lemma {:induction false} MomentTyped(w: World, trace: seq<Store>, moments: seq<nat>, views: seq<View>,
                                       order: seq<Order>, caller: Caller, i: nat)
    requires Setting(w, trace, moments, views, order, caller) && i < |views|
    ensures TypedView(views[i], Completed(w.l, order))
  {
    hide SetUp, IsTrace, ReadDuring, DigestForm, CarriedOrder, Respects, Completed, CarriedSort, Inv, RowHasEntry,
         Final, RolesOk, AllSortable, HeaderOk, IndexesOk, Created, HiddenFree;
    SetUpRoles(w);
    MomentView(w, trace, moments, views, i);
    CompletedCarried(w.l, order);
    RowsAreTyped(w, trace[moments[i]], views[i], Completed(w.l, order));
  }

  lemma {:induction false} MomentOrderly(w: World, trace: seq<Store>, moments: seq<nat>, views: seq<View>,
                                         order: seq<Order>, caller: Caller, meaning: Row -> Value, i: nat)
    requires Setting(w, trace, moments, views, order, caller) && i < |views|
    ensures Orderly(views[i], Matches(ScopeDigestOf(caller, w.hash), meaning), Completed(w.l, order))
  {
    hide SetUp, IsTrace, ReadDuring, DigestForm, CarriedOrder, Respects, Completed, Inv, RowHasEntry, Final, RolesOk,
         AllSortable, TypedTuple, KeyOf, ScopeDigestOf, ColumnsOk, TupleOf, HeaderOk, IndexesOk, Created, HiddenFree;
    SetUpRoles(w);
    MomentView(w, trace, moments, views, i);
    MomentTyped(w, trace, moments, views, order, caller, i);
    var matches, sorts := Matches(ScopeDigestOf(caller, w.hash), meaning), Completed(w.l, order);
    forall a, b | a in views[i] && b in views[i] && matches(a) && matches(b) && TupleOf(a, sorts) == TupleOf(b, sorts)
      ensures a == b
    {
      FinalTuplesDiffer(w.table, w.l, AllRows(trace[moments[i]].parts), views[i], order, a, b);
    }
  }

  /** An entry that landed before a read is present in it. */
  lemma {:induction false} LandedPresent(w: World, trace: seq<Store>, moments: seq<nat>, views: seq<View>,
                                         order: seq<Order>, caller: Caller, meaning: Row -> Value, i: nat, e: Entry,
                                         sample: Row)
    requires Setting(w, trace, moments, views, order, caller) && Respects(w.l, meaning) && i < |views|
    requires e in AtFirst(trace, moments).landed && e.caller == caller && Wanted(w.l, meaning, e)
             && RowFor(w.l, sample, e, w.hash)
    ensures PresentIn(views[i], Matches(ScopeDigestOf(caller, w.hash), meaning), Completed(w.l, order),
                      TupleOf(sample, Completed(w.l, order)))
  {
    hide DigestForm, CarriedOrder, Respects, Completed, Inv, RowHasEntry, Final, RolesOk, ColumnsOk, HiddenFree,
         AllSortable, RowFor, ScopeDigestOf, TupleOf, Wanted, IsTrace, AllRows, HeaderOk, IndexesOk, Created;
    MomentView(w, trace, moments, views, i);
    TraceKeepsInv(w, trace, moments[0], moments[i]);
    FinalIsExact(w, trace[moments[i]], views[i]);
    var row :| row in views[i] && RowFor(w.l, row, e, w.hash);
    RowIdentity(w.l, row, e, w.hash);
    WantedRow(w.l, meaning, row, e, w.hash);
    TupleOfEntry(w, order, row, sample, e);
  }

  /** The positions at which rows of an entry are shown. */
  ghost function EntryPositions(w: World, shown: seq<Row>, e: Entry): set<nat> {
    set i: nat | i < |shown| && RowFor(w.l, shown[i], e, w.hash)
  }

  /** Whatever was shown belongs to an entry of the caller that the filter wants and that had
      landed by the time of the last page. */
  lemma {:induction false} ShownIsWanted(w: World, trace: seq<Store>, moments: seq<nat>, views: seq<View>,
                                         answers: seq<seq<Row>>, order: seq<Order>, caller: Caller,
                                         meaning: Row -> Value, size: nat, k: nat) returns (e: Entry)
    requires Setting(w, trace, moments, views, order, caller) && Respects(w.l, meaning)
    requires IsRun(views, answers, Matches(ScopeDigestOf(caller, w.hash), meaning), Completed(w.l, order), size)
    requires k < |AllShown(answers, size)|
    ensures RowFor(w.l, AllShown(answers, size)[k], e, w.hash)
    ensures e in AtLast(trace, moments).landed && e.caller == caller && Wanted(w.l, meaning, e)
    ensures Told(w.hash, w.docs, e) && Cell(AllShown(answers, size)[k], HIDDEN_SCOPE)
            == StrV(ScopeDigestOf(caller, w.hash))
  {
    hide DigestForm, CarriedOrder, Respects, Completed, Inv, Final, RolesOk, ColumnsOk, HiddenFree, AllSortable,
         RowFor, ScopeDigestOf, TupleOf, Wanted, IsTrace, AllRows, IsPage, Told, AllShown, HeaderOk, IndexesOk, Created;
    ShownMatches(views, answers, Matches(ScopeDigestOf(caller, w.hash), meaning), Completed(w.l, order), size, k);
    var row := AllShown(answers, size)[k];
    var i :| 0 <= i < |views| && row in views[i] && Matches(ScopeDigestOf(caller, w.hash), meaning)(row);
    MomentView(w, trace, moments, views, i);
    assert RowHasEntry(w, trace[moments[i]].landed, row);
    e :| e in trace[moments[i]].landed && RowFor(w.l, row, e, w.hash);
    LandedTold(w, trace[moments[i]], e);
    EntryInScope(w, trace[moments[i]], row, e, caller);
    WantedRow(w.l, meaning, row, e, w.hash);
    TraceKeepsInv(w, trace, moments[i], moments[|moments| - 1]);
  }

  /** A row of an entry of the caller that had landed and that the filter wants. */
  ghost predicate Genuine(w: World, landed: set<Entry>, caller: Caller, meaning: Row -> Value, row: Row) {
    exists e :: e in landed && RowFor(w.l, row, e, w.hash) && e.caller == caller && Wanted(w.l, meaning, e)
  }

  /** Nothing foreign is ever shown. */
  lemma {:induction false} ShownAreGenuine(w: World, trace: seq<Store>, moments: seq<nat>, views: seq<View>,
                                           answers: seq<seq<Row>>, order: seq<Order>, caller: Caller,
                                           meaning: Row -> Value, size: nat)
    requires Setting(w, trace, moments, views, order, caller) && Respects(w.l, meaning)
    requires IsRun(views, answers, Matches(ScopeDigestOf(caller, w.hash), meaning), Completed(w.l, order), size)
    ensures |moments| == |views| > 0 && moments[|moments| - 1] < |trace|
    ensures forall k :: 0 <= k < |AllShown(answers, size)| ==>
      Genuine(w, AtLast(trace, moments).landed, caller, meaning, AllShown(answers, size)[k])
  {
    hide DigestForm, CarriedOrder, Respects, Completed, RolesOk, ColumnsOk, HiddenFree, AllSortable, RowFor,
         ScopeDigestOf, Wanted, IsTrace, IsPage, AllShown, Matches, ReadView, HeaderOk, IndexesOk, Created;
    forall k: nat | k < |AllShown(answers, size)|
      ensures Genuine(w, AtLast(trace, moments).landed, caller, meaning, AllShown(answers, size)[k])
    {
      var e := ShownIsWanted(w, trace, moments, views, answers, order, caller, meaning, size, k);
    }
  }

  lemma {:induction false} SampleRow(w: World, trace: seq<Store>, moments: seq<nat>, views: seq<View>, e: Entry)
    returns (row: Row)
    requires SetUp(w) && w.l.queryFinal && IsTrace(w, trace) && ReadDuring(w, trace, moments, views) && |views| > 0
    requires e in AtFirst(trace, moments).landed
    ensures RowFor(w.l, row, e, w.hash) && Told(w.hash, w.docs, e)
    ensures Cell(row, HIDDEN_SCOPE) == StrV(ScopeDigestOf(e.caller, w.hash))
  {
    hide Inv, RowHasEntry, Final, RolesOk, ColumnsOk, HiddenFree, RowFor, IsTrace, AllRows, ReadDuring, ScopeDigestOf,
         HeaderOk, IndexesOk, Created;
    MomentView(w, trace, moments, views, 0);
    FinalIsExact(w, trace[moments[0]], views[0]);
    row :| row in views[0] && RowFor(w.l, row, e, w.hash);
    LandedTold(w, trace[moments[0]], e);
    RowIdentity(w.l, row, e, w.hash);
  }

  lemma {:induction false} SettingRoles(w: World, trace: seq<Store>, moments: seq<nat>, views: seq<View>,
                                        order: seq<Order>, caller: Caller)
    requires Setting(w, trace, moments, views, order, caller)
    ensures RolesOk(w.l) && ColumnsOk(w.l)
  {}

  /** A shown row has the tuple of an entry exactly when it is a row of the entry. */
  lemma {:induction false} ShownEntry(w: World, trace: seq<Store>, moments: seq<nat>, views: seq<View>,
                                      answers: seq<seq<Row>>, order: seq<Order>, caller: Caller, meaning: Row -> Value,
                                      size: nat, k: nat, e: Entry, sample: Row)
    requires Setting(w, trace, moments, views, order, caller) && Respects(w.l, meaning)
    requires IsRun(views, answers, Matches(ScopeDigestOf(caller, w.hash), meaning), Completed(w.l, order), size)
    requires k < |AllShown(answers, size)|
    requires RowFor(w.l, sample, e, w.hash) && Told(w.hash, w.docs, e) && e.caller == caller
    requires Cell(sample, HIDDEN_SCOPE) == StrV(ScopeDigestOf(caller, w.hash))
    ensures var row := AllShown(answers, size)[k];
            TupleOf(row, Completed(w.l, order)) == TupleOf(sample, Completed(w.l, order)) <==>
              RowFor(w.l, row, e, w.hash)
  {
    hide SetUp, IsTrace, ReadDuring, DigestForm, CarriedOrder, Respects, Completed, AllSortable, RowFor, ScopeDigestOf,
         TupleOf, Wanted, Told, AllShown, Matches, IsRun;
    SettingRoles(w, trace, moments, views, order, caller);
    var row := AllShown(answers, size)[k];
    var f := ShownIsWanted(w, trace, moments, views, answers, order, caller, meaning, size, k);
    if RowFor(w.l, row, e, w.hash) { TupleOfEntry(w, order, row, sample, e); }
    if TupleOf(row, Completed(w.l, order)) == TupleOf(sample, Completed(w.l, order)) {
      TupleIsEntry(w, order, row, f, sample, e);
    }
  }

  /** The end-to-end claim. Over any interleaving of appends, retries, drops and merges with
      the pages of a finished traversal: each wanted record of the caller that landed before
      the first page, in particular each acknowledged one, is shown exactly once. */
  lemma {:induction false} AppendedShownOnce(w: World, trace: seq<Store>, moments: seq<nat>, views: seq<View>,
                                             answers: seq<seq<Row>>, order: seq<Order>, caller: Caller,
                                             meaning: Row -> Value, size: nat, e: Entry)
    requires Setting(w, trace, moments, views, order, caller) && Respects(w.l, meaning)
    requires IsRun(views, answers, Matches(ScopeDigestOf(caller, w.hash), meaning), Completed(w.l, order), size)
             && Finished(answers, size)
    requires e in AtFirst(trace, moments).landed && e.caller == caller && Wanted(w.l, meaning, e)
    ensures exists i: nat :: EntryPositions(w, AllShown(answers, size), e) == {i}
  {
    hide DigestForm, CarriedOrder, Respects, Completed, Inv, RowHasEntry, Final, RolesOk, ColumnsOk, HiddenFree,
         AllSortable, RowFor, ScopeDigestOf, TupleOf, Wanted, IsTrace, AllRows, IsPage, Told, AllShown, Matches,
         Orderly, PresentIn, Finished, HeaderOk, IndexesOk, Created;
    var matches, sorts, shown := Matches(ScopeDigestOf(caller, w.hash), meaning), Completed(w.l, order),
      AllShown(answers, size);
    var sample := SampleRow(w, trace, moments, views, e);
    var tuple := TupleOf(sample, sorts);
    forall i | 0 <= i < |views|
      ensures Orderly(views[i], matches, sorts) && PresentIn(views[i], matches, sorts, tuple) {
      MomentOrderly(w, trace, moments, views, order, caller, meaning, i);
      LandedPresent(w, trace, moments, views, order, caller, meaning, i, e, sample);
    }
    PresentShownOnce(views, answers, matches, sorts, size, tuple);
    var i: nat :| Positions(shown, sorts, tuple) == {i};
    forall k: nat | k < |shown| ensures k in Positions(shown, sorts, tuple) <==> k in EntryPositions(w, shown, e) {
      ShownEntry(w, trace, moments, views, answers, order, caller, meaning, size, k, e, sample);
    }
    assert EntryPositions(w, shown, e) == {i};
  }

  // ---- Items ----------------------------------------------------------------

  predicate OwnColumn(c: Column) {
    KindOf(c.logicalType).Ok? && OwnKind(KindOf(c.logicalType).value)
    && HoldsTicks(c.ctype) == IsTime(KindOf(c.logicalType).value)
  }

  /** A field of a kind that the adapter converts itself, in a column that holds that kind. */
  predicate OwnField(l: Layout, name: string)
    requires name in l.Names()
  {
    OwnColumn(l.ColumnOf(name).value)
  }

  /** So is every column that the schema compiler makes for a field of such a kind, nullable or
      not and with one value or many. */
  lemma {:induction false} CompiledIsOwn(f: Schema.FieldDefinition)
    requires f.kind.Simple? && KindOf(f.wire) == Ok(f.kind.kind)
    requires f.kind.kind in {"boolean", "string", "enum", "utcTimestamp", "bytes", "int8", "int16", "int32", "int64",
                             "duration"}
    ensures f.kind.Valid()
    ensures Schema.CompileColumn(f).Ok? ==> OwnColumn(Schema.CompileColumn(f).value)
  {
    hide ValidColumnType, HoldsTicks, Column.Valid, Identifiers.PhysicalName;
    if Schema.CompileColumn(f).Ok? {
      var c := Schema.CompileColumn(f).value;
      var base := if f.kind.kind == "enum" then Dictionary else Plain(Schema.PrimitiveType(f.kind.kind).value);
      var item := if f.nullable then NullableOf(base) else base;
      Schema.CompiledType(f, base);
      TicksInside(if f.many then ArrayOf(item) else item);
      assert c.logicalType == f.wire;
    }
  }

  /** What is shown under an alias for the appended value of the field: the result spelling of
      its stored form, which is the appended value itself exactly when that was canonical. */
  ghost predicate ShowsValue(l: Layout, s: Selected, item: map<string, Json>, record: Record)
    requires SelectedAlone(l, s) && OwnField(l, s.field)
  {
    var c, given := l.ColumnOf(s.field).value, Get(record, s.field);
    var kind, stored := KindOf(c.logicalType).value, Coerce(given, c.logicalType, c.many);
    && s.alias in item && stored.Ok? && EngineInts(stored.value)
    && item[s.alias] == LogicalJson(stored.value, IsTime(kind))
    && (item[s.alias] == given <==>
        if c.many then given.JArr? && CanonicalItems(given.items, kind) else given.JNull? || Canonical(given, kind))
  }

  /** An item shows the record of an entry: its members are the selected aliases that are not
      reserved, and each selected field of an own kind shows its appended value. */
  ghost predicate ItemOfEntry(q: Query, item: map<string, Json>, e: Entry)
    requires SelectedOk(q.l, q.selected)
  {
    && (forall alias :: alias in item <==> alias in Aliases(q.selected) && !ReservedAlias(alias))
    && (Unique(Aliases(q.selected)) ==>
          forall i ::
            0 <= i < |q.selected| && !ReservedAlias(q.selected[i].alias) && OwnField(q.l, q.selected[i].field) ==>
            ShowsValue(q.l, q.selected[i], item, e.record))
  }

  lemma {:induction false} KnownSelected(l: Layout, s: Selected)
    requires SelectedAlone(l, s)
    ensures s.field in l.Names()
  {}

  lemma {:induction false} ManyIsArray(v: Json, logicalType: Json, many: bool)
    requires Coerce(v, logicalType, many).Ok?
    ensures many ==> v.JArr?
  {}

  lemma {:induction false} OwnIsPlain(kind: string)
    requires OwnKind(kind)
    ensures kind !in JSON_KINDS && (kind in TIME_KINDS <==> IsTime(kind))
  {
    assert |"json"| == 4 && |"objectRef"| == 9 && |"recordRef"| == 9;
    if kind == "enum" { assert kind[0] == 'e' && "json"[0] == 'j'; }
  }

  lemma {:induction false} FieldIsShown(q: Query, decode: Decoder, item: map<string, Json>, row: Row, e: Entry,
                                        hash: Json -> string, i: nat)
    requires SelectedOk(q.l, q.selected) && RowFor(q.l, row, e, hash) && Unique(Aliases(q.selected))
    requires i < |q.selected| && OwnField(q.l, q.selected[i].field) && ShowsAt(q, decode, item, row, i)
    ensures ShowsValue(q.l, q.selected[i], item, e.record)
  {
    hide RowFor, AliasesOfKind, Coerce, HoldsTicks, CanonicalItems, Canonical, Stored, Loaded, ColumnJson, LogicalJson,
         SelectedAlone, Unique, EngineInts;
    var s := q.selected[i];
    assert SelectedAlone(q.l, s);
    KnownSelected(q.l, s);
    var c := q.l.ColumnOf(s.field).value;
    var kind, time := KindOf(c.logicalType).value, s.alias in CommandOf(q).times;
    PhysicalCell(q.l, row, e, hash, s.field);
    var stored := Coerce(Get(e.record, s.field), c.logicalType, c.many).value;
    FlaggedByKind(q.l, q.selected, TIME_KINDS, i);
    FlaggedByKind(q.l, q.selected, JSON_KINDS, i);
    OwnIsPlain(kind);
    LoadedIsStored(stored, HoldsTicks(c.ctype), time);
    assert SelectedCell(q, row, i) == stored;
    PlainColumnJson(stored, time, decode);
    ValueRoundTrip(Get(e.record, s.field), c.logicalType, c.many);
    ManyIsArray(Get(e.record, s.field), c.logicalType, c.many);
  }

  lemma {:induction false} ItemShowsEntry(q: Query, decode: Decoder, item: map<string, Json>, row: Row, e: Entry,
                                          hash: Json -> string)
    requires SelectedOk(q.l, q.selected) && RowFor(q.l, row, e, hash) && ItemShows(q, decode, item, row)
    ensures ItemOfEntry(q, item, e)
  {
    hide RowFor, ShowsAt, ShowsValue, ReservedAlias, OwnKind, HoldsTicks;
    if Unique(Aliases(q.selected)) {
      forall i | 0 <= i < |q.selected| && !ReservedAlias(q.selected[i].alias) && OwnField(q.l, q.selected[i].field)
        ensures ShowsValue(q.l, q.selected[i], item, e.record)
      {
        assert ShowsAt(q, decode, item, row, i);
        FieldIsShown(q, decode, item, row, e, hash, i);
      }
    }
  }

  // ---- The two surfaces -----------------------------------------------------

  lemma {:induction false} PagesTyped(w: World, trace: seq<Store>, moments: seq<nat>, order: seq<Order>,
                                      caller: Caller, q: Query, pages: seq<Page>)
    requires Setting(w, trace, moments, Views(pages), order, caller) && q.sorts == Completed(w.l, order)
    ensures TypedPages(q, pages)
  {
    hide Setting, TypedView, Completed, AllSortable, RolesOk, HeaderOk, IndexesOk, Created, HiddenFree;
    forall i | 0 <= i < |pages| ensures TypedView(pages[i].view, q.sorts) {
      MomentTyped(w, trace, moments, Views(pages), order, caller, i);
    }
  }

  /** An entry is shown at exactly one place, and the item there shows its record. */
  ghost predicate ShownOnce(w: World, q: Query, shown: seq<Row>, items: seq<map<string, Json>>, e: Entry)
    requires SelectedOk(q.l, q.selected)
  {
    exists i: nat :: EntryPositions(w, shown, e) == {i} && i < |items| && ItemOfEntry(q, items[i], e)
  }

  /** An item shows the record of an entry of the caller that had landed and that the filter
      wants. */
  ghost predicate GenuineItem(w: World, q: Query, landed: set<Entry>, caller: Caller, meaning: Row -> Value, row: Row,
                              item: map<string, Json>)
    requires SelectedOk(q.l, q.selected)
  {
    exists e ::
      && e in landed && RowFor(w.l, row, e, w.hash)
      && e.caller == caller && Wanted(w.l, meaning, e) && ItemOfEntry(q, item, e)
  }

  /** The promise to a client that follows a query to its end while others append: every
      resumed page compiles, the record `e` is shown once, and nothing foreign is shown. */
  ghost predicate Served(w: World, landed: set<Entry>, q: Query, caller: Caller, meaning: Row -> Value,
                         pages: seq<Page>, e: Entry)
  {
    && SelectedOk(q.l, q.selected)
    && var shown, items := AllShown(Answers(pages), q.pins.pageSize), AllItems(pages);
    && (forall i :: 0 <= i < |pages| ==> CursorOk(pages[i].cursor, q.pins, q.sorts))
    && |items| == |shown|
    && ShownOnce(w, q, shown, items, e)
    && forall k :: 0 <= k < |shown| ==> GenuineItem(w, q, landed, caller, meaning, shown[k], items[k])
  }

  lemma {:induction false} GenuineEntry(w: World, landed: set<Entry>, caller: Caller, meaning: Row -> Value, row: Row)
    returns (e: Entry)
    requires Genuine(w, landed, caller, meaning, row)
    ensures e in landed && RowFor(w.l, row, e, w.hash) && e.caller == caller && Wanted(w.l, meaning, e)
  {
    hide RowFor, Wanted;
    e :| e in landed && RowFor(w.l, row, e, w.hash) && e.caller == caller && Wanted(w.l, meaning, e);
  }

  lemma {:induction false} PositionOfEntry(w: World, shown: seq<Row>, e: Entry, i: nat)
    requires EntryPositions(w, shown, e) == {i}
    ensures i < |shown| && RowFor(w.l, shown[i], e, w.hash)
  {
    hide RowFor;
    assert i in EntryPositions(w, shown, e);
  }

  lemma {:induction false} ServedQuery(w: World, trace: seq<Store>, moments: seq<nat>, q: Query, ast: Option<Expr>,
                                       meaning: Row -> Value, order: seq<Order>, driver: Driver, pages: seq<Page>,
                                       caller: Caller, e: Entry)
    requires SelectedOk(q.l, q.selected) && q.l == w.l && q.scope == ScopeDigestOf(caller, w.hash)
    requires OperandInBrackets(q.text, ast) && FilterMeans(ast, q.bindings, meaning) && q.sorts != []
    requires Setting(w, trace, moments, Views(pages), order, caller) && Respects(w.l, meaning)
    requires q.sorts == Completed(w.l, order)
    requires Followed(q, driver, pages) && Ended(pages)
    requires e in AtFirst(trace, moments).landed && e.caller == caller && Wanted(w.l, meaning, e)
    ensures Served(w, AtLast(trace, moments).landed, q, caller, meaning, pages, e)
  {
    hide Setting, Completed, CursorOk, IsRun, Followed, TypedPages, FilterMeans, OperandInBrackets, Finished, Respects,
         Genuine, Wanted, EntryPositions, AllShown, AllItems, AllSortable, SelectedOk, ScopeDigestOf, RowFor,
         ItemShows, ItemOfEntry, IsTrace;
    var size, shown, items := q.pins.pageSize, AllShown(Answers(pages), q.pins.pageSize), AllItems(pages);
    PagesTyped(w, trace, moments, order, caller, q, pages);
    FollowedIsRun(q, ast, meaning, driver, pages);
    FollowedItems(q, ast, driver, pages);
    AppendedShownOnce(w, trace, moments, Views(pages), Answers(pages), order, caller, meaning, size, e);
    ShownAreGenuine(w, trace, moments, Views(pages), Answers(pages), order, caller, meaning, size);
    forall k | 0 <= k < |shown|
      ensures GenuineItem(w, q, AtLast(trace, moments).landed, caller, meaning, shown[k], items[k])
    {
      var f := GenuineEntry(w, AtLast(trace, moments).landed, caller, meaning, shown[k]);
      ItemShowsEntry(q, driver.decode, items[k], shown[k], f, w.hash);
    }
    assert ShownOnce(w, q, shown, items, e) by {
      var i: nat :| EntryPositions(w, shown, e) == {i};
      PositionOfEntry(w, shown, e, i);
      ItemShowsEntry(q, driver.decode, items[i], shown[i], e, w.hash);
    }
  }

  /** `q` is what an accepted operation compiles to, and `order` the order that it names. */
  ghost predicate WireCall(l: Layout, op: Operation, ctx: Context, settings: QuerySettings, plan: string, q: Query,
                           order: seq<Order>) {
    && ColumnsOk(l) && RolesOk(l) && WireAccepted(l, op, ctx, settings, plan)
    && (op.filter.Some? ==> WellBracketed(op.filter.value))
    && q == WireQuery(l, op, ctx, settings, plan) && SelectedOk(q.l, q.selected) && order == WireOrders(op.order)
  }

  /** The operation resumed at a cursor compiles to a page of the same query. */
  ghost predicate WireResumed(l: Layout, op: Operation, cursor: Option<Cursor>, ctx: Context, settings: QuerySettings,
                              planOf: Operation -> string) {
    var resumed := op.(cursor := cursor);
    && RolesOk(l) && WireAccepted(l, op, ctx, settings, WirePlan(op, planOf))
    && WireAccepted(l, resumed, ctx, settings, WirePlan(resumed, planOf))
    && WireQuery(l, resumed, ctx, settings, WirePlan(resumed, planOf))
      == WireQuery(l, op, ctx, settings, WirePlan(op, planOf))
  }

  ghost predicate AllWireResumed(l: Layout, op: Operation, pages: seq<Page>, ctx: Context, settings: QuerySettings,
                                 planOf: Operation -> string) {
    forall i :: 0 <= i < |pages| ==> WireResumed(l, op, pages[i].cursor, ctx, settings, planOf)
  }

  /** A wire query followed to its end while others append: each resumed page compiles to a page
      of the same query, every wanted record of the caller that landed before the first page is
      shown once, with its own values, and only such records are shown. */
  lemma {:induction false} WireEndToEnd(w: World, trace: seq<Store>, moments: seq<nat>, op: Operation, ctx: Context,
                                        settings: QuerySettings, planOf: Operation -> string, q: Query,
                                        order: seq<Order>, driver: Driver, pages: seq<Page>, caller: Caller, e: Entry)
    requires WireCall(w.l, op, ctx, settings, WirePlan(op, planOf), q, order)
    requires ctx.scopeFingerprint == ScopeFingerprint(caller, w.hash)
    requires Followed(q, driver, pages) && Ended(pages)
    requires e in AtFirst(trace, moments).landed && e.caller == caller && Wanted(w.l, WireMeaning(w.l, op.filter), e)
    requires Setting(w, trace, moments, Views(pages), order, caller)
    ensures AllWireResumed(w.l, op, pages, ctx, settings, planOf)
    ensures Served(w, AtLast(trace, moments).landed, q, caller, WireMeaning(w.l, op.filter), pages, e)
  {
    hide Setting, WireWindowOk, Compiles, WellBracketed, Completed, CursorOk, Followed, FilterMeans, OperandInBrackets,
         WirePredicate, WirePredicateAst, WireBindings, WireMeaning, Respects, ColumnsOk, RolesOk, Wanted,
         WireSelectOk, WireSelected, SelectedOk, ShownOnce, GenuineItem, AllShown, AllItems, HeaderOk, IndexesOk,
         Created, HiddenFree;
    WireParts(w.l, op, ctx, settings, WirePlan(op, planOf));
    WireRespects(w.l, op.filter);
    ServedQuery(w, trace, moments, q, WirePredicateAst(w.l, op.filter), WireMeaning(w.l, op.filter), order, driver,
                pages, caller, e);
    forall i | 0 <= i < |pages| ensures WireResumed(w.l, op, pages[i].cursor, ctx, settings, planOf) {
      assert CursorOk(pages[i].cursor, q.pins, q.sorts);
      WireResumes(w.l, op, pages[i].cursor, ctx, settings, planOf);
    }
  }

  ghost predicate MappingCall(l: Layout, operation: string, input: MappingInput, ctx: Context, settings: QuerySettings,
                              plan: string, q: Query, order: seq<Order>) {
    && ColumnsOk(l) && RolesOk(l) && MappingAccepted(l, operation, input, ctx, settings, plan)
    && q == MappingQuery(l, operation, input, ctx, settings, plan) && SelectedOk(q.l, q.selected)
    && order == EntryOrders(input.orderBy.items)
  }

  ghost predicate MappingResumed(l: Layout, operation: string, input: MappingInput, cursor: Option<Cursor>,
                                 ctx: Context, settings: QuerySettings, planOf: MappingInput -> string) {
    var resumed := input.(cursor := cursor);
    && RolesOk(l) && MappingAccepted(l, operation, input, ctx, settings, MappingPlan(input, planOf))
    && MappingAccepted(l, operation, resumed, ctx, settings, MappingPlan(resumed, planOf))
    && MappingQuery(l, operation, resumed, ctx, settings, MappingPlan(resumed, planOf))
    == MappingQuery(l, operation, input, ctx, settings, MappingPlan(input, planOf))
  }

  ghost predicate AllMappingResumed(l: Layout, operation: string, input: MappingInput, pages: seq<Page>, ctx: Context,
                                    settings: QuerySettings, planOf: MappingInput -> string) {
    forall i :: 0 <= i < |pages| ==> MappingResumed(l, operation, input, pages[i].cursor, ctx, settings, planOf)
  }

  /** As WireEndToEnd, for mapping-first queries with any accepted filter. */
  lemma {:induction false} MappingEndToEnd(w: World, trace: seq<Store>, moments: seq<nat>, operation: string,
                                           input: MappingInput, ctx: Context, settings: QuerySettings,
                                           planOf: MappingInput -> string, q: Query, order: seq<Order>, driver: Driver,
                                           pages: seq<Page>, caller: Caller, e: Entry)
    requires MappingCall(w.l, operation, input, ctx, settings, MappingPlan(input, planOf), q, order)
    requires ctx.scopeFingerprint == ScopeFingerprint(caller, w.hash)
    requires Followed(q, driver, pages) && Ended(pages)
    requires e in AtFirst(trace, moments).landed && e.caller == caller
    requires Wanted(w.l, MappingMeaning(w.l, input.where), e)
    requires Setting(w, trace, moments, Views(pages), order, caller)
    ensures AllMappingResumed(w.l, operation, input, pages, ctx, settings, planOf)
    ensures Served(w, AtLast(trace, moments).landed, q, caller, MappingMeaning(w.l, input.where), pages, e)
  {
    hide Setting, MappingWindowOk, Completed, CursorOk, Followed, FilterMeans, OperandInBrackets, WhereText,
         AllAtomBindings, Atoms, WhereAst, MappingMeaning, Respects, AtomsOk, BoundsOf, ColumnsOk, RolesOk, Wanted,
         SelectedOk, ShownOnce, GenuineItem, AllShown, AllItems, HeaderOk, IndexesOk, Created, HiddenFree;
    MappingParts(w.l, operation, input, ctx, settings, MappingPlan(input, planOf));
    MappingRespects(w.l, input.where);
    ServedQuery(w, trace, moments, q, WhereAst(Atoms(w.l, input.where), 0), MappingMeaning(w.l, input.where), order,
                driver, pages, caller, e);
    forall i | 0 <= i < |pages|
      ensures MappingResumed(w.l, operation, input, pages[i].cursor, ctx, settings, planOf)
    {
      assert CursorOk(pages[i].cursor, q.pins, q.sorts);
      MappingResumes(w.l, operation, input, pages[i].cursor, ctx, settings, planOf);
    }
  }

  // ---- Finished runs exist --------------------------------------------------

  lemma {:induction false} EntryDeliverable(q: Query, row: Row, e: Entry, hash: Json -> string, i: nat)
    requires SelectedOk(q.l, q.selected) && RowFor(q.l, row, e, hash) && i < |q.selected|
    ensures EngineInts(SelectedCell(q, row, i))
  {
    hide RowFor, AliasesOfKind, Coerce, HoldsTicks, Stored, Loaded, SelectedAlone;
    assert SelectedAlone(q.l, q.selected[i]);
    KnownSelected(q.l, q.selected[i]);
    var c := q.l.ColumnOf(q.selected[i].field).value;
    var given := Get(e.record, c.logical);
    PhysicalCell(q.l, row, e, hash, q.selected[i].field);
    CoercedColumnInts(given, c.logicalType, c.many);
    StoredInts(Coerce(given, c.logicalType, c.many).value, HoldsTicks(c.ctype),
               q.selected[i].alias in CommandOf(q).times);
  }

  lemma {:induction false} MomentDeliverable(w: World, trace: seq<Store>, moments: seq<nat>, views: seq<View>,
                                             order: seq<Order>, caller: Caller, q: Query)
    requires Setting(w, trace, moments, views, order, caller) && |views| > 0
    requires SelectedOk(q.l, q.selected) && q.l == w.l
    ensures Deliverable(q, views[0])
  {
    hide SetUp, IsTrace, ReadDuring, DigestForm, CarriedOrder, AllSortable, RowFor, SelectedOk, Inv, Final,
         SelectedCell, EngineInts;
    MomentView(w, trace, moments, views, 0);
    forall row, i | row in views[0] && 0 <= i < |q.selected| ensures EngineInts(SelectedCell(q, row, i)) {
      assert RowHasEntry(w, AtFirst(trace, moments).landed, row);
      var e :| e in AtFirst(trace, moments).landed && RowFor(w.l, row, e, w.hash);
      EntryDeliverable(q, row, e, w.hash, i);
    }
  }

  /** A moment of a run over an append-only table. */
  ghost predicate Moment(w: World, trace: seq<Store>, moment: nat, caller: Caller) {
    && SetUp(w) && w.l.queryFinal && DigestForm(w.hash, w.docs) && ScopeDocument(caller) in w.docs
    && IsTrace(w, trace) && moment < |trace|
  }

  /** `view` is a FINAL read of the table at the moment. */
  ghost predicate FinalAt(w: World, trace: seq<Store>, moment: nat, view: View) {
    moment < |trace| && Final(w.table, AllRows(trace[moment].parts), view)
  }

  ghost predicate SortedBy(q: Query, order: seq<Order>) {
    RolesOk(q.l) && AllSortable(q.l, order) && q.sorts == Completed(q.l, order)
  }

  /** At every moment of every run, a query over the table as it then is can be followed to an
      end, in exactly as many pages as its rows need. */
  lemma {:induction false} QueryEnds(w: World, trace: seq<Store>, moment: nat, q: Query, ast: Option<Expr>,
                                     meaning: Row -> Value, order: seq<Order>, driver: Driver, caller: Caller)
    returns (view: View, pages: seq<Page>, listing: seq<Row>)
    requires SelectedOk(q.l, q.selected) && q.l == w.l && q.scope == ScopeDigestOf(caller, w.hash)
    requires OperandInBrackets(q.text, ast) && FilterMeans(ast, q.bindings, meaning) && q.sorts != []
             && q.pins.pageSize > 0
    requires Moment(w, trace, moment, caller)
    requires CarriedOrder(w.l, order) && SortedBy(q, order)
    ensures FinalAt(w, trace, moment, view)
    ensures FollowedWhole(q, driver, meaning, view, pages, listing)
  {
    hide Completed, FilterMeans, OperandInBrackets, AllSortable, SelectedOk, ScopeDigestOf, Final, AllRows,
         FollowedWhole, Matches, TypedView, Orderly, Deliverable, RolesOk, ColumnsOk, HiddenFree, IsTrace, DigestForm,
         CarriedOrder, HeaderOk, IndexesOk, Created;
    SetUpRoles(w);
    view := FinalExists(w.table, AllRows(trace[moment].parts));
    assert Setting(w, trace, [moment], [view], order, caller);
    MomentTyped(w, trace, [moment], [view], order, caller, 0);
    MomentOrderly(w, trace, [moment], [view], order, caller, meaning, 0);
    MomentDeliverable(w, trace, [moment], [view], order, caller, q);
    pages, listing := FollowedEnds(q, ast, meaning, driver, view);
  }

  /** So every accepted wire query can be followed to its end, over any reachable table. */
  lemma {:induction false} WireQueryEnds(w: World, trace: seq<Store>, moment: nat, op: Operation, ctx: Context,
                                         settings: QuerySettings, plan: string, q: Query, order: seq<Order>,
                                         driver: Driver, caller: Caller)
    returns (view: View, pages: seq<Page>, listing: seq<Row>)
    requires WireCall(w.l, op, ctx, settings, plan, q, order) && op.size > 0
    requires ctx.scopeFingerprint == ScopeFingerprint(caller, w.hash) && CarriedOrder(w.l, order)
    requires Moment(w, trace, moment, caller)
    ensures FinalAt(w, trace, moment, view) && q.pins.pageSize == op.size
    ensures FollowedWhole(q, driver, WireMeaning(w.l, op.filter), view, pages, listing)
  {
    hide WireWindowOk, Compiles, WellBracketed, Completed, CursorOk, FilterMeans, OperandInBrackets, FinalAt, Moment,
         WirePredicate, WirePredicateAst, WireBindings, WireMeaning, ColumnsOk, RolesOk, WireSelectOk, WireSelected,
         SelectedOk, CarriedOrder, FollowedWhole;
    WireParts(w.l, op, ctx, settings, plan);
    view, pages, listing := QueryEnds(w, trace, moment, q, WirePredicateAst(w.l, op.filter),
                                      WireMeaning(w.l, op.filter), order, driver, caller);
  }

  /** And every accepted mapping-first query. */
  lemma {:induction false} MappingQueryEnds(w: World, trace: seq<Store>, moment: nat, operation: string,
                                            input: MappingInput, ctx: Context, settings: QuerySettings, plan: string,
                                            q: Query, order: seq<Order>, driver: Driver, caller: Caller)
    returns (view: View, pages: seq<Page>, listing: seq<Row>)
    requires MappingCall(w.l, operation, input, ctx, settings, plan, q, order)
    requires ctx.scopeFingerprint == ScopeFingerprint(caller, w.hash) && CarriedOrder(w.l, order)
    requires Moment(w, trace, moment, caller)
    ensures FinalAt(w, trace, moment, view)
    ensures FollowedWhole(q, driver, MappingMeaning(w.l, input.where), view, pages, listing)
  {
    hide MappingWindowOk, Completed, CursorOk, FilterMeans, OperandInBrackets, WhereText, AllAtomBindings, Atoms,
         WhereAst, MappingMeaning, AtomsOk, BoundsOf, FinalAt, Moment, ColumnsOk, RolesOk, SelectedOk, CarriedOrder,
         FollowedWhole;
    MappingParts(w.l, operation, input, ctx, settings, plan);
    view, pages, listing := QueryEnds(w, trace, moment, q, WhereAst(Atoms(w.l, input.where), 0),
                                      MappingMeaning(w.l, input.where), order, driver, caller);
  }
}
