/** Cursor tokens, the values inside them, and `normalize_result`. */
module Cursors {
  import opened Common
  import opened Rows
  import opened Layouts
  import opened Sql
  import opened Filters
  import opened SqlCompilers
  import opened Timestamps
  import opened Values
  import opened RowFingerprint
  import opened Keysets
  import opened Identifiers
  import Decimal

  // ---- Values of sort columns -----------------------------------------------

  /** `_result_metadata` asks for integer ticks of exactly these sort aliases. */
  predicate TimestampAlias(sort: Sort) { "DateTime64(9" <= ParameterType(sort.ctype) }

  /** A stored value that a sort column of this type can hold, for the kinds whose cursor
      values are modelled: timestamps, integers, booleans, text and the row fingerprint. */
  predicate Typed(sort: Sort, v: Value) {
    match v
    case TimeV(ticks) => Storable(ticks) && TimestampAlias(sort) && sort.column != HIDDEN_ROW
    case IntV(n) => Storable(n) && "Int" <= ParameterType(sort.ctype) && sort.column != HIDDEN_ROW
    case BoolV(_) => ParameterType(sort.ctype) == "Bool" && sort.column != HIDDEN_ROW
    case StrV(s) => ParameterType(sort.ctype) == "String" && (sort.column == HIDDEN_ROW ==> IsDigest(s))
    case _ => false
  }

  predicate TypedTuple(sorts: seq<Sort>, tuple: seq<Value>) {
    |sorts| == |tuple| && forall i :: 0 <= i < |sorts| ==> Typed(sorts[i], tuple[i])
  }

  function DigestBytes(s: string): Py
    requires IsDigest(s)
  {
    PyBytes(AsciiBytes(s))
  }

  /** What the driver returns for a sort alias. Native drivers return fixed strings as bytes,
      others return text. */
  function Fetched(sort: Sort, v: Value, native: bool): (p: Py)
    requires Typed(sort, v)
    ensures EngineInts(p)
  {
    match v
    case TimeV(ticks) => PyInt(ticks)
    case IntV(n) => PyInt(n)
    case BoolV(b) => PyBool(b)
    case StrV(s) =>
      if sort.column == HIDDEN_ROW && native then DigestBytes(s) else PyStr(s)
  }

  /** The JSON value of a sort alias in an issued cursor. */
  function CursorValue(sort: Sort, v: Value, native: bool): Json
    requires Typed(sort, v)
  {
    LogicalJson(Fetched(sort, v, native), TimestampAlias(sort))
  }

  function CursorTuple(sorts: seq<Sort>, tuple: seq<Value>, native: bool): (r: seq<Json>)
    requires TypedTuple(sorts, tuple)
    ensures |r| == |sorts|
  {
    seq(|sorts|, i requires 0 <= i < |sorts| => CursorValue(sorts[i], tuple[i], native))
  }

  lemma {:induction false} PrefixChain(t: string)
    requires "DateTime64(9" <= t
    ensures "DateTime" <= t && t != "String" && t != "Bool" && !("Int" <= t)
  {
    assert t[0] == 'D' && "DateTime64(9"[..8] == "DateTime";
    assert t[..8] == t[..12][..8];
  }

  lemma {:induction false} StringTypes(t: string)
    requires t == "String" || t == "Bool" || "Int" <= t
    ensures !("DateTime" <= t) && !("DateTime64(9" <= t)
  {
    assert t[0] != 'D';
  }

  /** Stored value, cursor JSON and bound parameter denote the same value: nothing is lost
      between the last row of a page and the predicate of the next. */
  lemma {:induction false} CursorLossless(sort: Sort, v: Value, native: bool)
    requires Typed(sort, v)
    ensures var bound := BoundCursorValue(sort, CursorValue(sort, v, native));
            bound.Ok? && Denote(ParameterType(sort.ctype), bound.value) == v
  {
    hide ParameterType, TimestampText, TimestampNanoseconds, ReadParameter, PhysicalRowFingerprint, IsDigest;
    var t := ParameterType(sort.ctype);
    match v
    case TimeV(ticks) =>
      PrefixChain(t);
      ResultRoundTrip(ticks);
      ParameterRoundTrip(ticks);
    case IntV(_) => StringTypes(t);
    case BoolV(_) => StringTypes(t);
    case StrV(s) =>
      StringTypes(t);
      if sort.column == HIDDEN_ROW {
        BothFormsAccepted(s);
        assert CursorValue(sort, v, native) == JStr(if native then NativeText(s) else s);
      }
  }

  lemma {:induction false} TupleLossless(sorts: seq<Sort>, tuple: seq<Value>, native: bool)
    requires TypedTuple(sorts, tuple)
    ensures KeysetBinds(sorts, CursorTuple(sorts, tuple, native))
    ensures forall i :: 0 <= i < |sorts| ==>
      Denote(ParameterType(sorts[i].ctype), KeysetBindings(sorts, CursorTuple(sorts, tuple, native))[i]) == tuple[i]
  {
    hide Typed, CursorValue, BoundCursorValue, Denote, ParameterType;
    forall i | 0 <= i < |sorts|
      ensures BoundCursorValue(sorts[i], CursorTuple(sorts, tuple, native)[i]).Ok?
      ensures Denote(ParameterType(sorts[i].ctype), BoundCursorValue(sorts[i],
                                                                     CursorTuple(sorts, tuple, native)[i]).value)
                                                                       == tuple[i]
    {
      CursorLossless(sorts[i], tuple[i], native);
    }
  }

  lemma {:induction false} TypedKinds(sort: Sort, a: Value, b: Value)
    requires Typed(sort, a) && Typed(sort, b)
    ensures SameKind(a, b)
  {
    hide ParameterType;
    var t := ParameterType(sort.ctype);
    if a.TimeV? || b.TimeV? { PrefixChain(t); }
    assert "Int" <= "String" ==> false by { assert "Int"[0] == 'I' && "String"[0] == 'S'; }
    assert "Int" <= "Bool" ==> false by { assert "Int"[0] == 'I' && "Bool"[0] == 'B'; }
  }

  lemma {:induction false} TypedSameKinds(sorts: seq<Sort>, a: seq<Value>, b: seq<Value>)
    requires TypedTuple(sorts, a) && TypedTuple(sorts, b)
    ensures SameKinds(a, b)
  {
    forall i | 0 <= i < |sorts| ensures SameKind(a[i], b[i]) {
      hide ParameterType;
      assert Typed(sorts[i], a[i]) && Typed(sorts[i], b[i]);
      TypedKinds(sorts[i], a[i], b[i]);
    }
  }

  // ---- Tokens ---------------------------------------------------------------

  /** The signed fields of a cursor; signing is modelled as an unforgeable token. */
  datatype Cursor = Cursor(
    plan: string, schemas: map<string, string>, registry: string, scope: string, pageSize: nat, sortTuple: seq<Json>)

  datatype Expectations = Expectations(
    plan: string, schemas: map<string, string>, registry: string, scope: string, pageSize: nat)

  /** `verify` lets a cursor pass when every pinned field agrees. */
  function Verify(c: Cursor, expected: Expectations): Result<seq<Json>> {
    if c.plan == expected.plan && c.schemas == expected.schemas && c.registry == expected.registry
       && c.scope == expected.scope && c.pageSize == expected.pageSize
    then Ok(c.sortTuple) else Err(BadCursor)
  }

  function Issue(expected: Expectations, sortTuple: seq<Json>): Cursor {
    Cursor(expected.plan, expected.schemas, expected.registry, expected.scope, expected.pageSize, sortTuple)
  }

  // ---- Results --------------------------------------------------------------

  /** The compiled command as far as results depend on it; `pins` are the fields that an
      issued cursor repeats. */
  datatype Command = Command(
    aggregate: bool, empty: bool, sorts: seq<Sort>, columns: seq<string>, times: set<string>, jsons: set<string>,
    pins: Expectations)

  /** `json.loads`, a parameter of the model. */
  type Decoder = string -> Json

  const SORT_ALIAS_PREFIX := "__meridian_sort_"
  const TOTAL_ALIAS := "__meridian_total"

  function SortAlias(i: nat): string { SORT_ALIAS_PREFIX + Decimal.Natural(i) }

  /** Aliases that never reach an item. */
  predicate ReservedAlias(alias: string) { SORT_ALIAS_PREFIX <= alias || alias == TOTAL_ALIAS }

  /** The reserved aliases: the columns of a sort tuple have an alias each, none is that of the
      total, and all of them are reserved. */
  lemma {:induction false} SortAliasesDiffer(i: nat, j: nat, alias: string)
    ensures ReservedAlias(alias) <==>
            alias == "__meridian_total" || exists rest :: alias == "__meridian_sort_" + rest
    ensures ReservedAlias(SortAlias(i)) && SortAlias(i) != "__meridian_total"
    ensures SortAlias(i) == SortAlias(j) ==> i == j
  {
    if SORT_ALIAS_PREFIX <= alias { assert alias == "__meridian_sort_" + alias[16..]; }
    if rest :| alias == "__meridian_sort_" + rest { assert alias[..16] == SORT_ALIAS_PREFIX; }
    assert SortAlias(i)[11] == 's' && TOTAL_ALIAS[11] == 't';
    if SortAlias(i) == SortAlias(j) {
      assert SortAlias(i)[16..] == Decimal.Natural(i) && SortAlias(j)[16..] == Decimal.Natural(j);
      Decimal.NumberOfNatural(i);
      Decimal.NumberOfNatural(j);
    }
  }

  /** One returned row: the selected values and the values of the sort aliases. */
  datatype RawRow = RawRow(cells: seq<Py>, keys: seq<Py>)

  predicate RawShape(row: RawRow, c: Command) {
    && |row.cells| == |c.columns|
    && |row.keys| == |c.sorts|
    && EngineInts(PyList(row.cells)) && EngineInts(PyList(row.keys))
  }

  function ItemValue(row: RawRow, c: Command, k: nat, decode: Decoder): Json
    requires RawShape(row, c) && k < |c.columns|
  {
    ColumnJson(row.cells[k], c.columns[k] in c.times, c.columns[k] in c.jsons, decode)
  }

  /** The first `count` columns of an item, without the reserved aliases. */
  function ItemOf(row: RawRow, c: Command, count: nat, decode: Decoder): map<string, Json>
    requires RawShape(row, c) && count <= |c.columns|
  {
    if count == 0 then map[] else
    var item, name := ItemOf(row, c, count - 1, decode), c.columns[count - 1];
    if ReservedAlias(name) then item else item[name := ItemValue(row, c, count - 1, decode)]
  }

  function SortValues(row: RawRow, c: Command): (r: seq<Json>)
    requires RawShape(row, c)
    ensures |r| == |c.sorts|
  {
    seq(|c.sorts|, i requires 0 <= i < |c.sorts| => LogicalJson(row.keys[i], TimestampAlias(c.sorts[i])))
  }

  datatype PageResult = PageResult(items: seq<map<string, Json>>, cursor: Option<Cursor>)

  /** How many of the returned rows are shown. */
  function Visible(count: nat, size: nat): nat { if count <= size then count else size }

  /** The first page-size rows as items, and a cursor at the last of them exactly when more
      rows came back than fit on the page. */
  ghost predicate Normalized(c: Command, rows: seq<RawRow>, decode: Decoder, r: PageResult) {
    && |r.items| == Visible(|rows|, c.pins.pageSize)
    && (forall i :: 0 <= i < |r.items| ==>
      RawShape(rows[i], c) && r.items[i] == ItemOf(rows[i], c, |c.columns|, decode))
    && (r.cursor.Some? <==> !c.aggregate && |rows| > c.pins.pageSize > 0)
    && (r.cursor.Some? ==>
          var last := rows[c.pins.pageSize - 1];
          RawShape(last, c) && r.cursor.value == Issue(c.pins, SortValues(last, c)))
  }

  /** `normalize_result`. */
  method NormalizeResult(c: Command, rows: seq<RawRow>, decode: Decoder) returns (r: PageResult)
    requires forall i :: 0 <= i < |rows| ==> RawShape(rows[i], c)
    ensures if c.empty then r == PageResult([], None) else Normalized(c, rows, decode, r)
  {
    hide LogicalJson, ColumnJson, ParameterType, TimestampAlias, Issue, ReservedAlias;
    if c.empty { return PageResult([], None); }
    var hasMore := !c.aggregate && |rows| > c.pins.pageSize;
    var visible := rows[..Visible(|rows|, c.pins.pageSize)];
    var items: seq<map<string, Json>> := [];
    for i := 0 to |visible|
      invariant |items| == i
      invariant forall j :: 0 <= j < i ==> items[j] == ItemOf(rows[j], c, |c.columns|, decode)
    {
      var item: map<string, Json> := map[];
      for k := 0 to |c.columns|
        invariant item == ItemOf(rows[i], c, k, decode)
      {
        var name := c.columns[k];
        if !ReservedAlias(name) {
          item := item[name := ColumnJson(visible[i].cells[k], name in c.times, name in c.jsons, decode)];
        }
      }
      items := items + [item];
    }
    var cursor: Option<Cursor> := None;
    if hasMore && visible != [] {
      var last := visible[|visible| - 1];
      var tuple: seq<Json> := [];
      for i := 0 to |c.sorts|
        invariant |tuple| == i
        invariant forall j :: 0 <= j < i ==> tuple[j] == SortValues(last, c)[j]
      {
        tuple := tuple + [LogicalJson(last.keys[i], TimestampAlias(c.sorts[i]))];
      }
      assert tuple == SortValues(last, c);
      cursor := Some(Issue(c.pins, tuple));
    }
    return PageResult(items, cursor);
  }

  /** An item consists of exactly the selected columns whose aliases are not reserved. */
  lemma {:induction false} ItemColumns(row: RawRow, c: Command, count: nat, decode: Decoder, alias: string)
    requires RawShape(row, c) && count <= |c.columns|
    ensures alias in ItemOf(row, c, count, decode) <==> alias in c.columns[..count] && !ReservedAlias(alias)
  {
    hide ItemValue, ReservedAlias;
    if count > 0 {
      ItemColumns(row, c, count - 1, decode, alias);
      assert c.columns[..count] == c.columns[..count - 1] + [c.columns[count - 1]];
    }
  }

  /** A selected column appears exactly when its alias is not reserved, and then with its own
      value. */
  lemma {:induction false} ItemLookup(row: RawRow, c: Command, count: nat, decode: Decoder, k: nat)
    requires RawShape(row, c) && k < count <= |c.columns|
    requires Unique(c.columns)
    ensures c.columns[k] in ItemOf(row, c, count, decode) <==> !ReservedAlias(c.columns[k])
    ensures c.columns[k] in ItemOf(row, c, count, decode) ==>
            ItemOf(row, c, count, decode)[c.columns[k]] == ItemValue(row, c, k, decode)
  {
    hide ItemValue, ReservedAlias;
    ItemColumns(row, c, count, decode, c.columns[k]);
    assert c.columns[..count][k] == c.columns[k];
    if k < count - 1 {
      ItemLookup(row, c, count - 1, decode, k);
    }
  }

  lemma {:induction false} SameRoles(l: Layout, more: Layout)
    requires RolesDisjoint(l) && more == l.(columns := more.columns)
    ensures RolesDisjoint(more)
  {}

  lemma {:induction false} MoreMembers(values: seq<string>, few: set<string>, many: set<string>)
    requires few <= many
    ensures MembersOk(values, few, false) ==> MembersOk(values, many, false)
  {}

  lemma {:induction false} UniqueAppended(names: seq<string>, name: string)
    requires Unique(names) && name !in names
    ensures Unique(names + [name])
  {}

  lemma {:induction false} AddedColumn(l: Layout, added: Column)
    requires Acceptable(l) && added.Valid() && added.logical !in l.Names()
             && added.physical !in PhysicalNames(l.columns)
    ensures Acceptable(l.(columns := l.columns + [added]))
  {
    hide Column.Valid, Unique, Fingerprint, PhysicalIdentifier, RolesDisjoint;
    var more := l.(columns := l.columns + [added]);
    assert more.Names() == l.Names() + [added.logical];
    assert PhysicalNames(more.columns) == PhysicalNames(l.columns) + [added.physical];
    UniqueAppended(l.Names(), added.logical);
    UniqueAppended(PhysicalNames(l.columns), added.physical);
    assert Elements(l.Names()) <= Elements(more.Names());
    MoreMembers(l.identityFields, Elements(l.Names()), Elements(more.Names()));
    assert forall n :: n in l.indexes ==> IndexOk(more, n) by {
      forall n | n in l.indexes ensures IndexOk(more, n) { assert IndexOk(l, n); }
    }
    assert RolesDisjoint(more) by { SameRoles(l, more); }
  }

  /** Construction reserves another prefix: a column with the logical name of the total is
      accepted, is selected like any other, and appears in no item. */
  lemma {:induction false} ReservedAliasAccepted(l: Layout, total: Column, row: RawRow, c: Command, decode: Decoder)
    requires Acceptable(l) && total.Valid() && total.logical == TOTAL_ALIAS
    requires TOTAL_ALIAS !in l.Names() && total.physical !in PhysicalNames(l.columns)
    requires c.columns == LogicalNames(l.columns + [total]) && RawShape(row, c)
    ensures Acceptable(l.(columns := l.columns + [total]))
    ensures TOTAL_ALIAS in c.columns && TOTAL_ALIAS !in ItemOf(row, c, |c.columns|, decode)
  {
    hide ItemValue, Column.Valid;
    AddedColumn(l, total);
    assert c.columns[|l.columns|] == TOTAL_ALIAS;
    ItemColumns(row, c, |c.columns|, decode, TOTAL_ALIAS);
  }

  /** The driver's row for a stored row: the sort aliases carry the tuple of the row. */
  function FetchedKeys(row: Row, sorts: seq<Sort>, native: bool): (r: seq<Py>)
    requires TypedTuple(sorts, TupleOf(row, sorts))
    ensures |r| == |sorts| && EngineInts(PyList(r))
  {
    seq(|sorts|, i requires 0 <= i < |sorts| => Fetched(sorts[i], TupleOf(row, sorts)[i], native))
  }

  lemma {:induction false} IssuedTuple(row: Row, raw: RawRow, c: Command, native: bool)
    requires RawShape(raw, c) && TypedTuple(c.sorts, TupleOf(row, c.sorts))
    requires raw.keys == FetchedKeys(row, c.sorts, native)
    ensures SortValues(raw, c) == CursorTuple(c.sorts, TupleOf(row, c.sorts), native)
  {
    hide LogicalJson, Fetched;
    forall i | 0 <= i < |c.sorts|
      ensures SortValues(raw, c)[i] == CursorTuple(c.sorts, TupleOf(row, c.sorts), native)[i]
    {
      assert raw.keys[i] == Fetched(c.sorts[i], TupleOf(row, c.sorts)[i], native);
    }
  }
}
