/** Completing the order of a query to one that tells all rows of a scope apart. */
module Sorts {
  import opened Common
  import opened Rows
  import opened Layouts
  import opened SqlCompilers
  import opened Keysets

  /** One entry of a wire plan's order: a field, or any other expression. */
  datatype WireOrder = ByField(field: string, descending: bool) | ByExpression

  datatype Order = Order(field: string, descending: bool)

  function IdentityDefaults(l: Layout, names: seq<string>): (r: seq<(Sort, string)>)
    requires forall n :: n in names ==> n in l.Names()
  {
    if names == [] then []
    else if names[0] == l.timestampField then IdentityDefaults(l, names[1..])
    else
      [(Sort(l.Physical(names[0]), false, l.ColumnOf(names[0]).value.ctype), names[0])]
      + IdentityDefaults(l, names[1..])
  }

  /** Default sort columns with the logical name that each stands for. */
  function DefaultFields(l: Layout): (r: seq<(Sort, string)>)
    requires RolesOk(l)
  {
    [(Sort(l.Physical(l.timestampField), true, l.ColumnOf(l.timestampField).value.ctype), l.timestampField)]
    + IdentityDefaults(l, l.identityFields)
    + [(Sort(HIDDEN_ROW, false, "String"), HIDDEN_ROW)]
  }

  predicate Sortable(l: Layout, field: string) {
    field in l.Names() && !l.ColumnOf(field).value.nullable
  }

  predicate AllSortable(l: Layout, order: seq<Order>) {
    forall i :: 0 <= i < |order| ==> Sortable(l, order[i].field)
  }

  function ChosenSort(l: Layout, o: Order): Sort
    requires Sortable(l, o.field)
  {
    Sort(l.Physical(o.field), o.descending, l.ColumnOf(o.field).value.ctype)
  }

  function ChosenSorts(l: Layout, order: seq<Order>): (r: seq<Sort>)
    requires AllSortable(l, order)
    ensures |r| == |order|
  {
    seq(|order|, i requires 0 <= i < |order| => ChosenSort(l, order[i]))
  }

  function Fields(order: seq<Order>): set<string> { set o | o in order :: o.field }

  /** The defaults that the chosen order does not name. */
  function Missing(defaults: seq<(Sort, string)>, chosen: set<string>): seq<Sort> {
    if defaults == [] then []
    else (if defaults[0].1 in chosen then [] else [defaults[0].0]) + Missing(defaults[1..], chosen)
  }

  /** The completed order: the user's columns, then every default not named yet. */
  function Completed(l: Layout, order: seq<Order>): seq<Sort>
    requires RolesOk(l) && AllSortable(l, order)
  {
    ChosenSorts(l, order) + Missing(DefaultFields(l), Fields(order))
  }

  function WireOrders(order: seq<WireOrder>): (r: seq<Order>)
    requires forall i :: 0 <= i < |order| ==> order[i].ByField?
    ensures |r| == |order|
  {
    seq(|order|, i requires 0 <= i < |order| => Order(order[i].field, order[i].descending))
  }

  predicate WireOk(l: Layout, order: seq<WireOrder>) {
    && (forall i :: 0 <= i < |order| ==> order[i].ByField?)
    && AllSortable(l, WireOrders(order))
  }

  lemma {:induction false} MissingStep(defaults: seq<(Sort, string)>, names: set<string>, i: nat)
    requires i <= |defaults|
    ensures Missing(defaults[|defaults|..], names) == []
    ensures i < |defaults| ==>
      Missing(defaults[i..], names)
      == (if defaults[i].1 in names then [] else [defaults[i].0]) + Missing(defaults[i + 1..], names)
  {
    if i < |defaults| {
      assert defaults[i..][1..] == defaults[i + 1..];
    }
  }

  /** The second loop of both builders. */
  method CompleteDefaults(defaults: seq<(Sort, string)>, names: set<string>) returns (r: seq<Sort>)
    ensures r == Missing(defaults, names)
  {
    hide Missing;
    r := [];
    assert defaults[0..] == defaults;
    for i := 0 to |defaults|
      invariant r + Missing(defaults[i..], names) == Missing(defaults, names)
    {
      MissingStep(defaults, names, i);
      if defaults[i].1 !in names {
        r := r + [defaults[i].0];
      }
    }
    MissingStep(defaults, names, |defaults|);
  }

  lemma {:induction false} WireAcceptance(l: Layout, order: seq<WireOrder>)
    ensures WireOk(l, order) <==>
            forall o :: o in order ==> o.ByField? && o.field in l.Names() && !l.ColumnOf(o.field).value.nullable
  {
    if WireOk(l, order) {
      forall o | o in order ensures o.ByField? && o.field in l.Names() && !l.ColumnOf(o.field).value.nullable {
        var i :| 0 <= i < |order| && order[i] == o;
        assert Sortable(l, WireOrders(order)[i].field);
      }
    }
    if forall o :: o in order ==> o.ByField? && o.field in l.Names() && !l.ColumnOf(o.field).value.nullable {
      forall i | 0 <= i < |order| ensures order[i].ByField? { assert order[i] in order; }
      forall i | 0 <= i < |order| ensures Sortable(l, WireOrders(order)[i].field) { assert order[i] in order; }
    }
  }

  /** `_sorts`, for wire plans. */
  method CompleteWire(l: Layout, order: seq<WireOrder>) returns (r: Result<seq<Sort>>)
    requires RolesOk(l)
    ensures r.Ok? <==> WireOk(l, order)
    ensures r.Ok? <==> forall o :: o in order ==>
      o.ByField? && o.field in l.Names() && !l.ColumnOf(o.field).value.nullable
    ensures r.Ok? ==> r.value == Completed(l, WireOrders(order))
    ensures r.Ok? ==> |r.value| >= |order| && forall i :: 0 <= i < |order| ==>
      r.value[i].column == l.Physical(order[i].field) && r.value[i].descending == order[i].descending
  {
    WireAcceptance(l, order);
    var result: seq<Sort> := [];
    var names: set<string> := {};
    for i := 0 to |order|
      invariant forall j :: 0 <= j < i ==> order[j].ByField?
      invariant AllSortable(l, WireOrders(order[..i]))
      invariant result == ChosenSorts(l, WireOrders(order[..i]))
      invariant names == Fields(WireOrders(order[..i]))
    {
      if order[i].ByExpression? { return Err(Unsupported); }
      var column := l.ColumnOf(order[i].field);
      assert order[..i + 1] == order[..i] + [order[i]];
      assert WireOrders(order[..i + 1]) == WireOrders(order[..i]) + [Order(order[i].field, order[i].descending)];
      if column.None? || column.value.nullable {
        assert order[i] in order;
        return Err(UnknownField);
      }
      result := result + [Sort(column.value.physical, order[i].descending, column.value.ctype)];
      names := names + {order[i].field};
    }
    assert order[..|order|] == order;
    var missing := CompleteDefaults(DefaultFields(l), names);
    return Ok(result + missing);
  }

  // ---- Mapping-first order --------------------------------------------------

  predicate EntryShape(j: Json) {
    && j.JObj? && j.members.Keys == {"field", "direction"}
    && j.members["field"].JStr?
    && j.members["direction"] in {JStr("asc"), JStr("desc")}
  }

  function EntryOrder(j: Json): Order
    requires EntryShape(j)
  {
    Order(j.members["field"].text, j.members["direction"] == JStr("desc"))
  }

  function EntryOrders(items: seq<Json>): (r: seq<Order>)
    requires forall i :: 0 <= i < |items| ==> EntryShape(items[i])
    ensures |r| == |items|
  {
    seq(|items|, i requires 0 <= i < |items| => EntryOrder(items[i]))
  }

  predicate MappingOk(l: Layout, j: Json) {
    && j.JArr?
    && (forall i :: 0 <= i < |j.items| ==> EntryShape(j.items[i]))
    && AllSortable(l, EntryOrders(j.items))
  }

  /** An entry that names a known non-nullable field and a direction, and nothing else. */
  predicate EntryAccepted(l: Layout, j: Json) {
    && j.JObj? && j.members.Keys == {"field", "direction"} && j.members["direction"] in {JStr("asc"), JStr("desc")}
    && j.members["field"].JStr? && j.members["field"].text in l.Names()
    && !l.ColumnOf(j.members["field"].text).value.nullable
  }

  lemma {:induction false} MappingAcceptance(l: Layout, value: Json)
    ensures MappingOk(l, value) <==> value.JArr? && forall j :: j in value.items ==> EntryAccepted(l, j)
  {
    if MappingOk(l, value) {
      forall j | j in value.items ensures EntryAccepted(l, j) {
        var i :| 0 <= i < |value.items| && value.items[i] == j;
        assert EntryShape(j) && Sortable(l, EntryOrders(value.items)[i].field);
      }
    }
    if value.JArr? && forall j :: j in value.items ==> EntryAccepted(l, j) {
      forall i | 0 <= i < |value.items| ensures EntryShape(value.items[i]) { assert value.items[i] in value.items; }
      forall i | 0 <= i < |value.items| ensures Sortable(l, EntryOrders(value.items)[i].field) {
        assert value.items[i] in value.items;
      }
    }
  }

  lemma {:induction false} SortableEntry(l: Layout, value: Json, i: nat)
    requires value.JArr? && i < |value.items| && EntryShape(value.items[i])
    ensures MappingOk(l, value) ==> Sortable(l, EntryOrder(value.items[i]).field)
  {
    assert MappingOk(l, value) ==> EntryOrders(value.items)[i] == EntryOrder(value.items[i]);
  }

  /** `_simple_sorts`, for mapping-first queries. */
  method CompleteMapping(l: Layout, value: Json) returns (r: Result<seq<Sort>>)
    requires RolesOk(l)
    ensures r.Ok? <==> MappingOk(l, value)
    ensures r.Ok? <==> value.JArr? && forall j :: j in value.items ==> EntryAccepted(l, j)
    ensures r.Ok? ==> r.value == Completed(l, EntryOrders(value.items))
    ensures r.Ok? ==> |r.value| >= |value.items| && forall i :: 0 <= i < |value.items| ==>
      && r.value[i].column == l.Physical(value.items[i].members["field"].text)
      && (r.value[i].descending <==> value.items[i].members["direction"] == JStr("desc"))
  {
    hide RolesOk, DefaultFields, Missing, Layout.Physical;
    MappingAcceptance(l, value);
    if !value.JArr? { return Err(BadType); }
    var items := value.items;
    var result: seq<Sort> := [];
    for i := 0 to |items|
      invariant forall j :: 0 <= j < i ==> EntryShape(items[j])
      invariant AllSortable(l, EntryOrders(items[..i]))
      invariant result == ChosenSorts(l, EntryOrders(items[..i]))
    {
      if !EntryShape(items[i]) { return Err(BadSyntax); }
      var order := EntryOrder(items[i]);
      assert items[..i + 1] == items[..i] + [items[i]];
      assert EntryOrders(items[..i + 1]) == EntryOrders(items[..i]) + [order];
      var column := l.ColumnOf(order.field);
      if column.None? || column.value.nullable {
        SortableEntry(l, value, i);
        return Err(UnknownField);
      }
      result := result + [ChosenSort(l, order)];
    }
    assert items[..|items|] == items;
    var missing := CompleteDefaults(DefaultFields(l), Fields(EntryOrders(items)));
    return Ok(result + missing);
  }

  // ---- Uniqueness -----------------------------------------------------------

  function PhysicalOf(l: Layout, names: seq<string>): (r: seq<string>)
    requires forall n :: n in names ==> n in l.Names()
    ensures |r| == |names|
    ensures forall i :: 0 <= i < |names| ==> r[i] == l.Physical(names[i])
  {
    seq(|names|, i requires 0 <= i < |names| => l.Physical(names[i]))
  }

  /** The replacement key of the table, by physical column name. */
  function KeyColumns(l: Layout): seq<string>
    requires RolesOk(l)
  {
    [HIDDEN_SCOPE, l.Physical(l.timestampField)] + PhysicalOf(l, l.identityFields)
    + (if l.appendOnly then [HIDDEN_ROW] else [])
  }

  lemma {:induction false} RoleNames(l: Layout)
    requires RolesOk(l)
    ensures l.timestampField in l.Names() && forall n :: n in l.identityFields ==> n in l.Names()
  {}

  function KeyOf(l: Layout, row: Row): (k: seq<Value>)
    requires RolesOk(l)
    ensures |k| == |KeyColumns(l)|
  {
    seq(|KeyColumns(l)|, i requires 0 <= i < |KeyColumns(l)| => Cell(row, KeyColumns(l)[i]))
  }

  ghost predicate SortsBy(sorts: seq<Sort>, column: string) {
    exists i :: 0 <= i < |sorts| && sorts[i].column == column
  }

  lemma {:induction false} SortsByConcat(a: seq<Sort>, b: seq<Sort>, column: string)
    ensures SortsBy(a, column) || SortsBy(b, column) ==> SortsBy(a + b, column)
  {
    if SortsBy(a, column) {
      var i :| 0 <= i < |a| && a[i].column == column;
      assert (a + b)[i].column == column;
    }
    if SortsBy(b, column) {
      var i :| 0 <= i < |b| && b[i].column == column;
      assert (a + b)[|a| + i].column == column;
    }
  }

  lemma {:induction false} MissingHas(defaults: seq<(Sort, string)>, chosen: set<string>, i: nat)
    requires i < |defaults| && defaults[i].1 !in chosen
    ensures SortsBy(Missing(defaults, chosen), defaults[i].0.column)
  {
    var first := if defaults[0].1 in chosen then [] else [defaults[0].0];
    if i == 0 {
      assert first[0].column == defaults[0].0.column;
    } else {
      MissingHas(defaults[1..], chosen, i - 1);
    }
    SortsByConcat(first, Missing(defaults[1..], chosen), defaults[i].0.column);
  }

  lemma {:induction false} IdentityDefaultIndex(l: Layout, names: seq<string>, name: string) returns (i: nat)
    requires forall n :: n in names ==> n in l.Names()
    requires name in names && name != l.timestampField
    ensures i < |IdentityDefaults(l, names)|
    ensures IdentityDefaults(l, names)[i].1 == name && IdentityDefaults(l, names)[i].0.column == l.Physical(name)
  {
    if names[0] == name {
      i := 0;
    } else {
      i := IdentityDefaultIndex(l, names[1..], name);
      if names[0] != l.timestampField { i := i + 1; }
    }
  }

  lemma {:induction false} ChosenHas(l: Layout, order: seq<Order>, field: string)
    requires AllSortable(l, order) && field in Fields(order)
    ensures field in l.Names() && SortsBy(ChosenSorts(l, order), l.Physical(field))
  {
    var o :| o in order && o.field == field;
    var i :| 0 <= i < |order| && order[i] == o;
    assert ChosenSorts(l, order)[i].column == l.Physical(field);
  }

  lemma {:induction false} CompletedHasDefault(l: Layout, order: seq<Order>, i: nat)
    requires RolesOk(l) && AllSortable(l, order) && i < |DefaultFields(l)|
    requires var d := DefaultFields(l)[i];
             d.1 in Fields(order) ==> d.1 in l.Names() && d.0.column == l.Physical(d.1)
    ensures SortsBy(Completed(l, order), DefaultFields(l)[i].0.column)
  {
    var d := DefaultFields(l)[i];
    if d.1 in Fields(order) {
      ChosenHas(l, order, d.1);
    } else {
      MissingHas(DefaultFields(l), Fields(order), i);
    }
    SortsByConcat(ChosenSorts(l, order), Missing(DefaultFields(l), Fields(order)), d.0.column);
  }

  lemma {:induction false} NamesAreUnreserved(l: Layout, name: string)
    requires ColumnsOk(l) && name in l.Names()
    ensures !("_meridian_" <= name)
  {
    assert l.ColumnOf(name).value.Valid();
  }

  lemma {:induction false} FieldsAreNames(l: Layout, order: seq<Order>)
    requires AllSortable(l, order)
    ensures forall f :: f in Fields(order) ==> f in l.Names()
  {
    forall f | f in Fields(order) ensures f in l.Names() {
      var o :| o in order && o.field == f;
      var i :| 0 <= i < |order| && order[i] == o;
      assert Sortable(l, order[i].field);
    }
  }

  /** Logical names never look like the reserved ones. */
  lemma {:induction false} HiddenIsNoField(l: Layout, order: seq<Order>)
    requires ColumnsOk(l) && AllSortable(l, order)
    ensures HIDDEN_ROW !in l.Names() && HIDDEN_ROW !in Fields(order)
  {
    FieldsAreNames(l, order);
    forall name | name in l.Names() ensures !("_meridian_" <= name) { NamesAreUnreserved(l, name); }
    assert HIDDEN_ROW[..10] == "_meridian_";
  }

  lemma {:induction false} MissingLast(defaults: seq<(Sort, string)>, chosen: set<string>)
    requires defaults != [] && defaults[|defaults| - 1].1 !in chosen
    ensures Missing(defaults, chosen) != []
    ensures var m := Missing(defaults, chosen); m[|m| - 1] == defaults[|defaults| - 1].0
  {
    if |defaults| > 1 {
      MissingLast(defaults[1..], chosen);
    }
  }

  lemma {:induction false} LastIsHiddenRow(l: Layout, order: seq<Order>)
    requires RolesOk(l) && AllSortable(l, order) && HIDDEN_ROW !in Fields(order)
    ensures var sorts := Completed(l, order); sorts != [] && sorts[|sorts| - 1] == Sort(HIDDEN_ROW, false, "String")
  {
    var defaults := DefaultFields(l);
    assert defaults[|defaults| - 1].1 == HIDDEN_ROW;
    MissingLast(defaults, Fields(order));
  }

  lemma {:induction false} KeyColumnCases(l: Layout, k: string)
    requires RolesOk(l) && k in KeyColumns(l)
    ensures k == HIDDEN_SCOPE || k == l.Physical(l.timestampField) || k == HIDDEN_ROW
            || exists name :: name in l.identityFields && k == l.Physical(name)
  {
    var ids := PhysicalOf(l, l.identityFields);
    if k in ids {
      var i :| 0 <= i < |ids| && ids[i] == k;
      assert l.identityFields[i] in l.identityFields;
    }
  }

  /** Whatever order the user gives, the completed order contains the timestamp and every
      identity field and ends in the row fingerprint, so it covers the replacement key. */
  lemma {:induction false} CompletedCoversKey(l: Layout, order: seq<Order>)
    requires ColumnsOk(l) && RolesOk(l) && AllSortable(l, order)
    ensures var sorts := Completed(l, order);
            && sorts != []
            && sorts[|sorts| - 1] == Sort(HIDDEN_ROW, false, "String")
            && SortsBy(sorts, l.Physical(l.timestampField))
            && (forall name :: name in l.identityFields ==> SortsBy(sorts, l.Physical(name)))
            && (forall k :: k in KeyColumns(l) ==> k == HIDDEN_SCOPE || SortsBy(sorts, k))
  {
    hide Completed;
    var sorts, defaults := Completed(l, order), DefaultFields(l);
    HiddenIsNoField(l, order);
    LastIsHiddenRow(l, order);
    assert sorts[|sorts| - 1].column == HIDDEN_ROW;
    CompletedHasDefault(l, order, 0);
    forall name | name in l.identityFields ensures SortsBy(sorts, l.Physical(name)) {
      var i := IdentityDefaultIndex(l, l.identityFields, name);
      assert defaults[1 + i] == IdentityDefaults(l, l.identityFields)[i];
      CompletedHasDefault(l, order, 1 + i);
    }
    forall k | k in KeyColumns(l) ensures k == HIDDEN_SCOPE || SortsBy(sorts, k) {
      KeyColumnCases(l, k);
    }
  }

  lemma {:induction false} TupleDetermines(a: Row, b: Row, sorts: seq<Sort>, column: string)
    requires TupleOf(a, sorts) == TupleOf(b, sorts) && SortsBy(sorts, column)
    ensures Cell(a, column) == Cell(b, column)
  {
    var i :| 0 <= i < |sorts| && sorts[i].column == column;
    assert TupleOf(a, sorts)[i] == TupleOf(b, sorts)[i];
  }

  /** Rows of one scope with equal sort tuples have equal replacement keys; where each key
      occurs once, as in a FINAL read, sort tuples are pairwise distinct. */
  lemma {:induction false} CompletedIsUnique(l: Layout, order: seq<Order>, a: Row, b: Row)
    requires ColumnsOk(l) && RolesOk(l) && AllSortable(l, order)
    requires Cell(a, HIDDEN_SCOPE) == Cell(b, HIDDEN_SCOPE)
    requires TupleOf(a, Completed(l, order)) == TupleOf(b, Completed(l, order))
    ensures KeyOf(l, a) == KeyOf(l, b)
  {
    hide Completed, SortsBy;
    CompletedCoversKey(l, order);
    var columns := KeyColumns(l);
    forall i | 0 <= i < |columns| ensures KeyOf(l, a)[i] == KeyOf(l, b)[i] {
      assert columns[i] in columns;
      if columns[i] != HIDDEN_SCOPE {
        TupleDetermines(a, b, Completed(l, order), columns[i]);
      }
    }
  }
}
