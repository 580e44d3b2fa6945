/** In what order rows are listed: the completed order said in terms of fields. */
module Orders {
  import opened Common
  import opened Rows
  import opened Layouts
  import opened SqlCompilers
  import opened Keysets
  import opened Sorts
  import opened Conditions

  // ---- The order of rows ----------------------------------------------------

  function FieldCell(l: Layout, row: Row, name: string): Value {
    if name in l.Names() then Cell(row, l.Physical(name)) else Null
  }

  /** The row comes first in one direction of one value. */
  predicate Ahead(a: Value, b: Value, descending: bool) { if descending then Below(b, a) else Below(a, b) }

  /** The rows agree on all entries before the `i`-th, which puts `a` first. */
  predicate FirstByEntry(l: Layout, order: seq<Order>, a: Row, b: Row, i: nat) {
    && i < |order|
    && (forall j :: 0 <= j < i ==> FieldCell(l, a, order[j].field) == FieldCell(l, b, order[j].field))
    && Ahead(FieldCell(l, a, order[i].field), FieldCell(l, b, order[i].field), order[i].descending)
  }

  predicate AgreeOnOrder(l: Layout, order: seq<Order>, a: Row, b: Row) {
    forall j :: 0 <= j < |order| ==> FieldCell(l, a, order[j].field) == FieldCell(l, b, order[j].field)
  }

  /** The same for identity fields, in the order in which the layout lists them. */
  predicate FirstByIdentity(l: Layout, names: seq<string>, a: Row, b: Row, i: nat) {
    && i < |names|
    && (forall j :: 0 <= j < i ==> FieldCell(l, a, names[j]) == FieldCell(l, b, names[j]))
    && Below(FieldCell(l, a, names[i]), FieldCell(l, b, names[i]))
  }

  predicate AgreeOnNames(l: Layout, names: seq<string>, a: Row, b: Row) {
    forall j :: 0 <= j < |names| ==> FieldCell(l, a, names[j]) == FieldCell(l, b, names[j])
  }

  ghost predicate PrecedesByDefault(l: Layout, a: Row, b: Row) {
    var x, y := FieldCell(l, a, l.timestampField), FieldCell(l, b, l.timestampField);
    || Below(y, x)
    || (x == y && (|| (exists i: nat :: FirstByIdentity(l, l.identityFields, a, b, i))
                   || (AgreeOnNames(l, l.identityFields, a, b) && Below(Cell(a, HIDDEN_ROW), Cell(b, HIDDEN_ROW)))))
  }

  /** Row `a` is listed before row `b`: by the given entries; where they agree on all of these, the
      later timestamp first; then ascending by the identity fields; then by row fingerprint. */
  ghost predicate Precedes(l: Layout, order: seq<Order>, a: Row, b: Row) {
    || (exists i: nat :: FirstByEntry(l, order, a, b, i))
    || (AgreeOnOrder(l, order, a, b) && PrecedesByDefault(l, a, b))
  }

  // ---- ORDER BY lists rows in that order ------------------------------------

  lemma {:induction false} LessIsBelow(a: Value, b: Value)
    ensures Less(a, b) <==> Below(a, b)
    ensures !Below(a, a)
  {
    if a.StrV? { TextTrichotomy(a.text, a.text); }
  }

  predicate ListedBefore(a: Row, b: Row, sorts: seq<Sort>) { TupleBefore(TupleOf(a, sorts), TupleOf(b, sorts), sorts) }

  predicate SameTuple(a: Row, b: Row, sorts: seq<Sort>) {
    forall i :: 0 <= i < |sorts| ==> Cell(a, sorts[i].column) == Cell(b, sorts[i].column)
  }

  lemma {:induction false} ListedStep(a: Row, b: Row, sorts: seq<Sort>)
    requires sorts != []
    ensures ListedBefore(a, b, sorts) <==>
            || Ahead(Cell(a, sorts[0].column), Cell(b, sorts[0].column), sorts[0].descending)
            || (Cell(a, sorts[0].column) == Cell(b, sorts[0].column) && ListedBefore(a, b, sorts[1..]))
  {
    LessIsBelow(Cell(a, sorts[0].column), Cell(b, sorts[0].column));
    LessIsBelow(Cell(b, sorts[0].column), Cell(a, sorts[0].column));
    assert TupleOf(a, sorts)[1..] == TupleOf(a, sorts[1..]) && TupleOf(b, sorts)[1..] == TupleOf(b, sorts[1..]);
  }

  lemma {:induction false} NothingListed(a: Row, b: Row)
    ensures !ListedBefore(a, b, [])
  {}

  lemma {:induction false} SameStep(a: Row, b: Row, sorts: seq<Sort>)
    requires sorts != []
    ensures SameTuple(a, b, sorts) <==>
            Cell(a, sorts[0].column) == Cell(b, sorts[0].column) && SameTuple(a, b, sorts[1..])
  {
    assert forall i :: 0 < i < |sorts| ==> sorts[i] == sorts[1..][i - 1];
    assert forall i :: 0 <= i < |sorts| - 1 ==> sorts[1..][i] == sorts[i + 1];
  }

  lemma {:induction false} ListedConcat(a: Row, b: Row, first: seq<Sort>, rest: seq<Sort>)
    ensures ListedBefore(a, b, first + rest) <==>
            ListedBefore(a, b, first) || (SameTuple(a, b, first) && ListedBefore(a, b, rest))
  {
    hide Cell, Ahead, ListedBefore;
    if first == [] {
      assert first + rest == rest;
      NothingListed(a, b);
    } else {
      ListedStep(a, b, first + rest);
      ListedStep(a, b, first);
      assert (first + rest)[1..] == first[1..] + rest && (first + rest)[0] == first[0];
      ListedConcat(a, b, first[1..], rest);
      SameStep(a, b, first);
    }
  }

  lemma {:induction false} EntryStep(l: Layout, order: seq<Order>, a: Row, b: Row)
    requires order != []
    ensures (exists i: nat :: FirstByEntry(l, order, a, b, i)) <==>
            var x, y := FieldCell(l, a, order[0].field), FieldCell(l, b, order[0].field);
            Ahead(x, y, order[0].descending) || (x == y && exists i: nat :: FirstByEntry(l, order[1..], a, b, i))
    ensures AgreeOnOrder(l, order, a, b) <==>
            FieldCell(l, a, order[0].field) == FieldCell(l, b, order[0].field) && AgreeOnOrder(l, order[1..], a, b)
  {
    hide FieldCell, Ahead;
    var x, y := FieldCell(l, a, order[0].field), FieldCell(l, b, order[0].field);
    assert forall i :: 0 < i < |order| ==> order[i] == order[1..][i - 1];
    assert forall i :: 0 <= i < |order| - 1 ==> order[1..][i] == order[i + 1];
    if Ahead(x, y, order[0].descending) { assert FirstByEntry(l, order, a, b, 0); }
    if i: nat :| FirstByEntry(l, order[1..], a, b, i) && x == y { assert FirstByEntry(l, order, a, b, i + 1); }
    if i: nat :| FirstByEntry(l, order, a, b, i) {
      if i > 0 { assert FirstByEntry(l, order[1..], a, b, i - 1); }
    }
  }

  lemma {:induction false} ChosenListed(l: Layout, order: seq<Order>, a: Row, b: Row)
    requires AllSortable(l, order)
    ensures ListedBefore(a, b, ChosenSorts(l, order)) <==> exists i: nat :: FirstByEntry(l, order, a, b, i)
    ensures SameTuple(a, b, ChosenSorts(l, order)) <==> AgreeOnOrder(l, order, a, b)
  {
    hide ListedBefore, Ahead;
    var sorts := ChosenSorts(l, order);
    if order == [] {
      NothingListed(a, b);
    } else {
      assert sorts[1..] == ChosenSorts(l, order[1..]);
      ChosenListed(l, order[1..], a, b);
      ListedStep(a, b, sorts);
      SameStep(a, b, sorts);
      EntryStep(l, order, a, b);
    }
  }

  function DefaultSorts(defaults: seq<(Sort, string)>): (r: seq<Sort>)
    ensures |r| == |defaults|
  {
    seq(|defaults|, i requires 0 <= i < |defaults| => defaults[i].0)
  }

  lemma {:induction false} NotAheadOfItself(v: Value, descending: bool)
    ensures !Ahead(v, v, descending)
  {
    LessIsBelow(v, v);
  }

  /** Leaving out columns on which the rows agree anyway changes nothing. */
  lemma {:induction false} MissingListed(defaults: seq<(Sort, string)>, chosen: set<string>, a: Row, b: Row)
    requires forall i :: 0 <= i < |defaults| && defaults[i].1 in chosen ==>
               Cell(a, defaults[i].0.column) == Cell(b, defaults[i].0.column)
    ensures ListedBefore(a, b, Missing(defaults, chosen)) <==> ListedBefore(a, b, DefaultSorts(defaults))
  {
    hide ListedBefore, Cell;
    if defaults != [] {
      MissingListed(defaults[1..], chosen, a, b);
      var sorts := DefaultSorts(defaults);
      assert sorts[1..] == DefaultSorts(defaults[1..]);
      ListedStep(a, b, sorts);
      if defaults[0].1 in chosen {
        assert Missing(defaults, chosen) == Missing(defaults[1..], chosen);
        NotAheadOfItself(Cell(a, sorts[0].column), sorts[0].descending);
      } else {
        var missing := Missing(defaults, chosen);
        assert missing[0] == sorts[0] && missing[1..] == Missing(defaults[1..], chosen);
        ListedStep(a, b, missing);
      }
    }
  }

  lemma {:induction false} IdentityStep(l: Layout, names: seq<string>, a: Row, b: Row)
    requires names != []
    ensures (exists i: nat :: FirstByIdentity(l, names, a, b, i)) <==>
            var x, y := FieldCell(l, a, names[0]), FieldCell(l, b, names[0]);
            Below(x, y) || (x == y && exists i: nat :: FirstByIdentity(l, names[1..], a, b, i))
    ensures AgreeOnNames(l, names, a, b) <==>
            FieldCell(l, a, names[0]) == FieldCell(l, b, names[0]) && AgreeOnNames(l, names[1..], a, b)
  {
    hide FieldCell, Below;
    var x, y := FieldCell(l, a, names[0]), FieldCell(l, b, names[0]);
    assert forall i :: 0 < i < |names| ==> names[i] == names[1..][i - 1];
    assert forall i :: 0 <= i < |names| - 1 ==> names[1..][i] == names[i + 1];
    if Below(x, y) { assert FirstByIdentity(l, names, a, b, 0); }
    if i: nat :| FirstByIdentity(l, names[1..], a, b, i) && x == y { assert FirstByIdentity(l, names, a, b, i + 1); }
    if i: nat :| FirstByIdentity(l, names, a, b, i) {
      if i > 0 { assert FirstByIdentity(l, names[1..], a, b, i - 1); }
    }
  }

  lemma {:induction false} IdentityListed(l: Layout, names: seq<string>, a: Row, b: Row)
    requires forall n :: n in names ==> n in l.Names()
    requires FieldCell(l, a, l.timestampField) == FieldCell(l, b, l.timestampField)
    ensures ListedBefore(a, b, DefaultSorts(IdentityDefaults(l, names))) <==> exists i: nat ::
            FirstByIdentity(l, names, a, b, i)
    ensures SameTuple(a, b, DefaultSorts(IdentityDefaults(l, names))) <==> AgreeOnNames(l, names, a, b)
  {
    hide ListedBefore;
    if names == [] {
      NothingListed(a, b);
    } else {
      IdentityListed(l, names[1..], a, b);
      IdentityStep(l, names, a, b);
      var x, y := FieldCell(l, a, names[0]), FieldCell(l, b, names[0]);
      if names[0] == l.timestampField {
        LessIsBelow(x, y);
      } else {
        var sorts := DefaultSorts(IdentityDefaults(l, names));
        assert sorts[1..] == DefaultSorts(IdentityDefaults(l, names[1..]));
        assert names[0] in names && sorts[0].column == l.Physical(names[0]) && !sorts[0].descending;
        ListedStep(a, b, sorts);
        SameStep(a, b, sorts);
      }
    }
  }

  lemma {:induction false} DefaultsListed(l: Layout, a: Row, b: Row)
    requires RolesOk(l)
    ensures ListedBefore(a, b, DefaultSorts(DefaultFields(l))) <==> PrecedesByDefault(l, a, b)
  {
    hide ListedBefore, RolesDisjoint;
    RoleNames(l);
    var ids := DefaultSorts(IdentityDefaults(l, l.identityFields));
    var sorts := DefaultSorts(DefaultFields(l));
    assert sorts[1..] == ids + [Sort(HIDDEN_ROW, false, "String")];
    ListedStep(a, b, sorts);
    if FieldCell(l, a, l.timestampField) == FieldCell(l, b, l.timestampField) {
      IdentityListed(l, l.identityFields, a, b);
      ListedConcat(a, b, ids, [Sort(HIDDEN_ROW, false, "String")]);
      ListedStep(a, b, [Sort(HIDDEN_ROW, false, "String")]);
      NothingListed(a, b);
      assert [Sort(HIDDEN_ROW, false, "String")][1..] == [];
    }
  }

  lemma {:induction false} IdentityColumn(l: Layout, names: seq<string>, i: nat)
    requires (forall n :: n in names ==> n in l.Names()) && i < |IdentityDefaults(l, names)|
    ensures IdentityDefaults(l, names)[i].1 in l.Names()
    ensures IdentityDefaults(l, names)[i].0.column == l.Physical(IdentityDefaults(l, names)[i].1)
  {
    if names[0] == l.timestampField { IdentityColumn(l, names[1..], i); }
    else if i > 0 { IdentityColumn(l, names[1..], i - 1); }
    else { assert names[0] in names; }
  }

  lemma {:induction false} DefaultColumn(l: Layout, i: nat)
    requires RolesOk(l) && i < |DefaultFields(l)| && DefaultFields(l)[i].1 in l.Names() && HIDDEN_ROW !in l.Names()
    ensures DefaultFields(l)[i].0.column == l.Physical(DefaultFields(l)[i].1)
  {
    hide RolesDisjoint;
    RoleNames(l);
    var ids := IdentityDefaults(l, l.identityFields);
    if 0 < i <= |ids| {
      assert DefaultFields(l)[i] == ids[i - 1];
      IdentityColumn(l, l.identityFields, i - 1);
    }
  }

  lemma {:induction false} NamedAgree(l: Layout, order: seq<Order>, a: Row, b: Row)
    requires ColumnsOk(l) && RolesOk(l) && AllSortable(l, order) && AgreeOnOrder(l, order, a, b)
    ensures forall i :: 0 <= i < |DefaultFields(l)| && DefaultFields(l)[i].1 in Fields(order) ==>
              Cell(a, DefaultFields(l)[i].0.column) == Cell(b, DefaultFields(l)[i].0.column)
  {
    hide RolesDisjoint, Column.Valid;
    HiddenIsNoField(l, order);
    var defaults := DefaultFields(l);
    forall i | 0 <= i < |defaults| && defaults[i].1 in Fields(order)
      ensures Cell(a, defaults[i].0.column) == Cell(b, defaults[i].0.column)
    {
      var o :| o in order && o.field == defaults[i].1;
      var j :| 0 <= j < |order| && order[j] == o;
      assert Sortable(l, order[j].field);
      DefaultColumn(l, i);
    }
  }

  lemma {:induction false} ListedIs(a: Row, b: Row, sorts: seq<Sort>)
    ensures ListedBefore(a, b, sorts) <==> TupleBefore(TupleOf(a, sorts), TupleOf(b, sorts), sorts)
  {}

  /** Whatever order is given, the completed ORDER BY lists rows exactly as the fields say. */
  lemma {:induction false} CompletedPrecedes(l: Layout, order: seq<Order>, a: Row, b: Row)
    requires ColumnsOk(l) && RolesOk(l) && AllSortable(l, order)
    ensures TupleBefore(TupleOf(a, Completed(l, order)), TupleOf(b, Completed(l, order)), Completed(l, order))
       <==> Precedes(l, order, a, b)
  {
    hide ListedBefore, RolesOk, ColumnsOk, AllSortable, PrecedesByDefault, FirstByEntry, DefaultFields;
    ListedConcat(a, b, ChosenSorts(l, order), Missing(DefaultFields(l), Fields(order)));
    ChosenListed(l, order, a, b);
    if AgreeOnOrder(l, order, a, b) {
      NamedAgree(l, order, a, b);
      MissingListed(DefaultFields(l), Fields(order), a, b);
      DefaultsListed(l, a, b);
    }
    ListedIs(a, b, Completed(l, order));
  }

  /** Without an order the newest rows come first. */
  lemma {:induction false} NewestFirst(l: Layout, a: Row, b: Row)
    requires ColumnsOk(l) && RolesOk(l)
    requires Cell(a, l.Physical(l.timestampField)).TimeV? && Cell(b, l.Physical(l.timestampField)).TimeV?
    requires Cell(a, l.Physical(l.timestampField)).ticks > Cell(b, l.Physical(l.timestampField)).ticks
    ensures TupleBefore(TupleOf(a, Completed(l, [])), TupleOf(b, Completed(l, [])), Completed(l, []))
  {
    hide Completed, TupleOf, TupleBefore, ColumnsOk;
    CompletedPrecedes(l, [], a, b);
    assert AgreeOnOrder(l, [], a, b) && PrecedesByDefault(l, a, b);
  }
}
