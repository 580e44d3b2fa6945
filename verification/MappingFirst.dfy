/** Mapping-first filters: a mapping from fields to a value or to named tests. */
module MappingFirst {
  import opened Common
  import opened Sorting
  import opened Layouts
  import opened Sql
  import opened Filters

  /** A mapping is listed by its items; its names are unique but in no particular order. */
  datatype Test = Scalar(value: Json) | Tests(ops: seq<(string, Json)>)

  type Where = seq<(string, Test)>

  /** One condition on a physical column. */
  datatype Atom = Atom(column: string, ctype: string, op: string, value: Json)

  function FieldOf(item: (string, Test)): string { item.0 }

  function OpOf(item: (string, Json)): string { item.0 }

  function TestAtoms(column: string, ctype: string, ops: seq<(string, Json)>): (r: seq<Atom>)
    ensures |r| == |ops|
  {
    seq(|ops|, i requires 0 <= i < |ops| => Atom(column, ctype, ops[i].0, ops[i].1))
  }

  /** The tests of one field, in the order of their names. */
  function FieldAtoms(c: Column, test: Test): seq<Atom> {
    match test
    case Scalar(v) => [Atom(c.physical, c.ctype, "eq", v)]
    case Tests(ops) => TestAtoms(c.physical, c.ctype, Sort(OpOf, ops))
  }

  predicate KnownFields(l: Layout, items: Where) {
    forall i :: 0 <= i < |items| ==> items[i].0 in l.Names()
  }

  function ItemAtoms(l: Layout, items: Where): seq<Atom>
    requires KnownFields(l, items)
  {
    if items == [] then []
    else FieldAtoms(l.ColumnOf(items[0].0).value, items[0].1) + ItemAtoms(l, items[1..])
  }

  /** All conditions of a filter, in emission order. */
  function Atoms(l: Layout, where: Where): seq<Atom>
    requires KnownFields(l, Sort(FieldOf, where))
  {
    ItemAtoms(l, Sort(FieldOf, where))
  }

  predicate AtomOk(a: Atom) {
    if a.op == "in" || a.op == "notIn" then
      a.value.JArr? && a.value.items != [] && forall i :: 0 <= i < |a.value.items| ==> Binds(a.value.items[i], a.ctype)
    else if a.op == "isNull" then a.value.JBool?
    else ComparisonOp(a.op).Some? && Binds(a.value, a.ctype)
  }

  predicate AtomsOk(atoms: seq<Atom>) { forall i :: 0 <= i < |atoms| ==> AtomOk(atoms[i]) }

  /** The filters that the compiler accepts. */
  predicate WhereOk(l: Layout, where: Where) {
    KnownFields(l, Sort(FieldOf, where)) && AtomsOk(Atoms(l, where))
  }

  function BoundAll(items: seq<Json>, ctype: string): (r: seq<Json>)
    requires forall i :: 0 <= i < |items| ==> Binds(items[i], ctype)
    ensures |r| == |items|
  {
    seq(|items|, i requires 0 <= i < |items| && Binds(items[i], ctype) => ParameterValue(items[i], ctype).value)
  }

  function AtomBindings(a: Atom): seq<Json>
    requires AtomOk(a)
  {
    if a.op == "in" || a.op == "notIn" then BoundAll(a.value.items, a.ctype)
    else if a.op == "isNull" then []
    else [ParameterValue(a.value, a.ctype).value]
  }

  function AtomText(a: Atom, n: nat): Text
    requires AtomOk(a)
  {
    if a.op == "in" || a.op == "notIn" then
      [Ident(a.column)] + MembershipWord(a.op == "notIn")
      + ([LParen] + Join(ParameterList(n, |a.value.items|, a.ctype), Comma) + [RParen])
    else if a.op == "isNull" then [Ident(a.column)] + NullTestTokens(a.value.flag)
    else [Ident(a.column), Op(ComparisonOp(a.op).value), Parameter(n, a.ctype)]
  }

  function AllAtomBindings(atoms: seq<Atom>): seq<Json>
    requires AtomsOk(atoms)
  {
    if atoms == [] then [] else AtomBindings(atoms[0]) + AllAtomBindings(atoms[1..])
  }

  function AtomTexts(atoms: seq<Atom>, n: nat): (r: seq<Text>)
    requires AtomsOk(atoms)
    ensures |r| == |atoms|
  {
    if atoms == [] then [] else [AtomText(atoms[0], n)] + AtomTexts(atoms[1..], n + |AtomBindings(atoms[0])|)
  }

  /** `simple_where`: the conjunction of all conditions, or the constant one. */
  function WhereText(atoms: seq<Atom>, n: nat): Text
    requires AtomsOk(atoms)
  {
    if atoms == [] then [One] else Join(AtomTexts(atoms, n), KwAnd)
  }

  lemma {:induction false} AtomsAppend(atoms: seq<Atom>, a: Atom, n: nat)
    requires AtomsOk(atoms) && AtomOk(a)
    ensures AtomsOk(atoms + [a])
    ensures AllAtomBindings(atoms + [a]) == AllAtomBindings(atoms) + AtomBindings(a)
    ensures AtomTexts(atoms + [a], n) == AtomTexts(atoms, n) + [AtomText(a, n + |AllAtomBindings(atoms)|)]
  {
    hide AtomText, AtomBindings, AtomOk;
    if atoms == [] {
      assert atoms + [a] == [a];
    } else {
      AtomsAppend(atoms[1..], a, n + |AtomBindings(atoms[0])|);
      assert (atoms + [a])[1..] == atoms[1..] + [a];
    }
  }

  /** The emission order, and with it the text, depends only on the mapping. */
  lemma {:induction false} WhereOrderIndependent(l: Layout, a: Where, b: Where)
    requires multiset(a) == multiset(b) && DistinctKeys(FieldOf, a)
    ensures WhereOk(l, a) <==> WhereOk(l, b)
    ensures WhereOk(l, a) ==> Atoms(l, a) == Atoms(l, b)
  {
    SortPermutation(FieldOf, a, b);
  }

  lemma {:induction false} AtomsConcat(a: seq<Atom>, b: seq<Atom>, n: nat)
    requires AtomsOk(a) && AtomsOk(b)
    ensures AtomsOk(a + b)
    ensures AllAtomBindings(a + b) == AllAtomBindings(a) + AllAtomBindings(b)
    ensures AtomTexts(a + b, n) == AtomTexts(a, n) + AtomTexts(b, n + |AllAtomBindings(a)|)
  {
    hide AtomText, AtomBindings, AtomOk;
    if a == [] {
      assert a + b == b;
    } else {
      AtomsConcat(a[1..], b, n + |AtomBindings(a[0])|);
      assert (a + b)[1..] == a[1..] + b;
    }
  }

  lemma {:induction false} ItemsAppend(l: Layout, items: Where, item: (string, Test))
    requires KnownFields(l, items + [item])
    ensures KnownFields(l, items) && item.0 in l.Names()
    ensures ItemAtoms(l, items + [item]) == ItemAtoms(l, items) + FieldAtoms(l.ColumnOf(item.0).value, item.1)
  {
    assert (items + [item])[|items|] == item;
    forall i | 0 <= i < |items| ensures items[i].0 in l.Names() { assert (items + [item])[i] == items[i]; }
    if items == [] {
      assert items + [item] == [item];
    } else {
      assert (items + [item])[1..] == items[1..] + [item];
      ItemsAppend(l, items[1..], item);
    }
  }

  lemma {:induction false} ItemsPrefix(l: Layout, items: Where, i: nat)
    requires KnownFields(l, items) && i <= |items|
    ensures KnownFields(l, items[..i])
    ensures ItemAtoms(l, items[..i]) <= ItemAtoms(l, items)
  {
    if i == |items| {
      assert items[..i] == items;
    } else {
      var front := items[..|items| - 1];
      assert items == front + [items[|items| - 1]];
      ItemsAppend(l, front, items[|items| - 1]);
      ItemsPrefix(l, front, i);
      assert front[..i] == items[..i];
    }
  }

  // ---- Bounds ---------------------------------------------------------------

  /** The loop keeps the candidate of the last lower, or upper, test that it meets. */
  function LastOf(ops: seq<(string, Json)>, first: string, second: string): Json {
    if ops == [] then JNull
    else if ops[|ops| - 1].0 == first || ops[|ops| - 1].0 == second then ops[|ops| - 1].1
    else LastOf(ops[..|ops| - 1], first, second)
  }

  function FieldBounds(test: Test): (Json, Json)
    requires test.Tests?
  {
    var ops := Sort(OpOf, test.ops);
    (LastOf(ops, "gt", "gte"), LastOf(ops, "lt", "lte"))
  }

  /** The bounds recorded for each field that has tests. */
  function BoundsOf(items: Where): map<string, (Json, Json)> {
    if items == [] then map[] else
    var bounds := BoundsOf(items[..|items| - 1]);
    var last := items[|items| - 1];
    if last.1.Tests? then bounds[last.0 := FieldBounds(last.1)] else bounds
  }
}
