/** `_SQLCompiler`: the object that numbers parameters while it prints conditions. */
module SqlCompilers {
  import Decimal
  import opened Common
  import opened Layouts
  import opened Sql
  import opened Filters
  import opened RowFingerprint
  import opened MappingFirst
  import Sorting

  /** The parameters p0, p1, ... bound to the given values. */
  function ParameterMap(values: seq<Json>): (m: map<string, Json>)
  {
    if values == [] then map[] else
    ParameterMap(values[..|values| - 1])[ParameterName(|values| - 1) := values[|values| - 1]]
  }

  function NameSet(n: nat): (names: set<string>) {
    if n == 0 then {} else NameSet(n - 1) + {ParameterName(n - 1)}
  }

  lemma {:induction false} NameSetSize(n: nat, i: nat)
    ensures ParameterName(i) in NameSet(n) <==> i < n
    ensures |NameSet(n)| == n
    decreases n
  {
    if n > 0 {
      NameSetSize(n - 1, i);
      NameSetSize(n - 1, n - 1);
      ParameterNameInjective(i, n - 1);
    }
  }

  /** The parameter names are exactly p0 to p(n-1). */
  lemma {:induction false} ParameterMapNames(values: seq<Json>)
    ensures ParameterMap(values).Keys == NameSet(|values|)
    ensures |ParameterMap(values)| == |values|
  {
    hide ParameterName;
    if values != [] {
      ParameterMapNames(values[..|values| - 1]);
    }
    NameSetSize(|values|, 0);
    assert |ParameterMap(values)| == |ParameterMap(values).Keys|;
  }

  /** Each parameter holds the value that was bound at its number. */
  lemma {:induction false} ParameterMapLookup(values: seq<Json>, i: nat)
    requires i < |values|
    ensures ParameterName(i) == "p" + Decimal.Natural(i)
    ensures ParameterName(i) in ParameterMap(values) && ParameterMap(values)[ParameterName(i)] == values[i]
  {
    assert ParameterName(i) == "p" + Decimal.Natural(i);
    hide ParameterName;
    var n := |values| - 1;
    if i < n {
      ParameterMapLookup(values[..n], i);
      ParameterNameInjective(i, n);
    }
  }

  lemma {:induction false} NumberOfName(n: nat, name: string) returns (i: nat)
    requires name in NameSet(n)
    ensures i < n && name == ParameterName(i)
  {
    if name == ParameterName(n - 1) { i := n - 1; } else { i := NumberOfName(n - 1, name); }
  }

  /** Binding more values never changes an earlier binding. */
  lemma {:induction false} EarlierBindingsStay(earlier: seq<Json>, later: seq<Json>, name: string)
    requires earlier <= later && name in ParameterMap(earlier)
    ensures name in ParameterMap(later) && ParameterMap(later)[name] == ParameterMap(earlier)[name]
  {
    hide ParameterName, ParameterMap;
    ParameterMapNames(earlier);
    var i := NumberOfName(|earlier|, name);
    ParameterMapLookup(earlier, i);
    ParameterMapLookup(later, i);
  }

  /** A sort column: physical name, direction and column type. */
  datatype Sort = Sort(column: string, descending: bool, ctype: string)

  /** The cursor value that is compared with a sort column. */
  function PhysicalCursorValue(sort: Sort, value: Json): Result<Json> {
    if sort.column == HIDDEN_ROW then
      var digest :- PhysicalRowFingerprint(value);
      Ok(JStr(digest))
    else Ok(value)
  }

  function BoundCursorValue(sort: Sort, value: Json): Result<Json> {
    var physical :- PhysicalCursorValue(sort, value);
    ParameterValue(physical, sort.ctype)
  }

  predicate KeysetBinds(sorts: seq<Sort>, values: seq<Json>) {
    |sorts| == |values| && forall i :: 0 <= i < |sorts| ==> BoundCursorValue(sorts[i], values[i]).Ok?
  }

  function KeysetBindings(sorts: seq<Sort>, values: seq<Json>): (r: seq<Json>)
    requires KeysetBinds(sorts, values)
    ensures |r| == |sorts|
  {
    seq(|sorts|, i requires 0 <= i < |sorts| => BoundCursorValue(sorts[i], values[i]).value)
  }

  /** `column = parameter` for the sort columns before `count`, first parameter `n`. */
  function EqualParts(sorts: seq<Sort>, n: nat, count: nat): (r: seq<Text>)
    requires count <= |sorts|
    ensures |r| == count
  {
    seq(count, i requires 0 <= i < count => [Ident(sorts[i].column), Op(Rows.Eq), Parameter(n + i, sorts[i].ctype)])
  }

  function AfterPart(sort: Sort, parameter: nat): Text {
    [Ident(sort.column), Op(if sort.descending then Rows.Lt else Rows.Gt), Parameter(parameter, sort.ctype)]
  }

  /** Branch `i`: equal on the columns before, strictly after on column `i`. */
  function BranchText(sorts: seq<Sort>, n: nat, i: nat): Text
    requires i < |sorts|
  {
    [LParen] + Join(EqualParts(sorts, n, i) + [AfterPart(sorts[i], n + i)], KwAnd) + [RParen]
  }

  function BranchTexts(sorts: seq<Sort>, n: nat, count: nat): (r: seq<Text>)
    requires count <= |sorts|
    ensures |r| == count
    ensures forall i :: 0 <= i < count ==> r[i] == BranchText(sorts, n, i)
  {
    seq(count, i requires 0 <= i < count => BranchText(sorts, n, i))
  }

  function KeysetText(sorts: seq<Sort>, n: nat): Text {
    Join(BranchTexts(sorts, n, |sorts|), KwOr)
  }

  lemma {:induction false} JoinAppend(parts: seq<Text>, last: Text, separator: Token)
    ensures Join(parts + [last], separator) == if parts == [] then last else Join(parts, separator) + [separator] + last
  {
    if |parts| == 1 {
      assert (parts + [last])[1..] == [last];
    } else if parts != [] {
      JoinAppend(parts[1..], last, separator);
      assert (parts + [last])[1..] == parts[1..] + [last];
      assert parts[0] + [separator] + (Join(parts[1..], separator) + [separator] + last)
          == parts[0] + [separator] + Join(parts[1..], separator) + [separator] + last;
    }
  }

  lemma {:induction false} MembershipParts(l: Layout, e: Filter, n: nat)
    requires e.Membership? && OperandType(l, e.operand).Some?
    requires ValuesBind(e.values, OperandType(l, e.operand).value) && Compiles(l, e.operand)
    ensures Compiles(l, e) && Bindings(l, e) == MemberValues(e.values, OperandType(l, e.operand).value)
            + Bindings(l, e.operand)
    ensures TextOf(l, e, n) == [LParen] + TextOf(l, e.operand, n + |e.values|) + MembershipWord(e.negated)
      + [LParen] + Join(ParameterList(n, |e.values|, OperandType(l, e.operand).value), Comma) + [RParen] + [RParen]
  {
    hide OperandType, Join, ParameterList;
  }

  lemma {:induction false} KnownAppend(l: Layout, items: Where, item: (string, Test))
    requires KnownFields(l, items) && item.0 in l.Names()
    ensures KnownFields(l, items + [item])
  {
    assert forall j :: 0 <= j < |items| ==> items[j].0 in l.Names();
  }

  lemma {:induction false} NoAtoms(n: nat)
    ensures AtomsOk([]) && AtomTexts([], n) == [] && AllAtomBindings([]) == []
  {}

  lemma {:induction false} NoItems(l: Layout)
    ensures KnownFields(l, []) && ItemAtoms(l, []) == [] && BoundsOf([]) == map[]
  {}

  lemma {:induction false} BoundsStep(items: Where, i: nat)
    requires i < |items|
    ensures BoundsOf(items[..i + 1]) ==
            if items[i].1.Tests? then BoundsOf(items[..i])[items[i].0 := FieldBounds(items[i].1)]
              else BoundsOf(items[..i])
  {
    assert items[..i + 1][..i] == items[..i];
  }

  lemma {:induction false} FieldShape(c: Column, tests: seq<(string, Json)>)
    ensures var ops := Sorting.Sort(OpOf, tests);
            && FieldAtoms(c, Tests(tests)) == TestAtoms(c.physical, c.ctype, ops)
            && FieldBounds(Tests(tests)) == (LastOf(ops, "gt", "gte"), LastOf(ops, "lt", "lte"))
  {}

  lemma {:induction false} NoTests(c: Column, ops: seq<(string, Json)>)
    ensures TestAtoms(c.physical, c.ctype, ops[..0]) == []
    ensures ops[..0] == [] && ops[..|ops|] == ops
  {}

  lemma {:induction false} TestStep(c: Column, ops: seq<(string, Json)>, i: nat)
    requires i < |ops|
    ensures var a := Atom(c.physical, c.ctype, ops[i].0, ops[i].1);
            && TestAtoms(c.physical, c.ctype, ops[..i + 1]) == TestAtoms(c.physical, c.ctype, ops[..i]) + [a]
            && (AtomsOk(TestAtoms(c.physical, c.ctype, ops)) ==> AtomOk(a))
  {
    var a := Atom(c.physical, c.ctype, ops[i].0, ops[i].1);
    assert TestAtoms(c.physical, c.ctype, ops)[i] == a;
  }

  lemma {:induction false} LastStep(ops: seq<(string, Json)>, i: nat)
    requires i <= |ops|
    ensures LastOf([], "gt", "gte") == JNull && LastOf([], "lt", "lte") == JNull
    ensures i < |ops| ==>
      && LastOf(ops[..i + 1], "gt", "gte") == (if ops[i].0 == "gt" || ops[i].0 == "gte" then ops[i].1
        else LastOf(ops[..i], "gt", "gte"))
      && LastOf(ops[..i + 1], "lt", "lte") == (if ops[i].0 == "lt" || ops[i].0 == "lte" then ops[i].1
        else LastOf(ops[..i], "lt", "lte"))
  {
    if i < |ops| {
      assert ops[..i + 1][..i] == ops[..i];
    }
  }

  lemma {:induction false} TextCount(atoms: seq<Atom>, n: nat)
    requires AtomsOk(atoms)
    ensures AtomTexts(atoms, n) == [] <==> atoms == []
  {}

  lemma {:induction false} AcceptedItem(l: Layout, items: Where, i: nat)
    requires KnownFields(l, items) && AtomsOk(ItemAtoms(l, items)) && i < |items|
    ensures AtomsOk(FieldAtoms(l.ColumnOf(items[i].0).value, items[i].1))
  {
    hide AtomOk, FieldAtoms, ItemAtoms;
    ItemsPrefix(l, items, i + 1);
    assert items[..i + 1] == items[..i] + [items[i]];
    ItemsAppend(l, items[..i], items[i]);
    var before, added := ItemAtoms(l, items[..i]), FieldAtoms(l.ColumnOf(items[i].0).value, items[i].1);
    var all := ItemAtoms(l, items);
    forall j | 0 <= j < |added| ensures AtomOk(added[j]) {
      assert added[j] == (before + added)[|before| + j] == all[|before| + j];
    }
  }

  /** A field whose own tests are refused makes the whole filter refused. */
  lemma {:induction false} RefusedField(l: Layout, where: Where, i: nat)
    requires i < |Sorting.Sort(FieldOf, where)|
    ensures var item := Sorting.Sort(FieldOf, where)[i];
            WhereOk(l, where) ==> item.0 in l.Names() && AtomsOk(FieldAtoms(l.ColumnOf(item.0).value, item.1))
  {
    hide AtomOk, FieldAtoms, Sorting.Sort, ItemAtoms;
    var items := Sorting.Sort(FieldOf, where);
    if WhereOk(l, where) {
      assert items[i].0 in l.Names();
      AcceptedItem(l, items, i);
    }
  }

  lemma {:induction false} CompileAppend(l: Layout, es: seq<Filter>, e: Filter, n: nat)
    requires AllCompile(l, es) && Compiles(l, e)
    ensures AllCompile(l, es + [e])
    ensures AllBindings(l, es + [e]) == AllBindings(l, es) + Bindings(l, e)
    ensures AllTexts(l, es + [e], n) == AllTexts(l, es, n) + [TextOf(l, e, n + |AllBindings(l, es)|)]
  {
    hide Compiles, Bindings, TextOf;
    if es == [] {
      assert es + [e] == [e];
    } else {
      CompileAppend(l, es[1..], e, n + |Bindings(l, es[0])|);
      assert (es + [e])[1..] == es[1..] + [e];
    }
  }

  lemma {:induction false} EmptyOperands(l: Layout, n: nat)
    ensures AllCompile(l, []) && AllTexts(l, [], n) == [] && AllBindings(l, []) == []
  {}

  lemma {:induction false} CompilePrefix(l: Layout, es: seq<Filter>, i: nat)
    requires i < |es|
    ensures AllCompile(l, es) ==> Compiles(l, es[i])
  {
    if i > 0 {
      CompilePrefix(l, es[1..], i - 1);
    }
  }

  class SqlCompiler {
    const layout: Layout
    var parameters: map<string, Json>
    ghost var bound: seq<Json>

    ghost predicate Consistent()
      reads this
    {
      parameters == ParameterMap(bound)
    }

    constructor (layout: Layout)
      ensures Consistent() && bound == [] && this.layout == layout
    {
      this.layout := layout;
      parameters := map[];
      bound := [];
    }

    /** `parameter`: the next number is the number of parameters so far. */
    method Parameter(value: Json, ctype: string) returns (r: Result<Token>)
      requires Consistent()
      modifies this
      ensures Consistent()
      ensures ParameterValue(value, ctype).Ok? ==>
        r == Ok(Filters.Parameter(old(|bound|), ctype)) && bound == old(bound) + [ParameterValue(value, ctype).value]
      ensures ParameterValue(value, ctype).Err? ==> r.Err? && bound == old(bound)
    {
      ParameterMapNames(bound);
      var name := ParameterName(|parameters|);
      var stored := ParameterValue(value, ctype);
      if stored.Err? { return Err(stored.error); }
      parameters := parameters[name := stored.value];
      bound := bound + [stored.value];
      assert bound[..|bound| - 1] == old(bound);
      r := Ok(Param(name, ParameterType(ctype)));
    }

    /** `expression`. On success the text and the new bindings are those of the tree; on
        refusal the earlier bindings are untouched. */
    method Expression(e: Filter) returns (r: Result<Text>)
      requires Consistent()
      modifies this
      ensures Consistent() && old(bound) <= bound
      ensures r.Ok? <==> Compiles(layout, e)
      ensures r.Ok? ==> r.value == TextOf(layout, e, old(|bound|)) && bound == old(bound) + Bindings(layout, e)
      decreases e, 1
    {
      hide ParameterMap, ParameterValue, ParameterType, ParameterName, LiteralType, ComparisonOp, Filters.Parameter,
           Join;
      match e
      case Field(qualifier, name) =>
        if qualifier.Some? && qualifier.value != layout.resource.Canonical() { return Err(UnknownField); }
        var column := layout.ColumnOf(name);
        if column.None? { return Err(UnknownField); }
        return Ok([Ident(column.value.physical)]);
      case Literal(value, kind) =>
        var token := Parameter(value, LiteralType(kind));
        if token.Err? { return Err(token.error); }
        return Ok([token.value]);
      case Binary(op, left, right) =>
        r := BinaryExpression(e);
      case Boolean(op, operands) =>
        r := BooleanExpression(e);
      case Unary(op, operand) =>
        if op != "not" { return Err(Unsupported); }
        var inner := Expression(operand);
        if inner.Err? { return inner; }
        return Ok([KwNot, LParen] + inner.value + [RParen]);
      case NullTest(operand, isNull) =>
        var inner := Expression(operand);
        if inner.Err? { return inner; }
        return Ok([LParen] + inner.value + NullTestTokens(isNull) + [RParen]);
      case Membership(operand, values, negated) =>
        r := MembershipExpression(e);
      case TimestampRange(operand, start, end, includeStart, includeEnd) =>
        r := RangeExpression(e);
      case Foreign => return Err(Unsupported);
    }

    method BooleanExpression(e: Filter) returns (r: Result<Text>)
      requires Consistent() && e.Boolean?
      modifies this
      ensures Consistent() && old(bound) <= bound
      ensures r.Ok? <==> Compiles(layout, e)
      ensures r.Ok? ==> r.value == TextOf(layout, e, old(|bound|)) && bound == old(bound) + Bindings(layout, e)
      decreases e, 0
    {
      var parts := Operands(e.operands);
      if parts.Err? { return Err(parts.error); }
      return Ok([LParen] + Join(parts.value, Connective(e.op)) + [RParen]);
    }

    method Operands(operands: seq<Filter>) returns (r: Result<seq<Text>>)
      requires Consistent()
      modifies this
      ensures Consistent() && old(bound) <= bound
      ensures r.Ok? <==> AllCompile(layout, operands)
      ensures r.Ok? ==>
              r.value == AllTexts(layout, operands, old(|bound|)) && bound == old(bound) + AllBindings(layout, operands)
      decreases operands, 0
    {
      hide AllCompile, AllTexts, AllBindings, Compiles, TextOf, Bindings, ParameterMap, ParameterValue, ParameterType,
           ParameterName, LiteralType, ComparisonOp, Filters.Parameter, Join;
      var parts: seq<Text> := [];
      EmptyOperands(layout, |bound|);
      for i := 0 to |operands|
        invariant Consistent()
        invariant AllCompile(layout, operands[..i])
        invariant parts == AllTexts(layout, operands[..i], old(|bound|))
        invariant bound == old(bound) + AllBindings(layout, operands[..i])
      {
        var part := Expression(operands[i]);
        CompilePrefix(layout, operands, i);
        if part.Err? { return Err(part.error); }
        CompileAppend(layout, operands[..i], operands[i], old(|bound|));
        assert operands[..i + 1] == operands[..i] + [operands[i]];
        parts := parts + [part.value];
      }
      assert operands[..|operands|] == operands;
      return Ok(parts);
    }

    method BinaryExpression(e: Filter) returns (r: Result<Text>)
      requires Consistent() && e.Binary?
      modifies this
      ensures Consistent() && old(bound) <= bound
      ensures r.Ok? <==> Compiles(layout, e)
      ensures r.Ok? ==> r.value == TextOf(layout, e, old(|bound|)) && bound == old(bound) + Bindings(layout, e)
      decreases e, 0
    {
      hide ParameterMap, ParameterValue, ParameterType, ParameterName, LiteralType, ComparisonOp, Filters.Parameter,
           Join;
      var left := Expression(e.left);
      if left.Err? { return left; }
      var ctype := OperandType(layout, e.left);
      if ctype.None? { return Err(Unsupported); }
      var right: Text;
      if e.right.Literal? {
        var token := Parameter(e.right.value, ctype.value);
        if token.Err? { return Err(token.error); }
        right := [token.value];
      } else {
        var text := Expression(e.right);
        if text.Err? { return text; }
        right := text.value;
      }
      var op := ComparisonOp(e.op);
      if op.None? { return Err(Unsupported); }
      return Ok([LParen] + left.value + [Op(op.value)] + right + [RParen]);
    }

    /** The list is bound before the operand is printed. */
    method MembershipExpression(e: Filter) returns (r: Result<Text>)
      requires Consistent() && e.Membership?
      modifies this
      ensures Consistent() && old(bound) <= bound
      ensures r.Ok? <==> Compiles(layout, e)
      ensures r.Ok? ==> r.value == TextOf(layout, e, old(|bound|)) && bound == old(bound) + Bindings(layout, e)
      decreases e, 0
    {
      hide ParameterMap, ParameterValue, ParameterType, ParameterName, LiteralType, ComparisonOp, Filters.Parameter,
           Join;
      var ctype := OperandType(layout, e.operand);
      if ctype.None? { return Err(Unsupported); }
      var tokens: seq<Text> := [];
      for i := 0 to |e.values|
        invariant Consistent()
        invariant ValuesBind(e.values[..i], ctype.value)
        invariant tokens == ParameterList(old(|bound|), i, ctype.value)
        invariant bound == old(bound) + MemberValues(e.values[..i], ctype.value)
      {
        if !e.values[i].Literal? { return Err(Unsupported); }
        var token := Parameter(e.values[i].value, ctype.value);
        if token.Err? { return Err(token.error); }
        tokens := tokens + [[token.value]];
        assert MemberValues(e.values[..i + 1], ctype.value)
            == MemberValues(e.values[..i], ctype.value) + [ParameterValue(e.values[i].value, ctype.value).value];
      }
      assert e.values[..|e.values|] == e.values;
      var operand := Expression(e.operand);
      if operand.Err? { return operand; }
      MembershipParts(layout, e, old(|bound|));
      return Ok([LParen] + operand.value + MembershipWord(e.negated)
                + [LParen] + Join(tokens, Comma) + [RParen] + [RParen]);
    }

    method RangeExpression(e: Filter) returns (r: Result<Text>)
      requires Consistent() && e.TimestampRange?
      modifies this
      ensures Consistent() && old(bound) <= bound
      ensures r.Ok? <==> Compiles(layout, e)
      ensures r.Ok? ==> r.value == TextOf(layout, e, old(|bound|)) && bound == old(bound) + Bindings(layout, e)
      decreases e, 0
    {
      hide ParameterMap, ParameterValue, ParameterType, ParameterName, LiteralType, ComparisonOp, Filters.Parameter,
           Join;
      var field := Expression(e.operand);
      if field.Err? { return field; }
      var ctype := OperandType(layout, e.operand);
      if ctype.None? { return Err(Unsupported); }
      var parts: seq<Text> := [];
      if e.start.Some? {
        if !e.start.value.Literal? { return Err(Unsupported); }
        var token := Parameter(e.start.value.value, ctype.value);
        if token.Err? { return Err(token.error); }
        parts := parts + [field.value + [Op(if e.includeStart then Rows.Ge else Rows.Gt), token.value]];
      }
      if e.end.Some? {
        if !e.end.value.Literal? { return Err(Unsupported); }
        var token := Parameter(e.end.value.value, ctype.value);
        if token.Err? { return Err(token.error); }
        parts := parts + [field.value + [Op(if e.includeEnd then Rows.Le else Rows.Lt), token.value]];
      }
      assert parts == RangeParts(field.value, e.start.Some?, e.end.Some?, e.includeStart, e.includeEnd,
                                 old(|bound|) + |Bindings(layout, e.operand)|, ctype.value);
      assert bound == old(bound) + (Bindings(layout, e.operand) + BoundValue(e.start, ctype.value)
        + BoundValue(e.end, ctype.value));
      return Ok([LParen] + Join(parts, KwAnd) + [RParen]);
    }

    /** One parameter for each item of a mapping-first list. */
    method Parameters(items: seq<Json>, ctype: string) returns (r: Result<seq<Text>>)
      requires Consistent()
      modifies this
      ensures Consistent() && old(bound) <= bound
      ensures r.Ok? <==> forall i :: 0 <= i < |items| ==> Binds(items[i], ctype)
      ensures r.Ok? ==>
              r.value == ParameterList(old(|bound|), |items|, ctype) && bound == old(bound) + BoundAll(items, ctype)
    {
      hide ParameterMap, ParameterValue, ParameterType, ParameterName, Filters.Parameter;
      var tokens: seq<Text> := [];
      for i := 0 to |items|
        invariant Consistent()
        invariant forall j :: 0 <= j < i ==> Binds(items[j], ctype)
        invariant tokens == ParameterList(old(|bound|), i, ctype)
        invariant bound == old(bound) + BoundAll(items[..i], ctype)
      {
        var token := Parameter(items[i], ctype);
        if token.Err? { return Err(token.error); }
        tokens := tokens + [[token.value]];
        assert BoundAll(items[..i + 1], ctype) == BoundAll(items[..i], ctype) + [ParameterValue(items[i], ctype).value];
      }
      assert items[..|items|] == items;
      return Ok(tokens);
    }

    /** One test of a mapping-first field. */
    method Condition(a: Atom) returns (r: Result<Text>)
      requires Consistent()
      modifies this
      ensures Consistent() && old(bound) <= bound
      ensures r.Ok? <==> AtomOk(a)
      ensures r.Ok? ==> r.value == AtomText(a, old(|bound|)) && bound == old(bound) + AtomBindings(a)
    {
      hide ParameterMap, ParameterValue, ParameterType, ParameterName, Filters.Parameter, Join, ComparisonOp, BoundAll,
           ParameterList;
      if a.op == "in" || a.op == "notIn" {
        if !a.value.JArr? { return Err(BadType); }
        var tokens := Parameters(a.value.items, a.ctype);
        if tokens.Err? { return Err(tokens.error); }
        if a.value.items == [] { return Err(BadSyntax); }
        return Ok([Ident(a.column)] + MembershipWord(a.op == "notIn")
          + ([LParen] + Join(tokens.value, Comma) + [RParen]));
      } else if a.op == "isNull" {
        if !a.value.JBool? { return Err(BadType); }
        return Ok([Ident(a.column)] + NullTestTokens(a.value.flag));
      } else {
        var symbol := ComparisonOp(a.op);
        if symbol.None? { return Err(Unsupported); }
        var parameter := Parameter(a.value, a.ctype);
        if parameter.Err? { return Err(parameter.error); }
        return Ok([Ident(a.column), Op(symbol.value), parameter.value]);
      }
    }

    /** The inner loop of `simple_where`: the tests of one field in the order of their names,
        remembering the last lower and the last upper candidate. */
    method FieldConditions(c: Column, tests: seq<(string, Json)>) returns (r: Result<(seq<Text>, Json, Json)>)
      requires Consistent()
      modifies this
      ensures Consistent() && old(bound) <= bound
      ensures var atoms := FieldAtoms(c, Tests(tests));
              && (r.Ok? <==> AtomsOk(atoms))
              && (r.Ok? ==> && r.value.0 == AtomTexts(atoms, old(|bound|))
                            && bound == old(bound) + AllAtomBindings(atoms)
                            && (r.value.1, r.value.2) == FieldBounds(Tests(tests)))
    {
      hide ParameterMap, AtomOk, AtomText, AtomBindings, AtomTexts, AllAtomBindings, AtomsOk, FieldAtoms, FieldBounds,
           LastOf, TestAtoms, Sorting.Sort;
      var ops := Sorting.Sort(OpOf, tests);
      FieldShape(c, tests);
      NoAtoms(|bound|);
      LastStep(ops, 0);
      NoTests(c, ops);
      var parts: seq<Text> := [];
      var lower, upper := JNull, JNull;
      for i := 0 to |ops|
        invariant Consistent()
        invariant AtomsOk(TestAtoms(c.physical, c.ctype, ops[..i]))
        invariant parts == AtomTexts(TestAtoms(c.physical, c.ctype, ops[..i]), old(|bound|))
        invariant bound == old(bound) + AllAtomBindings(TestAtoms(c.physical, c.ctype, ops[..i]))
        invariant lower == LastOf(ops[..i], "gt", "gte") && upper == LastOf(ops[..i], "lt", "lte")
      {
        var a := Atom(c.physical, c.ctype, ops[i].0, ops[i].1);
        TestStep(c, ops, i);
        var part := Condition(a);
        if part.Err? { return Err(part.error); }
        AtomsAppend(TestAtoms(c.physical, c.ctype, ops[..i]), a, old(|bound|));
        parts := parts + [part.value];
        LastStep(ops, i);
        if ops[i].0 == "gt" || ops[i].0 == "gte" { lower := ops[i].1; }
        if ops[i].0 == "lt" || ops[i].0 == "lte" { upper := ops[i].1; }
      }
      assert ops[..|ops|] == ops;
      return Ok((parts, lower, upper));
    }

    method ScalarCondition(c: Column, value: Json) returns (r: Result<seq<Text>>)
      requires Consistent()
      modifies this
      ensures Consistent() && old(bound) <= bound
      ensures var atoms := FieldAtoms(c, Scalar(value));
              && (r.Ok? <==> AtomsOk(atoms))
              && (r.Ok? ==> r.value == AtomTexts(atoms, old(|bound|)) && bound == old(bound) + AllAtomBindings(atoms))
    {
      hide ParameterMap, AtomOk, AtomText, AtomBindings;
      var a := Atom(c.physical, c.ctype, "eq", value);
      var part := Condition(a);
      assert FieldAtoms(c, Scalar(value)) == [a] && [a][1..] == [];
      assert AtomsOk([a]) ==> AtomOk([a][0]);
      if part.Err? { return Err(part.error); }
      return Ok([part.value]);
    }

    /** `simple_where`: the fields in the order of their names. */
    method SimpleWhere(where: Where) returns (r: Result<(Text, map<string, (Json, Json)>)>)
      requires Consistent()
      modifies this
      ensures Consistent() && old(bound) <= bound
      ensures r.Ok? <==> WhereOk(layout, where)
      ensures r.Ok? ==> && r.value.0 == WhereText(Atoms(layout, where), old(|bound|))
                        && r.value.1 == BoundsOf(Sorting.Sort(FieldOf, where))
                        && bound == old(bound) + AllAtomBindings(Atoms(layout, where))
    {
      hide ParameterMap, AtomOk, AtomsOk, AtomTexts, AllAtomBindings, FieldAtoms, FieldBounds, Join, ItemAtoms,
           BoundsOf, Sorting.Sort;
      var items := Sorting.Sort(FieldOf, where);
      var parts: seq<Text> := [];
      var bounds: map<string, (Json, Json)> := map[];
      NoAtoms(|bound|);
      NoItems(layout);
      for i := 0 to |items|
        invariant Consistent()
        invariant KnownFields(layout, items[..i]) && AtomsOk(ItemAtoms(layout, items[..i]))
        invariant parts == AtomTexts(ItemAtoms(layout, items[..i]), old(|bound|))
        invariant bound == old(bound) + AllAtomBindings(ItemAtoms(layout, items[..i]))
        invariant bounds == BoundsOf(items[..i])
      {
        var item := items[i];
        var column := layout.ColumnOf(item.0);
        if column.None? { return Err(UnknownField); }
        assert items[..i + 1] == items[..i] + [item];
        KnownAppend(layout, items[..i], item);
        ItemsAppend(layout, items[..i], item);
        BoundsStep(items, i);
        ghost var before, added := ItemAtoms(layout, items[..i]), FieldAtoms(column.value, item.1);
        RefusedField(layout, where, i);
        match item.1 {
          case Scalar(value) =>
            var part := ScalarCondition(column.value, value);
            if part.Err? { return Err(part.error); }
            parts := parts + part.value;
          case Tests(ops) =>
            var tests := FieldConditions(column.value, ops);
            if tests.Err? { return Err(tests.error); }
            parts := parts + tests.value.0;
            bounds := bounds[item.0 := (tests.value.1, tests.value.2)];
        }
        AtomsConcat(before, added, old(|bound|));
      }
      assert items[..|items|] == items;
      TextCount(Atoms(layout, where), old(|bound|));
      return Ok((if parts != [] then Join(parts, KwAnd) else [One], bounds));
    }

    /** `keyset`: one branch per sort column; parameters are shared between branches. */
    method Keyset(sorts: seq<Sort>, values: seq<Json>) returns (r: Result<Text>)
      requires Consistent()
      modifies this
      ensures Consistent() && old(bound) <= bound
      ensures r.Ok? <==> KeysetBinds(sorts, values)
      ensures r.Ok? ==>
              r.value == KeysetText(sorts, old(|bound|)) && bound == old(bound) + KeysetBindings(sorts, values)
    {
      hide ParameterMap, ParameterValue, ParameterType, ParameterName, Filters.Parameter, Join, PhysicalRowFingerprint;
      if |sorts| != |values| { return Err(BadCursor); }
      var branches: seq<Text> := [];
      var equal: seq<Text> := [];
      for i := 0 to |sorts|
        invariant Consistent()
        invariant KeysetBinds(sorts[..i], values[..i])
        invariant branches == BranchTexts(sorts, old(|bound|), i)
        invariant equal == EqualParts(sorts, old(|bound|), i)
        invariant bound == old(bound) + KeysetBindings(sorts[..i], values[..i])
      {
        var value := values[i];
        if sorts[i].column == HIDDEN_ROW {
          var digest := PhysicalRowFingerprint(value);
          if digest.Err? { return Err(digest.error); }
          value := JStr(digest.value);
        }
        var parameter := Parameter(value, sorts[i].ctype);
        if parameter.Err? { return Err(parameter.error); }
        var comparison := if sorts[i].descending then Rows.Lt else Rows.Gt;
        branches := branches
          + [[LParen] + Join(equal + [[Ident(sorts[i].column), Op(comparison), parameter.value]], KwAnd) + [RParen]];
        equal := equal + [[Ident(sorts[i].column), Op(Rows.Eq), parameter.value]];
        assert KeysetBindings(sorts[..i + 1], values[..i + 1])
            == KeysetBindings(sorts[..i], values[..i]) + [BoundCursorValue(sorts[i], values[i]).value];
      }
      assert sorts[..|sorts|] == sorts && values[..|values|] == values;
      return Ok(Join(branches, KwOr));
    }
  }

  // ---- Parameter types ------------------------------------------------------

  /** A type under `k` nullable wrappers. */
  function Nullables(k: nat, t: string): string {
    if k == 0 then t else "Nullable(" + Nullables(k - 1, t) + ")"
  }

  /** `t` is `inner` under `k` nullable wrappers, and `inner`, which is not nullable itself, is
      `r` or a low-cardinality `r`. */
  ghost predicate StripsTo(t: string, k: nat, inner: string, r: string) {
    && t == Nullables(k, inner) && !HasWrapper(inner, "Nullable(")
    && inner == if HasWrapper(inner, "LowCardinality(") then "LowCardinality(" + r + ")" else r
  }

  lemma {:induction false} WrapperAround(t: string, wrapper: string)
    ensures HasWrapper(wrapper + t + ")", wrapper) && Unwrapped(wrapper + t + ")", wrapper) == t
  {
    assert wrapper + t + ")" == wrapper + (t + ")");
  }

  lemma {:induction false} NullablesStripped(k: nat, inner: string)
    requires !HasWrapper(inner, "Nullable(")
    ensures StripNullable(Nullables(k, inner)) == inner
  {
    hide HasWrapper, Unwrapped;
    if k > 0 {
      NullablesStripped(k - 1, inner);
      WrapperAround(Nullables(k - 1, inner), "Nullable(");
    }
  }

  /** A parameter type is what is left of a column type without its wrappers, and there is only
      one way to take them off. */
  lemma {:induction false} StripsToOne(t: string, k: nat, inner: string, r: string)
    requires StripsTo(t, k, inner, r)
    ensures ParameterType(t) == r
  {
    hide HasWrapper, Unwrapped;
    NullablesStripped(k, inner);
    if HasWrapper(inner, "LowCardinality(") { WrapperAround(r, "LowCardinality("); }
  }

  lemma {:induction false} InsideWrapper(t: string, wrapper: string)
    requires HasWrapper(t, wrapper)
    ensures t == wrapper + Unwrapped(t, wrapper) + ")"
  {}

  lemma {:induction false} OneMoreNullable(k: nat, t: string)
    requires HasWrapper(t, "Nullable(")
    ensures Nullables(k, t) == Nullables(k + 1, Unwrapped(t, "Nullable("))
  {
    hide HasWrapper, Unwrapped;
    if k == 0 { InsideWrapper(t, "Nullable("); } else { OneMoreNullable(k - 1, t); }
  }

  /** `_parameter_type`, with its loop. */
  method StripType(t: string) returns (r: string)
    ensures exists k: nat, inner: string :: StripsTo(t, k, inner, r)
    ensures r == ParameterType(t)
  {
    hide HasWrapper, Unwrapped;
    r := t;
    ghost var k: nat := 0;
    while HasWrapper(r, "Nullable(")
      invariant t == Nullables(k, r)
      decreases |r|
    {
      OneMoreNullable(k, r);
      k := k + 1;
      r := Unwrapped(r, "Nullable(");
    }
    ghost var inner := r;
    if HasWrapper(r, "LowCardinality(") {
      InsideWrapper(r, "LowCardinality(");
      r := Unwrapped(r, "LowCardinality(");
    }
    assert StripsTo(t, k, inner, r);
    StripsToOne(t, k, inner, r);
  }
}
