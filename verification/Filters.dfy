/** The filter tree of a query plan, the text it is compiled to, and its own meaning. */
module Filters {
  import opened Common
  import opened Rows
  import opened Layouts
  import opened Sql
  import opened Timestamps
  import Decimal

  /** Query expressions; `Foreign` stands for any class that the adapter does not advertise. */
  datatype Filter =
    | Field(qualifier: Option<string>, name: string)
    | Literal(value: Json, kind: string)
    | Binary(op: string, left: Filter, right: Filter)
    | Boolean(op: string, operands: seq<Filter>)
    | Unary(op: string, operand: Filter)
    | NullTest(operand: Filter, isNull: bool)
    | Membership(operand: Filter, values: seq<Filter>, negated: bool)
    | TimestampRange(operand: Filter, start: Option<Filter>, end: Option<Filter>, includeStart: bool, includeEnd: bool)
    | Foreign

  // ---- Parameters -----------------------------------------------------------

  function StripNullable(t: string): string
    decreases |t|
  {
    if HasWrapper(t, "Nullable(") then StripNullable(Unwrapped(t, "Nullable(")) else t
  }

  /** `_parameter_type`: all nullable wrappers, then one low-cardinality wrapper. */
  function ParameterType(t: string): string {
    var inner := StripNullable(t);
    if HasWrapper(inner, "LowCardinality(") then Unwrapped(inner, "LowCardinality(") else inner
  }

  lemma {:induction false} StorableTicks(text: string)
    ensures TimestampNanoseconds(text).Ok? ==> Storable(TimestampNanoseconds(text).value)
  {}

  /** `_parameter_value`: timestamp text is replaced by the parameter spelling of its ticks. */
  function ParameterValue(value: Json, ctype: string): Result<Json> {
    if "DateTime" <= ParameterType(ctype) && value.JStr? then
      var ticks :- TimestampNanoseconds(value.text);
      StorableTicks(value.text);
      Ok(JStr(TimestampText(ticks, true)))
    else Ok(value)
  }

  predicate Binds(value: Json, ctype: string) { ParameterValue(value, ctype).Ok? }

  function ParameterName(i: nat): string { "p" + Decimal.Natural(i) }

  lemma {:induction false} ParameterNameInjective(i: nat, j: nat)
    ensures ParameterName(i) == ParameterName(j) <==> i == j
  {
    if ParameterName(i) == ParameterName(j) {
      assert Decimal.Natural(i) == ParameterName(i)[1..] && Decimal.Natural(j) == ParameterName(j)[1..];
      Decimal.NumberOfNatural(i);
      Decimal.NumberOfNatural(j);
    }
  }

  function Parameter(i: nat, ctype: string): Token { Param(ParameterName(i), ParameterType(ctype)) }

  // ---- Types ----------------------------------------------------------------

  /** `_literal_type`. */
  function LiteralType(kind: string): string {
    match kind
    case "boolean" => "Bool"
    case "date" => "Date32"
    case "decimal" => "Decimal256(18)"
    case "float64" => "Float64"
    case "int16" => "Int16"
    case "int32" => "Int32"
    case "int64" => "Int64"
    case "int8" => "Int8"
    case "utcTimestamp" => TIMESTAMP_TYPE
    case "uuid" => "UUID"
    case _ => "String"
  }

  /** `_operand_type`: only fields and literals have one. */
  function OperandType(l: Layout, e: Filter): Option<string> {
    match e
    case Field(_, name) =>
      (match l.ColumnOf(name) case Some(c) => Some(c.ctype) case None => None)
    case Literal(_, kind) => Some(LiteralType(kind))
    case _ => None
  }

  function ComparisonOp(op: string): Option<CompareOp> {
    match op
    case "eq" => Some(Eq)
    case "ne" => Some(Ne)
    case "lt" => Some(Lt)
    case "lte" => Some(Le)
    case "gt" => Some(Gt)
    case "gte" => Some(Ge)
    case _ => None
  }

  // ---- Acceptance -----------------------------------------------------------

  predicate BoundOk(b: Option<Filter>, ctype: string) {
    b.Some? ==> b.value.Literal? && Binds(b.value.value, ctype)
  }

  predicate ValuesBind(values: seq<Filter>, ctype: string) {
    forall i :: 0 <= i < |values| ==> values[i].Literal? && Binds(values[i].value, ctype)
  }

  /** The trees that the compiler accepts. */
  predicate Compiles(l: Layout, e: Filter)
    decreases e
  {
    match e
    case Field(qualifier, name) =>
      (qualifier == None || qualifier == Some(l.resource.Canonical())) && name in l.Names()
    case Literal(value, kind) => Binds(value, LiteralType(kind))
    case Binary(op, left, right) =>
      && Compiles(l, left)
      && OperandType(l, left).Some?
      && (if right.Literal? then Binds(right.value, OperandType(l, left).value) else Compiles(l, right))
      && ComparisonOp(op).Some?
    case Boolean(_, operands) => AllCompile(l, operands)
    case Unary(op, operand) => op == "not" && Compiles(l, operand)
    case NullTest(operand, _) => Compiles(l, operand)
    case Membership(operand, values, _) =>
      && OperandType(l, operand).Some?
      && ValuesBind(values, OperandType(l, operand).value)
      && Compiles(l, operand)
    case TimestampRange(operand, start, end, _, _) =>
      && Compiles(l, operand)
      && OperandType(l, operand).Some?
      && BoundOk(start, OperandType(l, operand).value)
      && BoundOk(end, OperandType(l, operand).value)
    case Foreign => false
  }

  predicate AllCompile(l: Layout, es: seq<Filter>)
    decreases es
  {
    es == [] || (Compiles(l, es[0]) && AllCompile(l, es[1..]))
  }

  // ---- The emitted text and bindings ----------------------------------------

  function BoundValue(b: Option<Filter>, ctype: string): seq<Json>
    requires BoundOk(b, ctype)
  {
    if b.Some? then [ParameterValue(b.value.value, ctype).value] else []
  }

  function MemberValues(values: seq<Filter>, ctype: string): (r: seq<Json>)
    requires ValuesBind(values, ctype)
    ensures |r| == |values|
  {
    seq(|values|, i requires 0 <= i < |values| => ParameterValue(values[i].value, ctype).value)
  }

  /** The values that the compilation binds, in binding order. */
  function Bindings(l: Layout, e: Filter): seq<Json>
    requires Compiles(l, e)
    decreases e
  {
    match e
    case Field(_, _) => []
    case Literal(value, kind) => [ParameterValue(value, LiteralType(kind)).value]
    case Binary(_, left, right) =>
      Bindings(l, left)
      + (if right.Literal? then [ParameterValue(right.value, OperandType(l, left).value).value] else Bindings(l, right))
    case Boolean(_, operands) => AllBindings(l, operands)
    case Unary(_, operand) => Bindings(l, operand)
    case NullTest(operand, _) => Bindings(l, operand)
    case Membership(operand, values, _) =>
      MemberValues(values, OperandType(l, operand).value) + Bindings(l, operand)
    case TimestampRange(operand, start, end, _, _) =>
      var ctype := OperandType(l, operand).value;
      Bindings(l, operand) + BoundValue(start, ctype) + BoundValue(end, ctype)
  }

  function AllBindings(l: Layout, es: seq<Filter>): seq<Json>
    requires AllCompile(l, es)
    decreases es
  {
    if es == [] then [] else Bindings(l, es[0]) + AllBindings(l, es[1..])
  }

  function ParameterList(n: nat, count: nat, ctype: string): (r: seq<Text>)
    ensures |r| == count
    ensures forall i :: 0 <= i < count ==> r[i] == [Parameter(n + i, ctype)]
  {
    seq(count, i requires 0 <= i < count => [Parameter(n + i, ctype)])
  }

  function RangeParts(field: Text, start: bool, end: bool, includeStart: bool, includeEnd: bool, n: nat,
                      ctype: string): seq<Text> {
    (if start then [field + [Op(if includeStart then Ge else Gt), Parameter(n, ctype)]] else [])
    + (if end then [field + [Op(if includeEnd then Le else Lt), Parameter(n + (if start then 1 else 0), ctype)]]
      else [])
  }

  function NullTestTokens(isNull: bool): (t: Text)
    ensures t != []
  {
    if isNull then [KwIs, KwNull] else [KwIs, KwNot, KwNull]
  }

  function MembershipWord(negated: bool): Text { if negated then [KwNot, KwIn] else [KwIn] }

  function Connective(op: string): Token { if op == "and" then KwAnd else KwOr }

  /** The text of an accepted tree when the next free parameter number is `n`. */
  function TextOf(l: Layout, e: Filter, n: nat): Text
    requires Compiles(l, e)
    decreases e, 0
  {
    match e
    case Field(_, name) => [Ident(l.Physical(name))]
    case Literal(_, kind) => [Parameter(n, LiteralType(kind))]
    case Binary(op, left, right) =>
      [LParen] + TextOf(l, left, n) + [Op(ComparisonOp(op).value)] + RightText(l, left, right, n) + [RParen]
    case Boolean(op, operands) => [LParen] + Join(AllTexts(l, operands, n), Connective(op)) + [RParen]
    case Unary(_, operand) => [KwNot, LParen] + TextOf(l, operand, n) + [RParen]
    case NullTest(operand, isNull) =>
      [LParen] + TextOf(l, operand, n) + NullTestTokens(isNull) + [RParen]
    case Membership(operand, values, negated) =>
      [LParen] + TextOf(l, operand, n + |values|) + MembershipWord(negated)
      + [LParen] + Join(ParameterList(n, |values|, OperandType(l, operand).value), Comma) + [RParen] + [RParen]
    case TimestampRange(operand, start, end, includeStart, includeEnd) =>
      [LParen]
      + Join(RangeParts(TextOf(l, operand, n), start.Some?, end.Some?, includeStart, includeEnd,
                        n + |Bindings(l, operand)|, OperandType(l, operand).value), KwAnd)
      + [RParen]
  }

  function RightText(l: Layout, left: Filter, right: Filter, n: nat): Text
    requires Compiles(l, left) && OperandType(l, left).Some?
    requires if right.Literal? then Binds(right.value, OperandType(l, left).value) else Compiles(l, right)
    decreases right, 1
  {
    var m := n + |Bindings(l, left)|;
    if right.Literal? then [Parameter(m, OperandType(l, left).value)] else TextOf(l, right, m)
  }

  function AllTexts(l: Layout, es: seq<Filter>, n: nat): (r: seq<Text>)
    requires AllCompile(l, es)
    ensures |r| == |es|
    decreases es, 0
  {
    if es == [] then [] else [TextOf(l, es[0], n)] + AllTexts(l, es[1..], n + |Bindings(l, es[0])|)
  }

  // ---- The condition that the tree stands for -------------------------------

  /** The literal `value` under a column type; timestamps are instants. */
  function LiteralMeaning(value: Json, ctype: string): Value {
    if "DateTime" <= ParameterType(ctype) && value.JStr? then
      match TimestampNanoseconds(value.text)
      case Ok(ticks) => TimeV(ticks)
      case Err(_) => Null
    else Denote(ParameterType(ctype), value)
  }

  function BoundMeaning(b: Option<Filter>, ctype: string): Value
    requires BoundOk(b, ctype) && b.Some?
  {
    LiteralMeaning(b.value.value, ctype)
  }

  function RangeMeaning(v: Value, ctype: string, start: Option<Filter>, end: Option<Filter>, includeStart: bool,
                        includeEnd: bool): Value
    requires BoundOk(start, ctype) && BoundOk(end, ctype)
  {
    if start == None && end == None then Null
    else if end == None then Compare(if includeStart then Ge else Gt, v, BoundMeaning(start, ctype))
    else if start == None then Compare(if includeEnd then Le else Lt, v, BoundMeaning(end, ctype))
    else And3(Compare(if includeStart then Ge else Gt, v, BoundMeaning(start, ctype)),
              Compare(if includeEnd then Le else Lt, v, BoundMeaning(end, ctype)))
  }

  function Conjunction(acc: Value, values: seq<Value>): Value
    decreases |values|
  {
    if values == [] then acc else Conjunction(And3(acc, values[0]), values[1..])
  }

  function Disjunction(acc: Value, values: seq<Value>): Value
    decreases |values|
  {
    if values == [] then acc else Disjunction(Or3(acc, values[0]), values[1..])
  }

  /** Three-valued evaluation of the tree itself on a stored row. */
  function Meaning(l: Layout, e: Filter, row: Row): Value
    requires Compiles(l, e)
    decreases e
  {
    match e
    case Field(_, name) => Cell(row, l.Physical(name))
    case Literal(value, kind) => LiteralMeaning(value, LiteralType(kind))
    case Binary(op, left, right) =>
      Compare(ComparisonOp(op).value, Meaning(l, left, row),
              if right.Literal? then LiteralMeaning(right.value, OperandType(l, left).value)
                else Meaning(l, right, row))
    case Boolean(op, operands) =>
      var values := AllMeanings(l, operands, row);
      if values == [] then Null
      else if op == "and" then Conjunction(values[0], values[1..]) else Disjunction(values[0], values[1..])
    case Unary(_, operand) => Not3(Meaning(l, operand, row))
    case NullTest(operand, isNull) => BoolV(Meaning(l, operand, row).Null? == isNull)
    case Membership(operand, values, negated) =>
      var ctype := OperandType(l, operand).value;
      var hit := In3(Meaning(l, operand, row),
                     seq(|values|, i requires 0 <= i < |values|
                         && values[i].Literal? => LiteralMeaning(values[i].value, ctype)));
      if negated then Not3(hit) else hit
    case TimestampRange(operand, start, end, includeStart, includeEnd) =>
      RangeMeaning(Meaning(l, operand, row), OperandType(l, operand).value, start, end, includeStart, includeEnd)
  }

  function AllMeanings(l: Layout, es: seq<Filter>, row: Row): (r: seq<Value>)
    requires AllCompile(l, es)
    ensures |r| == |es|
    decreases es
  {
    if es == [] then [] else [Meaning(l, es[0], row)] + AllMeanings(l, es[1..], row)
  }

  /** A conjunction is true when all parts are, and false as soon as one part is. */
  lemma {:induction false} ConjunctionTruth(acc: Value, values: seq<Value>)
    ensures True(Conjunction(acc, values)) <==> True(acc) && forall i :: 0 <= i < |values| ==> True(values[i])
    ensures Truth(Conjunction(acc, values)) == Some(false) <==>
            Truth(acc) == Some(false) || exists i :: 0 <= i < |values| && Truth(values[i]) == Some(false)
    decreases |values|
  {
    if values != [] {
      ConjunctionTruth(And3(acc, values[0]), values[1..]);
      assert values == [values[0]] + values[1..];
      if Truth(values[0]) != Some(false) && exists i :: 0 <= i < |values| && Truth(values[i]) == Some(false) {
        var i :| 0 <= i < |values| && Truth(values[i]) == Some(false);
        assert values[1..][i - 1] == values[i];
      }
    }
  }

  /** A disjunction is true as soon as one part is, and false when all parts are. */
  lemma {:induction false} DisjunctionTruth(acc: Value, values: seq<Value>)
    ensures True(Disjunction(acc, values)) <==> True(acc) || exists i :: 0 <= i < |values| && True(values[i])
    ensures Truth(Disjunction(acc, values)) == Some(false) <==>
            Truth(acc) == Some(false) && forall i :: 0 <= i < |values| ==> Truth(values[i]) == Some(false)
    decreases |values|
  {
    if values != [] {
      DisjunctionTruth(Or3(acc, values[0]), values[1..]);
      assert values == [values[0]] + values[1..];
      if !True(values[0]) && exists i :: 0 <= i < |values| && True(values[i]) {
        var i :| 0 <= i < |values| && True(values[i]);
        assert values[1..][i - 1] == values[i];
      }
    }
  }
}
