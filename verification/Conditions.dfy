/** What filters say, in the names of their operators: a reference semantics that shares no
    operator table with the compiler. */
module Conditions {
  import opened Common
  import opened Rows
  import opened Layouts
  import opened Sorting
  import opened Filters
  import opened FilterReading
  import opened MappingFirst
  import opened MappingReading
  import opened Timestamps
  import opened ColumnTypes
  import Sql

  // ---- Literals -------------------------------------------------------------

  /** The type inside all nullable wrappers. */
  function Inner(t: TypeTree): TypeTree {
    match t
    case NullableOf(item) => Inner(item)
    case _ => t
  }

  /** Types that do not begin like another wrapper, by their first letters. */
  lemma {:induction false} FirstLetters(t: TypeTree)
    requires Formed(t) && !t.NullableOf?
    ensures !HasWrapper(Spelled(t), "Nullable(")
    ensures HasWrapper(Spelled(t), "LowCardinality(") <==> t.Dictionary?
    ensures "DateTime" <= Spelled(t) <==> t == Plain("DateTime64(9, 'UTC')")
    ensures "Int" <= Spelled(t) <==> t.Plain? && t.name in ["Int8", "Int16", "Int32", "Int64"]
    ensures Spelled(t) == "Bool" <==> t == Plain("Bool")
    ensures Spelled(t) == "String" <==> t == Plain("String")
  {
    var s := Spelled(t);
    match t
    case Plain(name) =>
      var n := "Nullable(";
      assert n[0] == 'N' && s[0] != 'N';
    case Dictionary => assert s[0] == 'L' && "String"[0] == 'S' && "Bool"[0] == 'B';
    case DecimalOf(p, s') => assert s[0] == 'D' && s[1] == 'e' && "DateTime"[1] == 'a' && "String"[0] == 'S';
    case ArrayOf(item) => assert s[0] == 'A' && "DateTime"[0] == 'D' && "String"[0] == 'S' && "Bool"[0] == 'B';
  }

  lemma {:induction false} WrappedIs(t: string)
    ensures var w := "Nullable(" + t + ")"; HasWrapper(w, "Nullable(") && Unwrapped(w, "Nullable(") == t
  {}

  lemma {:induction false} DictionaryIs()
    ensures HasWrapper("LowCardinality(String)", "LowCardinality(")
    ensures Unwrapped("LowCardinality(String)", "LowCardinality(") == "String"
  {}

  /** Parameters are bound under the type inside, and a dictionary of text as text. */
  lemma {:induction false} ParameterTypeOf(t: TypeTree)
    requires Formed(t)
    ensures ParameterType(Spelled(t)) == if Inner(t).Dictionary? then "String" else Spelled(Inner(t))
    ensures Formed(Inner(t)) && !Inner(t).NullableOf?
  {
    hide HasWrapper;
    match t
    case NullableOf(item) =>
      ParameterTypeOf(item);
      WrappedIs(Spelled(item));
    case _ =>
      FirstLetters(t);
      DictionaryIs();
  }

  lemma {:induction false} TextTypes()
    ensures !("DateTime" <= "String") && !("Int" <= "String") && !("Int" <= "DateTime64(9, 'UTC')")
    ensures !("DateTime" <= "Bool")
  {
    var whole, date, text := "Int", "DateTime64(9, 'UTC')", "String";
    assert whole[0] == 'I' && date[0] == 'D' && text[0] == 'S';
  }

  /** What a literal stands for under each column type: instants for timestamps, text, truth
      values and integers under their own types, and null for null. */
  lemma {:induction false} LiteralUnder(t: TypeTree, value: Json)
    requires Formed(t)
    ensures var v, inner := LiteralMeaning(value, Spelled(t)), Inner(t);
            && (value.JNull? ==> v == Null)
            && (value.JStr? && (inner == Plain("String") || inner == Dictionary) ==> v == StrV(value.text))
            && (value.JBool? && inner == Plain("Bool") ==> v == BoolV(value.flag))
            && (value.JInt? && inner.Plain? && inner.name in ["Int8", "Int16", "Int32", "Int64"] ==>
                  v == IntV(value.number))
            && (value.JStr? && inner == Plain("DateTime64(9, 'UTC')") && TimestampNanoseconds(value.text).Ok? ==>
                  v == TimeV(TimestampNanoseconds(value.text).value))
  {
    hide TimestampNanoseconds, ParameterType;
    ParameterTypeOf(t);
    FirstLetters(Inner(t));
    TextTypes();
  }

  /** A literal can be bound unless it is text for a timestamp column that is no instant. */
  lemma {:induction false} BindsUnder(t: TypeTree, value: Json)
    requires Formed(t)
    ensures Binds(value, Spelled(t)) <==>
            !(Inner(t) == Plain("DateTime64(9, 'UTC')") && value.JStr? && TimestampNanoseconds(value.text).Err?)
  {
    hide TimestampNanoseconds, ParameterType, TimestampText;
    ParameterTypeOf(t);
    FirstLetters(Inner(t));
    TextTypes();
  }

  // ---- Operators ------------------------------------------------------------

  const COMPARISONS := {"eq", "ne", "lt", "lte", "gt", "gte"}

  /** The order of values of one kind: false before true, numbers and instants by size, text
      by code point. */
  predicate Below(v: Value, w: Value) {
    || (v.BoolV? && w.BoolV? && !v.flag && w.flag)
    || (v.IntV? && w.IntV? && v.number < w.number)
    || (v.TimeV? && w.TimeV? && v.ticks < w.ticks)
    || (v.StrV? && w.StrV? && TextLess(v.text, w.text))
  }

  /** Conditions take truth values, and integers other than zero as true. */
  lemma {:induction false} TruthInWords(v: Value, truth: bool)
    ensures Truth(v) == Some(truth) <==> v == BoolV(truth) || (v.IntV? && (v.number == 0) != truth)
  {}

  /** The comparison that a name stands for. */
  predicate Stands(op: string, v: Value, w: Value) {
    || (op == "eq" && v == w)
    || (op == "ne" && v != w)
    || (op == "lt" && Below(v, w))
    || (op == "lte" && (Below(v, w) || v == w))
    || (op == "gt" && Below(w, v))
    || (op == "gte" && (Below(w, v) || v == w))
  }

  /** A comparison with a null is neither true nor false. */
  predicate Compared(op: string, v: Value, w: Value, truth: bool) {
    !v.Null? && !w.Null? && Stands(op, v, w) == truth
  }

  lemma {:induction false} OperatorNames(op: string)
    ensures ComparisonOp(op).Some? <==> op in COMPARISONS
  {}

  lemma {:induction false} OperatorsDiffer()
    ensures |"eq"| == |"ne"| == |"lt"| == |"gt"| == 2 && |"lte"| == |"gte"| == 3
    ensures "eq"[0] == 'e' && "ne"[0] == 'n' && "lt"[0] == 'l' && "gt"[0] == 'g' && "lte"[0] == 'l' && "gte"[0] == 'g'
  {}

  /** The compiler's comparison is the named one. */
  lemma {:induction false} ComparisonMeans(op: string, v: Value, w: Value)
    requires op in COMPARISONS
    ensures ComparisonOp(op).Some?
    ensures var r := Compare(ComparisonOp(op).value, v, w);
            && (r.Null? || r.BoolV?)
            && (forall truth :: r == BoolV(truth) <==> Compared(op, v, w, truth))
  {
    OperatorNames(op);
    OperatorsDiffer();
  }

  // ---- Wire filters ---------------------------------------------------------

  /** The value of an operand: a cell, a literal, or the truth value of a condition. */
  ghost function ValueOf(l: Layout, e: Filter, row: Row): Value
    decreases e, 1
  {
    if e.Field? then (if e.name in l.Names() then Cell(row, l.Physical(e.name)) else Null)
    else if e.Literal? then LiteralMeaning(e.value, LiteralType(e.kind))
    else if e.Boolean? && |e.operands| == 1 then ValueOf(l, e.operands[0], row)
    else if Says(l, e, row, true) then BoolV(true)
    else if Says(l, e, row, false) then BoolV(false)
    else Null
  }

  /** A literal is read under the type of the operand beside it. */
  function TypeOf(l: Layout, e: Filter): string {
    match OperandType(l, e) case Some(ctype) => ctype case None => ""
  }

  ghost function RightValue(l: Layout, left: Filter, right: Filter, row: Row): Value
    decreases right, 2
  {
    if right.Literal? then LiteralMeaning(right.value, TypeOf(l, left)) else ValueOf(l, right, row)
  }

  /** A present bound that `v` meets, or violates. */
  predicate BoundSays(b: Option<Filter>, op: string, v: Value, ctype: string, truth: bool) {
    b.Some? && b.value.Literal? && Compared(op, v, LiteralMeaning(b.value.value, ctype), truth)
  }

  predicate ItemEquals(v: Value, item: Filter, ctype: string) {
    item.Literal? && v == LiteralMeaning(item.value, ctype)
  }

  predicate ItemDiffers(v: Value, item: Filter, ctype: string) {
    item.Literal? && !LiteralMeaning(item.value, ctype).Null? && v != LiteralMeaning(item.value, ctype)
  }

  /** The filter is true of the row, or false of it; with a null it may be neither. */
  ghost predicate Says(l: Layout, e: Filter, row: Row, truth: bool)
    decreases e, 0
  {
    match e
    case Field(_, name) => name in l.Names() && Truth(Cell(row, l.Physical(name))) == Some(truth)
    case Literal(value, kind) => Truth(LiteralMeaning(value, LiteralType(kind))) == Some(truth)
    case Binary(op, left, right) => Compared(op, ValueOf(l, left, row), RightValue(l, left, right, row), truth)
    case Boolean(op, es) =>
      if (op == "and") == truth then es != [] && forall i :: 0 <= i < |es| ==> Says(l, es[i], row, truth)
      else exists i :: 0 <= i < |es| && Says(l, es[i], row, truth)
    case Unary(_, x) => Says(l, x, row, !truth)
    case NullTest(x, isNull) => (ValueOf(l, x, row).Null? == isNull) == truth
    case Membership(x, values, negated) =>
      var v := ValueOf(l, x, row);
      && !v.Null?
      && if negated != truth then exists i :: 0 <= i < |values| && ItemEquals(v, values[i], TypeOf(l, x))
         else forall i :: 0 <= i < |values| ==> ItemDiffers(v, values[i], TypeOf(l, x))
    case TimestampRange(x, start, end, includeStart, includeEnd) =>
      var v, ctype := ValueOf(l, x, row), TypeOf(l, x);
      var lower := BoundSays(start, if includeStart then "gte" else "gt", v, ctype, truth);
      var upper := BoundSays(end, if includeEnd then "lte" else "lt", v, ctype, truth);
      if truth then (start.Some? || end.Some?) && (start == None || lower) && (end == None || upper)
      else lower || upper
    case Foreign => false
  }

  lemma {:induction false} AllSay(l: Layout, es: seq<Filter>, row: Row)
    requires AllCompile(l, es)
    ensures var values := AllMeanings(l, es, row);
            && (forall i :: 0 <= i < |es| ==> Compiles(l, es[i]) && values[i] == Meaning(l, es[i], row))
            && (forall i :: 0 <= i < |es| ==> values[i] == ValueOf(l, es[i], row))
            && (forall i, truth :: 0 <= i < |es| ==> (Truth(values[i]) == Some(truth) <==> Says(l, es[i], row, truth)))
    decreases es, 0
  {
    hide Meaning, ValueOf, Says, Compiles;
    if es != [] {
      MeaningSays(l, es[0], row);
      AllSay(l, es[1..], row);
      var values, more := AllMeanings(l, es, row), AllMeanings(l, es[1..], row);
      assert values == [values[0]] + more;
      forall i | 0 < i < |es| ensures es[i] == es[1..][i - 1] && values[i] == more[i - 1] {}
    }
  }

  /** The value of a condition is what it says. */
  lemma {:induction false} ConditionValue(l: Layout, e: Filter, row: Row, r: Value)
    requires !e.Field? && !e.Literal? && !(e.Boolean? && |e.operands| == 1)
    requires r.Null? || r.BoolV?
    requires forall truth :: r == BoolV(truth) <==> Says(l, e, row, truth)
    ensures r == ValueOf(l, e, row)
    ensures forall truth :: Truth(r) == Some(truth) <==> Says(l, e, row, truth)
  {
    hide Says;
    assert Truth(r) == (if r.BoolV? then Some(r.flag) else None);
    assert Says(l, e, row, true) <==> r == BoolV(true);
    assert Says(l, e, row, false) <==> r == BoolV(false);
  }

  lemma {:induction false} BooleanTruth(r: Value)
    requires r.Null? || r.BoolV?
    ensures forall truth :: Truth(r) == Some(truth) <==> r == BoolV(truth)
  {}

  lemma {:induction false} OneOperand(l: Layout, op: string, es: seq<Filter>, row: Row, values: seq<Value>)
    requires |es| == |values| == 1
    ensures ValueOf(l, Boolean(op, es), row) == ValueOf(l, es[0], row)
    ensures Conjunction(values[0], values[1..]) == values[0] == Disjunction(values[0], values[1..])
  {
    hide Says;
    assert values[1..] == [];
  }

  lemma {:induction false} SaysOfBoolean(l: Layout, op: string, es: seq<Filter>, row: Row)
    ensures forall truth :: Says(l, Boolean(op, es), row, truth) <==>
              if (op == "and") == truth then es != [] && forall i :: 0 <= i < |es| ==> Says(l, es[i], row, truth)
              else exists i :: 0 <= i < |es| && Says(l, es[i], row, truth)
  {}

  ghost predicate FoldSays(op: string, values: seq<Value>, truth: bool) {
    if (op == "and") == truth then forall i :: 0 <= i < |values| ==> Truth(values[i]) == Some(truth)
    else exists i :: 0 <= i < |values| && Truth(values[i]) == Some(truth)
  }

  lemma {:induction false} SameSaying(l: Layout, op: string, es: seq<Filter>, row: Row, values: seq<Value>)
    requires es != [] && |values| == |es|
    requires forall i, truth :: 0 <= i < |es| ==> (Truth(values[i]) == Some(truth) <==> Says(l, es[i], row, truth))
    ensures forall truth :: FoldSays(op, values, truth) <==> Says(l, Boolean(op, es), row, truth)
  {
    hide Says, Truth;
    SaysOfBoolean(l, op, es, row);
    forall truth ensures FoldSays(op, values, truth) <==> Says(l, Boolean(op, es), row, truth) {
      forall i | 0 <= i < |es| ensures Truth(values[i]) == Some(truth) <==> Says(l, es[i], row, truth) {}
      assert |es| > 0;
    }
  }

  lemma {:induction false} FoldedSays(op: string, values: seq<Value>)
    requires values != []
    ensures var r := if op == "and" then Conjunction(values[0], values[1..]) else Disjunction(values[0], values[1..]);
            && (forall truth :: Truth(r) == Some(truth) <==> FoldSays(op, values, truth))
  {
    hide Truth;
    ConjunctionTruth(values[0], values[1..]);
    DisjunctionTruth(values[0], values[1..]);
    assert values == [values[0]] + values[1..];
    assert forall i :: 0 < i < |values| ==> values[i] == values[1..][i - 1];
    assert forall i :: 0 <= i < |values| - 1 ==> values[1..][i] == values[i + 1];
  }

  lemma {:induction false} FoldedShape(acc: Value, values: seq<Value>)
    requires values != [] || acc.Null? || acc.BoolV?
    ensures var r := Conjunction(acc, values); r.Null? || r.BoolV?
    ensures var r := Disjunction(acc, values); r.Null? || r.BoolV?
    decreases |values|
  {
    if values != [] {
      FoldedShape(And3(acc, values[0]), values[1..]);
      FoldedShape(Or3(acc, values[0]), values[1..]);
    }
  }

  lemma {:induction false} BooleanSays(l: Layout, op: string, es: seq<Filter>, row: Row)
    requires AllCompile(l, es)
    ensures var e := Boolean(op, es);
            && Meaning(l, e, row) == ValueOf(l, e, row)
            && (forall truth :: Truth(Meaning(l, e, row)) == Some(truth) <==> Says(l, e, row, truth))
    decreases es, 1
  {
    hide Says, ValueOf, Truth, Conjunction, Disjunction;
    AllSay(l, es, row);
    var e, values := Boolean(op, es), AllMeanings(l, es, row);
    SaysOfBoolean(l, op, es, row);
    if es == [] {
      assert Meaning(l, e, row) == Null;
      ConditionValue(l, e, row, Null);
    } else {
      FoldedSays(op, values);
      var r := if op == "and" then Conjunction(values[0], values[1..]) else Disjunction(values[0], values[1..]);
      assert Meaning(l, e, row) == r;
      SameSaying(l, op, es, row, values);
      if |es| == 1 {
        OneOperand(l, op, es, row, values);
      } else {
        FoldedShape(values[0], values[1..]);
        BooleanTruth(r);
        ConditionValue(l, e, row, r);
      }
    }
  }

  lemma {:induction false} NotSays(l: Layout, e: Filter, row: Row)
    requires Compiles(l, e) && e.Unary?
    requires forall truth :: Truth(Meaning(l, e.operand, row)) == Some(truth) <==> Says(l, e.operand, row, truth)
    ensures Meaning(l, e, row) == ValueOf(l, e, row)
    ensures forall truth :: Truth(Meaning(l, e, row)) == Some(truth) <==> Says(l, e, row, truth)
  {
    hide ValueOf;
    var t := Truth(Meaning(l, e.operand, row));
    assert Meaning(l, e, row) == if t.Some? then BoolV(!t.value) else Null;
    ConditionValue(l, e, row, Meaning(l, e, row));
  }

  lemma {:induction false} NullSays(l: Layout, e: Filter, row: Row)
    requires Compiles(l, e) && e.NullTest? && Meaning(l, e.operand, row) == ValueOf(l, e.operand, row)
    ensures Meaning(l, e, row) == ValueOf(l, e, row)
    ensures forall truth :: Truth(Meaning(l, e, row)) == Some(truth) <==> Says(l, e, row, truth)
  {
    hide ValueOf, Truth;
    ConditionValue(l, e, row, Meaning(l, e, row));
  }

  /** Reference and compiled meaning agree: every accepted tree has the value that its operator
      names say, is true exactly where they say so, and false exactly where they say so. */
  lemma {:induction false} MeaningSays(l: Layout, e: Filter, row: Row)
    requires Compiles(l, e)
    ensures Meaning(l, e, row) == ValueOf(l, e, row)
    ensures forall truth :: Truth(Meaning(l, e, row)) == Some(truth) <==> Says(l, e, row, truth)
    decreases e, 2
  {
    hide Compare, ComparisonOp, Stands, LiteralMeaning, OperandType, LiteralType, Compared, Conjunction, Disjunction;
    match e
    case Field(_, _) =>
    case Literal(_, _) =>
    case Binary(_, _, _) => BinarySays(l, e, row);
    case Boolean(op, es) => BooleanSays(l, op, es, row);
    case Unary(_, x) =>
      MeaningSays(l, x, row);
      NotSays(l, e, row);
    case NullTest(x, _) =>
      MeaningSays(l, x, row);
      NullSays(l, e, row);
    case Membership(_, _, _) => MembershipSays(l, e, row);
    case TimestampRange(_, _, _, _, _) => RangeSays(l, e, row);
  }

  lemma {:induction false} BinarySays(l: Layout, e: Filter, row: Row)
    requires Compiles(l, e) && e.Binary?
    ensures Meaning(l, e, row) == ValueOf(l, e, row)
    ensures forall truth :: Truth(Meaning(l, e, row)) == Some(truth) <==> Says(l, e, row, truth)
    decreases e, 1
  {
    hide Compare, ComparisonOp, Stands, LiteralMeaning, OperandType, LiteralType, Compared, ValueOf, Truth;
    MeaningSays(l, e.left, row);
    if !e.right.Literal? { MeaningSays(l, e.right, row); }
    OperatorNames(e.op);
    ComparisonMeans(e.op, ValueOf(l, e.left, row), RightValue(l, e.left, e.right, row));
    ConditionValue(l, e, row, Meaning(l, e, row));
  }

  lemma {:induction false} HitSays(v: Value, list: seq<Value>)
    ensures var r := In3(v, list);
            && (r.Null? || r.BoolV?)
            && (r == BoolV(true) <==> !v.Null? && exists i :: 0 <= i < |list| && v == list[i])
            && (r == BoolV(false) <==> !v.Null? && forall i :: 0 <= i < |list| ==> !list[i].Null? && v != list[i])
  {}

  lemma {:induction false} MembershipSays(l: Layout, e: Filter, row: Row)
    requires Compiles(l, e) && e.Membership?
    ensures Meaning(l, e, row) == ValueOf(l, e, row)
    ensures forall truth :: Truth(Meaning(l, e, row)) == Some(truth) <==> Says(l, e, row, truth)
    decreases e, 1
  {
    hide LiteralMeaning, OperandType, ValueOf, In3;
    MeaningSays(l, e.operand, row);
    var v, ctype := ValueOf(l, e.operand, row), TypeOf(l, e.operand);
    var list := ListMeaning(e.values, ctype);
    assert list == seq(|e.values|, i requires 0 <= i < |e.values| && e.values[i].Literal? =>
                                     LiteralMeaning(e.values[i].value, ctype));
    HitSays(v, list);
    forall i | 0 <= i < |list|
      ensures v == list[i] <==> ItemEquals(v, e.values[i], ctype)
      ensures !list[i].Null? && v != list[i] <==> ItemDiffers(v, e.values[i], ctype)
    {}
    var hit := In3(v, list);
    assert Meaning(l, e, row) == if e.negated then Not3(hit) else hit;
    ConditionValue(l, e, row, Meaning(l, e, row));
  }

  lemma {:induction false} RangeOperandCompiles(l: Layout, e: Filter)
    requires Compiles(l, e) && e.TimestampRange?
    ensures Compiles(l, e.operand) && OperandType(l, e.operand).Some?
  {}

  lemma {:induction false} BoundMeans(op: string, v: Value, w: Value)
    requires op in {"lt", "lte", "gt", "gte"}
    ensures var r := Compare(if op == "gte" then Ge else if op == "gt" then Gt else if op == "lte" then Le else Lt, v,
                             w);
            && (r.Null? || r.BoolV?)
            && (forall truth :: r == BoolV(truth) <==> Compared(op, v, w, truth))
  {
    OperatorsDiffer();
  }

  lemma {:induction false} BoundsSay(v: Value, ctype: string, e: Filter)
    requires e.TimestampRange? && BoundOk(e.start, ctype) && BoundOk(e.end, ctype)
    ensures var r := RangeMeaning(v, ctype, e.start, e.end, e.includeStart, e.includeEnd);
            && (r.Null? || r.BoolV?)
            && forall truth :: r == BoolV(truth) <==>
                 var lower := BoundSays(e.start, if e.includeStart then "gte" else "gt", v, ctype, truth);
                 var upper := BoundSays(e.end, if e.includeEnd then "lte" else "lt", v, ctype, truth);
                 if truth then (e.start.Some? || e.end.Some?) && (e.start == None || lower) && (e.end == None || upper)
                 else lower || upper
  {
    hide Compare, Stands, LiteralMeaning, Compared, Binds;
    if e.start.Some? {
      BoundMeans(if e.includeStart then "gte" else "gt", v, LiteralMeaning(e.start.value.value, ctype));
    }
    if e.end.Some? {
      BoundMeans(if e.includeEnd then "lte" else "lt", v, LiteralMeaning(e.end.value.value, ctype));
    }
  }

  lemma {:induction false} RangeSays(l: Layout, e: Filter, row: Row)
    requires Compiles(l, e) && e.TimestampRange?
    ensures Meaning(l, e, row) == ValueOf(l, e, row)
    ensures forall truth :: Truth(Meaning(l, e, row)) == Some(truth) <==> Says(l, e, row, truth)
    decreases e, 1
  {
    hide OperandType, ValueOf, RangeMeaning, Truth, Compiles, BoundOk;
    RangeTree(l, e, row);
    assert Compiles(l, e.operand) && OperandType(l, e.operand).Some? by { RangeOperandCompiles(l, e); }
    MeaningSays(l, e.operand, row);
    var v, ctype := ValueOf(l, e.operand, row), TypeOf(l, e.operand);
    BoundsSay(v, ctype, e);
    ConditionValue(l, e, row, Meaning(l, e, row));
  }

  // ---- Mapping-first filters ------------------------------------------------

  predicate Differs(v: Value, item: Json, ctype: string) {
    !LiteralMeaning(item, ctype).Null? && v != LiteralMeaning(item, ctype)
  }

  /** What one named test says about a cell. */
  predicate TestSays(op: string, value: Json, v: Value, ctype: string) {
    if op == "in" then
      !v.Null? && value.JArr? && exists i :: 0 <= i < |value.items| && v == LiteralMeaning(value.items[i], ctype)
    else if op == "notIn" then
      !v.Null? && value.JArr? && forall i :: 0 <= i < |value.items| ==> Differs(v, value.items[i], ctype)
    else if op == "isNull" then value.JBool? && v.Null? == value.flag
    else Compared(op, v, LiteralMeaning(value, ctype), true)
  }

  /** What one item of the mapping says about a row: a plain value is a test for equality, and
      named tests all have to hold. */
  predicate ItemSays(l: Layout, item: (string, Test), row: Row) {
    && item.0 in l.Names()
    && var c := l.ColumnOf(item.0).value;
       match item.1
       case Scalar(value) => Compared("eq", Cell(row, c.physical), LiteralMeaning(value, c.ctype), true)
       case Tests(ops) => forall i :: 0 <= i < |ops| ==> TestSays(ops[i].0, ops[i].1, Cell(row, c.physical), c.ctype)
  }

  /** The tests that the compiler accepts, by name. */
  predicate TestAccepted(op: string, value: Json, ctype: string) {
    if op in {"in", "notIn"} then
      value.JArr? && value.items != [] && forall i :: 0 <= i < |value.items| ==> Binds(value.items[i], ctype)
    else if op == "isNull" then value.JBool?
    else op in COMPARISONS && Binds(value, ctype)
  }

  predicate ItemAccepted(l: Layout, item: (string, Test)) {
    && item.0 in l.Names()
    && var c := l.ColumnOf(item.0).value;
       match item.1
       case Scalar(value) => Binds(value, c.ctype)
       case Tests(ops) => forall i :: 0 <= i < |ops| ==> TestAccepted(ops[i].0, ops[i].1, c.ctype)
  }

  lemma {:induction false} AtomSays(a: Atom, row: Row)
    ensures AtomOk(a) <==> TestAccepted(a.op, a.value, a.ctype)
    ensures AtomOk(a) ==> (True(AtomMeaning(a, row)) <==> TestSays(a.op, a.value, Cell(row, a.column), a.ctype))
  {
    hide Compare, ComparisonOp, Stands, LiteralMeaning, Binds, Compared;
    OperatorNames(a.op);
    if AtomOk(a) {
      if a.op == "in" || a.op == "notIn" {
        HitSays(Cell(row, a.column), ItemMeanings(a.value.items, a.ctype));
        var list := ItemMeanings(a.value.items, a.ctype);
        forall i | 0 <= i < |list| ensures list[i] == LiteralMeaning(a.value.items[i], a.ctype) {}
        assert "in" != "notIn";
      } else if a.op != "isNull" {
        ComparisonMeans(a.op, Cell(row, a.column), LiteralMeaning(a.value, a.ctype));
      }
    }
  }

  ghost predicate AtomsSay(atoms: seq<Atom>, row: Row) {
    forall i :: 0 <= i < |atoms| ==> TestSays(atoms[i].op, atoms[i].value, Cell(row, atoms[i].column), atoms[i].ctype)
  }

  ghost predicate AtomsAccepted(atoms: seq<Atom>) {
    forall i :: 0 <= i < |atoms| ==> TestAccepted(atoms[i].op, atoms[i].value, atoms[i].ctype)
  }

  lemma {:induction false} PlainTest(value: Json, v: Value, ctype: string)
    ensures TestAccepted("eq", value, ctype) <==> Binds(value, ctype)
    ensures TestSays("eq", value, v, ctype) <==> Compared("eq", v, LiteralMeaning(value, ctype), true)
  {
    assert |"eq"| == 2 && |"in"| == 2 && "eq"[0] == 'e' && "in"[0] == 'i' && |"notIn"| == 5 && |"isNull"| == 6;
  }

  lemma {:induction false} EachOf(ops: seq<(string, Json)>, sorted: seq<(string, Json)>, c: Column, row: Row)
    requires forall op :: op in sorted <==> op in ops
    ensures (forall i :: 0 <= i < |ops| ==> TestAccepted(ops[i].0, ops[i].1, c.ctype)) <==>
            (forall i :: 0 <= i < |sorted| ==> TestAccepted(sorted[i].0, sorted[i].1, c.ctype))
    ensures (forall i :: 0 <= i < |ops| ==> TestSays(ops[i].0, ops[i].1, Cell(row, c.physical), c.ctype)) <==>
            (forall i :: 0 <= i < |sorted| ==> TestSays(sorted[i].0, sorted[i].1, Cell(row, c.physical), c.ctype))
  {
    hide TestSays, TestAccepted;
    forall i | 0 <= i < |ops| ensures exists j :: 0 <= j < |sorted| && sorted[j] == ops[i] { assert ops[i] in sorted; }
    forall j | 0 <= j < |sorted| ensures exists i :: 0 <= i < |ops| && ops[i] == sorted[j] { assert sorted[j] in ops; }
  }

  lemma {:induction false} FieldSays(l: Layout, item: (string, Test), row: Row)
    requires item.0 in l.Names()
    ensures var atoms := FieldAtoms(l.ColumnOf(item.0).value, item.1);
            && (AtomsAccepted(atoms) <==> ItemAccepted(l, item))
            && (AtomsSay(atoms, row) <==> ItemSays(l, item, row))
  {
    hide TestSays, TestAccepted, Compared, LiteralMeaning, Binds, Sort;
    var c := l.ColumnOf(item.0).value;
    var atoms := FieldAtoms(c, item.1);
    match item.1
    case Scalar(value) =>
      PlainTest(value, Cell(row, c.physical), c.ctype);
      assert atoms == [Atom(c.physical, c.ctype, "eq", value)];
      assert atoms[0] == Atom(c.physical, c.ctype, "eq", value);
    case Tests(ops) =>
      var sorted := Sort(OpOf, ops);
      assert forall op :: op in sorted <==> op in ops by {
        forall op ensures op in sorted <==> op in ops { assert op in multiset(sorted) <==> op in multiset(ops); }
      }
      forall i | 0 <= i < |sorted| ensures atoms[i] == Atom(c.physical, c.ctype, sorted[i].0, sorted[i].1) {}
      EachOf(ops, sorted, c, row);
  }

  lemma {:induction false} SplitItems(l: Layout, items: Where, row: Row)
    requires KnownFields(l, items) && items != []
    ensures (forall i :: 0 <= i < |items| ==> ItemAccepted(l, items[i])) <==>
            ItemAccepted(l, items[0]) && forall i :: 0 <= i < |items[1..]| ==> ItemAccepted(l, items[1..][i])
    ensures (forall i :: 0 <= i < |items| ==> ItemSays(l, items[i], row)) <==>
            ItemSays(l, items[0], row) && forall i :: 0 <= i < |items[1..]| ==> ItemSays(l, items[1..][i], row)
  {
    hide ItemSays, ItemAccepted;
    assert forall i :: 0 < i < |items| ==> items[i] == items[1..][i - 1];
    assert forall i :: 0 <= i < |items[1..]| ==> items[1..][i] == items[i + 1];
  }

  lemma {:induction false} JoinedSay(a: seq<Atom>, b: seq<Atom>, row: Row)
    ensures AtomsAccepted(a + b) <==> AtomsAccepted(a) && AtomsAccepted(b)
    ensures AtomsSay(a + b, row) <==> AtomsSay(a, row) && AtomsSay(b, row)
  {
    hide TestSays, TestAccepted;
    assert forall i :: 0 <= i < |a| ==> (a + b)[i] == a[i];
    assert forall i :: 0 <= i < |b| ==> (a + b)[|a| + i] == b[i];
  }

  lemma {:induction false} ItemsSay(l: Layout, items: Where, row: Row)
    requires KnownFields(l, items)
    ensures AtomsAccepted(ItemAtoms(l, items)) <==> forall i :: 0 <= i < |items| ==> ItemAccepted(l, items[i])
    ensures AtomsSay(ItemAtoms(l, items), row) <==> forall i :: 0 <= i < |items| ==> ItemSays(l, items[i], row)
  {
    hide ItemSays, ItemAccepted, FieldAtoms, TestSays, TestAccepted;
    if items != [] {
      FieldSays(l, items[0], row);
      ItemsSay(l, items[1..], row);
      var first, more := FieldAtoms(l.ColumnOf(items[0].0).value, items[0].1), ItemAtoms(l, items[1..]);
      JoinedSay(first, more, row);
      assert items == [items[0]] + items[1..];
      SplitItems(l, items, row);
    }
  }

  lemma {:induction false} SameItems(where: Where)
    ensures forall item :: item in Sort(FieldOf, where) <==> item in where
  {
    hide Sort;
    forall item ensures item in Sort(FieldOf, where) <==> item in where {
      assert item in multiset(Sort(FieldOf, where)) <==> item in multiset(where);
    }
  }

  lemma {:induction false} AcceptedKnown(l: Layout, where: Where, items: Where)
    requires forall item :: item in items <==> item in where
    ensures (forall i :: 0 <= i < |where| ==> ItemAccepted(l, where[i])) ==> KnownFields(l, items)
    ensures KnownFields(l, items) ==> forall i :: 0 <= i < |where| ==> where[i].0 in l.Names()
  {
    hide TestAccepted, Binds;
    forall i | 0 <= i < |items| ensures exists j :: 0 <= j < |where| && where[j] == items[i] {
      assert items[i] in where;
    }
    forall j | 0 <= j < |where| ensures exists i :: 0 <= i < |items| && items[i] == where[j] {
      assert where[j] in items;
    }
  }

  lemma {:induction false} EachItem(l: Layout, where: Where, items: Where, row: Row)
    requires (forall item :: item in items <==> item in where) && KnownFields(l, items)
    ensures (forall i :: 0 <= i < |where| ==> ItemAccepted(l, where[i])) <==>
            (forall i :: 0 <= i < |items| ==> ItemAccepted(l, items[i]))
    ensures (forall i :: 0 <= i < |where| ==> ItemSays(l, where[i], row)) <==>
            (forall i :: 0 <= i < |items| ==> ItemSays(l, items[i], row))
  {
    hide ItemSays, TestAccepted, Binds;
    forall i | 0 <= i < |items| ensures exists j :: 0 <= j < |where| && where[j] == items[i] {
      assert items[i] in where;
    }
    forall j | 0 <= j < |where| ensures exists i :: 0 <= i < |items| && items[i] == where[j] {
      assert where[j] in items;
    }
  }

  /** A mapping-first filter is accepted exactly when every item is, and is true of a row exactly
      when every item says so, in whatever order they are listed. */
  lemma {:induction false} WhereSays(l: Layout, where: Where, row: Row)
    ensures WhereOk(l, where) <==> forall i :: 0 <= i < |where| ==> ItemAccepted(l, where[i])
    ensures WhereOk(l, where) ==>
      (True(WhereMeaning(Atoms(l, where), row)) <==>
       forall i :: 0 <= i < |where| ==> ItemSays(l, where[i], row))
  {
    hide ItemSays, ItemAccepted, ItemAtoms, Sort, AtomOk, TestSays, TestAccepted, WhereMeaning, AtomMeaning, Truth;
    var items := Sort(FieldOf, where);
    SameItems(where);
    AcceptedKnown(l, where, items);
    if KnownFields(l, items) {
      ItemsSay(l, items, row);
      var atoms := ItemAtoms(l, items);
      forall i | 0 <= i < |atoms|
        ensures AtomOk(atoms[i]) <==> TestAccepted(atoms[i].op, atoms[i].value, atoms[i].ctype)
      {
        AtomSays(atoms[i], row);
      }
      EachItem(l, where, items, row);
      if WhereOk(l, where) {
        WhereTruth(atoms, row);
        forall i | 0 <= i < |atoms|
          ensures AtomOk(atoms[i])
          ensures True(AtomMeaning(atoms[i], row))
             <==> TestSays(atoms[i].op, atoms[i].value, Cell(row, atoms[i].column), atoms[i].ctype)
        {
          AtomSays(atoms[i], row);
        }
      }
    }
  }
}
