/** The column types of `schema/layout.py` as trees. */
module ColumnTypes {
  import opened Layouts
  import Decimal

  datatype TypeTree =
    | Plain(name: string)
    | Dictionary
    | DecimalOf(precision: string, scale: string)
    | ArrayOf(item: TypeTree)
    | NullableOf(item: TypeTree)

  predicate PlainName(name: string) {
    || name == "Bool" || name == "Date32" || name == "DateTime64(9, 'UTC')" || name == "Float64" || name == "Int8"
    || name == "Int16" || name == "Int32" || name == "Int64" || name == "String" || name == "Tuple(Float64, Float64)"
    || name == "UUID"
  }

  /** One or two digits. */
  predicate ShortNumber(s: string) { 1 <= |s| <= 2 && Decimal.AllDigits(s) }

  predicate Formed(t: TypeTree) {
    match t
    case Plain(name) => PlainName(name)
    case Dictionary => true
    case DecimalOf(p, s) =>
      ShortNumber(p) && p[0] != '0' && ShortNumber(s) && Decimal.Number(s) <= Decimal.Number(p) <= 76
    case ArrayOf(item) => Formed(item)
    case NullableOf(item) => Formed(item)
  }

  function Spelled(t: TypeTree): string {
    match t
    case Plain(name) => name
    case Dictionary => "LowCardinality(String)"
    case DecimalOf(p, s) => "Decimal(" + (p + (", " + (s + ")")))
    case ArrayOf(item) => "Array(" + Spelled(item) + ")"
    case NullableOf(item) => "Nullable(" + Spelled(item) + ")"
  }

  lemma {:induction false} WrappedValid(base: string, wrapper: string)
    requires ValidColumnType(base) && wrapper in {"Array(", "Nullable("}
    ensures ValidColumnType(wrapper + base + ")")
  {
    var t := wrapper + base + ")";
    assert t[..|wrapper|] == wrapper && t[|t| - 1] == ')';
    assert Unwrapped(t, wrapper) == base;
  }

  lemma {:induction false} WrapperSplits(t: string, wrapper: string)
    requires HasWrapper(t, wrapper)
    ensures t == wrapper + Unwrapped(t, wrapper) + ")"
  {}

  lemma {:induction false} DecimalSplits(t: string)
    requires DecimalType(t)
    ensures exists p, s :: Formed(DecimalOf(p, s)) && Spelled(DecimalOf(p, s)) == t
  {
    var inner := Unwrapped(t, "Decimal(");
    var width: nat := if DecimalBounds(inner, 1) then 1 else 2;
    var p, s := inner[..width], inner[width + 2..];
    WrapperSplits(t, "Decimal(");
    assert inner == p + (", " + s);
    assert Formed(DecimalOf(p, s)) && Spelled(DecimalOf(p, s)) == t;
  }

  lemma {:induction false} DecimalSpelled(p: string, s: string)
    requires Formed(DecimalOf(p, s))
    ensures DecimalType(Spelled(DecimalOf(p, s)))
  {
    var t := Spelled(DecimalOf(p, s));
    var inner := Unwrapped(t, "Decimal(");
    assert inner == p + (", " + s);
    assert inner[..|p|] == p && inner[|p| + 2..] == s;
    assert DecimalBounds(inner, |p|);
  }

  lemma {:induction false} SpelledValid(tree: TypeTree)
    requires Formed(tree)
    ensures ValidColumnType(Spelled(tree))
  {
    hide DecimalType;
    match tree
    case Plain(_) =>
    case Dictionary =>
    case DecimalOf(p, s) => DecimalSpelled(p, s);
    case ArrayOf(item) =>
      SpelledValid(item);
      WrappedValid(Spelled(item), "Array(");
    case NullableOf(item) =>
      SpelledValid(item);
      WrappedValid(Spelled(item), "Nullable(");
  }

  lemma {:induction false} ValidSpelled(t: string) returns (tree: TypeTree)
    requires ValidColumnType(t)
    ensures Formed(tree) && Spelled(tree) == t
    decreases |t|
  {
    hide DecimalType;
    if Primitive(t) {
      tree := Plain(t);
    } else if t == "LowCardinality(String)" {
      tree := Dictionary;
    } else if DecimalType(t) {
      DecimalSplits(t);
      var p, s :| Formed(DecimalOf(p, s)) && Spelled(DecimalOf(p, s)) == t;
      tree := DecimalOf(p, s);
    } else if HasWrapper(t, "Array(") && ValidColumnType(Unwrapped(t, "Array(")) {
      var item := ValidSpelled(Unwrapped(t, "Array("));
      WrapperSplits(t, "Array(");
      tree := ArrayOf(item);
    } else {
      var item := ValidSpelled(Unwrapped(t, "Nullable("));
      WrapperSplits(t, "Nullable(");
      tree := NullableOf(item);
    }
  }

  /** The accepted column types are exactly the spellings of the grammar. */
  lemma {:induction false} TypeGrammar(t: string)
    ensures ValidColumnType(t) <==> exists tree :: Formed(tree) && Spelled(tree) == t
  {
    if ValidColumnType(t) {
      var tree := ValidSpelled(t);
      assert Formed(tree);
    }
    if tree :| Formed(tree) && Spelled(tree) == t {
      SpelledValid(tree);
    }
  }
}
