/** Stored values, rows and the three-valued logic of the engine. */
module Rows {
  import opened Common

  datatype Value =
    | Null
    | BoolV(flag: bool)
    | IntV(number: int)
    | StrV(text: string)
    | TimeV(ticks: int)
    | BytesV(bytes: seq<Byte>)
    | ArrV(items: seq<Value>)
    | Opaque(kind: string, json: Json)

  /** A row by physical column name; absent columns read as null. */
  type Row = map<string, Value>

  function Cell(row: Row, column: string): Value {
    if column in row then row[column] else Null
  }

  /** The order of the engine inside one orderable kind. */
  predicate Less(a: Value, b: Value) {
    match (a, b)
    case (BoolV(x), BoolV(y)) => !x && y
    case (IntV(x), IntV(y)) => x < y
    case (StrV(x), StrV(y)) => TextLess(x, y)
    case (TimeV(x), TimeV(y)) => x < y
    case _ => false
  }

  predicate SameKind(a: Value, b: Value) {
    || (a.BoolV? && b.BoolV?)
    || (a.IntV? && b.IntV?)
    || (a.StrV? && b.StrV?)
    || (a.TimeV? && b.TimeV?)
  }

  lemma {:induction false} LessTotal(a: Value, b: Value)
    requires SameKind(a, b)
    ensures Less(a, b) || Less(b, a) || a == b
    ensures !(Less(a, b) && Less(b, a))
    ensures a == b ==> !Less(a, b)
  {
    if a.StrV? { TextTrichotomy(a.text, b.text); }
  }

  lemma {:induction false} LessTransitive(a: Value, b: Value, c: Value)
    requires Less(a, b) && Less(b, c)
    ensures Less(a, c)
  {
    if a.StrV? { TextTransitive(a.text, b.text, c.text); }
  }

  datatype CompareOp = Eq | Ne | Lt | Le | Gt | Ge

  /** A comparison is unknown when an operand is null. */
  function Compare(op: CompareOp, a: Value, b: Value): Value {
    if a.Null? || b.Null? then Null else
    BoolV(match op
          case Eq => a == b
          case Ne => a != b
          case Lt => Less(a, b)
          case Le => Less(a, b) || a == b
          case Gt => Less(b, a)
          case Ge => Less(b, a) || a == b)
  }

  /** The truth of a value; none is the unknown truth value. */
  function Truth(v: Value): Option<bool> {
    match v
    case BoolV(b) => Some(b)
    case IntV(n) => Some(n != 0)
    case _ => None
  }

  predicate True(v: Value) { Truth(v) == Some(true) }

  function And3(a: Value, b: Value): Value {
    if Truth(a) == Some(false) || Truth(b) == Some(false) then BoolV(false)
    else if Truth(a) == Some(true) && Truth(b) == Some(true) then BoolV(true)
    else Null
  }

  function Or3(a: Value, b: Value): Value {
    if Truth(a) == Some(true) || Truth(b) == Some(true) then BoolV(true)
    else if Truth(a) == Some(false) && Truth(b) == Some(false) then BoolV(false)
    else Null
  }

  function Not3(a: Value): Value {
    match Truth(a)
    case Some(b) => BoolV(!b)
    case None => Null
  }

  /** Membership: true on a hit, otherwise unknown as soon as a null takes part. */
  function In3(a: Value, list: seq<Value>): Value {
    if a.Null? then Null
    else if a in list then BoolV(true)
    else if Null in list then Null
    else BoolV(false)
  }
}
