/** The condition text that the adapter emits, as tokens, and how SQL reads it:
    OR binds loosest, then AND, then NOT, then one comparison or test. */
module Sql {
  import opened Common
  import opened Rows
  import Timestamps

  datatype Token =
    | Ident(name: string)
    | Param(name: string, ptype: string)
    | One
    | Op(op: CompareOp)
    | KwAnd | KwOr | KwNot | KwIs | KwNull | KwIn
    | LParen | RParen | Comma
    | KwSelect | KwAs | KwFrom | KwFinal | KwWhere | KwOrderBy | KwAsc | KwDesc | KwLimit | Dot | CountOver
    | Number(value: nat)

  datatype Expr =
    | Col(name: string)
    | Par(name: string, ptype: string)
    | ConstOne
    | Cmp(op: CompareOp, left: Expr, right: Expr)
    | And(left: Expr, right: Expr)
    | Or(left: Expr, right: Expr)
    | Not(operand: Expr)
    | IsNull(operand: Expr, negated: bool)
    | In(operand: Expr, list: seq<Expr>, negated: bool)

  // ---- Reading --------------------------------------------------------------

  type Text = seq<Token>

  /** A parsed prefix and the text behind it. */
  datatype Reading<+T> = Fail | Read(ast: T, rest: Text) {
    predicate IsFailure() { Fail? }
    function PropagateFailure<U>(): Reading<U> requires Fail? { Fail }
    function Extract(): (T, Text) requires Read? { (ast, rest) }
  }

  function ParseOr(text: Text): (r: Reading<Expr>)
    ensures r.Read? ==> |r.rest| < |text|
    decreases |text|, 6
  {
    var (first, rest) :- ParseAnd(text);
    ParseOrTail(first, rest)
  }

  function ParseOrTail(acc: Expr, text: Text): (r: Reading<Expr>)
    ensures r.Read? ==> |r.rest| <= |text|
    decreases |text|, 5
  {
    if text != [] && text[0] == KwOr then
      var (next, rest) :- ParseAnd(text[1..]);
      ParseOrTail(Or(acc, next), rest)
    else Read(acc, text)
  }

  function ParseAnd(text: Text): (r: Reading<Expr>)
    ensures r.Read? ==> |r.rest| < |text|
    decreases |text|, 4
  {
    var (first, rest) :- ParseNot(text);
    ParseAndTail(first, rest)
  }

  function ParseAndTail(acc: Expr, text: Text): (r: Reading<Expr>)
    ensures r.Read? ==> |r.rest| <= |text|
    decreases |text|, 3
  {
    if text != [] && text[0] == KwAnd then
      var (next, rest) :- ParseNot(text[1..]);
      ParseAndTail(And(acc, next), rest)
    else Read(acc, text)
  }

  function ParseNot(text: Text): (r: Reading<Expr>)
    ensures r.Read? ==> |r.rest| < |text|
    decreases |text|, 2
  {
    if text != [] && text[0] == KwNot then
      var (operand, rest) :- ParseNot(text[1..]);
      Read(Not(operand), rest)
    else ParseTest(text)
  }

  /** An operand, optionally followed by one comparison, null test or membership. */
  function ParseTest(text: Text): (r: Reading<Expr>)
    ensures r.Read? ==> |r.rest| < |text|
    decreases |text|, 1
  {
    var (left, rest) :- ParsePrimary(text);
    if rest == [] then Read(left, rest)
    else if rest[0].Op? then
      var (right, rest') :- ParsePrimary(rest[1..]);
      Read(Cmp(rest[0].op, left, right), rest')
    else if rest[0] == KwIs then
      if |rest| >= 2 && rest[1] == KwNull then Read(IsNull(left, false), rest[2..])
      else if |rest| >= 3 && rest[1] == KwNot && rest[2] == KwNull then Read(IsNull(left, true), rest[3..])
      else Fail
    else if rest[0] == KwIn then
      var (list, rest') :- ParseList(rest[1..]);
      Read(In(left, list, false), rest')
    else if rest[0] == KwNot && |rest| >= 2 && rest[1] == KwIn then
      var (list, rest') :- ParseList(rest[2..]);
      Read(In(left, list, true), rest')
    else Read(left, rest)
  }

  function ParsePrimary(text: Text): (r: Reading<Expr>)
    ensures r.Read? ==> |r.rest| < |text|
    decreases |text|, 0
  {
    if text == [] then Fail else
    match text[0]
    case Ident(name) => Read(Col(name), text[1..])
    case Param(name, ptype) => Read(Par(name, ptype), text[1..])
    case One => Read(ConstOne, text[1..])
    case LParen =>
      var (inner, rest) :- ParseOr(text[1..]);
      if rest != [] && rest[0] == RParen then Read(inner, rest[1..]) else Fail
    case _ => Fail
  }

  /** A parenthesised, comma-separated, non-empty list of operands. */
  function ParseList(text: Text): (r: Reading<seq<Expr>>)
    ensures r.Read? ==> |r.rest| < |text|
    decreases |text|, 1
  {
    if text == [] || text[0] != LParen then Fail else
    var (first, rest) :- ParsePrimary(text[1..]);
    ParseListTail([first], rest)
  }

  function ParseListTail(acc: seq<Expr>, text: Text): (r: Reading<seq<Expr>>)
    ensures r.Read? ==> |r.rest| < |text|
    decreases |text|, 1
  {
    if text == [] then Fail
    else if text[0] == RParen then Read(acc, text[1..])
    else if text[0] == Comma then
      var (next, rest) :- ParsePrimary(text[1..]);
      ParseListTail(acc + [next], rest)
    else Fail
  }

  /** A whole condition: nothing may be left over. */
  function Parse(text: Text): Option<Expr> {
    match ParseOr(text)
    case Fail => None
    case Read(ast, rest) => if rest == [] then Some(ast) else None
  }

  // ---- Evaluation -----------------------------------------------------------

  type Env = map<string, Json>

  /** How the engine reads a bound parameter of a declared type. */
  function Denote(ptype: string, json: Json): Value {
    match json
    case JNull => Null
    case JStr(s) =>
      if "DateTime" <= ptype then
        (match Timestamps.ReadParameter(s) case Ok(ticks) => TimeV(ticks) case Err(_) => Opaque(ptype, json))
      else if ptype == "String" then StrV(s)
      else Opaque(ptype, json)
    case JInt(n) => if "Int" <= ptype then IntV(n) else Opaque(ptype, json)
    case JBool(b) => if ptype == "Bool" then BoolV(b) else Opaque(ptype, json)
    case _ => Opaque(ptype, json)
  }

  function Eval(e: Expr, env: Env, row: Row): Value {
    match e
    case Col(name) => Cell(row, name)
    case Par(name, ptype) => if name in env then Denote(ptype, env[name]) else Null
    case ConstOne => IntV(1)
    case Cmp(op, l, r) => Compare(op, Eval(l, env, row), Eval(r, env, row))
    case And(l, r) => And3(Eval(l, env, row), Eval(r, env, row))
    case Or(l, r) => Or3(Eval(l, env, row), Eval(r, env, row))
    case Not(x) => Not3(Eval(x, env, row))
    case IsNull(x, negated) => BoolV(Eval(x, env, row).Null? != negated)
    case In(x, list, negated) =>
      var hit := In3(Eval(x, env, row), EvalList(list, env, row));
      if negated then Not3(hit) else hit
  }

  function EvalList(list: seq<Expr>, env: Env, row: Row): (r: seq<Value>)
    ensures |r| == |list|
    ensures forall i :: 0 <= i < |list| ==> r[i] == Eval(list[i], env, row)
  {
    if list == [] then [] else [Eval(list[0], env, row)] + EvalList(list[1..], env, row)
  }

  // ---- Joined conditions ----------------------------------------------------

  function Join(parts: seq<Text>, separator: Token): Text {
    if parts == [] then [] else if |parts| == 1 then parts[0]
    else parts[0] + [separator] + Join(parts[1..], separator)
  }

  /** No token that would continue a comparison or test. */
  predicate Closed(rest: Text) {
    rest == [] || rest[0] in {KwAnd, KwOr, RParen, KwOrderBy}
  }

  /** The end of a whole condition. */
  predicate Ends(rest: Text) { rest == [] || rest[0] in {RParen, KwOrderBy} }

  function Lift(ast: Option<Expr>, rest: Text): Reading<Expr> {
    match ast
    case None => Fail
    case Some(e) => Read(e, rest)
  }

  /** In front of any closed text, `part` is read as exactly `ast` (or refused, for none). */
  ghost predicate Reads(part: Text, ast: Option<Expr>) {
    forall rest :: Closed(rest) ==> ParseNot(part + rest) == Lift(ast, rest)
  }

  ghost predicate AllRead(parts: seq<Text>, asts: seq<Option<Expr>>) {
    |parts| == |asts| && forall i :: 0 <= i < |parts| ==> Reads(parts[i], asts[i])
  }

  function FoldAnd(acc: Option<Expr>, asts: seq<Option<Expr>>): Option<Expr>
    decreases |asts|
  {
    if asts == [] then acc
    else if acc.None? || asts[0].None? then None
    else FoldAnd(Some(And(acc.value, asts[0].value)), asts[1..])
  }

  function FoldOr(acc: Option<Expr>, asts: seq<Option<Expr>>): Option<Expr>
    decreases |asts|
  {
    if asts == [] then acc
    else if acc.None? || asts[0].None? then None
    else FoldOr(Some(Or(acc.value, asts[0].value)), asts[1..])
  }

  lemma {:induction false} FoldNone(asts: seq<Option<Expr>>)
    ensures FoldAnd(None, asts) == None && FoldOr(None, asts) == None
  {}

  /** Text that starts with the separator and continues with the parts. */
  function Suffix(parts: seq<Text>, separator: Token): Text {
    if parts == [] then [] else [separator] + parts[0] + Suffix(parts[1..], separator)
  }

  lemma {:induction false} JoinIsSuffix(parts: seq<Text>, separator: Token)
    requires parts != []
    ensures Join(parts, separator) == parts[0] + Suffix(parts[1..], separator)
  {
    if |parts| > 1 {
      JoinIsSuffix(parts[1..], separator);
      assert parts[1..][1..] == parts[2..];
      assert parts[0] + [separator] + (parts[1] + Suffix(parts[2..], separator))
          == parts[0] + ([separator] + parts[1] + Suffix(parts[2..], separator));
    }
  }

  lemma {:induction false} SuffixClosed(parts: seq<Text>, separator: Token, rest: Text)
    requires separator in {KwAnd, KwOr} && Closed(rest)
    ensures Closed(Suffix(parts, separator) + rest)
  {
    if parts == [] { assert Suffix(parts, separator) + rest == rest; }
  }

  lemma {:induction false} ReadsAt(part: Text, ast: Option<Expr>, rest: Text)
    requires Reads(part, ast) && Closed(rest)
    ensures ParseNot(part + rest) == Lift(ast, rest)
  {}

  lemma {:induction false} SuffixStep(parts: seq<Text>, separator: Token, rest: Text)
    requires parts != []
    ensures var text := Suffix(parts, separator) + rest;
            text != [] && text[0] == separator && text[1..] == parts[0] + (Suffix(parts[1..], separator) + rest)
  {}

  lemma {:induction false} AndEnds(acc: Expr, rest: Text)
    requires rest == [] || rest[0] != KwAnd
    ensures ParseAndTail(acc, rest) == Read(acc, rest)
  {}

  lemma {:induction false} AndStep(acc: Expr, text: Text, ast: Option<Expr>, more: Text)
    requires text != [] && text[0] == KwAnd && ParseNot(text[1..]) == Lift(ast, more) && |more| < |text|
    ensures ParseAndTail(acc, text) == if ast.None? then Fail else ParseAndTail(And(acc, ast.value), more)
  {
    hide ParseNot;
  }

  lemma {:induction false} AndSuffix(acc: Expr, parts: seq<Text>, asts: seq<Option<Expr>>, rest: Text)
    requires AllRead(parts, asts)
    requires Closed(rest) && (rest == [] || rest[0] != KwAnd)
    ensures ParseAndTail(acc, Suffix(parts, KwAnd) + rest) == Lift(FoldAnd(Some(acc), asts), rest)
    decreases |parts|
  {
    hide ParseNot, ParseAndTail, Closed, Reads;
    var text := Suffix(parts, KwAnd) + rest;
    if parts == [] {
      assert text == rest;
      AndEnds(acc, rest);
    } else {
      var more := Suffix(parts[1..], KwAnd) + rest;
      SuffixStep(parts, KwAnd, rest);
      SuffixClosed(parts[1..], KwAnd, rest);
      ReadsAt(parts[0], asts[0], more);
      AndStep(acc, text, asts[0], more);
      assert AllRead(parts[1..], asts[1..]);
      if asts[0].Some? {
        AndSuffix(And(acc, asts[0].value), parts[1..], asts[1..], rest);
      }
    }
  }

  /** A conjunction of parts is read as the conjunction of their readings. */
  lemma {:induction false} AndReads(parts: seq<Text>, asts: seq<Option<Expr>>, rest: Text)
    requires AllRead(parts, asts) && parts != []
    requires Closed(rest) && (rest == [] || rest[0] != KwAnd)
    ensures ParseAnd(Join(parts, KwAnd) + rest) == Lift(FoldAnd(asts[0], asts[1..]), rest)
  {
    hide ParseNot, Reads, Join, Suffix, Closed;
    JoinIsSuffix(parts, KwAnd);
    var more := Suffix(parts[1..], KwAnd) + rest;
    assert Join(parts, KwAnd) + rest == parts[0] + more;
    SuffixClosed(parts[1..], KwAnd, rest);
    assert ParseNot(parts[0] + more) == Lift(asts[0], more) by { ReadsAt(parts[0], asts[0], more); }
    assert AllRead(parts[1..], asts[1..]);
    if asts[0].Some? {
      AndSuffix(asts[0].value, parts[1..], asts[1..], rest);
    } else {
      FoldNone(asts[1..]);
    }
  }

  lemma {:induction false} AndOfOne(part: Text, ast: Option<Expr>, rest: Text)
    requires Reads(part, ast)
    requires Closed(rest) && (rest == [] || rest[0] != KwAnd)
    ensures ParseAnd(part + rest) == Lift(ast, rest)
  {
    assert ParseNot(part + rest) == Lift(ast, rest);
  }

  lemma {:induction false} NotAndNext(parts: seq<Text>, rest: Text)
    requires Ends(rest)
    ensures var text := Suffix(parts, KwOr) + rest; text == [] || text[0] != KwAnd
  {
    if parts == [] { assert Suffix(parts, KwOr) + rest == rest; }
  }

  lemma {:induction false} OrEnds(acc: Expr, rest: Text)
    requires Ends(rest)
    ensures ParseOrTail(acc, rest) == Read(acc, rest)
  {}

  lemma {:induction false} OrStep(acc: Expr, text: Text, ast: Option<Expr>, more: Text)
    requires text != [] && text[0] == KwOr && ParseAnd(text[1..]) == Lift(ast, more) && |more| < |text|
    ensures ParseOrTail(acc, text) == if ast.None? then Fail else ParseOrTail(Or(acc, ast.value), more)
  {
    hide ParseAnd;
  }

  lemma {:induction false} OrSuffix(acc: Expr, parts: seq<Text>, asts: seq<Option<Expr>>, rest: Text)
    requires AllRead(parts, asts)
    requires Ends(rest)
    ensures ParseOrTail(acc, Suffix(parts, KwOr) + rest) == Lift(FoldOr(Some(acc), asts), rest)
    decreases |parts|
  {
    hide ParseAnd, ParseNot, ParseOrTail, Reads;
    var text := Suffix(parts, KwOr) + rest;
    if parts == [] {
      assert text == rest;
      OrEnds(acc, rest);
    } else {
      var more := Suffix(parts[1..], KwOr) + rest;
      SuffixStep(parts, KwOr, rest);
      SuffixClosed(parts[1..], KwOr, rest);
      NotAndNext(parts[1..], rest);
      AndOfOne(parts[0], asts[0], more);
      OrStep(acc, text, asts[0], more);
      assert AllRead(parts[1..], asts[1..]);
      if asts[0].Some? {
        OrSuffix(Or(acc, asts[0].value), parts[1..], asts[1..], rest);
      }
    }
  }

  /** A disjunction of parts, up to the end or a closing bracket, is read as the disjunction
      of their readings. */
  lemma {:induction false} OrReads(parts: seq<Text>, asts: seq<Option<Expr>>, rest: Text)
    requires AllRead(parts, asts) && parts != []
    requires Ends(rest)
    ensures ParseOr(Join(parts, KwOr) + rest) == Lift(FoldOr(asts[0], asts[1..]), rest)
  {
    hide ParseAnd, ParseNot, Reads, Join, Suffix, ParseOrTail;
    JoinIsSuffix(parts, KwOr);
    var more := Suffix(parts[1..], KwOr) + rest;
    assert Join(parts, KwOr) + rest == parts[0] + more;
    SuffixClosed(parts[1..], KwOr, rest);
    NotAndNext(parts[1..], rest);
    AndOfOne(parts[0], asts[0], more);
    assert AllRead(parts[1..], asts[1..]);
    if asts[0].Some? {
      OrSuffix(asts[0].value, parts[1..], asts[1..], rest);
    } else {
      FoldNone(asts[1..]);
    }
  }

  /** A conjunction, read from the level of OR. */
  lemma {:induction false} AndReadsAsOr(parts: seq<Text>, asts: seq<Option<Expr>>, rest: Text)
    requires AllRead(parts, asts) && parts != []
    requires Ends(rest)
    ensures ParseOr(Join(parts, KwAnd) + rest) == Lift(FoldAnd(asts[0], asts[1..]), rest)
  {
    AndReads(parts, asts, rest);
  }

  /** Brackets around anything that OR reads whole make an operand. */
  lemma {:induction false} BracketsRead(inner: Text, ast: Option<Expr>, rest: Text)
    requires ParseOr(inner + ([RParen] + rest)) == Lift(ast, [RParen] + rest)
    ensures ParsePrimary([LParen] + inner + [RParen] + rest) == Lift(ast, rest)
  {
    var text := [LParen] + inner + [RParen] + rest;
    assert text[1..] == inner + ([RParen] + rest);
  }

  lemma {:induction false} PrimaryAlone(text: Text, ast: Option<Expr>, rest: Text)
    requires text != [] && text[0] != KwNot
    requires ParsePrimary(text) == Lift(ast, rest) && Closed(rest)
    ensures ParseNot(text) == Lift(ast, rest)
  {
    hide ParsePrimary, ParseOr;
  }

  lemma {:induction false} PrimaryReads(part: Text, ast: Option<Expr>)
    requires part != [] && part[0] != KwNot
    requires forall rest :: ParsePrimary(part + rest) == Lift(ast, rest)
    ensures Reads(part, ast)
  {
    forall rest | Closed(rest) ensures ParseNot(part + rest) == Lift(ast, rest) {
      PrimaryAlone(part + rest, ast, rest);
    }
  }
}
