/** Compilation keeps the meaning of a filter: SQL reads the emitted text as the tree that
    was compiled, and evaluates it to the value of the tree. */
module FilterReading {
  import opened Common
  import opened Rows
  import opened Layouts
  import opened Sql
  import opened Filters
  import opened SqlCompilers
  import opened Timestamps

  // ---- What the tree stands for, and what its text is read as ---------------

  function Both(op: CompareOp, a: Option<Expr>, b: Option<Expr>): Option<Expr> {
    if a.None? || b.None? then None else Some(Cmp(op, a.value, b.value))
  }

  function Tested(a: Option<Expr>, isNull: bool): Option<Expr> {
    if a.None? then None else Some(IsNull(a.value, !isNull))
  }

  function Negated(a: Option<Expr>): Option<Expr> {
    if a.None? then None else Some(Not(a.value))
  }

  function ParExpr(i: nat, ctype: string): Expr { Par(ParameterName(i), ParameterType(ctype)) }

  function ParList(n: nat, count: nat, ctype: string): (r: seq<Expr>)
    ensures |r| == count
  {
    seq(count, i requires 0 <= i < count => ParExpr(n + i, ctype))
  }

  function RangeAsts(field: Option<Expr>, start: bool, end: bool, includeStart: bool, includeEnd: bool, n: nat,
                     ctype: string): seq<Option<Expr>> {
    (if start then [Both(if includeStart then Ge else Gt, field, Some(ParExpr(n, ctype)))] else [])
    + (if end then [Both(if includeEnd then Le else Lt, field, Some(ParExpr(n + (if start then 1 else 0), ctype)))]
      else [])
  }

  function Folded(op: string, asts: seq<Option<Expr>>): Option<Expr> {
    if asts == [] then None
    else if op == "and" then FoldAnd(asts[0], asts[1..]) else FoldOr(asts[0], asts[1..])
  }

  /** The condition of a tree whose first parameter is number `n`: with `asRead`, the one
      that SQL reads from the text; otherwise the one that the tree stands for. They differ
      where NOT is printed without brackets of its own. */
  function Ast(l: Layout, e: Filter, n: nat, asRead: bool): Option<Expr>
    requires Compiles(l, e)
    decreases e, 0
  {
    match e
    case Field(_, name) => Some(Col(l.Physical(name)))
    case Literal(_, kind) => Some(ParExpr(n, LiteralType(kind)))
    case Binary(op, left, right) =>
      if asRead && right.Unary? then None
      else Both(ComparisonOp(op).value, Ast(l, left, n, asRead), RightAst(l, left, right, n, asRead))
    case Boolean(op, operands) => Folded(op, AllAsts(l, operands, n, asRead))
    case Unary(_, operand) => Negated(Ast(l, operand, n, asRead))
    case NullTest(operand, isNull) =>
      assert Compiles(l, operand);
      if asRead && operand.Unary? then Negated(Tested(Ast(l, operand.operand, n, asRead), isNull))
      else Tested(Ast(l, operand, n, asRead), isNull)
    case Membership(operand, values, negated) =>
      var a := Ast(l, operand, n + |values|, asRead);
      if values == [] || a.None? then None
      else Some(In(a.value, ParList(n, |values|, OperandType(l, operand).value), negated))
    case TimestampRange(operand, start, end, includeStart, includeEnd) =>
      Folded("and", RangeAsts(Ast(l, operand, n, asRead), start.Some?, end.Some?, includeStart, includeEnd,
                              n + |Bindings(l, operand)|, OperandType(l, operand).value))
  }

  function RightAst(l: Layout, left: Filter, right: Filter, n: nat, asRead: bool): Option<Expr>
    requires Compiles(l, left) && OperandType(l, left).Some?
    requires if right.Literal? then Binds(right.value, OperandType(l, left).value) else Compiles(l, right)
    decreases right, 1
  {
    var m := n + |Bindings(l, left)|;
    if right.Literal? then Some(ParExpr(m, OperandType(l, left).value)) else Ast(l, right, m, asRead)
  }

  function AllAsts(l: Layout, es: seq<Filter>, n: nat, asRead: bool): (r: seq<Option<Expr>>)
    requires AllCompile(l, es)
    ensures |r| == |es|
    decreases es, 0
  {
    if es == [] then [] else [Ast(l, es[0], n, asRead)] + AllAsts(l, es[1..], n + |Bindings(l, es[0])|, asRead)
  }

  /** No NOT directly under a null test or on the right of a comparison, and no empty
      connective, list or range. */
  predicate WellBracketed(e: Filter)
    decreases e
  {
    match e
    case Field(_, _) => true
    case Literal(_, _) => true
    case Binary(_, left, right) => !right.Unary? && WellBracketed(left) && WellBracketed(right)
    case Boolean(_, operands) => operands != [] && AllWellBracketed(operands)
    case Unary(_, operand) => WellBracketed(operand)
    case NullTest(operand, _) => !operand.Unary? && WellBracketed(operand)
    case Membership(operand, values, _) => values != [] && WellBracketed(operand)
    case TimestampRange(operand, start, end, _, _) => (start.Some? || end.Some?) && WellBracketed(operand)
    case Foreign => true
  }

  predicate AllWellBracketed(es: seq<Filter>)
    decreases es
  {
    es == [] || (WellBracketed(es[0]) && AllWellBracketed(es[1..]))
  }

  // ---- The text is read as `Ast(..., true)` ---------------------------------

  lemma {:induction false} NotAsOr(text: Text, ast: Option<Expr>, rest: Text)
    requires ParseNot(text) == Lift(ast, rest)
    requires Ends(rest)
    ensures ParseOr(text) == Lift(ast, rest)
  {
    hide ParseNot;
    assert ParseAnd(text) == Lift(ast, rest);
  }

  /** A single test inside brackets. */
  lemma {:induction false} TestInBrackets(inner: Text, ast: Option<Expr>, rest: Text)
    requires inner != [] && inner[0] != KwNot
    requires ParseTest(inner + ([RParen] + rest)) == Lift(ast, [RParen] + rest)
    ensures ParsePrimary([LParen] + inner + [RParen] + rest) == Lift(ast, rest)
  {
    hide ParseTest, ParsePrimary;
    var text := inner + ([RParen] + rest);
    assert ParseNot(text) == ParseTest(text);
    NotAsOr(text, ast, [RParen] + rest);
    BracketsRead(inner, ast, rest);
  }

  /** Anything readable inside brackets. */
  lemma {:induction false} PartInBrackets(inner: Text, ast: Option<Expr>, rest: Text)
    requires Reads(inner, ast)
    ensures ParsePrimary([LParen] + inner + [RParen] + rest) == Lift(ast, rest)
  {
    hide ParseNot, ParsePrimary;
    var more := [RParen] + rest;
    AndOfOne(inner, ast, more);
    assert ParseOr(inner + more) == Lift(ast, more);
    BracketsRead(inner, ast, rest);
  }

  lemma {:induction false} EmptyBrackets(rest: Text)
    ensures ParsePrimary([LParen] + [] + [RParen] + rest) == Fail
  {
    var text := [LParen] + [] + [RParen] + rest;
    assert text[1..] == [RParen] + rest;
    var inner := [RParen] + rest;
    assert ParsePrimary(inner) == Fail;
    assert ParseTest(inner) == Fail;
    assert ParseNot(inner) == Fail;
    assert ParseAnd(inner) == Fail;
    assert ParseOr(inner) == Fail;
  }

  /** One token, an operator and an operand. */
  lemma {:induction false} ComparisonTest(left: Token, a: Expr, op: CompareOp, right: Text, b: Option<Expr>, rest: Text)
    requires forall more :: ParsePrimary([left] + more) == Read(a, more)
    requires ParsePrimary(right + rest) == Lift(b, rest)
    ensures ParseTest([left, Op(op)] + right + rest) == Lift(Both(op, Some(a), b), rest)
  {
    hide ParsePrimary;
    var text, more := [left, Op(op)] + right + rest, [Op(op)] + (right + rest);
    assert text == [left] + more;
    assert more[1..] == right + rest;
  }

  lemma {:induction false} NullTestOf(operand: Text, a: Option<Expr>, isNull: bool, rest: Text)
    requires ParsePrimary(operand + (NullTestTokens(isNull) + rest)) == Lift(a, NullTestTokens(isNull) + rest)
    ensures ParseTest(operand + (NullTestTokens(isNull) + rest)) == Lift(Tested(a, isNull), rest)
  {
    hide ParsePrimary;
    var test := NullTestTokens(isNull);
    assert (test + rest)[|test|..] == rest;
  }

  ghost predicate ReadsAsOperand(part: Text, ast: Expr) {
    forall more :: ParsePrimary(part + more) == Read(ast, more)
  }

  lemma {:induction false} ListTail(acc: seq<Expr>, parts: seq<Text>, asts: seq<Expr>, rest: Text)
    requires |parts| == |asts|
    requires forall i :: 0 <= i < |parts| ==> ReadsAsOperand(parts[i], asts[i])
    ensures ParseListTail(acc, Suffix(parts, Comma) + ([RParen] + rest)) == Read(acc + asts, rest)
    decreases |parts|
  {
    hide ParsePrimary;
    var text := Suffix(parts, Comma) + ([RParen] + rest);
    if parts == [] {
      assert text == [RParen] + rest && text[1..] == rest && acc + asts == acc;
    } else {
      var more := Suffix(parts[1..], Comma) + ([RParen] + rest);
      assert text == [Comma] + (parts[0] + more) && text[1..] == parts[0] + more;
      assert ReadsAsOperand(parts[0], asts[0]);
      ListTail(acc + [asts[0]], parts[1..], asts[1..], rest);
      assert acc + [asts[0]] + asts[1..] == acc + asts;
    }
  }

  /** A bracketed list of operands. */
  lemma {:induction false} ListReads(parts: seq<Text>, asts: seq<Expr>, rest: Text)
    requires |parts| == |asts| > 0
    requires forall i :: 0 <= i < |parts| ==> ReadsAsOperand(parts[i], asts[i])
    ensures ParseList([LParen] + Join(parts, Comma) + [RParen] + rest) == Read(asts, rest)
  {
    hide ParsePrimary;
    var text := [LParen] + Join(parts, Comma) + [RParen] + rest;
    JoinIsSuffix(parts, Comma);
    var more := Suffix(parts[1..], Comma) + ([RParen] + rest);
    assert text[1..] == parts[0] + more;
    assert ReadsAsOperand(parts[0], asts[0]);
    ListTail([asts[0]], parts[1..], asts[1..], rest);
    assert [asts[0]] + asts[1..] == asts;
  }

  lemma {:induction false} EmptyList(rest: Text)
    ensures ParseList([LParen] + [] + [RParen] + rest) == Fail
  {
    var text := [LParen] + [] + [RParen] + rest;
    assert text[1..] == [RParen] + rest;
  }

  function MemberOf(a: Expr, values: seq<Expr>, negated: bool): Option<Expr> {
    if values == [] then None else Some(In(a, values, negated))
  }

  lemma {:induction false} MembershipTest(operand: Token, a: Expr, negated: bool, list: Text, values: seq<Expr>,
                                          rest: Text)
    requires forall more :: ParsePrimary([operand] + more) == Read(a, more)
    requires ParseList(list + rest) == if values == [] then Fail else Read(values, rest)
    ensures ParseTest([operand] + MembershipWord(negated) + list + rest) == Lift(MemberOf(a, values, negated), rest)
  {
    hide ParsePrimary, ParseList;
    var word := MembershipWord(negated);
    var more := word + (list + rest);
    assert [operand] + word + list + rest == [operand] + more;
    assert more[|word|..] == list + rest;
  }

  /** Fields and literals are one token. */
  lemma {:induction false} OperandText(l: Layout, e: Filter, n: nat)
    requires Compiles(l, e) && OperandType(l, e).Some?
    ensures |TextOf(l, e, n)| == 1 && TextOf(l, e, n)[0] != KwNot
    ensures Ast(l, e, n, true).Some? && Ast(l, e, n, true) == Ast(l, e, n, false)
    ensures forall more :: ParsePrimary([TextOf(l, e, n)[0]] + more) == Read(Ast(l, e, n, true).value, more)
  {
    forall more ensures ParsePrimary([TextOf(l, e, n)[0]] + more) == Read(Ast(l, e, n, true).value, more) {
      assert ([TextOf(l, e, n)[0]] + more)[1..] == more;
    }
  }

  lemma {:induction false} FirstToken(l: Layout, e: Filter, n: nat)
    requires Compiles(l, e)
    ensures TextOf(l, e, n) != []
    ensures TextOf(l, e, n)[0] == KwNot <==> e.Unary?
  {}

  lemma {:induction false} MembershipRegroup(t: Text, w: Text, j: Text)
    ensures [LParen] + t + w + [LParen] + j + [RParen] + [RParen] == [LParen] + (t + w + ([LParen] + j + [RParen]))
            + [RParen]
  {}

  lemma {:induction false} MembershipShape(l: Layout, e: Filter, n: nat)
    requires Compiles(l, e) && e.Membership?
    ensures var m, ctype := n + |e.values|, OperandType(l, e.operand).value;
            && TextOf(l, e, n) == [LParen]
                 + (TextOf(l, e.operand, m) + MembershipWord(e.negated)
                    + ([LParen] + Join(ParameterList(n, |e.values|, ctype), Comma) + [RParen]))
                 + [RParen]
            && Ast(l, e.operand, m, true).Some?
            && Ast(l, e, n, true) == MemberOf(Ast(l, e.operand, m, true).value, ParList(n, |e.values|, ctype),
                                              e.negated)
  {
    hide Join, ParameterList, ParList, Parameter, OperandType, Bindings, Binds, ParameterType;
    var m, ctype := n + |e.values|, OperandType(l, e.operand).value;
    OperandText(l, e.operand, m);
    MembershipRegroup(TextOf(l, e.operand, m), MembershipWord(e.negated),
                      Join(ParameterList(n, |e.values|, ctype), Comma));
  }

  lemma {:induction false} EmptyJoin(parts: seq<Text>)
    requires parts == []
    ensures Join(parts, Comma) == []
  {}

  lemma {:induction false} ParameterToken(i: nat, ctype: string, rest: Text)
    ensures ParsePrimary([Parameter(i, ctype)] + rest) == Read(ParExpr(i, ctype), rest)
  {
    assert ([Parameter(i, ctype)] + rest)[1..] == rest;
  }

  lemma {:induction false} MembershipText(l: Layout, e: Filter, n: nat, rest: Text)
    requires Compiles(l, e) && e.Membership?
    ensures ParsePrimary(TextOf(l, e, n) + rest) == Lift(Ast(l, e, n, true), rest)
  {
    hide ParsePrimary, ParseTest, ParseList, TextOf, Ast, Join, ParameterType, ParameterName, OperandType;
    var m, ctype := n + |e.values|, OperandType(l, e.operand).value;
    OperandText(l, e.operand, m);
    MembershipShape(l, e, n);
    var operand, a := TextOf(l, e.operand, m)[0], Ast(l, e.operand, m, true).value;
    assert TextOf(l, e.operand, m) == [operand];
    var parts, pars := ParameterList(n, |e.values|, ctype), ParList(n, |e.values|, ctype);
    var list := [LParen] + Join(parts, Comma) + [RParen];
    var more := [RParen] + rest;
    if e.values == [] {
      assert Join(parts, Comma) == [] by { EmptyJoin(parts); }
      EmptyList(more);
    } else {
      forall i | 0 <= i < |parts| ensures ReadsAsOperand(parts[i], pars[i]) {
        forall tail ensures ParsePrimary(parts[i] + tail) == Read(pars[i], tail) {
          ParameterToken(n + i, ctype, tail);
        }
      }
      ListReads(parts, pars, more);
    }
    MembershipTest(operand, a, e.negated, list, pars, more);
    var inner := [operand] + MembershipWord(e.negated) + list;
    TestInBrackets(inner, MemberOf(a, pars, e.negated), rest);
  }

  lemma {:induction false} ComparisonReads(field: Token, a: Expr, op: CompareOp, i: nat, ctype: string)
    requires field != KwNot && forall more :: ParsePrimary([field] + more) == Read(a, more)
    ensures Reads([field] + [Op(op), Parameter(i, ctype)], Both(op, Some(a), Some(ParExpr(i, ctype))))
  {
    hide ParsePrimary;
    var part, ast := [field] + [Op(op), Parameter(i, ctype)], Both(op, Some(a), Some(ParExpr(i, ctype)));
    forall rest | Closed(rest) ensures ParseNot(part + rest) == Lift(ast, rest) {
      ParameterToken(i, ctype, rest);
      ComparisonTest(field, a, op, [Parameter(i, ctype)], Some(ParExpr(i, ctype)), rest);
      assert part + rest == [field, Op(op)] + [Parameter(i, ctype)] + rest;
    }
  }

  lemma {:induction false} RangeShape(l: Layout, e: Filter, n: nat)
    requires Compiles(l, e) && e.TimestampRange?
    ensures var m, ctype := n + |Bindings(l, e.operand)|, OperandType(l, e.operand).value;
            && TextOf(l, e, n) == [LParen]
                 + Join(RangeParts(TextOf(l, e.operand, n), e.start.Some?, e.end.Some?, e.includeStart, e.includeEnd,
                                   m, ctype), KwAnd)
                 + [RParen]
            && Ast(l, e, n, true) == Folded("and",
                 RangeAsts(Ast(l, e.operand, n, true), e.start.Some?, e.end.Some?, e.includeStart, e.includeEnd, m,
                           ctype))
  {
    hide Join, RangeParts, RangeAsts, Folded, Bindings, OperandType, Binds;
  }

  lemma {:induction false} RangeText(l: Layout, e: Filter, n: nat, rest: Text)
    requires Compiles(l, e) && e.TimestampRange?
    ensures ParsePrimary(TextOf(l, e, n) + rest) == Lift(Ast(l, e, n, true), rest)
  {
    hide ParsePrimary, ParseOr, Reads, Both, TextOf, Ast, OperandType, Bindings, Parameter, ParExpr;
    OperandText(l, e.operand, n);
    RangeShape(l, e, n);
    var field, a := TextOf(l, e.operand, n)[0], Ast(l, e.operand, n, true).value;
    var ctype, m := OperandType(l, e.operand).value, n + |Bindings(l, e.operand)|;
    assert TextOf(l, e.operand, n) == [field];
    var parts := RangeParts([field], e.start.Some?, e.end.Some?, e.includeStart, e.includeEnd, m, ctype);
    var asts := RangeAsts(Some(a), e.start.Some?, e.end.Some?, e.includeStart, e.includeEnd, m, ctype);
    if parts == [] {
      EmptyBrackets(rest);
    } else {
      ComparisonReads(field, a, if e.includeStart then Ge else Gt, m, ctype);
      ComparisonReads(field, a, if e.includeEnd then Le else Lt, m + (if e.start.Some? then 1 else 0), ctype);
      assert AllRead(parts, asts);
      AndReadsAsOr(parts, asts, [RParen] + rest);
      BracketsRead(Join(parts, KwAnd), Folded("and", asts), rest);
    }
  }

  /** Every accepted tree except a bare NOT is read as an operand. */
  lemma {:induction false} PrimaryText(l: Layout, e: Filter, n: nat, rest: Text)
    requires Compiles(l, e) && !e.Unary?
    ensures ParsePrimary(TextOf(l, e, n) + rest) == Lift(Ast(l, e, n, true), rest)
    decreases e, 1
  {
    hide ParsePrimary, ParseOr, ParseTest, ParseList;
    match e
    case Field(_, _) => OperandText(l, e, n); assert TextOf(l, e, n) == [TextOf(l, e, n)[0]];
    case Literal(_, _) => OperandText(l, e, n); assert TextOf(l, e, n) == [TextOf(l, e, n)[0]];
    case Binary(_, _, _) => BinaryText(l, e, n, rest);
    case Boolean(_, _) => BooleanText(l, e, n, rest);
    case NullTest(operand, isNull) => NullTestText(l, e, n, rest);
    case Membership(_, _, _) => MembershipText(l, e, n, rest);
    case TimestampRange(_, _, _, _, _) => RangeText(l, e, n, rest);
  }

  lemma {:induction false} UnaryShape(l: Layout, e: Filter, n: nat)
    requires Compiles(l, e) && e.Unary?
    ensures TextOf(l, e, n) == [KwNot] + ([LParen] + TextOf(l, e.operand, n) + [RParen])
    ensures Ast(l, e, n, true) == Negated(Ast(l, e.operand, n, true))
  {
    assert [KwNot, LParen] + TextOf(l, e.operand, n) + [RParen] == [KwNot]
      + ([LParen] + TextOf(l, e.operand, n) + [RParen]);
  }

  lemma {:induction false} NotOfPrimary(part: Text, ast: Option<Expr>, rest: Text)
    requires part != [] && part[0] == LParen && Closed(rest)
    requires ParsePrimary(part + rest) == Lift(ast, rest)
    ensures ParseNot([KwNot] + part + rest) == Lift(Negated(ast), rest)
  {
    hide ParsePrimary;
    PrimaryAlone(part + rest, ast, rest);
    assert ([KwNot] + part + rest)[1..] == part + rest;
  }

  lemma {:induction false} NotReads(inner: Text, ast: Option<Expr>)
    requires Reads(inner, ast)
    ensures Reads([KwNot] + ([LParen] + inner + [RParen]), Negated(ast))
  {
    hide ParsePrimary, ParseNot;
    var part := [LParen] + inner + [RParen];
    forall rest | Closed(rest)
      ensures ParseNot([KwNot] + part + rest) == Lift(Negated(ast), rest)
    {
      PartInBrackets(inner, ast, rest);
      NotOfPrimary(part, ast, rest);
    }
  }

  /** Every accepted tree, as an operand of AND, OR and NOT. */
  lemma {:induction false} AnyText(l: Layout, e: Filter, n: nat)
    requires Compiles(l, e)
    ensures Reads(TextOf(l, e, n), Ast(l, e, n, true))
    decreases e, 2
  {
    hide ParsePrimary, ParseNot, TextOf, Ast;
    if e.Unary? {
      UnaryShape(l, e, n);
      AnyText(l, e.operand, n);
      NotReads(TextOf(l, e.operand, n), Ast(l, e.operand, n, true));
    } else {
      FirstToken(l, e, n);
      forall rest ensures ParsePrimary(TextOf(l, e, n) + rest) == Lift(Ast(l, e, n, true), rest) {
        PrimaryText(l, e, n, rest);
      }
      PrimaryReads(TextOf(l, e, n), Ast(l, e, n, true));
    }
  }

  lemma {:induction false} AllTextsRead(l: Layout, es: seq<Filter>, n: nat)
    requires AllCompile(l, es)
    ensures AllRead(AllTexts(l, es, n), AllAsts(l, es, n, true))
    decreases es, 0
  {
    hide Reads, TextOf, Ast;
    if es != [] {
      AnyText(l, es[0], n);
      AllTextsRead(l, es[1..], n + |Bindings(l, es[0])|);
    }
  }

  lemma {:induction false} BinaryShape(l: Layout, e: Filter, n: nat)
    requires Compiles(l, e) && e.Binary?
    ensures TextOf(l, e, n) == [LParen] + TextOf(l, e.left, n) + [Op(ComparisonOp(e.op).value)]
            + RightText(l, e.left, e.right, n) + [RParen]
    ensures Ast(l, e, n, true) ==
            Both(ComparisonOp(e.op).value, Ast(l, e.left, n, true),
                 if e.right.Unary? then None else RightAst(l, e.left, e.right, n, true))
  {
    hide ComparisonOp, RightText, RightAst, OperandType, Binds, Bindings;
  }

  lemma {:induction false} ComparisonInBrackets(left: Token, op: CompareOp, right: Text, ast: Option<Expr>, rest: Text)
    requires left != KwNot
    requires ParseTest([left, Op(op)] + right + ([RParen] + rest)) == Lift(ast, [RParen] + rest)
    ensures ParsePrimary([LParen] + [left] + [Op(op)] + right + [RParen] + rest) == Lift(ast, rest)
  {
    hide ParsePrimary, ParseTest;
    var inner := [left, Op(op)] + right;
    TestInBrackets(inner, ast, rest);
    assert [LParen] + [left] + [Op(op)] + right + [RParen] + rest == [LParen] + inner + [RParen] + rest;
  }

  lemma {:induction false} BinaryText(l: Layout, e: Filter, n: nat, rest: Text)
    requires Compiles(l, e) && e.Binary?
    ensures ParsePrimary(TextOf(l, e, n) + rest) == Lift(Ast(l, e, n, true), rest)
    decreases e, 0
  {
    hide ParsePrimary, ParseTest, TextOf, Ast, RightText, RightAst, ComparisonOp, OperandType, Both, Bindings, Binds;
    var op := ComparisonOp(e.op).value;
    OperandText(l, e.left, n);
    BinaryShape(l, e, n);
    var left, a := TextOf(l, e.left, n)[0], Ast(l, e.left, n, true).value;
    var right := RightText(l, e.left, e.right, n);
    var b := if e.right.Unary? then None else RightAst(l, e.left, e.right, n, true);
    RightOperand(l, e, n, [RParen] + rest);
    ComparisonTest(left, a, op, right, b, [RParen] + rest);
    assert TextOf(l, e.left, n) == [left];
    ComparisonInBrackets(left, op, right, Both(op, Some(a), b), rest);
  }

  lemma {:induction false} NotIsNoOperand(text: Text)
    requires text != [] && text[0] == KwNot
    ensures ParsePrimary(text) == Fail
  {}

  /** The right side of a comparison is an operand unless it is a bare NOT. */
  lemma {:induction false} RightOperand(l: Layout, e: Filter, n: nat, rest: Text)
    requires Compiles(l, e) && e.Binary?
    ensures ParsePrimary(RightText(l, e.left, e.right, n) + rest)
            == Lift(if e.right.Unary? then None else RightAst(l, e.left, e.right, n, true), rest)
    decreases e.right, 2
  {
    hide ParsePrimary, TextOf, Ast, OperandType, Parameter, ParExpr, Bindings, Binds, ComparisonOp;
    var m := n + |Bindings(l, e.left)|;
    if e.right.Literal? {
      ParameterToken(m, OperandType(l, e.left).value, rest);
    } else {
      FirstToken(l, e.right, m);
      if e.right.Unary? {
        NotIsNoOperand(TextOf(l, e.right, m) + rest);
      } else {
        PrimaryText(l, e.right, m, rest);
      }
    }
  }

  lemma {:induction false} BooleanText(l: Layout, e: Filter, n: nat, rest: Text)
    requires Compiles(l, e) && e.Boolean?
    ensures ParsePrimary(TextOf(l, e, n) + rest) == Lift(Ast(l, e, n, true), rest)
    decreases e, 0
  {
    hide ParsePrimary, ParseOr, AllRead;
    var parts, asts := AllTexts(l, e.operands, n), AllAsts(l, e.operands, n, true);
    var more := [RParen] + rest;
    if e.operands == [] {
      EmptyBrackets(rest);
    } else {
      AllTextsRead(l, e.operands, n);
      if e.op == "and" {
        AndReadsAsOr(parts, asts, more);
        BracketsRead(Join(parts, KwAnd), Folded(e.op, asts), rest);
      } else {
        OrReads(parts, asts, more);
        BracketsRead(Join(parts, KwOr), Folded(e.op, asts), rest);
      }
    }
  }

  lemma {:induction false} NullTestShape(l: Layout, e: Filter, n: nat)
    requires Compiles(l, e) && e.NullTest?
    ensures TextOf(l, e, n) == [LParen] + (TextOf(l, e.operand, n) + NullTestTokens(e.isNull)) + [RParen]
    ensures Ast(l, e, n, true) ==
            if e.operand.Unary? then Negated(Tested(Ast(l, e.operand.operand, n, true), e.isNull))
            else Tested(Ast(l, e.operand, n, true), e.isNull)
  {
    hide NullTestTokens, Negated, Tested, Bindings;
    var t := TextOf(l, e.operand, n);
    assert [LParen] + t + NullTestTokens(e.isNull) + [RParen] == [LParen] + (t + NullTestTokens(e.isNull)) + [RParen];
  }

  lemma {:induction false} NullTestReads(operand: Text, ast: Option<Expr>, isNull: bool, rest: Text)
    requires operand != [] && operand[0] != KwNot
    requires ParsePrimary(operand + (NullTestTokens(isNull) + ([RParen] + rest)))
             == Lift(ast, NullTestTokens(isNull) + ([RParen] + rest))
    ensures ParsePrimary([LParen] + (operand + NullTestTokens(isNull)) + [RParen] + rest)
            == Lift(Tested(ast, isNull), rest)
  {
    hide ParsePrimary, ParseTest, ParseOr, Tested;
    var test, more := NullTestTokens(isNull), [RParen] + rest;
    NullTestOf(operand, ast, isNull, more);
    assert (operand + test) + more == operand + (test + more);
    TestInBrackets(operand + test, Tested(ast, isNull), rest);
  }

  /** NOT swallows the whole test that follows it. */
  lemma {:induction false} NotTestInBrackets(part: Text, test: Text, ast: Option<Expr>, rest: Text)
    requires part != [] && part[0] == LParen
    requires ParseTest(part + (test + ([RParen] + rest))) == Lift(ast, [RParen] + rest)
    ensures ParsePrimary([LParen] + ([KwNot] + part + test) + [RParen] + rest) == Lift(Negated(ast), rest)
  {
    hide ParseTest, ParsePrimary;
    var more := [RParen] + rest;
    var inner := [KwNot] + part + test;
    var text := inner + more;
    assert text[1..] == part + (test + more);
    assert ParseNot(text[1..]) == ParseTest(text[1..]);
    assert ParseNot(text) == Lift(Negated(ast), more);
    NotAsOr(text, Negated(ast), more);
    BracketsRead(inner, Negated(ast), rest);
  }

  lemma {:induction false} NullTestOfNotReads(inner: Text, ast: Option<Expr>, isNull: bool, rest: Text)
    requires Reads(inner, ast)
    ensures ParsePrimary([LParen] + (([KwNot] + ([LParen] + inner + [RParen])) + NullTestTokens(isNull)) + [RParen]
            + rest)
         == Lift(Negated(Tested(ast, isNull)), rest)
  {
    hide ParsePrimary, ParseTest, ParseOr, Tested, Negated, Reads;
    var test, more := NullTestTokens(isNull), [RParen] + rest;
    var part := [LParen] + inner + [RParen];
    PartInBrackets(inner, ast, test + more);
    assert part + (test + more) == [LParen] + inner + [RParen] + (test + more);
    NullTestOf(part, ast, isNull, more);
    NotTestInBrackets(part, test, Tested(ast, isNull), rest);
  }

  lemma {:induction false} NullTestText(l: Layout, e: Filter, n: nat, rest: Text)
    requires Compiles(l, e) && e.NullTest?
    ensures ParsePrimary(TextOf(l, e, n) + rest) == Lift(Ast(l, e, n, true), rest)
    decreases e, 0
  {
    hide ParsePrimary, ParseTest, ParseOr, TextOf, Ast, Negated, Tested;
    NullTestShape(l, e, n);
    FirstToken(l, e.operand, n);
    if e.operand.Unary? {
      var inner, ast := TextOf(l, e.operand.operand, n), Ast(l, e.operand.operand, n, true);
      UnaryShape(l, e.operand, n);
      AnyText(l, e.operand.operand, n);
      NullTestOfNotReads(inner, ast, e.isNull, rest);
    } else {
      var operand, ast := TextOf(l, e.operand, n), Ast(l, e.operand, n, true);
      PrimaryText(l, e.operand, n, NullTestTokens(e.isNull) + ([RParen] + rest));
      NullTestReads(operand, ast, e.isNull, rest);
    }
  }

  /** The whole text is read as `Ast(..., true)`, or refused where that is none. */
  lemma {:induction false} TextReading(l: Layout, e: Filter, n: nat)
    requires Compiles(l, e)
    ensures Parse(TextOf(l, e, n)) == Ast(l, e, n, true)
  {
    hide ParseNot, TextOf, Ast;
    AnyText(l, e, n);
    var text, ast := TextOf(l, e, n), Ast(l, e, n, true);
    assert text + [] == text;
    ReadsAt(text, ast, []);
    NotAsOr(text, ast, []);
  }

  // ---- When that is the tree ------------------------------------------------

  lemma {:induction false} FoldInjective(a: Option<Expr>, xs: seq<Option<Expr>>, b: Option<Expr>,
                                         ys: seq<Option<Expr>>, conjunction: bool)
    requires |xs| == |ys|
    requires var fa := if conjunction then FoldAnd(a, xs) else FoldOr(a, xs);
             var fb := if conjunction then FoldAnd(b, ys) else FoldOr(b, ys);
             fa.Some? && fa == fb
    ensures a.Some? && a == b && xs == ys && forall i :: 0 <= i < |xs| ==> xs[i].Some?
    decreases |xs|
  {
    if xs != [] {
      if conjunction {
        FoldInjective(Some(And(a.value, xs[0].value)), xs[1..], Some(And(b.value, ys[0].value)), ys[1..], conjunction);
      } else {
        FoldInjective(Some(Or(a.value, xs[0].value)), xs[1..], Some(Or(b.value, ys[0].value)), ys[1..], conjunction);
      }
      assert xs == [xs[0]] + xs[1..] && ys == [ys[0]] + ys[1..];
    }
  }

  lemma {:induction false} FoldDefined(a: Option<Expr>, xs: seq<Option<Expr>>)
    requires a.Some? && forall i :: 0 <= i < |xs| ==> xs[i].Some?
    ensures FoldAnd(a, xs).Some? && FoldOr(a, xs).Some?
    decreases |xs|
  {
    if xs != [] {
      FoldDefined(Some(And(a.value, xs[0].value)), xs[1..]);
      FoldDefined(Some(Or(a.value, xs[0].value)), xs[1..]);
    }
  }

  ghost predicate AllSome(xs: seq<Option<Expr>>) { forall i :: 0 <= i < |xs| ==> xs[i].Some? }

  lemma {:induction false} FoldedExact(op: string, xs: seq<Option<Expr>>, ys: seq<Option<Expr>>)
    requires |xs| == |ys|
    ensures Folded(op, xs).Some? && Folded(op, xs) == Folded(op, ys) <==> xs != [] && AllSome(xs) && xs == ys
  {
    if xs != [] {
      if Folded(op, xs).Some? && Folded(op, xs) == Folded(op, ys) {
        FoldInjective(xs[0], xs[1..], ys[0], ys[1..], op == "and");
        assert xs == [xs[0]] + xs[1..] && ys == [ys[0]] + ys[1..];
      }
      if AllSome(xs) {
        FoldDefined(xs[0], xs[1..]);
      }
    }
  }

  lemma {:induction false} OperandBracketed(l: Layout, e: Filter)
    requires OperandType(l, e).Some?
    ensures WellBracketed(e)
  {}

  lemma {:induction false} OperandAst(l: Layout, e: Filter, n: nat)
    requires Compiles(l, e) && OperandType(l, e).Some?
    ensures Ast(l, e, n, true).Some? && Ast(l, e, n, true) == Ast(l, e, n, false)
    ensures WellBracketed(e)
  {}

  lemma {:induction false} RangeBracketed(l: Layout, e: Filter)
    requires Compiles(l, e) && e.TimestampRange?
    ensures Compiles(l, e.operand) && OperandType(l, e.operand).Some?
    ensures WellBracketed(e) <==> (e.start.Some? || e.end.Some?) && WellBracketed(e.operand)
  {
    hide OperandType, BoundOk;
  }

  lemma {:induction false} RangeSome(a: Option<Expr>, e: Filter, n: nat, ctype: string)
    requires a.Some? && e.TimestampRange?
    ensures var asts := RangeAsts(a, e.start.Some?, e.end.Some?, e.includeStart, e.includeEnd, n, ctype);
            AllSome(asts) && (asts != [] <==> e.start.Some? || e.end.Some?)
  {}

  lemma {:induction false} RangeExact(l: Layout, e: Filter, n: nat)
    requires Compiles(l, e) && e.TimestampRange?
    ensures Ast(l, e, n, true) == Ast(l, e, n, false)
    ensures Ast(l, e, n, true).Some? <==> e.start.Some? || e.end.Some?
    ensures WellBracketed(e) <==> e.start.Some? || e.end.Some?
  {
    hide OperandType, Bindings, ParExpr, Folded, RangeAsts, Ast, WellBracketed, Compiles, AllSome;
    RangeBracketed(l, e);
    OperandAst(l, e.operand, n);
    RangeAst(l, e, n, true);
    RangeAst(l, e, n, false);
    var m, ctype := n + |Bindings(l, e.operand)|, OperandType(l, e.operand).value;
    var asts := RangeAsts(Ast(l, e.operand, n, true), e.start.Some?, e.end.Some?, e.includeStart, e.includeEnd, m,
                          ctype);
    FoldedExact("and", asts, asts);
    RangeSome(Ast(l, e.operand, n, true), e, m, ctype);
  }

  /** The text is read as the very condition that the tree stands for exactly when the tree
      is well bracketed. */
  lemma {:induction false} ReadingExact(l: Layout, e: Filter, n: nat)
    requires Compiles(l, e)
    ensures Ast(l, e, n, true).Some? && Ast(l, e, n, true) == Ast(l, e, n, false) <==> WellBracketed(e)
    decreases e, 1
  {
    hide Bindings, ComparisonOp, OperandType, ParExpr, Folded, AllAsts, AllWellBracketed;
    match e
    case Field(_, _) =>
    case Literal(_, _) =>
    case Binary(_, _, _) => BinaryExact(l, e, n);
    case Boolean(op, operands) =>
      AllReadingExact(l, operands, n);
      FoldedExact(op, AllAsts(l, operands, n, true), AllAsts(l, operands, n, false));
    case Unary(_, operand) => ReadingExact(l, operand, n);
    case NullTest(_, _) => NullTestExact(l, e, n);
    case Membership(operand, values, _) =>
      OperandText(l, operand, n + |values|);
      OperandBracketed(l, operand);
    case TimestampRange(_, _, _, _, _) => RangeExact(l, e, n);
  }

  lemma {:induction false} BinaryAst(l: Layout, e: Filter, n: nat)
    requires Compiles(l, e) && e.Binary?
    ensures Ast(l, e, n, true) == if e.right.Unary? then None
            else Both(ComparisonOp(e.op).value, Ast(l, e.left, n, true), RightAst(l, e.left, e.right, n, true))
    ensures Ast(l, e, n, false) ==
            Both(ComparisonOp(e.op).value, Ast(l, e.left, n, false), RightAst(l, e.left, e.right, n, false))
    ensures WellBracketed(e) <==> !e.right.Unary? && WellBracketed(e.left) && WellBracketed(e.right)
    ensures e.right.Literal? ==> WellBracketed(e.right)
  {
    hide ComparisonOp, Both, RightAst, OperandType, Binds, ParExpr;
  }

  lemma {:induction false} BinaryExact(l: Layout, e: Filter, n: nat)
    requires Compiles(l, e) && e.Binary?
    ensures Ast(l, e, n, true).Some? && Ast(l, e, n, true) == Ast(l, e, n, false) <==> WellBracketed(e)
    decreases e, 0
  {
    hide Ast, WellBracketed, Bindings, ComparisonOp, OperandType, ParExpr, Binds;
    BinaryAst(l, e, n);
    OperandAst(l, e.left, n);
    if !e.right.Literal? {
      ReadingExact(l, e.right, n + |Bindings(l, e.left)|);
    }
  }

  lemma {:induction false} NullTestAst(l: Layout, e: Filter, n: nat)
    requires Compiles(l, e) && e.NullTest? && !e.operand.Unary?
    ensures Ast(l, e, n, true) == Tested(Ast(l, e.operand, n, true), e.isNull)
    ensures Ast(l, e, n, false) == Tested(Ast(l, e.operand, n, false), e.isNull)
    ensures WellBracketed(e) <==> WellBracketed(e.operand)
  {}

  lemma {:induction false} NullTestOfNot(l: Layout, e: Filter, n: nat)
    requires Compiles(l, e) && e.NullTest? && e.operand.Unary?
    ensures Ast(l, e, n, true).None? || Ast(l, e, n, true) != Ast(l, e, n, false)
    ensures !WellBracketed(e)
  {
    var x := e.operand.operand;
    assert Ast(l, e, n, true) == Negated(Tested(Ast(l, x, n, true), e.isNull));
    assert Ast(l, e, n, false) == Tested(Negated(Ast(l, x, n, false)), e.isNull);
  }

  lemma {:induction false} NullTestExact(l: Layout, e: Filter, n: nat)
    requires Compiles(l, e) && e.NullTest?
    ensures Ast(l, e, n, true).Some? && Ast(l, e, n, true) == Ast(l, e, n, false) <==> WellBracketed(e)
    decreases e, 0
  {
    if !e.operand.Unary? {
      ReadingExact(l, e.operand, n);
      NullTestAst(l, e, n);
    } else {
      NullTestOfNot(l, e, n);
    }
  }

  lemma {:induction false} SomeSplit(xs: seq<Option<Expr>>)
    requires xs != []
    ensures AllSome(xs) <==> xs[0].Some? && AllSome(xs[1..])
  {
    assert xs == [xs[0]] + xs[1..];
  }

  lemma {:induction false} AllReadingExact(l: Layout, es: seq<Filter>, n: nat)
    requires AllCompile(l, es)
    ensures AllSome(AllAsts(l, es, n, true)) && AllAsts(l, es, n, true) == AllAsts(l, es, n, false) <==>
            AllWellBracketed(es)
    decreases es, 0
  {
    hide Ast, WellBracketed, Compiles, Bindings;
    if es != [] {
      var m := n + |Bindings(l, es[0])|;
      ReadingExact(l, es[0], n);
      AllReadingExact(l, es[1..], m);
      var xs, ys := AllAsts(l, es, n, true), AllAsts(l, es, n, false);
      assert xs[1..] == AllAsts(l, es[1..], m, true) && ys[1..] == AllAsts(l, es[1..], m, false);
      assert AllSome(xs) <==> xs[0].Some? && AllSome(xs[1..]) by { SomeSplit(xs); }
      assert xs == [xs[0]] + xs[1..] && ys == [ys[0]] + ys[1..];
    }
  }

  /** Reading the emitted text back gives the compiled tree exactly when the tree is well
      bracketed; every other accepted tree is read as something else or refused. */
  lemma {:induction false} ReadBack(l: Layout, e: Filter, n: nat)
    requires Compiles(l, e)
    ensures Parse(TextOf(l, e, n)).Some? && Parse(TextOf(l, e, n)) == Ast(l, e, n, false) <==> WellBracketed(e)
  {
    TextReading(l, e, n);
    ReadingExact(l, e, n);
  }

  // ---- Evaluation -----------------------------------------------------------

  ghost predicate HoldsNumber(env: Env, n: nat, values: seq<Json>, i: nat)
    requires i < |values|
  {
    ParameterName(n + i) in env && env[ParameterName(n + i)] == values[i]
  }

  /** Parameters from number `n` on hold `values`. */
  ghost predicate Holds(env: Env, n: nat, values: seq<Json>) {
    forall i :: 0 <= i < |values| ==> HoldsNumber(env, n, values, i)
  }

  lemma {:induction false} HoldsSplit(env: Env, n: nat, a: seq<Json>, b: seq<Json>)
    requires Holds(env, n, a + b)
    ensures Holds(env, n, a) && Holds(env, n + |a|, b)
  {
    hide ParameterName;
    forall i | 0 <= i < |a| ensures HoldsNumber(env, n, a, i) {
      assert HoldsNumber(env, n, a + b, i);
    }
    var m := n + |a|;
    forall i | 0 <= i < |b| ensures HoldsNumber(env, m, b, i) {
      assert HoldsNumber(env, n, a + b, |a| + i);
    }
  }

  lemma {:induction false} HoldsAt(env: Env, n: nat, values: seq<Json>, i: nat)
    requires Holds(env, n, values) && i < |values|
    ensures ParameterName(n + i) in env && env[ParameterName(n + i)] == values[i]
  {
    assert HoldsNumber(env, n, values, i);
  }

  /** A bound literal denotes at the engine what the literal means. */
  lemma {:induction false} BoundLiteral(value: Json, ctype: string)
    requires Binds(value, ctype)
    ensures Denote(ParameterType(ctype), ParameterValue(value, ctype).value) == LiteralMeaning(value, ctype)
  {
    hide ParameterType, TimestampText, ReadParameter, TimestampNanoseconds;
    if "DateTime" <= ParameterType(ctype) && value.JStr? {
      StorableTicks(value.text);
      ParameterRoundTrip(TimestampNanoseconds(value.text).value);
    }
  }

  lemma {:induction false} ParameterMeaning(env: Env, n: nat, i: nat, values: seq<Json>, value: Json, ctype: string,
                                            row: Row)
    requires Holds(env, n, values) && i < |values|
    requires Binds(value, ctype) && values[i] == ParameterValue(value, ctype).value
    ensures Eval(ParExpr(n + i, ctype), env, row) == LiteralMeaning(value, ctype)
  {
    hide ParameterType, ParameterName, Denote, LiteralMeaning, ParameterValue;
    HoldsAt(env, n, values, i);
    BoundLiteral(value, ctype);
  }

  lemma {:induction false} EvalColumn(column: string, env: Env, row: Row)
    ensures Eval(Col(column), env, row) == Cell(row, column)
  {}

  /** Evaluating the intended condition with the recorded parameters gives the value of the
      tree on every row. */
  lemma {:induction false} EvalOperand(l: Layout, e: Filter, n: nat, env: Env, row: Row)
    requires Compiles(l, e) && (e.Field? || e.Literal?) && Holds(env, n, Bindings(l, e))
    ensures Ast(l, e, n, false).Some?
    ensures Eval(Ast(l, e, n, false).value, env, row) == Meaning(l, e, row)
  {
    hide Holds, ParExpr, LiteralMeaning, ParameterValue, LiteralType, Eval;
    if e.Literal? {
      ParameterMeaning(env, n, 0, Bindings(l, e), e.value, LiteralType(e.kind), row);
    } else {
      EvalColumn(l.Physical(e.name), env, row);
    }
  }

  lemma {:induction false} NotForeign(l: Layout, e: Filter)
    requires Compiles(l, e)
    ensures !e.Foreign?
  {}

  lemma {:induction false} EvalNegated(ast: Option<Expr>, isNull: bool, env: Env, row: Row)
    requires ast.Some?
    ensures Negated(ast).Some? && Eval(Negated(ast).value, env, row) == Not3(Eval(ast.value, env, row))
    ensures Tested(ast, isNull).Some? && Eval(Tested(ast, isNull).value, env, row)
            == BoolV(Eval(ast.value, env, row).Null? == isNull)
  {}

  lemma {:induction false} UnaryTree(l: Layout, e: Filter, n: nat, row: Row)
    requires Compiles(l, e) && e.Unary?
    ensures Compiles(l, e.operand) && Bindings(l, e) == Bindings(l, e.operand)
            && (WellBracketed(e) <==> WellBracketed(e.operand))
    ensures Ast(l, e, n, false) == Negated(Ast(l, e.operand, n, false))
    ensures Meaning(l, e, row) == Not3(Meaning(l, e.operand, row))
  {}

  lemma {:induction false} NullTestTree(l: Layout, e: Filter, n: nat, row: Row)
    requires Compiles(l, e) && e.NullTest?
    ensures Compiles(l, e.operand) && Bindings(l, e) == Bindings(l, e.operand)
            && (WellBracketed(e) ==> WellBracketed(e.operand))
    ensures Ast(l, e, n, false) == Tested(Ast(l, e.operand, n, false), e.isNull)
    ensures Meaning(l, e, row) == BoolV(Meaning(l, e.operand, row).Null? == e.isNull)
  {}

  lemma {:induction false} EvalMeaning(l: Layout, e: Filter, n: nat, env: Env, row: Row)
    requires Compiles(l, e) && WellBracketed(e) && Holds(env, n, Bindings(l, e))
    ensures Ast(l, e, n, false).Some?
    ensures Eval(Ast(l, e, n, false).value, env, row) == Meaning(l, e, row)
    decreases e, 1
  {
    hide Holds, Ast, Meaning, Bindings, WellBracketed, Compiles, Negated, Tested;
    NotForeign(l, e);
    match e
    case Field(_, _) => EvalOperand(l, e, n, env, row);
    case Literal(_, _) => EvalOperand(l, e, n, env, row);
    case Binary(_, _, _) => EvalBinary(l, e, n, env, row);
    case Boolean(_, _) => EvalBoolean(l, e, n, env, row);
    case Unary(_, operand) =>
      UnaryTree(l, e, n, row);
      EvalMeaning(l, operand, n, env, row);
      EvalNegated(Ast(l, operand, n, false), true, env, row);
    case NullTest(operand, isNull) =>
      NullTestTree(l, e, n, row);
      EvalMeaning(l, operand, n, env, row);
      EvalNegated(Ast(l, operand, n, false), isNull, env, row);
    case Membership(_, _, _) => EvalMembership(l, e, n, env, row);
    case TimestampRange(_, _, _, _, _) => EvalRange(l, e, n, env, row);
  }

  function RightMeaning(l: Layout, e: Filter, row: Row): Value
    requires Compiles(l, e) && e.Binary?
  {
    if e.right.Literal? then LiteralMeaning(e.right.value, OperandType(l, e.left).value) else Meaning(l, e.right, row)
  }

  function RightBindings(l: Layout, e: Filter): seq<Json>
    requires Compiles(l, e) && e.Binary?
  {
    if e.right.Literal? then [ParameterValue(e.right.value, OperandType(l, e.left).value).value]
      else Bindings(l, e.right)
  }

  lemma {:induction false} BinaryMeaning(l: Layout, e: Filter, row: Row)
    requires Compiles(l, e) && e.Binary?
    ensures Meaning(l, e, row) == Compare(ComparisonOp(e.op).value, Meaning(l, e.left, row), RightMeaning(l, e, row))
    ensures Bindings(l, e) == Bindings(l, e.left) + RightBindings(l, e)
  {
    hide ComparisonOp, Compare, ParameterValue, LiteralMeaning, Binds;
  }

  lemma {:induction false} EvalRight(l: Layout, e: Filter, n: nat, env: Env, row: Row)
    requires Compiles(l, e) && e.Binary? && WellBracketed(e.right)
             && Holds(env, n + |Bindings(l, e.left)|, RightBindings(l, e))
    ensures RightAst(l, e.left, e.right, n, false).Some?
    ensures Eval(RightAst(l, e.left, e.right, n, false).value, env, row) == RightMeaning(l, e, row)
    decreases e.right, 2
  {
    hide Holds, ParExpr, LiteralMeaning, OperandType, ComparisonOp, ParameterValue, Ast, Meaning, Eval, Bindings;
    var m := n + |Bindings(l, e.left)|;
    if e.right.Literal? {
      ParameterMeaning(env, m, 0, RightBindings(l, e), e.right.value, OperandType(l, e.left).value, row);
    } else {
      EvalMeaning(l, e.right, m, env, row);
    }
  }

  lemma {:induction false} EvalBinary(l: Layout, e: Filter, n: nat, env: Env, row: Row)
    requires Compiles(l, e) && e.Binary? && WellBracketed(e) && Holds(env, n, Bindings(l, e))
    ensures Ast(l, e, n, false).Some?
    ensures Eval(Ast(l, e, n, false).value, env, row) == Meaning(l, e, row)
    decreases e, 0
  {
    hide Holds, Ast, RightAst, Meaning, RightMeaning, Bindings, RightBindings, WellBracketed, ComparisonOp, Compare;
    BinaryAst(l, e, n);
    BinaryMeaning(l, e, row);
    HoldsSplit(env, n, Bindings(l, e.left), RightBindings(l, e));
    EvalMeaning(l, e.left, n, env, row);
    EvalRight(l, e, n, env, row);
  }

  /** The conditions are defined and have the given values. */
  ghost predicate EvalsTo(asts: seq<Option<Expr>>, values: seq<Value>, env: Env, row: Row) {
    |asts| == |values| && forall i :: 0 <= i < |asts| ==> asts[i].Some? && Eval(asts[i].value, env, row) == values[i]
  }

  lemma {:induction false} EvalsCons(ast: Option<Expr>, value: Value, asts: seq<Option<Expr>>, values: seq<Value>,
                                     env: Env, row: Row)
    requires ast.Some? && Eval(ast.value, env, row) == value && EvalsTo(asts, values, env, row)
    ensures EvalsTo([ast] + asts, [value] + values, env, row)
  {
    hide Eval;
  }

  lemma {:induction false} EvalFold(acc: Expr, asts: seq<Option<Expr>>, values: seq<Value>, env: Env, row: Row)
    requires EvalsTo(asts, values, env, row)
    ensures FoldAnd(Some(acc), asts).Some? && FoldOr(Some(acc), asts).Some?
    ensures Eval(FoldAnd(Some(acc), asts).value, env, row) == Conjunction(Eval(acc, env, row), values)
    ensures Eval(FoldOr(Some(acc), asts).value, env, row) == Disjunction(Eval(acc, env, row), values)
    decreases |asts|
  {
    if asts != [] {
      EvalFold(And(acc, asts[0].value), asts[1..], values[1..], env, row);
      EvalFold(Or(acc, asts[0].value), asts[1..], values[1..], env, row);
    }
  }

  lemma {:induction false} EvalAll(l: Layout, es: seq<Filter>, n: nat, env: Env, row: Row)
    requires AllCompile(l, es) && AllWellBracketed(es) && Holds(env, n, AllBindings(l, es))
    ensures EvalsTo(AllAsts(l, es, n, false), AllMeanings(l, es, row), env, row)
    decreases es, 0
  {
    hide Holds, Ast, Meaning, Bindings, Compiles, WellBracketed, Eval;
    if es != [] {
      var m := n + |Bindings(l, es[0])|;
      HoldsSplit(env, n, Bindings(l, es[0]), AllBindings(l, es[1..]));
      EvalMeaning(l, es[0], n, env, row);
      EvalAll(l, es[1..], m, env, row);
      EvalsCons(Ast(l, es[0], n, false), Meaning(l, es[0], row), AllAsts(l, es[1..], m, false),
                AllMeanings(l, es[1..], row), env, row);
    }
  }

  lemma {:induction false} EvalBoolean(l: Layout, e: Filter, n: nat, env: Env, row: Row)
    requires Compiles(l, e) && e.Boolean? && WellBracketed(e) && Holds(env, n, Bindings(l, e))
    ensures Ast(l, e, n, false).Some?
    ensures Eval(Ast(l, e, n, false).value, env, row) == Meaning(l, e, row)
    decreases e, 0
  {
    hide Holds, AllAsts, AllMeanings, FoldAnd, FoldOr, Conjunction, Disjunction, Eval;
    EvalAll(l, e.operands, n, env, row);
    var asts, values := AllAsts(l, e.operands, n, false), AllMeanings(l, e.operands, row);
    EvalFold(asts[0].value, asts[1..], values[1..], env, row);
  }

  function ListMeaning(values: seq<Filter>, ctype: string): (r: seq<Value>)
    requires ValuesBind(values, ctype)
    ensures |r| == |values|
  {
    seq(|values|, i requires 0 <= i < |values| && values[i].Literal? => LiteralMeaning(values[i].value, ctype))
  }

  function Hit(v: Value, negated: bool): Value { if negated then Not3(v) else v }

  lemma {:induction false} MembershipMeaning(l: Layout, e: Filter, n: nat, row: Row)
    requires Compiles(l, e) && e.Membership? && WellBracketed(e)
    ensures var ctype, m := OperandType(l, e.operand).value, n + |e.values|;
            && Meaning(l, e, row) == Hit(In3(Meaning(l, e.operand, row), ListMeaning(e.values, ctype)), e.negated)
            && Bindings(l, e) == MemberValues(e.values, ctype) + Bindings(l, e.operand)
            && (Ast(l, e.operand, m, false).Some? ==>
                Ast(l, e, n, false) == Some(In(Ast(l, e.operand, m, false).value, ParList(n, |e.values|, ctype),
                                               e.negated)))
    ensures WellBracketed(e.operand)
  {
    hide OperandType, LiteralMeaning, ParameterValue, In3, ParList;
  }

  lemma {:induction false} EvalParameters(values: seq<Filter>, n: nat, ctype: string, env: Env, row: Row)
    requires ValuesBind(values, ctype) && Holds(env, n, MemberValues(values, ctype))
    ensures EvalList(ParList(n, |values|, ctype), env, row) == ListMeaning(values, ctype)
  {
    hide Holds, ParExpr, LiteralMeaning, ParameterValue;
    var pars, bound := ParList(n, |values|, ctype), MemberValues(values, ctype);
    forall i | 0 <= i < |pars| ensures Eval(pars[i], env, row) == ListMeaning(values, ctype)[i] {
      ParameterMeaning(env, n, i, bound, values[i].value, ctype, row);
    }
  }

  lemma {:induction false} EvalMembership(l: Layout, e: Filter, n: nat, env: Env, row: Row)
    requires Compiles(l, e) && e.Membership? && WellBracketed(e) && Holds(env, n, Bindings(l, e))
    ensures Ast(l, e, n, false).Some?
    ensures Eval(Ast(l, e, n, false).value, env, row) == Meaning(l, e, row)
    decreases e, 0
  {
    hide Holds, Ast, Meaning, Bindings, WellBracketed, OperandType, In3, Not3, ParList, ListMeaning, MemberValues,
         EvalList;
    var ctype := OperandType(l, e.operand).value;
    MembershipMeaning(l, e, n, row);
    HoldsSplit(env, n, MemberValues(e.values, ctype), Bindings(l, e.operand));
    EvalMeaning(l, e.operand, n + |e.values|, env, row);
    EvalParameters(e.values, n, ctype, env, row);
  }

  lemma {:induction false} RangeTree(l: Layout, e: Filter, row: Row)
    requires Compiles(l, e) && e.TimestampRange?
    ensures var ctype := OperandType(l, e.operand).value;
            && BoundOk(e.start, ctype) && BoundOk(e.end, ctype)
            && Meaning(l, e, row) == RangeMeaning(Meaning(l, e.operand, row), ctype, e.start, e.end, e.includeStart,
                                                  e.includeEnd)
    ensures WellBracketed(e) ==> WellBracketed(e.operand) && (e.start.Some? || e.end.Some?)
  {
    hide OperandType, RangeMeaning, BoundOk;
  }

  lemma {:induction false} RangeBindings(l: Layout, e: Filter)
    requires Compiles(l, e) && e.TimestampRange?
    ensures var ctype := OperandType(l, e.operand).value;
            && BoundOk(e.start, ctype) && BoundOk(e.end, ctype)
            && Bindings(l, e) == Bindings(l, e.operand) + BoundValue(e.start, ctype) + BoundValue(e.end, ctype)
  {
    hide OperandType, BoundValue, BoundOk;
  }

  lemma {:induction false} RangeAst(l: Layout, e: Filter, n: nat, asRead: bool)
    requires Compiles(l, e) && e.TimestampRange?
    ensures var ctype, m := OperandType(l, e.operand).value, n + |Bindings(l, e.operand)|;
            Ast(l, e, n, asRead) == Folded("and", RangeAsts(Ast(l, e.operand, n, asRead), e.start.Some?, e.end.Some?,
                                                            e.includeStart, e.includeEnd, m, ctype))
  {
    hide OperandType, Folded, RangeAsts, BoundOk, Bindings;
  }

  lemma {:induction false} EvalBounds(a: Expr, e: Filter, m: nat, ctype: string, env: Env, row: Row)
    requires e.TimestampRange? && (e.start.Some? || e.end.Some?)
    requires BoundOk(e.start, ctype) && BoundOk(e.end, ctype)
    requires Holds(env, m, BoundValue(e.start, ctype)) && Holds(env, m + |BoundValue(e.start, ctype)|,
                                                                BoundValue(e.end, ctype))
    ensures var ast := Folded("and", RangeAsts(Some(a), e.start.Some?, e.end.Some?, e.includeStart, e.includeEnd, m,
                                               ctype));
            && ast.Some?
            && Eval(ast.value, env, row) == RangeMeaning(Eval(a, env, row), ctype, e.start, e.end, e.includeStart,
                                                         e.includeEnd)
  {
    hide Holds, ParExpr, LiteralMeaning, ParameterValue, Compare, And3;
    var first, second := BoundValue(e.start, ctype), BoundValue(e.end, ctype);
    var asts := RangeAsts(Some(a), e.start.Some?, e.end.Some?, e.includeStart, e.includeEnd, m, ctype);
    if e.start.Some? {
      ParameterMeaning(env, m, 0, first, e.start.value.value, ctype, row);
    }
    if e.end.Some? {
      ParameterMeaning(env, m + |first|, 0, second, e.end.value.value, ctype, row);
      assert m + |first| + 0 == m + (if e.start.Some? then 1 else 0);
    }
    if |asts| == 2 {
      assert asts[1..] == [asts[1]];
      assert FoldAnd(asts[0], asts[1..]) == FoldAnd(Some(And(asts[0].value, asts[1].value)), asts[1..][1..]);
      assert asts[1..][1..] == [];
    } else {
      assert asts[1..] == [];
    }
  }

  lemma {:induction false} EvalRange(l: Layout, e: Filter, n: nat, env: Env, row: Row)
    requires Compiles(l, e) && e.TimestampRange? && WellBracketed(e) && Holds(env, n, Bindings(l, e))
    ensures Ast(l, e, n, false).Some?
    ensures Eval(Ast(l, e, n, false).value, env, row) == Meaning(l, e, row)
    decreases e, 0
  {
    hide Holds, Ast, Meaning, Bindings, WellBracketed, OperandType, BoundValue, Folded, RangeAsts, RangeMeaning, Eval,
         Compiles, BoundOk;
    RangeBracketed(l, e);
    var ctype, m := OperandType(l, e.operand).value, n + |Bindings(l, e.operand)|;
    RangeTree(l, e, row);
    RangeBindings(l, e);
    RangeAst(l, e, n, false);
    HoldsSplit(env, n, Bindings(l, e.operand) + BoundValue(e.start, ctype), BoundValue(e.end, ctype));
    HoldsSplit(env, n, Bindings(l, e.operand), BoundValue(e.start, ctype));
    EvalMeaning(l, e.operand, n, env, row);
    EvalBounds(Ast(l, e.operand, n, false).value, e, m, ctype, env, row);
  }

  lemma {:induction false} HoldsIn(before: seq<Json>, values: seq<Json>, after: seq<Json>)
    ensures Holds(ParameterMap(before + values + after), |before|, values)
  {
    hide ParameterMap, ParameterName;
    var bound := before + values + after;
    forall i | 0 <= i < |values|
      ensures HoldsNumber(ParameterMap(bound), |before|, values, i)
    {
      ParameterMapLookup(bound, |before| + i);
    }
  }

  /** Meaning-preserving compilation: read back and evaluated with the recorded parameters,
      the text of a well-bracketed tree has the three-valued result of the tree on every row. */
  lemma {:induction false} CompilationPreservesMeaning(l: Layout, e: Filter, before: seq<Json>, after: seq<Json>,
                                                       row: Row)
    requires Compiles(l, e) && WellBracketed(e)
    ensures var text := TextOf(l, e, |before|);
            var env := ParameterMap(before + Bindings(l, e) + after);
            Parse(text).Some? && Eval(Parse(text).value, env, row) == Meaning(l, e, row)
  {
    hide Eval, Parse, TextOf, Ast, Meaning, Bindings;
    ReadBack(l, e, |before|);
    var bound := before + Bindings(l, e) + after;
    HoldsIn(before, Bindings(l, e), after);
    EvalMeaning(l, e, |before|, ParameterMap(bound), row);
  }

  lemma {:induction false} BindingsOfNullTest(l: Layout, x: Filter, isNull: bool)
    requires Compiles(l, x)
    ensures Compiles(l, NullTest(Unary("not", x), isNull))
    ensures Bindings(l, NullTest(Unary("not", x), isNull)) == Bindings(l, x)
  {
    assert Bindings(l, Unary("not", x)) == Bindings(l, x);
  }

  lemma {:induction false} InvertedReading(l: Layout, x: Filter, isNull: bool, n: nat)
    requires Compiles(l, x) && Compiles(l, NullTest(Unary("not", x), isNull))
    ensures Ast(l, NullTest(Unary("not", x), isNull), n, true) == Negated(Tested(Ast(l, x, n, true), isNull))
  {}

  lemma {:induction false} InvertedEval(a: Expr, isNull: bool, env: Env, row: Row)
    ensures Eval(Negated(Tested(Some(a), isNull)).value, env, row) == BoolV(Eval(a, env, row).Null? != isNull)
  {}

  lemma {:induction false} InvertedTree(l: Layout, x: Filter, isNull: bool, row: Row)
    requires Compiles(l, x) && Compiles(l, NullTest(Unary("not", x), isNull))
    ensures Meaning(l, NullTest(Unary("not", x), isNull), row) == BoolV(Truth(Meaning(l, x, row)).None? == isNull)
  {
    assert Meaning(l, Unary("not", x), row) == Not3(Meaning(l, x, row));
  }

  /** Where meaning is lost: the null test of a NOT is accepted and its text is read, but as the
      NOT of the null test. For every row on which the operand is true, false or null the
      answer is inverted, and for no other row. */
  lemma {:induction false} InvertedNullTest(l: Layout, x: Filter, isNull: bool, before: seq<Json>, after: seq<Json>,
                                            row: Row)
    requires Compiles(l, x) && WellBracketed(x)
    ensures var e := NullTest(Unary("not", x), isNull);
            var text := TextOf(l, e, |before|);
            var env := ParameterMap(before + Bindings(l, e) + after);
            && Compiles(l, e) && Parse(text).Some?
            && Eval(Parse(text).value, env, row) == BoolV(Meaning(l, x, row).Null? != isNull)
            && Meaning(l, e, row) == BoolV(Truth(Meaning(l, x, row)).None? == isNull)
            && (Eval(Parse(text).value, env, row) != Meaning(l, e, row) <==>
                Truth(Meaning(l, x, row)).Some? || Meaning(l, x, row).Null?)
  {
    hide Parse, TextOf, Bindings, Holds, WellBracketed;
    var e, n := NullTest(Unary("not", x), isNull), |before|;
    TextReading(l, e, n);
    assert Bindings(l, e) == Bindings(l, x) by { BindingsOfNullTest(l, x, isNull); }
    HoldsIn(before, Bindings(l, x), after);
    var env := ParameterMap(before + Bindings(l, x) + after);
    ReadingExact(l, x, n);
    EvalMeaning(l, x, n, env, row);
    InvertedReading(l, x, isNull, n);
    InvertedEval(Ast(l, x, n, false).value, isNull, env, row);
    InvertedTree(l, x, isNull, row);
  }

  /** A NOT on the right of a comparison is accepted, and its text is refused by SQL. */
  lemma {:induction false} NotOnTheRightIsRefused(l: Layout, op: string, left: Filter, x: Filter, n: nat)
    requires Compiles(l, left) && OperandType(l, left).Some? && ComparisonOp(op).Some? && Compiles(l, x)
    ensures var e := Binary(op, left, Unary("not", x));
            Compiles(l, e) && Parse(TextOf(l, e, n)) == None
  {
    hide Parse, TextOf, Bindings;
    TextReading(l, Binary(op, left, Unary("not", x)), n);
  }
}
