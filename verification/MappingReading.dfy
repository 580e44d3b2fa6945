/** How mapping-first filters are read back, and what they mean. */
module MappingReading {
  import opened Common
  import opened Rows
  import opened Sql
  import opened Filters
  import opened FilterReading
  import opened MappingFirst

  function AtomAst(a: Atom, n: nat): Expr
    requires AtomOk(a)
  {
    if a.op == "in" || a.op == "notIn" then In(Col(a.column), ParList(n, |a.value.items|, a.ctype), a.op == "notIn")
    else if a.op == "isNull" then IsNull(Col(a.column), !a.value.flag)
    else Cmp(ComparisonOp(a.op).value, Col(a.column), ParExpr(n, a.ctype))
  }

  function ItemMeanings(items: seq<Json>, ctype: string): (r: seq<Value>)
    ensures |r| == |items|
  {
    seq(|items|, i requires 0 <= i < |items| => LiteralMeaning(items[i], ctype))
  }

  /** What the condition says about a stored row. */
  function AtomMeaning(a: Atom, row: Row): Value
    requires AtomOk(a)
  {
    if a.op == "in" || a.op == "notIn" then
      Hit(In3(Cell(row, a.column), ItemMeanings(a.value.items, a.ctype)), a.op == "notIn")
    else if a.op == "isNull" then BoolV(Cell(row, a.column).Null? == a.value.flag)
    else Compare(ComparisonOp(a.op).value, Cell(row, a.column), LiteralMeaning(a.value, a.ctype))
  }

  function AtomAsts(atoms: seq<Atom>, n: nat): (r: seq<Option<Expr>>)
    requires AtomsOk(atoms)
    ensures |r| == |atoms|
  {
    if atoms == [] then [] else [Some(AtomAst(atoms[0], n))] + AtomAsts(atoms[1..], n + |AtomBindings(atoms[0])|)
  }

  function AtomMeanings(atoms: seq<Atom>, row: Row): (r: seq<Value>)
    requires AtomsOk(atoms)
    ensures |r| == |atoms|
    ensures forall i :: 0 <= i < |atoms| ==> r[i] == AtomMeaning(atoms[i], row)
  {
    seq(|atoms|, i requires 0 <= i < |atoms| => AtomMeaning(atoms[i], row))
  }

  function WhereAst(atoms: seq<Atom>, n: nat): Option<Expr>
    requires AtomsOk(atoms)
  {
    if atoms == [] then Some(ConstOne) else Folded("and", AtomAsts(atoms, n))
  }

  /** The filter as one three-valued condition. */
  function WhereMeaning(atoms: seq<Atom>, row: Row): Value
    requires AtomsOk(atoms)
  {
    if atoms == [] then IntV(1) else
    var values := AtomMeanings(atoms, row);
    Conjunction(values[0], values[1..])
  }

  // ---- Reading and evaluation -----------------------------------------------

  lemma {:induction false} IdentReads(column: string)
    ensures forall more :: ParsePrimary([Ident(column)] + more) == Read(Col(column), more)
  {
    forall more ensures ParsePrimary([Ident(column)] + more) == Read(Col(column), more) {
      assert ([Ident(column)] + more)[1..] == more;
    }
  }

  lemma {:induction false} TestReads(text: Text, ast: Expr)
    requires text != [] && text[0] != KwNot
    requires forall rest | Closed(rest) :: ParseTest(text + rest) == Read(ast, rest)
    ensures Reads(text, Some(ast))
  {
    hide ParseTest;
    forall rest | Closed(rest) ensures ParseNot(text + rest) == Read(ast, rest) {
      assert ParseTest(text + rest) == Read(ast, rest);
      assert (text + rest)[0] == text[0];
    }
  }

  lemma {:induction false} MemberReads(column: string, negated: bool, count: nat, ctype: string, n: nat)
    requires count > 0
    ensures Reads([Ident(column)] + MembershipWord(negated)
            + ([LParen] + Join(ParameterList(n, count, ctype), Comma) + [RParen]),
                  Some(In(Col(column), ParList(n, count, ctype), negated)))
  {
    hide ParsePrimary, ParseTest, ParseList, Join, Parameter, ParExpr, Reads;
    var parts, pars := ParameterList(n, count, ctype), ParList(n, count, ctype);
    var list := [LParen] + Join(parts, Comma) + [RParen];
    IdentReads(column);
    forall i | 0 <= i < count ensures ReadsAsOperand(parts[i], pars[i]) {
      forall tail ensures ParsePrimary(parts[i] + tail) == Read(pars[i], tail) { ParameterToken(n + i, ctype, tail); }
    }
    var text := [Ident(column)] + MembershipWord(negated) + list;
    forall rest | Closed(rest) ensures ParseTest(text + rest) == Read(In(Col(column), pars, negated), rest) {
      ListReads(parts, pars, rest);
      MembershipTest(Ident(column), Col(column), negated, list, pars, rest);
    }
    TestReads(text, In(Col(column), pars, negated));
  }

  lemma {:induction false} NullReads(column: string, isNull: bool)
    ensures Reads([Ident(column)] + NullTestTokens(isNull), Some(IsNull(Col(column), !isNull)))
  {
    hide ParsePrimary, ParseTest, Reads;
    var text := [Ident(column)] + NullTestTokens(isNull);
    IdentReads(column);
    forall rest | Closed(rest) ensures ParseTest(text + rest) == Read(IsNull(Col(column), !isNull), rest) {
      NullTestOf([Ident(column)], Some(Col(column)), isNull, rest);
      assert text + rest == [Ident(column)] + (NullTestTokens(isNull) + rest);
    }
    TestReads(text, IsNull(Col(column), !isNull));
  }

  lemma {:induction false} AtomReads(a: Atom, n: nat)
    requires AtomOk(a)
    ensures Reads(AtomText(a, n), Some(AtomAst(a, n)))
  {
    hide Reads, ParsePrimary, Parameter, ParExpr, Join, ComparisonOp;
    if a.op == "in" || a.op == "notIn" {
      MemberReads(a.column, a.op == "notIn", |a.value.items|, a.ctype, n);
    } else if a.op == "isNull" {
      NullReads(a.column, a.value.flag);
    } else {
      IdentReads(a.column);
      ComparisonReads(Ident(a.column), Col(a.column), ComparisonOp(a.op).value, n, a.ctype);
      assert [Ident(a.column)] + [Op(ComparisonOp(a.op).value), Parameter(n, a.ctype)] == AtomText(a, n);
    }
  }

  lemma {:induction false} AtomsRead(atoms: seq<Atom>, n: nat)
    requires AtomsOk(atoms)
    ensures AllRead(AtomTexts(atoms, n), AtomAsts(atoms, n))
  {
    hide Reads, AtomText, AtomAst, AtomOk, AtomBindings;
    if atoms != [] {
      AtomReads(atoms[0], n);
      AtomsRead(atoms[1..], n + |AtomBindings(atoms[0])|);
    }
  }

  lemma {:induction false} AtomEval(a: Atom, n: nat, env: Env, row: Row)
    requires AtomOk(a) && Holds(env, n, AtomBindings(a))
    ensures Eval(AtomAst(a, n), env, row) == AtomMeaning(a, row)
  {
    hide Holds, ParExpr, LiteralMeaning, ParameterValue, ComparisonOp, Compare, In3, Not3, ParameterType, ParameterName;
    if a.op == "in" || a.op == "notIn" {
      var items, pars := a.value.items, ParList(n, |a.value.items|, a.ctype);
      var meanings := ItemMeanings(items, a.ctype);
      forall i | 0 <= i < |pars| ensures Eval(pars[i], env, row) == meanings[i] {
        ParameterMeaning(env, n, i, BoundAll(items, a.ctype), items[i], a.ctype, row);
      }
      assert EvalList(pars, env, row) == meanings;
    } else if a.op != "isNull" {
      ParameterMeaning(env, n, 0, AtomBindings(a), a.value, a.ctype, row);
    }
  }

  lemma {:induction false} NothingEvals(env: Env, row: Row)
    ensures EvalsTo([], [], env, row)
  {}

  lemma {:induction false} AtomsEval(atoms: seq<Atom>, n: nat, env: Env, row: Row)
    requires AtomsOk(atoms) && Holds(env, n, AllAtomBindings(atoms))
    ensures EvalsTo(AtomAsts(atoms, n), AtomMeanings(atoms, row), env, row)
  {
    hide Holds, AtomAst, AtomMeaning, AtomOk, AtomBindings, Eval, EvalsTo;
    if atoms == [] {
      assert EvalsTo([], [], env, row) by { NothingEvals(env, row); }
      assert AtomMeanings(atoms, row) == [];
    } else {
      var m := n + |AtomBindings(atoms[0])|;
      HoldsSplit(env, n, AtomBindings(atoms[0]), AllAtomBindings(atoms[1..]));
      AtomEval(atoms[0], n, env, row);
      AtomsEval(atoms[1..], m, env, row);
      EvalsCons(Some(AtomAst(atoms[0], n)), AtomMeaning(atoms[0], row), AtomAsts(atoms[1..], m),
                AtomMeanings(atoms[1..], row), env, row);
      assert AtomMeanings(atoms, row) == [AtomMeaning(atoms[0], row)] + AtomMeanings(atoms[1..], row);
    }
  }

  /** The compiled filter evaluates to the filter's own value on every row. */
  lemma {:induction false} WhereEval(atoms: seq<Atom>, n: nat, env: Env, row: Row)
    requires AtomsOk(atoms) && Holds(env, n, AllAtomBindings(atoms))
    ensures WhereAst(atoms, n).Some?
    ensures Eval(WhereAst(atoms, n).value, env, row) == WhereMeaning(atoms, row)
  {
    hide Holds, AtomAsts, AtomMeaning, AtomsOk, FoldAnd, FoldOr, Conjunction, Disjunction;
    if atoms != [] {
      AtomsEval(atoms, n, env, row);
      var asts, values := AtomAsts(atoms, n), AtomMeanings(atoms, row);
      EvalFold(asts[0].value, asts[1..], values[1..], env, row);
    }
  }

  lemma {:induction false} TruthOfOne()
    ensures Truth(IntV(1)) == Some(true)
  {}

  /** A row passes exactly when every condition is true of it. */
  lemma {:induction false} WhereTruth(atoms: seq<Atom>, row: Row)
    requires AtomsOk(atoms)
    ensures True(WhereMeaning(atoms, row)) <==> forall i :: 0 <= i < |atoms| ==> True(AtomMeaning(atoms[i], row))
  {
    hide AtomMeaning, AtomOk, Truth;
    if atoms != [] {
      var values := AtomMeanings(atoms, row);
      ConjunctionTruth(values[0], values[1..]);
      assert values == [values[0]] + values[1..];
      if forall i :: 0 <= i < |values| ==> True(values[i]) {
        forall i | 0 <= i < |atoms| ensures True(AtomMeaning(atoms[i], row)) { assert True(values[i]); }
      }
    } else {
      assert True(IntV(1)) by { assert Truth(IntV(1)) == Some(true) by { TruthOfOne(); } }
    }
  }
}
