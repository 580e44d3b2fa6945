/** The predicate "after the cursor" and the order that ORDER BY sorts in. */
module Keysets {
  import opened Common
  import opened Rows
  import opened Sql
  import opened Filters
  import opened SqlCompilers
  import opened FilterReading

  // ---- The order ------------------------------------------------------------

  /** `a` is listed before `b` in a column of the given direction. */
  predicate Before(a: Value, b: Value, descending: bool) {
    if descending then Less(b, a) else Less(a, b)
  }

  /** The lexicographic order of ORDER BY on tuples of sort values. */
  predicate TupleBefore(a: seq<Value>, b: seq<Value>, sorts: seq<Sort>)
    requires |a| == |b| == |sorts|
  {
    && sorts != []
    && (|| Before(a[0], b[0], sorts[0].descending)
        || (a[0] == b[0] && TupleBefore(a[1..], b[1..], sorts[1..])))
  }

  /** Tuples whose values can be compared column by column. */
  predicate SameKinds(a: seq<Value>, b: seq<Value>) {
    |a| == |b| && forall i :: 0 <= i < |a| ==> SameKind(a[i], b[i])
  }

  lemma {:induction false} TupleTotal(a: seq<Value>, b: seq<Value>, sorts: seq<Sort>)
    requires SameKinds(a, b) && |a| == |sorts|
    ensures TupleBefore(a, b, sorts) || TupleBefore(b, a, sorts) || a == b
    ensures !(TupleBefore(a, b, sorts) && TupleBefore(b, a, sorts))
    ensures a == b ==> !TupleBefore(a, b, sorts)
  {
    if sorts != [] {
      LessTotal(a[0], b[0]);
      TupleTotal(a[1..], b[1..], sorts[1..]);
      assert a == [a[0]] + a[1..] && b == [b[0]] + b[1..];
    }
  }

  lemma {:induction false} TupleTransitive(a: seq<Value>, b: seq<Value>, c: seq<Value>, sorts: seq<Sort>)
    requires |a| == |b| == |c| == |sorts|
    requires TupleBefore(a, b, sorts) && TupleBefore(b, c, sorts)
    ensures TupleBefore(a, c, sorts)
  {
    if Before(a[0], b[0], sorts[0].descending) && Before(b[0], c[0], sorts[0].descending) {
      if sorts[0].descending { LessTransitive(c[0], b[0], a[0]); } else { LessTransitive(a[0], b[0], c[0]); }
    } else if a[0] == b[0] == c[0] && !Before(a[0], c[0], sorts[0].descending) {
      TupleTransitive(a[1..], b[1..], c[1..], sorts[1..]);
    }
  }

  // ---- Reading --------------------------------------------------------------

  function EqualAst(sort: Sort, i: nat): Expr { Cmp(Eq, Col(sort.column), ParExpr(i, sort.ctype)) }

  function AfterAst(sort: Sort, i: nat): Expr {
    Cmp(if sort.descending then Lt else Gt, Col(sort.column), ParExpr(i, sort.ctype))
  }

  /** The conjuncts of branch `i`. */
  function BranchAsts(sorts: seq<Sort>, n: nat, i: nat): (r: seq<Option<Expr>>)
    requires i < |sorts|
    ensures |r| == i + 1
  {
    seq(i, j requires 0 <= j < i => Some(EqualAst(sorts[j], n + j))) + [Some(AfterAst(sorts[i], n + i))]
  }

  function BranchAst(sorts: seq<Sort>, n: nat, i: nat): Option<Expr>
    requires i < |sorts|
  {
    Folded("and", BranchAsts(sorts, n, i))
  }

  function KeysetAsts(sorts: seq<Sort>, n: nat): (r: seq<Option<Expr>>)
    ensures |r| == |sorts|
  {
    seq(|sorts|, i requires 0 <= i < |sorts| => BranchAst(sorts, n, i))
  }

  function KeysetAst(sorts: seq<Sort>, n: nat): Option<Expr> { Folded("or", KeysetAsts(sorts, n)) }

  lemma {:induction false} IdentOperand(column: string, more: Text)
    ensures ParsePrimary([Ident(column)] + more) == Read(Col(column), more)
  {
    assert ([Ident(column)] + more)[1..] == more;
  }

  lemma {:induction false} ColumnReads(column: string, op: CompareOp, i: nat, ctype: string)
    ensures Reads([Ident(column), Op(op), Parameter(i, ctype)], Some(Cmp(op, Col(column), ParExpr(i, ctype))))
  {
    hide Reads, ParsePrimary, Parameter, ParExpr;
    forall more ensures ParsePrimary([Ident(column)] + more) == Read(Col(column), more) { IdentOperand(column, more); }
    ComparisonReads(Ident(column), Col(column), op, i, ctype);
    assert [Ident(column)] + [Op(op), Parameter(i, ctype)] == [Ident(column), Op(op), Parameter(i, ctype)];
  }

  lemma {:induction false} FoldedAnd(asts: seq<Option<Expr>>)
    requires asts != []
    ensures Folded("and", asts) == FoldAnd(asts[0], asts[1..])
    ensures Folded("or", asts) == FoldOr(asts[0], asts[1..])
  {
    assert "or" != "and" by { assert |"or"| != |"and"|; }
  }

  lemma {:induction false} BranchReads(sorts: seq<Sort>, n: nat, i: nat)
    requires i < |sorts|
    ensures Reads(BranchText(sorts, n, i), BranchAst(sorts, n, i))
  {
    hide Reads, ParsePrimary, ParseOr, Parameter, ParExpr, Join, Folded;
    var parts, asts := EqualParts(sorts, n, i) + [AfterPart(sorts[i], n + i)], BranchAsts(sorts, n, i);
    forall j | 0 <= j < |parts| ensures Reads(parts[j], asts[j]) {
      ColumnReads(sorts[j].column, if j < i then Eq else if sorts[j].descending then Lt else Gt, n + j, sorts[j].ctype);
    }
    forall rest ensures ParsePrimary(BranchText(sorts, n, i) + rest) == Lift(BranchAst(sorts, n, i), rest) {
      AndReadsAsOr(parts, asts, [RParen] + rest);
      assert Folded("and", asts) == FoldAnd(asts[0], asts[1..]) by { FoldedAnd(asts); }
      BracketsRead(Join(parts, KwAnd), BranchAst(sorts, n, i), rest);
    }
    PrimaryReads(BranchText(sorts, n, i), BranchAst(sorts, n, i));
  }

  /** The predicate is read, inside its brackets, as the disjunction of its branches. */
  lemma {:induction false} KeysetReads(sorts: seq<Sort>, n: nat)
    requires sorts != []
    ensures Reads([LParen] + KeysetText(sorts, n) + [RParen], KeysetAst(sorts, n))
  {
    hide Reads, ParsePrimary, ParseOr, Join, Folded, BranchText, BranchAst;
    var parts, asts := BranchTexts(sorts, n, |sorts|), KeysetAsts(sorts, n);
    forall i | 0 <= i < |parts| ensures Reads(parts[i], asts[i]) { BranchReads(sorts, n, i); }
    FoldedAnd(asts);
    var text := [LParen] + KeysetText(sorts, n) + [RParen];
    forall rest ensures ParsePrimary(text + rest) == Lift(KeysetAst(sorts, n), rest) {
      OrReads(parts, asts, [RParen] + rest);
      BracketsRead(Join(parts, KwOr), KeysetAst(sorts, n), rest);
    }
    PrimaryReads(text, KeysetAst(sorts, n));
  }

  // ---- Evaluation -----------------------------------------------------------

  function TupleOf(row: Row, sorts: seq<Sort>): (t: seq<Value>)
    ensures |t| == |sorts|
  {
    seq(|sorts|, i requires 0 <= i < |sorts| => Cell(row, sorts[i].column))
  }

  ghost predicate DenotesAt(env: Env, sorts: seq<Sort>, n: nat, cursor: seq<Value>, i: nat)
    requires i < |sorts| == |cursor|
  {
    Eval(ParExpr(n + i, sorts[i].ctype), env, map[]) == cursor[i]
  }

  /** The bound parameters denote the cursor tuple. */
  ghost predicate Denotes(env: Env, sorts: seq<Sort>, n: nat, cursor: seq<Value>) {
    |cursor| == |sorts| && forall i :: 0 <= i < |sorts| ==> DenotesAt(env, sorts, n, cursor, i)
  }

  /** Equal before column `i`, strictly after in column `i`. */
  predicate FirstAfter(cursor: seq<Value>, tuple: seq<Value>, sorts: seq<Sort>, i: nat)
    requires |cursor| == |tuple| == |sorts| && i < |sorts|
  {
    cursor[..i] == tuple[..i] && Before(cursor[i], tuple[i], sorts[i].descending)
  }

  lemma {:induction false} ConjunctionOfBools(acc: Expr, asts: seq<Option<Expr>>, flags: seq<bool>, first: bool,
                                              env: Env, row: Row)
    requires |asts| == |flags| && Eval(acc, env, row) == BoolV(first)
    requires forall i :: 0 <= i < |asts| ==> asts[i].Some? && Eval(asts[i].value, env, row) == BoolV(flags[i])
    ensures FoldAnd(Some(acc), asts).Some?
    ensures Eval(FoldAnd(Some(acc), asts).value, env, row) == BoolV(first && forall i :: 0 <= i < |flags| ==> flags[i])
    decreases |asts|
  {
    if asts != [] {
      ConjunctionOfBools(And(acc, asts[0].value), asts[1..], flags[1..], first && flags[0], env, row);
      assert flags == [flags[0]] + flags[1..];
    }
  }

  lemma {:induction false} DisjunctionOfBools(acc: Expr, asts: seq<Option<Expr>>, flags: seq<bool>, first: bool,
                                              env: Env, row: Row)
    requires |asts| == |flags| && Eval(acc, env, row) == BoolV(first)
    requires forall i :: 0 <= i < |asts| ==> asts[i].Some? && Eval(asts[i].value, env, row) == BoolV(flags[i])
    ensures FoldOr(Some(acc), asts).Some?
    ensures Eval(FoldOr(Some(acc), asts).value, env, row) == BoolV(first || exists i :: 0 <= i < |flags| && flags[i])
    decreases |asts|
  {
    if asts != [] {
      DisjunctionOfBools(Or(acc, asts[0].value), asts[1..], flags[1..], first || flags[0], env, row);
      assert flags == [flags[0]] + flags[1..];
      if exists i :: 0 <= i < |flags| && flags[i] {
        var i :| 0 <= i < |flags| && flags[i];
        assert i == 0 || flags[1..][i - 1];
      }
    }
  }

  lemma {:induction false} FoldedBools(op: string, asts: seq<Option<Expr>>, flags: seq<bool>, env: Env, row: Row)
    requires |asts| == |flags| > 0
    requires forall i :: 0 <= i < |asts| ==> asts[i].Some? && Eval(asts[i].value, env, row) == BoolV(flags[i])
    ensures Folded(op, asts).Some?
    ensures op == "and" ==> Eval(Folded(op, asts).value, env, row) == BoolV(forall i :: 0 <= i < |flags| ==> flags[i])
    ensures op != "and" ==> Eval(Folded(op, asts).value, env, row) == BoolV(exists i :: 0 <= i < |flags| && flags[i])
  {
    hide Eval, FoldAnd, FoldOr;
    ConjunctionOfBools(asts[0].value, asts[1..], flags[1..], flags[0], env, row);
    DisjunctionOfBools(asts[0].value, asts[1..], flags[1..], flags[0], env, row);
    assert flags == [flags[0]] + flags[1..];
    if exists i :: 0 <= i < |flags| && flags[i] {
      var i :| 0 <= i < |flags| && flags[i];
      assert i == 0 || flags[1..][i - 1];
    }
  }

  lemma {:induction false} ParameterOnly(i: nat, ctype: string, env: Env, row: Row)
    ensures Eval(ParExpr(i, ctype), env, row) == Eval(ParExpr(i, ctype), env, map[])
  {
    hide ParameterName, ParameterType, Denote;
  }

  lemma {:induction false} ColumnComparison(env: Env, sorts: seq<Sort>, n: nat, cursor: seq<Value>, row: Row, i: nat)
    requires Denotes(env, sorts, n, cursor) && SameKinds(cursor, TupleOf(row, sorts)) && i < |sorts|
    ensures Eval(EqualAst(sorts[i], n + i), env, row) == BoolV(cursor[i] == TupleOf(row, sorts)[i])
    ensures Eval(AfterAst(sorts[i], n + i), env, row) == BoolV(Before(cursor[i], TupleOf(row, sorts)[i],
                                                                      sorts[i].descending))
  {
    hide ParExpr, Less, Denote;
    assert DenotesAt(env, sorts, n, cursor, i);
    ParameterOnly(n + i, sorts[i].ctype, env, row);
    assert SameKind(cursor[i], TupleOf(row, sorts)[i]);
  }

  lemma {:induction false} EvalBranch(env: Env, sorts: seq<Sort>, n: nat, cursor: seq<Value>, row: Row, i: nat)
    requires Denotes(env, sorts, n, cursor) && SameKinds(cursor, TupleOf(row, sorts)) && i < |sorts|
    ensures BranchAst(sorts, n, i).Some?
    ensures Eval(BranchAst(sorts, n, i).value, env, row) == BoolV(FirstAfter(cursor, TupleOf(row, sorts), sorts, i))
  {
    hide Eval, EqualAst, AfterAst, Folded;
    var tuple := TupleOf(row, sorts);
    var asts := BranchAsts(sorts, n, i);
    var flags := seq(i, j requires 0 <= j < i => cursor[j] == tuple[j])
                 + [Before(cursor[i], tuple[i], sorts[i].descending)];
    forall j | 0 <= j < |asts| ensures asts[j].Some? && Eval(asts[j].value, env, row) == BoolV(flags[j]) {
      ColumnComparison(env, sorts, n, cursor, row, j);
    }
    FoldedBools("and", asts, flags, env, row);
    if forall j :: 0 <= j < |flags| ==> flags[j] {
      forall j | 0 <= j < i ensures cursor[..i][j] == tuple[..i][j] { assert flags[j]; }
      assert flags[i];
    }
    if FirstAfter(cursor, tuple, sorts, i) {
      forall j | 0 <= j < |flags| ensures flags[j] {
        if j < i { assert cursor[..i][j] == tuple[..i][j]; }
      }
    }
  }

  /** Some column is the first to differ, and differs forwards, exactly in the order of ORDER BY. */
  lemma {:induction false} FirstAfterIsBefore(cursor: seq<Value>, tuple: seq<Value>, sorts: seq<Sort>)
    requires |cursor| == |tuple| == |sorts|
    ensures TupleBefore(cursor, tuple, sorts) <==> exists i :: 0 <= i < |sorts| && FirstAfter(cursor, tuple, sorts, i)
  {
    if sorts != [] {
      var c, t, s := cursor[1..], tuple[1..], sorts[1..];
      FirstAfterIsBefore(c, t, s);
      if Before(cursor[0], tuple[0], sorts[0].descending) {
        assert FirstAfter(cursor, tuple, sorts, 0);
      }
      if cursor[0] == tuple[0] {
        forall i | 0 <= i < |s| ensures FirstAfter(c, t, s, i) <==> FirstAfter(cursor, tuple, sorts, i + 1) {
          assert cursor[..i + 1] == [cursor[0]] + c[..i] && tuple[..i + 1] == [tuple[0]] + t[..i];
          if cursor[..i + 1] == tuple[..i + 1] {
            assert c[..i] == cursor[..i + 1][1..] && t[..i] == tuple[..i + 1][1..];
          }
        }
      }
      if exists i :: 0 <= i < |sorts| && FirstAfter(cursor, tuple, sorts, i) {
        var i :| 0 <= i < |sorts| && FirstAfter(cursor, tuple, sorts, i);
        if i > 0 {
          assert cursor[..i][0] == tuple[..i][0];
          assert FirstAfter(c, t, s, i - 1);
        }
      }
    }
  }

  /** The predicate is true of a row exactly when the row is strictly after the cursor in the
      order of ORDER BY, and false (never unknown) otherwise, for any number of columns. */
  lemma {:induction false} KeysetCorrect(env: Env, sorts: seq<Sort>, n: nat, cursor: seq<Value>, row: Row)
    requires sorts != []
    requires Denotes(env, sorts, n, cursor) && SameKinds(cursor, TupleOf(row, sorts))
    ensures KeysetAst(sorts, n).Some?
    ensures Eval(KeysetAst(sorts, n).value, env, row) == BoolV(TupleBefore(cursor, TupleOf(row, sorts), sorts))
  {
    hide Eval, BranchAst, Folded, FirstAfter, TupleBefore;
    var tuple, asts := TupleOf(row, sorts), KeysetAsts(sorts, n);
    var flags := seq(|sorts|, i requires 0 <= i < |sorts| => FirstAfter(cursor, tuple, sorts, i));
    forall i | 0 <= i < |asts| ensures asts[i].Some? && Eval(asts[i].value, env, row) == BoolV(flags[i]) {
      EvalBranch(env, sorts, n, cursor, row, i);
    }
    assert "or" != "and" by { assert |"or"| != |"and"|; }
    FoldedBools("or", asts, flags, env, row);
    FirstAfterIsBefore(cursor, tuple, sorts);
    if exists i :: 0 <= i < |sorts| && FirstAfter(cursor, tuple, sorts, i) {
      var i :| 0 <= i < |sorts| && FirstAfter(cursor, tuple, sorts, i);
      assert flags[i];
    }
  }
}
