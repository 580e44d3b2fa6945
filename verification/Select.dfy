/** The whole SELECT statement of a record query, as tokens, and how SQL reads it. */
module SelectStatements {
  import opened Common
  import opened Sql
  import opened SqlCompilers

  /** A selected column, or the number of all rows, under its alias. */
  datatype Selection = OfColumn(column: string, alias: string) | OfCount(alias: string)

  /** What a record query asks for, as SQL reads it. */
  datatype Select = Select(
    selections: seq<Selection>, database: string, table: string, final: bool, where: Expr,
    order: seq<(string, bool)>, limit: nat)

  // ---- Emission -------------------------------------------------------------

  function SelectionTexts(selections: seq<Selection>): (r: seq<Text>)
    ensures |r| == |selections|
  {
    seq(|selections|, i requires 0 <= i < |selections| =>
      [if selections[i].OfCount? then CountOver else Ident(selections[i].column), KwAs, Ident(selections[i].alias)])
  }

  /** `_order_sql`. */
  function OrderTexts(sorts: seq<Sort>): (r: seq<Text>)
    ensures |r| == |sorts|
  {
    seq(|sorts|, i requires 0 <= i < |sorts| =>
      [Ident(sorts[i].column), if sorts[i].descending then KwDesc else KwAsc])
  }

  function FromText(database: string, table: string, final: bool): Text {
    [KwFrom, Ident(database), Dot, Ident(table)] + (if final then [KwFinal] else [])
  }

  function SelectText(selections: seq<Selection>, database: string, table: string, final: bool, where: Text,
                      sorts: seq<Sort>, limit: nat): Text {
    [KwSelect] + (Join(SelectionTexts(selections), Comma)
    + (FromText(database, table, final)
    + ([KwWhere] + (where
    + ([KwOrderBy] + (Join(OrderTexts(sorts), Comma) + [KwLimit, Number(limit)]))))))
  }

  // ---- Reading --------------------------------------------------------------

  function ReadSelections(text: Text): Reading<seq<Selection>> {
    if |text| < 3 || !(text[0].Ident? || text[0] == CountOver) || text[1] != KwAs || !text[2].Ident? then Fail else
    var first := if text[0] == CountOver then OfCount(text[2].name) else OfColumn(text[0].name, text[2].name);
    if |text| > 3 && text[3] == Comma then
      var (more, rest) :- ReadSelections(text[4..]);
      Read([first] + more, rest)
    else Read([first], text[3..])
  }

  function ReadOrder(text: Text): Reading<seq<(string, bool)>> {
    if |text| < 2 || !text[0].Ident? || text[1] !in {KwAsc, KwDesc} then Fail else
    var first := (text[0].name, text[1] == KwDesc);
    if |text| > 2 && text[2] == Comma then
      var (more, rest) :- ReadOrder(text[3..]);
      Read([first] + more, rest)
    else Read([first], text[2..])
  }

  function ReadFrom(text: Text): Reading<(string, string, bool)> {
    if |text| < 4 || text[0] != KwFrom || !text[1].Ident? || text[2] != Dot || !text[3].Ident? then Fail
    else if |text| > 4 && text[4] == KwFinal then Read((text[1].name, text[3].name, true), text[5..])
    else Read((text[1].name, text[3].name, false), text[4..])
  }

  function ReadTail(text: Text): Reading<(Expr, seq<(string, bool)>, nat)> {
    if text == [] || text[0] != KwWhere then Fail else
    var (where, ordered) :- ParseOr(text[1..]);
    if ordered == [] || ordered[0] != KwOrderBy then Fail else
    var (order, limited) :- ReadOrder(ordered[1..]);
    if |limited| < 2 || limited[0] != KwLimit || !limited[1].Number? then Fail
    else Read((where, order, limited[1].value), limited[2..])
  }

  /** A whole statement: nothing may be left over. */
  function ReadSelect(text: Text): Option<Select> {
    if text == [] || text[0] != KwSelect then None else
    match ReadSelections(text[1..])
    case Fail => None
    case Read(selections, from) =>
      match ReadFrom(from)
      case Fail => None
      case Read((database, table, final), tail) =>
        match ReadTail(tail)
        case Fail => None
        case Read((where, order, limit), rest) =>
          if rest == [] then Some(Select(selections, database, table, final, where, order, limit)) else None
  }

  // ---- The statement is read as it was meant --------------------------------

  function Directions(sorts: seq<Sort>): (r: seq<(string, bool)>)
    ensures |r| == |sorts|
  {
    seq(|sorts|, i requires 0 <= i < |sorts| => (sorts[i].column, sorts[i].descending))
  }

  lemma {:induction false} JoinStep(parts: seq<Text>, rest: Text)
    requires parts != []
    ensures Join(parts, Comma) + rest
         == parts[0] + (if |parts| == 1 then rest else [Comma] + (Join(parts[1..], Comma) + rest))
  {
    if |parts| > 1 {
      assert parts[0] + [Comma] + Join(parts[1..], Comma) + rest
          == parts[0] + ([Comma] + (Join(parts[1..], Comma) + rest));
    }
  }

  lemma {:induction false} SelectionStep(first: Selection, rest: Text)
    ensures var text := SelectionTexts([first])[0] + rest;
            ReadSelections(text) ==
            if rest != [] && rest[0] == Comma then
              (match ReadSelections(rest[1..])
               case Fail => Fail
               case Read(more, behind) => Read([first] + more, behind))
            else Read([first], rest)
  {
    var text := SelectionTexts([first])[0] + rest;
    assert text[3..] == rest;
    if rest != [] { assert text[4..] == rest[1..]; }
  }

  lemma {:induction false} SelectionsAreRead(selections: seq<Selection>, rest: Text)
    requires selections != [] && rest != [] && rest[0] != Comma
    ensures ReadSelections(Join(SelectionTexts(selections), Comma) + rest) == Read(selections, rest)
  {
    hide Join, ReadSelections;
    var texts := SelectionTexts(selections);
    JoinStep(texts, rest);
    assert texts[0] == SelectionTexts([selections[0]])[0];
    assert selections == [selections[0]] + selections[1..];
    if |selections| == 1 {
      SelectionStep(selections[0], rest);
      assert selections == [selections[0]];
    } else {
      assert texts[1..] == SelectionTexts(selections[1..]);
      SelectionsAreRead(selections[1..], rest);
      SelectionStep(selections[0], [Comma] + (Join(texts[1..], Comma) + rest));
    }
  }

  lemma {:induction false} OrderStep(first: Sort, rest: Text)
    ensures var text := OrderTexts([first])[0] + rest;
            ReadOrder(text) ==
            if rest != [] && rest[0] == Comma then
              (match ReadOrder(rest[1..])
               case Fail => Fail
               case Read(more, behind) => Read([(first.column, first.descending)] + more, behind))
            else Read([(first.column, first.descending)], rest)
  {
    var text := OrderTexts([first])[0] + rest;
    assert text[2..] == rest;
    if rest != [] { assert text[3..] == rest[1..]; }
  }

  /** The reader recovers every sort column with its direction. */
  lemma {:induction false} OrderIsRead(sorts: seq<Sort>, rest: Text)
    requires sorts != [] && rest != [] && rest[0] != Comma
    ensures ReadOrder(Join(OrderTexts(sorts), Comma) + rest) == Read(Directions(sorts), rest)
  {
    hide Join, ReadOrder;
    var texts := OrderTexts(sorts);
    JoinStep(texts, rest);
    assert texts[0] == OrderTexts([sorts[0]])[0];
    assert Directions(sorts) == [(sorts[0].column, sorts[0].descending)] + Directions(sorts[1..]);
    if |sorts| == 1 {
      OrderStep(sorts[0], rest);
      assert Directions(sorts) == [(sorts[0].column, sorts[0].descending)];
    } else {
      assert texts[1..] == OrderTexts(sorts[1..]);
      OrderIsRead(sorts[1..], rest);
      OrderStep(sorts[0], [Comma] + (Join(texts[1..], Comma) + rest));
    }
  }

  lemma {:induction false} FromIsRead(database: string, table: string, final: bool, rest: Text)
    requires rest != [] && rest[0] == KwWhere
    ensures ReadFrom(FromText(database, table, final) + rest) == Read((database, table, final), rest)
  {
    var text := FromText(database, table, final) + rest;
    assert text[if final then 5 else 4..] == rest;
  }

  /** In front of its end, a condition text is read whole, or refused. */
  ghost predicate ReadsWhole(where: Text, ast: Option<Expr>) {
    forall rest :: Ends(rest) ==> ParseOr(where + rest) == Lift(ast, rest)
  }

  lemma {:induction false} TailIsRead(where: Text, ast: Option<Expr>, sorts: seq<Sort>, limit: nat)
    requires ReadsWhole(where, ast) && sorts != []
    ensures var rest := [KwOrderBy] + (Join(OrderTexts(sorts), Comma) + [KwLimit, Number(limit)]);
            ReadTail([KwWhere] + (where + rest))
            == if ast.None? then Fail else Read((ast.value, Directions(sorts), limit), [])
  {
    hide ParseOr, ReadOrder, Join;
    var limited := [KwLimit, Number(limit)];
    var rest := [KwOrderBy] + (Join(OrderTexts(sorts), Comma) + limited);
    var text := [KwWhere] + (where + rest);
    assert Ends(rest) && text[1..] == where + rest;
    assert ParseOr(where + rest) == Lift(ast, rest);
    assert rest[1..] == Join(OrderTexts(sorts), Comma) + limited;
    OrderIsRead(sorts, limited);
    assert limited[2..] == [];
  }

  lemma {:induction false} FromStarts(database: string, table: string, final: bool)
    ensures FromText(database, table, final) != [] && FromText(database, table, final)[0] == KwFrom
  {}

  /** The emitted statement is read back as its selections, table, FINAL, condition, order
      with directions, and limit; it is refused exactly when its condition is. */
  lemma {:induction false} SelectIsRead(selections: seq<Selection>, database: string, table: string, final: bool,
                                        where: Text, ast: Option<Expr>, sorts: seq<Sort>, limit: nat)
    requires selections != [] && sorts != [] && ReadsWhole(where, ast)
    ensures ReadSelect(SelectText(selections, database, table, final, where, sorts, limit))
         == if ast.None? then None
            else Some(Select(selections, database, table, final, ast.value, Directions(sorts), limit))
  {
    hide ReadSelections, ReadFrom, ReadTail, ReadsWhole, Join, FromText;
    var tail := [KwWhere] + (where + ([KwOrderBy] + (Join(OrderTexts(sorts), Comma) + [KwLimit, Number(limit)])));
    var from := FromText(database, table, final) + tail;
    var text := SelectText(selections, database, table, final, where, sorts, limit);
    assert text[1..] == Join(SelectionTexts(selections), Comma) + from;
    assert from != [] && from[0] == KwFrom by { FromStarts(database, table, final); }
    SelectionsAreRead(selections, from);
    FromIsRead(database, table, final, tail);
    TailIsRead(where, ast, sorts, limit);
  }
}
