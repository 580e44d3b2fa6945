/** Pages of one compiled query: each request carries the cursor of the page before. */
module Paging {
  import opened Common
  import opened Rows
  import opened Layouts
  import opened Sql
  import opened Filters
  import opened SqlCompilers
  import opened FilterReading
  import opened MappingFirst
  import opened MappingReading
  import opened Keysets
  import opened Sorts
  import opened Windows
  import opened Cursors
  import opened Translator
  import opened Traversals
  import opened SelectStatements
  import opened Values
  import opened Conditions
  import opened Orders

  // ---- The meaning of the two kinds of filter -------------------------------

  /** The value of an optional filter tree on a row. */
  function WireValue(l: Layout, filter: Option<Filter>, row: Row): Value {
    match filter
    case None => IntV(1)
    case Some(e) => if Compiles(l, e) then Meaning(l, e, row) else Null
  }

  function WhereValue(l: Layout, where: Where, row: Row): Value {
    if WhereOk(l, where) then WhereMeaning(Atoms(l, where), row) else Null
  }

  function WireMeaning(l: Layout, filter: Option<Filter>): Row -> Value { row => WireValue(l, filter, row) }

  function MappingMeaning(l: Layout, where: Where): Row -> Value { row => WhereValue(l, where, row) }

  lemma {:induction false} WireFilterMeans(l: Layout, filter: Option<Filter>)
    requires filter.Some? ==> Compiles(l, filter.value) && WellBracketed(filter.value)
    ensures FilterMeans(WirePredicateAst(l, filter), WireBindings(l, filter), WireMeaning(l, filter))
  {
    hide Holds, Meaning, Ast, Bindings, WellBracketed, Compiles;
    match filter {
      case None =>
      case Some(e) =>
        ReadingExact(l, e, 0);
        forall env: Env, row: Row | Holds(env, 0, Bindings(l, e))
          ensures Eval(Ast(l, e, 0, true).value, env, row) == WireValue(l, filter, row)
        {
          EvalMeaning(l, e, 0, env, row);
        }
    }
  }

  lemma {:induction false} AtomAstsAreSome(atoms: seq<Atom>, n: nat)
    requires AtomsOk(atoms)
    ensures forall i :: 0 <= i < |atoms| ==> AtomAsts(atoms, n)[i].Some?
  {
    hide AtomAst, AtomOk, AtomBindings;
    if atoms != [] {
      AtomAstsAreSome(atoms[1..], n + |AtomBindings(atoms[0])|);
    }
  }

  lemma {:induction false} FoldSome(acc: Option<Expr>, asts: seq<Option<Expr>>)
    requires acc.Some? && forall i :: 0 <= i < |asts| ==> asts[i].Some?
    ensures FoldAnd(acc, asts).Some?
    decreases |asts|
  {
    if asts != [] {
      FoldSome(Some(And(acc.value, asts[0].value)), asts[1..]);
    }
  }

  lemma {:induction false} SomeWhere(atoms: seq<Atom>)
    requires AtomsOk(atoms)
    ensures WhereAst(atoms, 0).Some?
  {
    hide AtomAst, AtomOk, FoldAnd;
    if atoms != [] {
      AtomAstsAreSome(atoms, 0);
      FoldSome(AtomAsts(atoms, 0)[0], AtomAsts(atoms, 0)[1..]);
    }
  }

  lemma {:induction false} WhereFilterMeans(l: Layout, where: Where)
    requires WhereOk(l, where)
    ensures FilterMeans(WhereAst(Atoms(l, where), 0), AllAtomBindings(Atoms(l, where)), MappingMeaning(l, where))
  {
    hide Holds, WhereAst, WhereMeaning, AllAtomBindings, Atoms, Eval;
    var atoms := Atoms(l, where);
    forall env: Env, row: Row | Holds(env, 0, AllAtomBindings(atoms))
      ensures WhereAst(atoms, 0).Some? && Eval(WhereAst(atoms, 0).value, env, row) == WhereValue(l, where, row)
    {
      WhereEval(atoms, 0, env, row);
    }
    SomeWhere(atoms);
  }

  // ---- One query, page by page ----------------------------------------------

  /** The driver: whether fixed strings come back as bytes, and the JSON decoder. */
  datatype Driver = Driver(native: bool, decode: Decoder)

  /** A page as it happened: the rows of the table at that moment, the cursor of the request,
      the stored rows that came back, their driver form, the items and the next cursor. */
  datatype Page = Page(
    view: View, cursor: Option<Cursor>, answer: seq<Row>, raws: seq<RawRow>, items: seq<map<string, Json>>,
    next: Option<Cursor>)

  /** Sort columns as a statement names them; column types do not show in it. */
  function ReadSorts(order: seq<(string, bool)>): (r: seq<Sort>)
    ensures |r| == |order|
  {
    seq(|order|, i requires 0 <= i < |order| => Sort(order[i].0, order[i].1, ""))
  }

  /** The engine answers a statement as SQL reads it: WHERE, ORDER BY and LIMIT. */
  ghost predicate EngineAnswer(view: View, c: Compiled, answer: seq<Row>) {
    var read := ReadSelect(c.statement);
    && read.Some?
    && IsAnswer(view, row => Selects(c, row), ReadSorts(read.value.order), read.value.limit, None, answer)
  }

  ghost predicate TypedView(view: View, sorts: seq<Sort>) {
    forall row :: row in view ==> TypedTuple(sorts, TupleOf(row, sorts))
  }

  ghost predicate DeliveredCell(raw: RawRow, row: Row, selections: seq<Selection>, c: Command, i: nat)
    requires RawShape(raw, c) && i < |c.columns| <= |selections| && selections[i].OfColumn?
  {
    && selections[i].alias == c.columns[i]
    && raw.cells[i] == Loaded(Cell(row, selections[i].column), c.columns[i] in c.times)
  }

  /** The values of a row under the sort aliases. */
  function KeyTuple(row: Row, selections: seq<Selection>, c: Command): (r: seq<Value>)
    requires |selections| >= |c.columns| + |c.sorts|
    requires forall i :: 0 <= i < |selections| && i < |c.columns| + |c.sorts| ==> selections[i].OfColumn?
    ensures |r| == |c.sorts|
  {
    seq(|c.sorts|, i requires 0 <= i < |c.sorts| => Cell(row, selections[|c.columns| + i].column))
  }

  /** One value for each selection of the statement: first the columns, with integer ticks
      where the command asks for them, then the sort aliases. */
  ghost predicate DeliveredRow(raw: RawRow, row: Row, selections: seq<Selection>, c: Command, native: bool) {
    var n := |c.columns|;
    && RawShape(raw, c)
    && |selections| >= n + |c.sorts|
    && (forall i :: 0 <= i < |selections| && i < n + |c.sorts| ==> selections[i].OfColumn?)
    && (forall i :: 0 <= i < n ==> DeliveredCell(raw, row, selections, c, i))
    && (TypedTuple(c.sorts, KeyTuple(row, selections, c)) ==>
          forall i :: 0 <= i < |c.sorts| ==>
            raw.keys[i] == Fetched(c.sorts[i], KeyTuple(row, selections, c)[i], native))
  }

  /** The driver returns the selected values of the stored rows. */
  ghost predicate Delivered(raws: seq<RawRow>, answer: seq<Row>, compiled: Compiled, driver: Driver) {
    var read := ReadSelect(compiled.statement);
    && read.Some?
    && |raws| == |answer|
    && forall i :: 0 <= i < |raws| ==>
      DeliveredRow(raws[i], answer[i], read.value.selections, compiled.command, driver.native)
  }

  /** One page: an answer of the engine, the driver's rows, and what `normalize_result` makes
      of them. A request whose cursor is not accepted has no page. */
  ghost predicate PageOk(q: Query, driver: Driver, p: Page)
    requires SelectedOk(q.l, q.selected)
  {
    && (CursorOk(p.cursor, q.pins, q.sorts) ==>
          && EngineAnswer(p.view, Assembled(q, p.cursor), p.answer)
          && Delivered(p.raws, p.answer, Assembled(q, p.cursor), driver))
    && Normalized(CommandOf(q), p.raws, driver.decode, PageResult(p.items, p.next))
  }

  ghost predicate PageAt(q: Query, driver: Driver, pages: seq<Page>, i: nat)
    requires SelectedOk(q.l, q.selected) && i < |pages|
  {
    PageOk(q, driver, pages[i])
  }

  ghost predicate LinkedPage(earlier: Page, later: Page) {
    earlier.next.Some? && later.cursor == earlier.next
  }

  /** A client that follows the cursors. */
  ghost predicate Followed(q: Query, driver: Driver, pages: seq<Page>)
    requires SelectedOk(q.l, q.selected)
  {
    && pages != [] && q.pins.pageSize > 0
    && (forall i :: 0 <= i < |pages| ==> PageAt(q, driver, pages, i))
    && pages[0].cursor == None
    && (forall i :: 0 < i < |pages| ==> LinkedPage(pages[i - 1], pages[i]))
  }

  ghost predicate TypedPages(q: Query, pages: seq<Page>) {
    forall i :: 0 <= i < |pages| ==> TypedView(pages[i].view, q.sorts)
  }

  function Views(pages: seq<Page>): (r: seq<View>)
    ensures |r| == |pages| && forall i :: 0 <= i < |pages| ==> r[i] == pages[i].view
  {
    seq(|pages|, i requires 0 <= i < |pages| => pages[i].view)
  }

  function Answers(pages: seq<Page>): (r: seq<seq<Row>>)
    ensures |r| == |pages| && forall i :: 0 <= i < |pages| ==> r[i] == pages[i].answer
  {
    seq(|pages|, i requires 0 <= i < |pages| => pages[i].answer)
  }

  /** The columns of a row at the sort aliases are its sort tuple, and the selected columns
      stand in front of them under their aliases. */
  lemma {:induction false} SelectionsOf(q: Query, row: Row)
    requires SelectedOk(q.l, q.selected)
    ensures var selections, c := Selections(q.l, q.selected, q.sorts, q.total), CommandOf(q);
            && |selections| >= |c.columns| + |c.sorts|
            && (forall i :: 0 <= i < |selections| && i < |c.columns| + |c.sorts| ==> selections[i].OfColumn?)
            && KeyTuple(row, selections, c) == TupleOf(row, q.sorts)
            && forall i :: 0 <= i < |q.selected| ==>
                 selections[i] == OfColumn(q.l.Physical(q.selected[i].field), c.columns[i])
  {
    hide SelectedAlone, AliasesOfKind;
    var selections, c := Selections(q.l, q.selected, q.sorts, q.total), CommandOf(q);
    forall i | 0 <= i < |q.sorts| ensures selections[|q.selected| + i] == OfColumn(q.sorts[i].column, SortAlias(i)) {}
    assert KeyTuple(row, selections, c) == TupleOf(row, q.sorts);
  }

  /** Rows of the scope on which the filter is true. */
  ghost function Matches(scope: string, meaning: Row -> Value): Row -> bool {
    row => Cell(row, HIDDEN_SCOPE) == StrV(scope) && True(meaning(row))
  }

  lemma {:induction false} KeysAreFetched(q: Query, raw: RawRow, row: Row, native: bool)
    requires SelectedOk(q.l, q.selected) && TypedTuple(q.sorts, TupleOf(row, q.sorts))
    requires DeliveredRow(raw, row, Selections(q.l, q.selected, q.sorts, q.total), CommandOf(q), native)
    ensures raw.keys == FetchedKeys(row, q.sorts, native)
  {
    hide Selections, SelectedAlone, AliasesOfKind, Typed, Fetched, DeliveredCell;
    SelectionsOf(q, row);
    assert KeyTuple(row, Selections(q.l, q.selected, q.sorts, q.total), CommandOf(q)) == TupleOf(row, q.sorts);
  }

  /** Every issued cursor is accepted by the next compile of the same query, and holds the
      tuple of the last row shown. */
  lemma {:induction false} NextCursorAccepted(q: Query, ast: Option<Expr>, driver: Driver, p: Page)
    requires SelectedOk(q.l, q.selected) && OperandInBrackets(q.text, ast) && q.sorts != []
    requires PageOk(q, driver, p) && TypedView(p.view, q.sorts) && p.next.Some? && CursorOk(p.cursor, q.pins, q.sorts)
    ensures |p.answer| > q.pins.pageSize > 0
    ensures TypedTuple(q.sorts, TupleOf(p.answer[q.pins.pageSize - 1], q.sorts))
    ensures p.next == Some(Issue(q.pins, CursorTuple(q.sorts, TupleOf(p.answer[q.pins.pageSize - 1], q.sorts),
                                                     driver.native)))
    ensures CursorOk(p.next, q.pins, q.sorts)
  {
    hide KeysetBinds, CursorTuple, SortValues, TypedTuple, Selects, RawShape, OperandInBrackets, ReadSelect, FullAst,
         SelectedOk, Selections, AliasesOfKind, StatementOf, ParameterMap, KeysetBindings, ItemOf;
    var k := q.pins.pageSize - 1;
    StatementIsRead(q, ast, p.cursor);
    var selections := ReadSelect(Assembled(q, p.cursor).statement).value.selections;
    assert DeliveredRow(p.raws[k], p.answer[k], selections, CommandOf(q), driver.native);
    SelectionsOf(q, p.answer[k]);
    var tuple := TupleOf(p.answer[k], q.sorts);
    assert p.answer[k] in p.view;
    KeysAreFetched(q, p.raws[k], p.answer[k], driver.native);
    IssuedTuple(p.answer[k], p.raws[k], CommandOf(q), driver.native);
    TupleLossless(q.sorts, tuple, driver.native);
  }

  /** The tuple that the request's cursor stands for. */
  ghost predicate CursorStands(q: Query, cursor: Option<Cursor>, after: Option<seq<Value>>, native: bool) {
    match after
    case None => cursor == None
    case Some(t) => TypedTuple(q.sorts, t) && cursor == Some(Issue(q.pins, CursorTuple(q.sorts, t, native)))
  }

  lemma {:induction false} SameDirections(a: seq<Value>, b: seq<Value>, read: seq<Sort>, sorts: seq<Sort>)
    requires |a| == |b| == |read| == |sorts|
    requires forall i :: 0 <= i < |sorts| ==> read[i].descending == sorts[i].descending
    ensures TupleBefore(a, b, read) <==> TupleBefore(a, b, sorts)
  {
    if sorts != [] { SameDirections(a[1..], b[1..], read[1..], sorts[1..]); }
  }

  lemma {:induction false} SortsAsRead(sorts: seq<Sort>, a: Row, b: Row)
    ensures var read := ReadSorts(Directions(sorts));
            && TupleOf(a, read) == TupleOf(a, sorts) && TupleOf(b, read) == TupleOf(b, sorts)
            && (TupleBefore(TupleOf(a, read), TupleOf(b, read), read) <==>
                TupleBefore(TupleOf(a, sorts), TupleOf(b, sorts), sorts))
  {
    var read := ReadSorts(Directions(sorts));
    assert TupleOf(a, read) == TupleOf(a, sorts) && TupleOf(b, read) == TupleOf(b, sorts);
    SameDirections(TupleOf(a, sorts), TupleOf(b, sorts), read, sorts);
  }

  /** ORDER BY as it is read sorts like the sort columns. */
  lemma {:induction false} AnswerBySorts(view: View, selects: Row -> bool, sorts: seq<Sort>, limit: nat,
                                         answer: seq<Row>)
    ensures IsAnswer(view, selects, ReadSorts(Directions(sorts)), limit, None, answer)
       <==> IsAnswer(view, selects, sorts, limit, None, answer)
  {
    hide TupleOf, TupleBefore;
    var read := ReadSorts(Directions(sorts));
    forall a, b ensures TupleBefore(TupleOf(a, read), TupleOf(b, read), read) <==>
                        TupleBefore(TupleOf(a, sorts), TupleOf(b, sorts), sorts)
    {
      SortsAsRead(sorts, a, b);
    }
  }

  lemma {:induction false} SameLengths(q: Query, cursor: Option<Cursor>, after: Option<seq<Value>>, native: bool)
    requires CursorStands(q, cursor, after, native)
    ensures after.Some? ==> |after.value| == |q.sorts|
  {}

  lemma {:induction false} SameAnswer(view: View, selects: Row -> bool, matches: Row -> bool, sorts: seq<Sort>,
                                      limit: nat, after: Option<seq<Value>>, answer: seq<Row>)
    requires after.Some? ==> |after.value| == |sorts|
    requires forall row :: row in view ==> (Passes(row, selects, sorts, None) <==> Passes(row, matches, sorts, after))
    ensures IsAnswer(view, selects, sorts, limit, None, answer) <==>
            IsAnswer(view, matches, sorts, limit, after, answer)
  {
    hide Passes, TupleBefore, TupleOf;
  }

  /** The engine's answer to a compiled page, read from its text, is the ordered, limited list
      of the rows that match the filter in the scope after the cursor tuple. */
  lemma {:induction false} PageAnswers(q: Query, ast: Option<Expr>, meaning: Row -> Value, view: View,
                                       cursor: Option<Cursor>, after: Option<seq<Value>>, native: bool,
                                       answer: seq<Row>)
    requires SelectedOk(q.l, q.selected)
    requires OperandInBrackets(q.text, ast) && FilterMeans(ast, q.bindings, meaning)
    requires q.sorts != [] && TypedView(view, q.sorts)
    requires CursorStands(q, cursor, after, native) && CursorOk(cursor, q.pins, q.sorts)
    ensures after.Some? ==> |after.value| == |q.sorts|
    ensures FullAst(ast, |q.bindings|, if cursor.Some? then Some(q.sorts) else None).Some? ==>
              (EngineAnswer(view, Assembled(q, cursor), answer) <==>
               IsAnswer(view, Matches(q.scope, meaning), q.sorts, q.pins.pageSize + 1, after, answer))
    ensures EngineAnswer(view, Assembled(q, cursor), answer) ==>
              IsAnswer(view, Matches(q.scope, meaning), q.sorts, q.pins.pageSize + 1, after, answer)
  {
    hide OperandInBrackets, FilterMeans, Selects, TupleBefore, TupleOf, CursorTuple, FullAst, KeysetBindings, True,
         ParameterMap, TypedTuple, CursorOk, ReadSelect, StatementOf, SelectedOk, Selections, IsAnswer, CommandOf;
    SameLengths(q, cursor, after, native);
    StatementIsRead(q, ast, cursor);
    var c := Assembled(q, cursor);
    var selects := row => Selects(c, row);
    forall row | row in view
      ensures Passes(row, selects, q.sorts, None) <==> Passes(row, Matches(q.scope, meaning), q.sorts, after)
    {
      assert TypedTuple(q.sorts, TupleOf(row, q.sorts));
      SelectionMeaning(q, ast, meaning, after, native, cursor, row);
    }
    AnswerBySorts(view, selects, q.sorts, q.pins.pageSize + 1, answer);
    SameAnswer(view, selects, Matches(q.scope, meaning), q.sorts, q.pins.pageSize + 1, after, answer);
  }

  /** The cursor of every page is accepted and stands for the last row shown before. */
  lemma {:induction false} CursorOfPage(q: Query, ast: Option<Expr>, driver: Driver, pages: seq<Page>, i: nat)
    requires SelectedOk(q.l, q.selected) && OperandInBrackets(q.text, ast) && q.sorts != []
    requires Followed(q, driver, pages) && TypedPages(q, pages) && i < |pages|
    ensures CursorOk(pages[i].cursor, q.pins, q.sorts)
    ensures i > 0 ==> |pages[i - 1].answer| > q.pins.pageSize > 0
    ensures i > 0 ==>
      CursorStands(q, pages[i].cursor, Some(TupleOf(pages[i - 1].answer[q.pins.pageSize - 1], q.sorts)), driver.native)
  {
    hide PageOk, CursorTuple, TypedTuple, TupleOf, TypedView, OperandInBrackets, SelectedOk, KeysetBinds, Verify;
    if i > 0 {
      CursorOfPage(q, ast, driver, pages, i - 1);
      assert TypedView(pages[i - 1].view, q.sorts);
      assert LinkedPage(pages[i - 1], pages[i]) && PageAt(q, driver, pages, i - 1);
      NextCursorAccepted(q, ast, driver, pages[i - 1]);
    }
  }

  lemma {:induction false} FollowedPage(q: Query, ast: Option<Expr>, meaning: Row -> Value, driver: Driver,
                                        pages: seq<Page>, i: nat)
    requires SelectedOk(q.l, q.selected)
    requires OperandInBrackets(q.text, ast) && FilterMeans(ast, q.bindings, meaning) && q.sorts != []
    requires Followed(q, driver, pages) && TypedPages(q, pages) && i < |pages|
    ensures CursorOk(pages[i].cursor, q.pins, q.sorts)
    ensures q.pins.pageSize > 0 && (i > 0 ==> |Answers(pages)[i - 1]| > q.pins.pageSize)
    ensures IsPage(Views(pages), Answers(pages), Matches(q.scope, meaning), q.sorts, q.pins.pageSize, i)
  {
    hide OperandInBrackets, FilterMeans, EngineAnswer, IsAnswer, KeysetBinds, CursorTuple, TypedTuple, TupleOf,
         Assembled, TypedView, Delivered, Matches, SelectedOk, CursorOk, Normalized;
    CursorOfPage(q, ast, driver, pages, i);
    assert PageAt(q, driver, pages, i) && TypedView(pages[i].view, q.sorts);
    var after := AfterTuple(Answers(pages), q.sorts, q.pins.pageSize, i);
    PageAnswers(q, ast, meaning, pages[i].view, pages[i].cursor, after, driver.native, pages[i].answer);
  }

  lemma {:induction false} FinishedPage(q: Query, driver: Driver, pages: seq<Page>)
    requires SelectedOk(q.l, q.selected)
    requires Followed(q, driver, pages) && CursorOk(pages[|pages| - 1].cursor, q.pins, q.sorts)
    ensures Finished(Answers(pages), q.pins.pageSize) <==> pages[|pages| - 1].next == None
  {
    hide EngineAnswer, TypedView, DeliveredRow, CursorOk, RawShape, SelectedOk, ReadSelect, ItemOf, SortValues;
    assert PageAt(q, driver, pages, |pages| - 1);
  }

  /** Following the cursors of one query is a traversal of the matching rows. */
  lemma {:induction false} FollowedIsRun(q: Query, ast: Option<Expr>, meaning: Row -> Value, driver: Driver,
                                         pages: seq<Page>)
    requires SelectedOk(q.l, q.selected)
    requires OperandInBrackets(q.text, ast) && FilterMeans(ast, q.bindings, meaning) && q.sorts != []
    requires Followed(q, driver, pages) && TypedPages(q, pages)
    ensures IsRun(Views(pages), Answers(pages), Matches(q.scope, meaning), q.sorts, q.pins.pageSize)
    ensures Finished(Answers(pages), q.pins.pageSize) <==> pages[|pages| - 1].next == None
    ensures forall i :: 0 <= i < |pages| ==> CursorOk(pages[i].cursor, q.pins, q.sorts)
  {
    hide OperandInBrackets, FilterMeans, IsPage, CursorOk, Matches, PageOk, LinkedPage, SelectedOk;
    forall i | 0 <= i < |pages|
      ensures q.pins.pageSize > 0 && (i > 0 ==> |Answers(pages)[i - 1]| > q.pins.pageSize)
      ensures IsPage(Views(pages), Answers(pages), Matches(q.scope, meaning), q.sorts, q.pins.pageSize, i)
      ensures CursorOk(pages[i].cursor, q.pins, q.sorts)
    {
      FollowedPage(q, ast, meaning, driver, pages, i);
    }
    forall i | 0 <= i < |pages| - 1 ensures |Answers(pages)[i]| > q.pins.pageSize {
      FollowedPage(q, ast, meaning, driver, pages, i + 1);
    }
    FinishedPage(q, driver, pages);
  }

  // ---- Items ----------------------------------------------------------------

  /** The driver's value of a selected column. */
  function SelectedCell(q: Query, row: Row, i: nat): Py
    requires SelectedOk(q.l, q.selected) && i < |q.selected|
  {
    Loaded(Cell(row, q.l.Physical(q.selected[i].field)), q.selected[i].alias in CommandOf(q).times)
  }

  ghost predicate ShowsAt(q: Query, decode: Decoder, item: map<string, Json>, row: Row, i: nat)
    requires SelectedOk(q.l, q.selected) && i < |q.selected|
  {
    var alias, c, cell := q.selected[i].alias, CommandOf(q), SelectedCell(q, row, i);
    alias in item && EngineInts(cell) && item[alias] == ColumnJson(cell, alias in c.times, alias in c.jsons, decode)
  }

  /** An item shows a row: its members are the selected aliases that are not reserved, each
      with the converted value of its own column. */
  ghost predicate ItemShows(q: Query, decode: Decoder, item: map<string, Json>, row: Row)
    requires SelectedOk(q.l, q.selected)
  {
    && (forall alias :: alias in item <==> alias in Aliases(q.selected) && !ReservedAlias(alias))
    && (Unique(Aliases(q.selected)) ==>
          forall i :: 0 <= i < |q.selected| && !ReservedAlias(q.selected[i].alias) ==> ShowsAt(q, decode, item, row, i))
  }

  lemma {:induction false} DeliveredItem(q: Query, driver: Driver, raw: RawRow, row: Row)
    requires SelectedOk(q.l, q.selected)
    requires DeliveredRow(raw, row, Selections(q.l, q.selected, q.sorts, q.total), CommandOf(q), driver.native)
    ensures ItemShows(q, driver.decode, ItemOf(raw, CommandOf(q), |q.selected|, driver.decode), row)
  {
    hide Selections, SelectedAlone, ReservedAlias, AliasesOfKind, ColumnJson, Loaded, Cell, TypedTuple;
    var c := CommandOf(q);
    SelectionsOf(q, row);
    var item := ItemOf(raw, c, |c.columns|, driver.decode);
    forall alias ensures alias in item <==> alias in Aliases(q.selected) && !ReservedAlias(alias) {
      ItemColumns(raw, c, |c.columns|, driver.decode, alias);
      assert c.columns[..|c.columns|] == c.columns;
    }
    if Unique(Aliases(q.selected)) {
      forall i | 0 <= i < |q.selected| && !ReservedAlias(q.selected[i].alias)
        ensures ShowsAt(q, driver.decode, item, row, i)
      {
        ItemLookup(raw, c, |c.columns|, driver.decode, i);
        assert DeliveredCell(raw, row, Selections(q.l, q.selected, q.sorts, q.total), c, i);
        assert EngineInts(raw.cells[i]);
      }
    }
  }

  /** All items that were returned, page after page. */
  function AllItems(pages: seq<Page>): seq<map<string, Json>> {
    if pages == [] then [] else AllItems(pages[..|pages| - 1]) + pages[|pages| - 1].items
  }

  /** One item for each row shown. */
  ghost predicate ItemsOfPage(q: Query, decode: Decoder, p: Page)
    requires SelectedOk(q.l, q.selected)
  {
    && |p.items| == |Shown(p.answer, q.pins.pageSize)|
    && forall k :: 0 <= k < |p.items| ==> ItemShows(q, decode, p.items[k], p.answer[k])
  }

  lemma {:induction false} PageItems(q: Query, ast: Option<Expr>, driver: Driver, p: Page)
    requires SelectedOk(q.l, q.selected) && OperandInBrackets(q.text, ast) && q.sorts != []
    requires PageOk(q, driver, p) && CursorOk(p.cursor, q.pins, q.sorts)
    ensures ItemsOfPage(q, driver.decode, p)
  {
    hide OperandInBrackets, SelectedOk, CursorOk, ReadSelect, StatementOf, FullAst, Selections, DeliveredRow,
         ItemShows, EngineAnswer, ParameterMap, KeysetBindings, AliasesOfKind, SortValues;
    StatementIsRead(q, ast, p.cursor);
    forall k | 0 <= k < |p.items| ensures ItemShows(q, driver.decode, p.items[k], p.answer[k]) {
      DeliveredItem(q, driver, p.raws[k], p.answer[k]);
    }
  }

  lemma {:induction false} ItemsOfPages(q: Query, decode: Decoder, pages: seq<Page>)
    requires SelectedOk(q.l, q.selected)
    requires forall i :: 0 <= i < |pages| ==> ItemsOfPage(q, decode, pages[i])
    ensures var shown := AllShown(Answers(pages), q.pins.pageSize);
            && |AllItems(pages)| == |shown|
            && forall k :: 0 <= k < |shown| ==> ItemShows(q, decode, AllItems(pages)[k], shown[k])
  {
    hide ItemShows, SelectedOk;
    if pages != [] {
      var n := |pages| - 1;
      ItemsOfPages(q, decode, pages[..n]);
      assert Answers(pages[..n]) == Answers(pages)[..n];
      assert ItemsOfPage(q, decode, pages[n]);
    }
  }

  /** Every item that a followed query returns shows the row at its place. */
  lemma {:induction false} FollowedItems(q: Query, ast: Option<Expr>, driver: Driver, pages: seq<Page>)
    requires SelectedOk(q.l, q.selected) && OperandInBrackets(q.text, ast) && q.sorts != []
    requires Followed(q, driver, pages) && TypedPages(q, pages)
    ensures var shown := AllShown(Answers(pages), q.pins.pageSize);
            && |AllItems(pages)| == |shown|
            && forall k :: 0 <= k < |shown| ==> ItemShows(q, driver.decode, AllItems(pages)[k], shown[k])
  {
    hide OperandInBrackets, SelectedOk, CursorOk, PageOk, ItemsOfPage, TypedPages, LinkedPage, ItemShows;
    forall i | 0 <= i < |pages| ensures ItemsOfPage(q, driver.decode, pages[i]) {
      CursorOfPage(q, ast, driver, pages, i);
      assert PageAt(q, driver, pages, i);
      PageItems(q, ast, driver, pages[i]);
    }
    ItemsOfPages(q, driver.decode, pages);
  }

  // ---- A table that does not change -----------------------------------------

  /** The driver can return the selected values of every row. */
  ghost predicate Deliverable(q: Query, view: View)
    requires SelectedOk(q.l, q.selected)
  {
    forall row, i :: row in view && 0 <= i < |q.selected| ==> EngineInts(SelectedCell(q, row, i))
  }

  function FetchedRow(q: Query, row: Row, native: bool): RawRow
    requires SelectedOk(q.l, q.selected) && TypedTuple(q.sorts, TupleOf(row, q.sorts))
  {
    RawRow(seq(|q.selected|, i requires 0 <= i < |q.selected| => SelectedCell(q, row, i)),
           FetchedKeys(row, q.sorts, native))
  }

  lemma {:induction false} FetchedIsDelivered(q: Query, row: Row, native: bool)
    requires SelectedOk(q.l, q.selected) && TypedTuple(q.sorts, TupleOf(row, q.sorts))
    requires forall i :: 0 <= i < |q.selected| ==> EngineInts(SelectedCell(q, row, i))
    ensures DeliveredRow(FetchedRow(q, row, native), row, Selections(q.l, q.selected, q.sorts, q.total), CommandOf(q),
                         native)
  {
    hide Selections, SelectedAlone, AliasesOfKind, Typed, Fetched, Loaded, Cell;
    SelectionsOf(q, row);
    var raw, selections := FetchedRow(q, row, native), Selections(q.l, q.selected, q.sorts, q.total);
    forall i | 0 <= i < |q.selected| ensures DeliveredCell(raw, row, selections, CommandOf(q), i) {}
  }

  /** `normalize_result` as a function. */
  function ResultOf(c: Command, rows: seq<RawRow>, decode: Decoder): PageResult
    requires forall i :: 0 <= i < |rows| ==> RawShape(rows[i], c)
  {
    PageResult(
      seq(Visible(|rows|, c.pins.pageSize), i requires 0 <= i < Visible(|rows|, c.pins.pageSize) =>
        ItemOf(rows[i], c, |c.columns|, decode)),
      if !c.aggregate && |rows| > c.pins.pageSize > 0
      then Some(Issue(c.pins, SortValues(rows[c.pins.pageSize - 1], c))) else None)
  }

  lemma {:induction false} AnswerInView(view: View, matches: Row -> bool, sorts: seq<Sort>, limit: nat,
                                        after: Option<seq<Value>>, answer: seq<Row>)
    requires after.Some? ==> |after.value| == |sorts|
    requires IsAnswer(view, matches, sorts, limit, after, answer)
    ensures forall i :: 0 <= i < |answer| ==> answer[i] in view
  {}

  lemma {:induction false} DeliveredShape(raw: RawRow, row: Row, selections: seq<Selection>, c: Command, native: bool)
    requires DeliveredRow(raw, row, selections, c, native)
    ensures RawShape(raw, c)
  {}

  lemma {:induction false} ConditionReads(q: Query, ast: Option<Expr>, meaning: Row -> Value, native: bool,
                                          cursor: Option<Cursor>, last: Option<Row>)
    requires FilterMeans(ast, q.bindings, meaning) && q.sorts != []
    requires last.Some? ==> TypedTuple(q.sorts, TupleOf(last.value, q.sorts))
    requires CursorStands(q, cursor, if last.Some? then Some(TupleOf(last.value, q.sorts)) else None, native)
    requires CursorOk(cursor, q.pins, q.sorts)
    ensures FullAst(ast, |q.bindings|, if cursor.Some? then Some(q.sorts) else None).Some?
  {
    hide TypedTuple, TupleOf, CursorTuple, KeysetAst, KeysetBindings, Eval, ParameterMap, TupleBefore, KeysetBinds;
    if last.Some? {
      EvalKeyset(q.bindings, q.scope, q.sorts, TupleOf(last.value, q.sorts), native, last.value);
    }
  }

  lemma {:induction false} RawsExist(q: Query, driver: Driver, view: View, answer: seq<Row>) returns (raws: seq<RawRow>)
    requires SelectedOk(q.l, q.selected) && TypedView(view, q.sorts) && Deliverable(q, view)
    requires forall i :: 0 <= i < |answer| ==> answer[i] in view
    ensures |raws| == |answer|
    ensures forall i :: 0 <= i < |raws| ==>
      RawShape(raws[i], CommandOf(q))
      && DeliveredRow(raws[i], answer[i], Selections(q.l, q.selected, q.sorts, q.total), CommandOf(q), driver.native)
  {
    hide TypedTuple, TupleOf, SelectedOk, Selections, DeliveredRow, FetchedRow, SelectedCell, RawShape, AliasesOfKind;
    raws := seq(|answer|, i requires 0 <= i < |answer| => FetchedRow(q, answer[i], driver.native));
    forall i | 0 <= i < |raws|
      ensures RawShape(raws[i], CommandOf(q))
      ensures DeliveredRow(raws[i], answer[i], Selections(q.l, q.selected, q.sorts, q.total), CommandOf(q),
                           driver.native)
    {
      assert answer[i] in view;
      FetchedIsDelivered(q, answer[i], driver.native);
      DeliveredShape(raws[i], answer[i], Selections(q.l, q.selected, q.sorts, q.total), CommandOf(q), driver.native);
    }
  }

  lemma {:induction false} ResultIsNormalized(c: Command, rows: seq<RawRow>, decode: Decoder)
    requires forall i :: 0 <= i < |rows| ==> RawShape(rows[i], c)
    requires !c.aggregate
    ensures Normalized(c, rows, decode, ResultOf(c, rows, decode))
  {
    hide ItemOf, SortValues, RawShape;
  }

  /** Every request whose cursor stands for a row has a page over an orderly view. */
  lemma {:induction false} PageExists(q: Query, ast: Option<Expr>, meaning: Row -> Value, driver: Driver, view: View,
                                      cursor: Option<Cursor>, last: Option<Row>) returns (p: Page)
    requires SelectedOk(q.l, q.selected) && q.sorts != []
    requires OperandInBrackets(q.text, ast) && FilterMeans(ast, q.bindings, meaning)
    requires TypedView(view, q.sorts) && Deliverable(q, view) && Orderly(view, Matches(q.scope, meaning), q.sorts)
    requires last.Some? ==> TypedTuple(q.sorts, TupleOf(last.value, q.sorts))
    requires CursorStands(q, cursor, if last.Some? then Some(TupleOf(last.value, q.sorts)) else None, driver.native)
    requires CursorOk(cursor, q.pins, q.sorts)
    ensures PageOk(q, driver, p) && p.view == view && p.cursor == cursor
  {
    hide OperandInBrackets, FilterMeans, TypedTuple, TupleOf, CursorTuple, ReadSelect, StatementOf, SelectedOk,
         Selections, IsAnswer, DeliveredRow, ParameterMap, KeysetBindings, CursorOk, Matches, Orderly, Selects,
         RawShape, AliasesOfKind, ResultOf, Normalized, Deliverable, TypedView, FullAst, CursorStands, Directions;
    var after := if last.Some? then Some(TupleOf(last.value, q.sorts)) else None;
    var answer := AnswerExists(view, Matches(q.scope, meaning), q.sorts, q.pins.pageSize + 1, after);
    ConditionReads(q, ast, meaning, driver.native, cursor, last);
    PageAnswers(q, ast, meaning, view, cursor, after, driver.native, answer);
    StatementIsRead(q, ast, cursor);
    AnswerInView(view, Matches(q.scope, meaning), q.sorts, q.pins.pageSize + 1, after, answer);
    var raws := RawsExist(q, driver, view, answer);
    ResultIsNormalized(CommandOf(q), raws, driver.decode);
    var result := ResultOf(CommandOf(q), raws, driver.decode);
    p := Page(view, cursor, answer, raws, result.items, result.cursor);
  }

  lemma {:induction false} SameViews(q: Query, pages: seq<Page>, view: View)
    requires TypedView(view, q.sorts) && Unchanging(Views(pages), view)
    ensures TypedPages(q, pages)
  {
    hide TypedView;
    forall i | 0 <= i < |pages| ensures TypedView(pages[i].view, q.sorts) { assert Views(pages)[i] == view; }
  }

  /** A client that is not finished can ask for the next page. */
  lemma {:induction false} FollowedGrows(q: Query, ast: Option<Expr>, meaning: Row -> Value, driver: Driver,
                                         view: View, pages: seq<Page>) returns (p: Page)
    requires SelectedOk(q.l, q.selected) && q.sorts != []
    requires OperandInBrackets(q.text, ast) && FilterMeans(ast, q.bindings, meaning)
    requires TypedView(view, q.sorts) && Deliverable(q, view) && Orderly(view, Matches(q.scope, meaning), q.sorts)
    requires Followed(q, driver, pages) && Unchanging(Views(pages), view) && pages[|pages| - 1].next.Some?
    ensures Followed(q, driver, pages + [p]) && Unchanging(Views(pages + [p]), view)
  {
    hide OperandInBrackets, FilterMeans, TypedTuple, TupleOf, CursorTuple, SelectedOk, CursorOk, Orderly, Deliverable,
         TypedView, PageOk;
    var n := |pages| - 1;
    SameViews(q, pages, view);
    CursorOfPage(q, ast, driver, pages, n);
    assert pages[n].view == Views(pages)[n] == view;
    assert PageAt(q, driver, pages, n);
    NextCursorAccepted(q, ast, driver, pages[n]);
    p := PageExists(q, ast, meaning, driver, view, pages[n].next, Some(pages[n].answer[q.pins.pageSize - 1]));
    assert LinkedPage(pages[n], p);
    forall i | 0 <= i < |pages + [p]| ensures PageAt(q, driver, pages + [p], i) {
      if i < |pages| { assert PageAt(q, driver, pages, i); }
    }
  }

  /** The ascending list of the rows that the query is about. */
  ghost predicate ListsMatching(view: View, q: Query, meaning: Row -> Value, listing: seq<Row>) {
    Ascending(listing, q.sorts) && forall row :: row in listing <==> row in Matching(view, Matches(q.scope, meaning))
  }

  lemma {:induction false} FirstPage(q: Query, ast: Option<Expr>, meaning: Row -> Value, driver: Driver, view: View)
    returns (pages: seq<Page>)
    requires SelectedOk(q.l, q.selected) && q.sorts != [] && q.pins.pageSize > 0
    requires OperandInBrackets(q.text, ast) && FilterMeans(ast, q.bindings, meaning)
    requires TypedView(view, q.sorts) && Deliverable(q, view) && Orderly(view, Matches(q.scope, meaning), q.sorts)
    ensures pages != [] && Followed(q, driver, pages) && Unchanging(Views(pages), view)
  {
    hide OperandInBrackets, FilterMeans, SelectedOk, Orderly, Deliverable, TypedView, PageOk, Matches;
    var p := PageExists(q, ast, meaning, driver, view, None, None);
    pages := [p];
  }

  lemma {:induction false} Progress(q: Query, ast: Option<Expr>, meaning: Row -> Value, driver: Driver, view: View,
                                    pages: seq<Page>, listing: seq<Row>)
    requires SelectedOk(q.l, q.selected) && q.sorts != [] && q.pins.pageSize > 0 && pages != []
    requires OperandInBrackets(q.text, ast) && FilterMeans(ast, q.bindings, meaning)
    requires TypedView(view, q.sorts) && Orderly(view, Matches(q.scope, meaning), q.sorts)
    requires Followed(q, driver, pages) && Unchanging(Views(pages), view)
    requires Ascending(listing, q.sorts) && forall row :: row in listing <==>
             row in Matching(view, Matches(q.scope, meaning))
    ensures IsRun(Views(pages), Answers(pages), Matches(q.scope, meaning), q.sorts, q.pins.pageSize)
    ensures pages[|pages| - 1].next.Some? ==> |pages| * q.pins.pageSize < |listing|
    ensures pages[|pages| - 1].next.None? ==> |pages| == PageCount(|listing|, q.pins.pageSize)
    ensures pages[|pages| - 1].next.None? ==> Finished(Answers(pages), q.pins.pageSize)
  {
    hide OperandInBrackets, FilterMeans, SelectedOk, Orderly, TypedView, IsRun, Ascending, Matches, Finished, Followed,
         CursorOk, PageCount, Matching, Unchanging;
    SameViews(q, pages, view);
    FollowedIsRun(q, ast, meaning, driver, pages);
    StaticTraversalEnds(Views(pages), Answers(pages), Matches(q.scope, meaning), q.sorts, q.pins.pageSize, view,
                        listing);
  }

  /** The last page issued no cursor. */
  predicate Ended(pages: seq<Page>) { pages != [] && pages[|pages| - 1].next == None }

  /** The query followed to its end over one table, in as many pages as `listing` needs, which
      lists the matching rows in order and is what the pages show. */
  ghost predicate FollowedWhole(q: Query, driver: Driver, meaning: Row -> Value, view: View, pages: seq<Page>,
                                listing: seq<Row>) {
    && SelectedOk(q.l, q.selected) && q.pins.pageSize > 0
    && Followed(q, driver, pages) && Unchanging(Views(pages), view) && Ended(pages)
    && ListsMatching(view, q, meaning, listing)
    && |pages| == PageCount(|listing|, q.pins.pageSize) && AllShown(Answers(pages), q.pins.pageSize) == listing
  }

  /** On a table that does not change a followed query exists, ends after exactly as many pages
      as its rows need, and shows the ascending listing of its rows. */
  lemma {:induction false} FollowedEnds(q: Query, ast: Option<Expr>, meaning: Row -> Value, driver: Driver, view: View)
    returns (pages: seq<Page>, listing: seq<Row>)
    requires SelectedOk(q.l, q.selected) && q.sorts != [] && q.pins.pageSize > 0
    requires OperandInBrackets(q.text, ast) && FilterMeans(ast, q.bindings, meaning)
    requires TypedView(view, q.sorts) && Deliverable(q, view) && Orderly(view, Matches(q.scope, meaning), q.sorts)
    ensures FollowedWhole(q, driver, meaning, view, pages, listing)
  {
    hide OperandInBrackets, FilterMeans, SelectedOk, Orderly, Deliverable, TypedView, PageOk, IsRun, Ascending,
         Matches, Finished, LinkedPage, Followed, CursorOk, PageCount, Matching, Unchanging;
    var matches, size := Matches(q.scope, meaning), q.pins.pageSize;
    listing := OrderlyListing(view, matches, q.sorts);
    pages := FirstPage(q, ast, meaning, driver, view);
    while pages[|pages| - 1].next.Some?
      invariant pages != [] && Followed(q, driver, pages) && Unchanging(Views(pages), view)
      decreases |listing| - |pages| * size
    {
      Progress(q, ast, meaning, driver, view, pages, listing);
      var p := FollowedGrows(q, ast, meaning, driver, view, pages);
      assert |pages + [p]| * size == |pages| * size + size;
      pages := pages + [p];
    }
    Progress(q, ast, meaning, driver, view, pages, listing);
    StaticTraversalExact(Views(pages), Answers(pages), matches, q.sorts, size, view, listing);
  }

  // ---- The two surfaces -----------------------------------------------------

  /** Rows are shown in the order that the fields say. */
  lemma {:induction false} ShownInOrder(l: Layout, order: seq<Order>, shown: seq<Row>, i: nat, j: nat)
    requires ColumnsOk(l) && RolesOk(l) && AllSortable(l, order)
    requires Ascending(shown, Completed(l, order)) && i < j < |shown|
    ensures Precedes(l, order, shown[i], shown[j])
  {
    hide ColumnsOk, RolesOk, AllSortable, Completed, TupleOf, TupleBefore, Precedes;
    CompletedPrecedes(l, order, shown[i], shown[j]);
  }

  lemma {:induction false} NewerPrecedes(l: Layout, a: Row, b: Row)
    requires ColumnsOk(l) && RolesOk(l)
    ensures var ts := l.Physical(l.timestampField);
            Cell(a, ts).TimeV? && Cell(b, ts).TimeV? && Cell(a, ts).ticks > Cell(b, ts).ticks ==> Precedes(l, [], a, b)
  {
    hide Completed, TupleOf, TupleBefore, ColumnsOk, Precedes;
    var ts := l.Physical(l.timestampField);
    if Cell(a, ts).TimeV? && Cell(b, ts).TimeV? && Cell(a, ts).ticks > Cell(b, ts).ticks {
      NewestFirst(l, a, b);
      CompletedPrecedes(l, [], a, b);
    }
  }

  /** A full page holds the first rows in that order: a row that it leaves out precedes none of
      those that it holds. Without an order, no row left out is newer than a row on the page. */
  lemma {:induction false} PageHoldsFirst(l: Layout, order: seq<Order>, view: View, matches: Row -> bool, limit: nat,
                                          answer: seq<Row>, row: Row, i: nat)
    requires ColumnsOk(l) && RolesOk(l) && AllSortable(l, order)
    requires IsAnswer(view, matches, Completed(l, order), limit, None, answer)
    requires row in view && matches(row) && row !in answer && i < |answer|
    ensures |answer| == limit && !Precedes(l, order, row, answer[i])
    ensures var ts := l.Physical(l.timestampField);
            order == [] && Cell(row, ts).TimeV? && Cell(answer[i], ts).TimeV? ==>
              Cell(row, ts).ticks <= Cell(answer[i], ts).ticks
  {
    hide ColumnsOk, RolesOk, AllSortable, Completed, TupleOf, TupleBefore, Precedes;
    CompletedPrecedes(l, order, row, answer[i]);
    assert Passes(row, matches, Completed(l, order), None);
    NewerPrecedes(l, row, answer[i]);
  }

  lemma {:induction false} NoCursorOk(pins: Expectations, sorts: seq<Sort>)
    ensures CursorOk(None, pins, sorts)
  {}

  /** The parts of an accepted wire query fit together. */
  lemma {:induction false} WireParts(l: Layout, op: Operation, ctx: Context, settings: QuerySettings, plan: string)
    requires ColumnsOk(l) && RolesOk(l) && WireAccepted(l, op, ctx, settings, plan)
    requires op.filter.Some? ==> WellBracketed(op.filter.value)
    ensures var q := WireQuery(l, op, ctx, settings, plan);
            && q.sorts != [] && SelectedOk(q.l, q.selected)
            && OperandInBrackets(q.text, WirePredicateAst(l, op.filter))
            && FilterMeans(WirePredicateAst(l, op.filter), q.bindings, WireMeaning(l, op.filter))
  {
    hide Compiles, WellBracketed, WireWindowOk, Completed, WireSelectOk, FilterMeans, OperandInBrackets, WirePredicate,
         WirePredicateAst, WireBindings, WireValue, CursorOk, WireSelected;
    CompletedCoversKey(l, WireOrders(op.order));
    WirePredicateReads(l, op.filter);
    WireFilterMeans(l, op.filter);
  }

  /** In the names of its operators: a compiled wire query selects a row exactly when the row is
      in the scope and the filter, if there is one, says so. */
  lemma {:induction false} WireSelects(l: Layout, op: Operation, ctx: Context, settings: QuerySettings, plan: string,
                                       q: Query, row: Row)
    requires ColumnsOk(l) && RolesOk(l) && WireAccepted(l, op, ctx, settings, plan)
    requires op.filter.Some? ==> WellBracketed(op.filter.value)
    requires q == WireQuery(l, op, ctx, settings, plan) && SelectedOk(q.l, q.selected)
    ensures Selects(Assembled(q, None), row) <==>
            && Cell(row, HIDDEN_SCOPE) == StrV(ScopeDigest(ctx.scopeFingerprint))
            && (op.filter.Some? ==> Says(l, op.filter.value, row, true))
  {
    hide Compiles, WellBracketed, WireWindowOk, Completed, WireOk, WireSelectOk, FilterMeans, OperandInBrackets,
         WirePredicate, WirePredicateAst, WireBindings, WireSelected, SelectedOk, Selects, Assembled, Meaning, Says,
         TupleBefore, CursorOk;
    NoCursorOk(q.pins, q.sorts);
    WireParts(l, op, ctx, settings, plan);
    SelectionMeaning(q, WirePredicateAst(l, op.filter), WireMeaning(l, op.filter), None, false, None, row);
    if op.filter.Some? { MeaningSays(l, op.filter.value, row); }
  }

  lemma {:induction false} MappingMeans(l: Layout, where: Where, row: Row)
    requires WhereOk(l, where)
    ensures forall i :: 0 <= i < |where| ==> ItemAccepted(l, where[i])
    ensures True(MappingMeaning(l, where)(row)) <==> forall i :: 0 <= i < |where| ==> ItemSays(l, where[i], row)
  {
    hide Atoms, WhereMeaning, ItemSays, ItemAccepted, AtomsOk, Truth, WhereOk;
    WhereSays(l, where, row);
  }

  lemma {:induction false} WhereAtoms(l: Layout, where: Where)
    requires WhereOk(l, where)
    ensures AtomsOk(Atoms(l, where))
  {}

  lemma {:induction false} MappingParts(l: Layout, operation: string, input: MappingInput, ctx: Context,
                                        settings: QuerySettings, plan: string)
    requires ColumnsOk(l) && RolesOk(l) && MappingAccepted(l, operation, input, ctx, settings, plan)
    ensures var q := MappingQuery(l, operation, input, ctx, settings, plan);
            && q.sorts != [] && SelectedOk(q.l, q.selected) && AtomsOk(Atoms(l, input.where))
            && OperandInBrackets(q.text, WhereAst(Atoms(l, input.where), 0))
            && FilterMeans(WhereAst(Atoms(l, input.where), 0), q.bindings, MappingMeaning(l, input.where))
  {
    hide MappingWindowOk, Completed, FilterMeans, OperandInBrackets, WhereText, AllAtomBindings, Atoms, WhereAst,
         WhereValue, CursorOk, BoundsOf, SelectedOk;
    WhereAtoms(l, input.where);
    CompletedCoversKey(l, EntryOrders(input.orderBy.items));
    MappingPredicateReads(Atoms(l, input.where));
    WhereFilterMeans(l, input.where);
  }

  /** In the names of its operators: a compiled mapping-first query selects a row exactly when the
      row is in the scope and every item of the filter says so. */
  lemma {:induction false} MappingSelects(l: Layout, operation: string, input: MappingInput, ctx: Context,
                                          settings: QuerySettings, plan: string, q: Query, row: Row)
    requires ColumnsOk(l) && RolesOk(l) && MappingAccepted(l, operation, input, ctx, settings, plan)
    requires q == MappingQuery(l, operation, input, ctx, settings, plan) && SelectedOk(q.l, q.selected)
    ensures forall i :: 0 <= i < |input.where| ==> ItemAccepted(l, input.where[i])
    ensures Selects(Assembled(q, None), row) <==>
            && Cell(row, HIDDEN_SCOPE) == StrV(ScopeDigest(ctx.scopeFingerprint))
            && forall i :: 0 <= i < |input.where| ==> ItemSays(l, input.where[i], row)
  {
    hide MappingWindowOk, Completed, MappingSelectOk, FilterMeans, OperandInBrackets, WhereText, AllAtomBindings,
         Atoms, WhereAst, BoundsOf, MappingSelected, SelectedOk, Selects, Assembled, ItemSays, ItemAccepted,
         TupleBefore, AtomsOk, MappingMeaning, MappingOk, True, PageLimit, CursorOk, AtomOk;
    NoCursorOk(q.pins, q.sorts);
    MappingParts(l, operation, input, ctx, settings, plan);
    SelectionMeaning(q, WhereAst(Atoms(l, input.where), 0), MappingMeaning(l, input.where), None, false, None, row);
    MappingMeans(l, input.where, row);
  }

  /** A plain value selects exactly the rows of the scope that hold it. */
  lemma {:induction false} EqualitySelects(l: Layout, operation: string, input: MappingInput, ctx: Context,
                                           settings: QuerySettings, plan: string, q: Query, field: string, value: Json,
                                           row: Row)
    requires ColumnsOk(l) && RolesOk(l) && MappingAccepted(l, operation, input, ctx, settings, plan)
    requires q == MappingQuery(l, operation, input, ctx, settings, plan) && SelectedOk(q.l, q.selected)
    requires input.where == [(field, Scalar(value))]
    ensures field in l.Names()
    ensures var c := l.ColumnOf(field).value;
            var w := LiteralMeaning(value, c.ctype);
            Selects(Assembled(q, None), row) <==>
            && Cell(row, HIDDEN_SCOPE) == StrV(ScopeDigest(ctx.scopeFingerprint))
            && !w.Null? && Cell(row, c.physical) == w
  {
    hide MappingAccepted, MappingQuery, Selects, Assembled, SelectedOk, LiteralMeaning, Binds;
    MappingSelects(l, operation, input, ctx, settings, plan, q, row);
    assert ItemAccepted(l, input.where[0]);
    assert ItemSays(l, input.where[0], row) <==>
           Compared("eq", Cell(row, l.ColumnOf(field).value.physical),
                    LiteralMeaning(value, l.ColumnOf(field).value.ctype), true);
  }

  /** The fingerprint of an operation leaves out its cursor. */
  function WirePlan(op: Operation, planOf: Operation -> string): string { planOf(op.(cursor := None)) }

  function MappingPlan(input: MappingInput, planOf: MappingInput -> string): string { planOf(input.(cursor := None)) }

  /** The same operation resumed at a cursor is accepted whenever the first page was and the
      cursor was issued for it, and compiles to the page of the same query. */
  lemma {:induction false} WireResumes(l: Layout, op: Operation, cursor: Option<Cursor>, ctx: Context,
                                       settings: QuerySettings, planOf: Operation -> string)
    requires RolesOk(l) && WireAccepted(l, op, ctx, settings, WirePlan(op, planOf))
    requires CursorOk(cursor, Pins(WirePlan(op, planOf), ctx, op.size), Completed(l, WireOrders(op.order)))
    ensures var resumed := op.(cursor := cursor);
            && WireAccepted(l, resumed, ctx, settings, WirePlan(resumed, planOf))
            && WireQuery(l, resumed, ctx, settings, WirePlan(resumed, planOf))
            == WireQuery(l, op, ctx, settings, WirePlan(op, planOf))
  {
    hide Compiles, WireWindowOk, WireOk, CursorOk, Completed, WireSelectOk;
    assert op.(cursor := cursor).(cursor := None) == op.(cursor := None);
  }

  /** The same for mapping-first inputs, whose fingerprint also leaves out the cursor. */
  lemma {:induction false} MappingResumes(l: Layout, operation: string, input: MappingInput, cursor: Option<Cursor>,
                                          ctx: Context, settings: QuerySettings, planOf: MappingInput -> string)
    requires RolesOk(l) && MappingAccepted(l, operation, input, ctx, settings, MappingPlan(input, planOf))
    requires CursorOk(cursor, Pins(MappingPlan(input, planOf), ctx, PageLimit(operation, input.limit).value),
                      Completed(l, EntryOrders(input.orderBy.items)))
    ensures var resumed := input.(cursor := cursor);
            && MappingAccepted(l, operation, resumed, ctx, settings, MappingPlan(resumed, planOf))
            && MappingQuery(l, operation, resumed, ctx, settings, MappingPlan(resumed, planOf))
            == MappingQuery(l, operation, input, ctx, settings, MappingPlan(input, planOf))
  {
    hide WhereOk, MappingWindowOk, MappingOk, CursorOk, Completed, MappingSelectOk;
    assert input.(cursor := cursor).(cursor := None) == input.(cursor := None);
  }

  /** A cursor belongs to one query: any operation that carries it is accepted exactly when it
      is, but for the cursor, the operation that the cursor was issued for, in the context that
      it was issued in. */
  lemma {:induction false} CursorStaysWithQuery(l: Layout, op: Operation, ctx: Context, other: Operation,
                                                otherCtx: Context, settings: QuerySettings, tuple: seq<Json>,
                                                planOf: Operation -> string)
    requires RolesOk(l) && op.cursor == None && WireAccepted(l, op, ctx, settings, planOf(op))
    requires planOf(op) == planOf(other.(cursor := None)) ==> op == other.(cursor := None)
    requires KeysetBinds(Completed(l, WireOrders(op.order)), tuple)
    requires other.cursor == Some(Issue(Pins(planOf(op), ctx, op.size), tuple))
    ensures WireAccepted(l, other, otherCtx, settings, planOf(other.(cursor := None)))
       <==> other.(cursor := None) == op && otherCtx == ctx
  {
    hide Compiles, WireWindowOk, WireOk, Completed, WireSelectOk, KeysetBinds;
    if other.(cursor := None) == op {
      assert other == op.(cursor := other.cursor);
    }
  }

  /** What an accepted query promises about every client that follows it. */
  ghost predicate TraversalOk(q: Query, meaning: Row -> Value, driver: Driver, pages: seq<Page>)
    requires SelectedOk(q.l, q.selected)
  {
    var shown := AllShown(Answers(pages), q.pins.pageSize);
    && pages != []
    && IsRun(Views(pages), Answers(pages), Matches(q.scope, meaning), q.sorts, q.pins.pageSize)
    && Ascending(shown, q.sorts)
    && (Finished(Answers(pages), q.pins.pageSize) <==> pages[|pages| - 1].next == None)
    && (forall i :: 0 <= i < |pages| ==> CursorOk(pages[i].cursor, q.pins, q.sorts))
    && |AllItems(pages)| == |shown|
    && (forall k :: 0 <= k < |shown| ==> ItemShows(q, driver.decode, AllItems(pages)[k], shown[k]))
  }

  lemma {:induction false} Traversed(q: Query, ast: Option<Expr>, meaning: Row -> Value, driver: Driver,
                                     pages: seq<Page>)
    requires SelectedOk(q.l, q.selected)
    requires OperandInBrackets(q.text, ast) && FilterMeans(ast, q.bindings, meaning) && q.sorts != []
    requires Followed(q, driver, pages) && TypedPages(q, pages)
    requires AllOrderly(Views(pages), Matches(q.scope, meaning), q.sorts)
    ensures TraversalOk(q, meaning, driver, pages)
  {
    hide OperandInBrackets, FilterMeans, IsRun, Ascending, AllOrderly, TypedPages, CursorOk, ItemShows, Finished,
         Matches, SelectedOk, PageOk, LinkedPage;
    FollowedIsRun(q, ast, meaning, driver, pages);
    ShownAscending(Views(pages), Answers(pages), Matches(q.scope, meaning), q.sorts, q.pins.pageSize);
    FollowedItems(q, ast, driver, pages);
  }

  /** Live traversal safety of wire queries, from compiled text to pages: whatever happens to
      the table between pages, every resumed compile is accepted, only matching rows of the
      scope are shown, their sort tuples strictly increase, and the items show those rows. */
  lemma {:induction false} WireTraversal(l: Layout, op: Operation, ctx: Context, settings: QuerySettings, plan: string,
                                         driver: Driver, pages: seq<Page>)
    requires ColumnsOk(l) && RolesOk(l) && WireAccepted(l, op, ctx, settings, plan)
    requires op.filter.Some? ==> WellBracketed(op.filter.value)
    requires Followed(WireQuery(l, op, ctx, settings, plan), driver, pages)
    requires TypedPages(WireQuery(l, op, ctx, settings, plan), pages)
    requires var q := WireQuery(l, op, ctx, settings, plan);
             AllOrderly(Views(pages), Matches(q.scope, WireMeaning(l, op.filter)), q.sorts)
    ensures TraversalOk(WireQuery(l, op, ctx, settings, plan), WireMeaning(l, op.filter), driver, pages)
  {
    hide Compiles, WellBracketed, WireWindowOk, Completed, WireOk, WireSelectOk, Followed, TypedPages, FilterMeans,
         OperandInBrackets, WirePredicate, WirePredicateAst, WireBindings, WireValue, AllOrderly, TraversalOk,
         CursorOk, WireSelected;
    WireParts(l, op, ctx, settings, plan);
    Traversed(WireQuery(l, op, ctx, settings, plan), WirePredicateAst(l, op.filter), WireMeaning(l, op.filter), driver,
              pages);
  }

  /** As WireTraversal, for mapping-first queries, whose filters need no hypothesis. */
  lemma {:induction false} MappingTraversal(l: Layout, operation: string, input: MappingInput, ctx: Context,
                                            settings: QuerySettings, plan: string, driver: Driver, pages: seq<Page>)
    requires ColumnsOk(l) && RolesOk(l) && MappingAccepted(l, operation, input, ctx, settings, plan)
    requires Followed(MappingQuery(l, operation, input, ctx, settings, plan), driver, pages)
    requires TypedPages(MappingQuery(l, operation, input, ctx, settings, plan), pages)
    requires var q := MappingQuery(l, operation, input, ctx, settings, plan);
             AllOrderly(Views(pages), Matches(q.scope, MappingMeaning(l, input.where)), q.sorts)
    ensures TraversalOk(MappingQuery(l, operation, input, ctx, settings, plan), MappingMeaning(l, input.where), driver,
                        pages)
  {
    hide MappingWindowOk, Completed, MappingOk, MappingSelectOk, Followed, TypedPages, FilterMeans, OperandInBrackets,
         WhereText, AllAtomBindings, Atoms, WhereAst, WhereValue, AllOrderly, TraversalOk, CursorOk, BoundsOf,
         MappingSelected;
    MappingParts(l, operation, input, ctx, settings, plan);
    Traversed(MappingQuery(l, operation, input, ctx, settings, plan), WhereAst(Atoms(l, input.where), 0),
              MappingMeaning(l, input.where), driver, pages);
  }
}
