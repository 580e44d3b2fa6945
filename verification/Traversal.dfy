/** Live keyset traversal: pages of one query over tables that change between pages. */
module Traversals {
  import opened Common
  import opened Rows
  import opened SqlCompilers
  import opened Keysets
  import opened Cursors

  type View = set<Row>

  ghost predicate Passes(row: Row, matches: Row -> bool, sorts: seq<Sort>, after: Option<seq<Value>>)
    requires after.Some? ==> |after.value| == |sorts|
  {
    matches(row) && (after.Some? ==> TupleBefore(after.value, TupleOf(row, sorts), sorts))
  }

  /** What ORDER BY and LIMIT promise about the rows that come back: selected rows of the
      view, in order, without repetition, and none left out before the limit is reached. */
  ghost predicate IsAnswer(view: View, matches: Row -> bool, sorts: seq<Sort>, limit: nat, after: Option<seq<Value>>,
                           answer: seq<Row>)
    requires after.Some? ==> |after.value| == |sorts|
  {
    && |answer| <= limit
    && (forall i :: 0 <= i < |answer| ==> answer[i] in view && Passes(answer[i], matches, sorts, after))
    && (forall i, j :: 0 <= i < j < |answer| ==>
          answer[i] != answer[j] && !TupleBefore(TupleOf(answer[j], sorts), TupleOf(answer[i], sorts), sorts))
    && (forall row :: row in view && Passes(row, matches, sorts, after) && row !in answer ==>
          |answer| == limit && forall i :: 0 <= i < |answer| ==>
            !TupleBefore(TupleOf(row, sorts), TupleOf(answer[i], sorts), sorts))
  }

  /** A view whose matching rows have comparable and pairwise distinct sort tuples. */
  ghost predicate Orderly(view: View, matches: Row -> bool, sorts: seq<Sort>) {
    && (forall row :: row in view && matches(row) ==> TypedTuple(sorts, TupleOf(row, sorts)))
    && (forall a, b :: a in view && b in view && matches(a) && matches(b) && TupleOf(a, sorts) == TupleOf(b, sorts) ==>
      a == b)
  }

  /** The rows shown of one answer. */
  function Shown(answer: seq<Row>, size: nat): (r: seq<Row>)
    ensures |r| == Visible(|answer|, size)
  {
    answer[..Visible(|answer|, size)]
  }

  /** The cursor tuple of page `i`: that of the last row shown on the page before. */
  ghost function AfterTuple(answers: seq<seq<Row>>, sorts: seq<Sort>, size: nat, i: nat): (r: Option<seq<Value>>)
    requires i <= |answers| && (i > 0 ==> |answers[i - 1]| > size > 0)
    ensures r.Some? ==> |r.value| == |sorts|
  {
    if i == 0 then None else Some(TupleOf(answers[i - 1][size - 1], sorts))
  }

  ghost predicate IsPage(views: seq<View>, answers: seq<seq<Row>>, matches: Row -> bool, sorts: seq<Sort>, size: nat,
                         i: nat)
    requires i < |views| == |answers| && size > 0 && (i > 0 ==> |answers[i - 1]| > size)
  {
    IsAnswer(views[i], matches, sorts, size + 1, AfterTuple(answers, sorts, size, i), answers[i])
  }

  /** A traversal: each page is an answer over its own view, and every page but the last had
      more rows than it shows. */
  ghost predicate IsRun(views: seq<View>, answers: seq<seq<Row>>, matches: Row -> bool, sorts: seq<Sort>, size: nat) {
    && |views| == |answers| > 0
    && size > 0
    && (forall i :: 0 <= i < |answers| - 1 ==> |answers[i]| > size)
    && (forall i :: 0 <= i < |answers| ==> IsPage(views, answers, matches, sorts, size, i))
  }

  ghost predicate Finished(answers: seq<seq<Row>>, size: nat) {
    answers != [] && |answers[|answers| - 1]| <= size
  }

  /** All rows shown, page after page. */
  function AllShown(answers: seq<seq<Row>>, size: nat): seq<Row> {
    if answers == [] then [] else AllShown(answers[..|answers| - 1], size) + Shown(answers[|answers| - 1], size)
  }

  ghost predicate Ascending(rows: seq<Row>, sorts: seq<Sort>) {
    forall i, j :: 0 <= i < j < |rows| ==> TupleBefore(TupleOf(rows[i], sorts), TupleOf(rows[j], sorts), sorts)
  }

  // ---- One page -------------------------------------------------------------

  /** Inside one answer the sort tuples strictly increase. */
  lemma {:induction false} AnswerAscending(view: View, matches: Row -> bool, sorts: seq<Sort>, limit: nat,
                                           after: Option<seq<Value>>, answer: seq<Row>)
    requires after.Some? ==> |after.value| == |sorts|
    requires Orderly(view, matches, sorts) && IsAnswer(view, matches, sorts, limit, after, answer)
    ensures Ascending(answer, sorts)
  {
    hide TupleOf, TypedTuple, TupleBefore;
    forall i, j | 0 <= i < j < |answer|
      ensures TupleBefore(TupleOf(answer[i], sorts), TupleOf(answer[j], sorts), sorts)
    {
      TypedSameKinds(sorts, TupleOf(answer[i], sorts), TupleOf(answer[j], sorts));
      TupleTotal(TupleOf(answer[i], sorts), TupleOf(answer[j], sorts), sorts);
    }
  }

  /** A passing row that an answer leaves out is after every row of a full answer. */
  lemma {:induction false} LeftOutIsAfter(view: View, matches: Row -> bool, sorts: seq<Sort>, limit: nat,
                                          after: Option<seq<Value>>, answer: seq<Row>, row: Row, i: nat)
    requires after.Some? ==> |after.value| == |sorts|
    requires Orderly(view, matches, sorts) && IsAnswer(view, matches, sorts, limit, after, answer)
    requires row in view && Passes(row, matches, sorts, after) && row !in answer && i < |answer|
    ensures TupleBefore(TupleOf(answer[i], sorts), TupleOf(row, sorts), sorts)
  {
    hide TupleOf, TypedTuple, TupleBefore;
    assert answer[i] in view && matches(answer[i]);
    TypedSameKinds(sorts, TupleOf(answer[i], sorts), TupleOf(row, sorts));
    TupleTotal(TupleOf(answer[i], sorts), TupleOf(row, sorts), sorts);
  }

  // ---- Order and absence of repetition --------------------------------------

  ghost predicate AllOrderly(views: seq<View>, matches: Row -> bool, sorts: seq<Sort>) {
    forall i :: 0 <= i < |views| ==> Orderly(views[i], matches, sorts)
  }

  lemma {:induction false} RunPrefix(views: seq<View>, answers: seq<seq<Row>>, matches: Row -> bool, sorts: seq<Sort>,
                                     size: nat)
    requires IsRun(views, answers, matches, sorts, size) && |answers| > 1
    ensures var n := |answers| - 1; IsRun(views[..n], answers[..n], matches, sorts, size)
  {
    hide IsAnswer;
    var n := |answers| - 1;
    forall i | 0 <= i < n ensures IsPage(views[..n], answers[..n], matches, sorts, size, i) {
      assert IsPage(views, answers, matches, sorts, size, i);
      assert AfterTuple(answers, sorts, size, i) == AfterTuple(answers[..n], sorts, size, i);
    }
  }

  lemma {:induction false} AscendingConcat(a: seq<Row>, b: seq<Row>, sorts: seq<Sort>)
    requires Ascending(a, sorts) && Ascending(b, sorts)
    requires a != [] ==> forall j :: 0 <= j < |b| ==>
             TupleBefore(TupleOf(a[|a| - 1], sorts), TupleOf(b[j], sorts), sorts)
    ensures Ascending(a + b, sorts)
  {
    hide TupleOf, TupleBefore;
    forall i, j | 0 <= i < j < |a + b|
      ensures TupleBefore(TupleOf((a + b)[i], sorts), TupleOf((a + b)[j], sorts), sorts)
    {
      if i < |a| <= j && i < |a| - 1 {
        TupleTransitive(TupleOf(a[i], sorts), TupleOf(a[|a| - 1], sorts), TupleOf(b[j - |a|], sorts), sorts);
      }
    }
  }

  lemma {:induction false} LastShown(answers: seq<seq<Row>>, size: nat)
    requires answers != [] && |answers[|answers| - 1]| > size > 0
    ensures AllShown(answers, size) != []
    ensures AllShown(answers, size)[|AllShown(answers, size)| - 1] == answers[|answers| - 1][size - 1]
  {}

  /** Live traversal safety: whatever happens to the table between pages, the sort tuples of
      the rows shown strictly increase over the whole run, so no row is shown twice. */
  lemma {:induction false} ShownAscending(views: seq<View>, answers: seq<seq<Row>>, matches: Row -> bool,
                                          sorts: seq<Sort>, size: nat)
    requires IsRun(views, answers, matches, sorts, size) && AllOrderly(views, matches, sorts)
    ensures Ascending(AllShown(answers, size), sorts)
    decreases |answers|
  {
    hide TupleOf, TupleBefore, Orderly;
    var n := |answers| - 1;
    var after := AfterTuple(answers, sorts, size, n);
    assert IsPage(views, answers, matches, sorts, size, n);
    AnswerAscending(views[n], matches, sorts, size + 1, after, answers[n]);
    var shown := Shown(answers[n], size);
    assert Ascending(shown, sorts);
    if n == 0 {
      assert AllShown(answers, size) == shown by { assert answers[..0] == []; }
    } else {
      RunPrefix(views, answers, matches, sorts, size);
      assert AllOrderly(views[..n], matches, sorts);
      ShownAscending(views[..n], answers[..n], matches, sorts, size);
      LastShown(answers[..n], size);
      AscendingConcat(AllShown(answers[..n], size), shown, sorts);
    }
  }

  // ---- Completeness ---------------------------------------------------------

  ghost predicate HasTuple(rows: seq<Row>, sorts: seq<Sort>, tuple: seq<Value>) {
    exists i :: 0 <= i < |rows| && TupleOf(rows[i], sorts) == tuple
  }

  ghost predicate PresentIn(view: View, matches: Row -> bool, sorts: seq<Sort>, tuple: seq<Value>) {
    exists row :: row in view && matches(row) && TupleOf(row, sorts) == tuple
  }

  /** Some matching row of every view has this sort tuple. */
  ghost predicate AlwaysPresent(views: seq<View>, matches: Row -> bool, sorts: seq<Sort>, tuple: seq<Value>) {
    forall i :: 0 <= i < |views| ==> PresentIn(views[i], matches, sorts, tuple)
  }

  lemma {:induction false} HasTupleConcat(a: seq<Row>, b: seq<Row>, sorts: seq<Sort>, tuple: seq<Value>)
    ensures HasTuple(a, sorts, tuple) || HasTuple(b, sorts, tuple) ==> HasTuple(a + b, sorts, tuple)
  {
    hide TupleOf;
    if HasTuple(a, sorts, tuple) {
      var i :| 0 <= i < |a| && TupleOf(a[i], sorts) == tuple;
      assert (a + b)[i] == a[i];
    }
    if HasTuple(b, sorts, tuple) {
      var i :| 0 <= i < |b| && TupleOf(b[i], sorts) == tuple;
      assert (a + b)[|a| + i] == b[i];
    }
  }

  /** On one page, a present tuple after the cursor is shown or is still after the next cursor;
      on the last page it is shown. */
  lemma {:induction false} PageShowsOrPostpones(view: View, matches: Row -> bool, sorts: seq<Sort>, size: nat,
                                                after: Option<seq<Value>>, answer: seq<Row>, tuple: seq<Value>)
    requires after.Some? ==> |after.value| == |sorts|
    requires size > 0 && Orderly(view, matches, sorts) && IsAnswer(view, matches, sorts, size + 1, after, answer)
    requires |tuple| == |sorts| && PresentIn(view, matches, sorts, tuple)
    requires after.Some? ==> TupleBefore(after.value, tuple, sorts)
    ensures HasTuple(Shown(answer, size), sorts, tuple)
            || (|answer| > size && TupleBefore(TupleOf(answer[size - 1], sorts), tuple, sorts))
  {
    hide TupleOf, TupleBefore, Orderly;
    var row :| row in view && matches(row) && TupleOf(row, sorts) == tuple;
    if row in answer {
      var k :| 0 <= k < |answer| && answer[k] == row;
      if k < size {
        assert Shown(answer, size)[k] == row;
      } else {
        AnswerAscending(view, matches, sorts, size + 1, after, answer);
      }
    } else {
      assert |answer| == size + 1;
      LeftOutIsAfter(view, matches, sorts, size + 1, after, answer, row, size - 1);
    }
  }

  lemma {:induction false} ShowsOrPostpones(views: seq<View>, answers: seq<seq<Row>>, matches: Row -> bool,
                                            sorts: seq<Sort>, size: nat, tuple: seq<Value>)
    requires IsRun(views, answers, matches, sorts, size) && AllOrderly(views, matches, sorts)
    requires |tuple| == |sorts| && AlwaysPresent(views, matches, sorts, tuple)
    ensures HasTuple(AllShown(answers, size), sorts, tuple)
            || (var last := answers[|answers| - 1];
                |last| > size && TupleBefore(TupleOf(last[size - 1], sorts), tuple, sorts))
    decreases |answers|
  {
    hide TupleOf, TupleBefore, Orderly, PresentIn, IsAnswer, HasTuple;
    var n := |answers| - 1;
    var earlier := answers[..n];
    if n > 0 {
      RunPrefix(views, answers, matches, sorts, size);
      ShowsOrPostpones(views[..n], earlier, matches, sorts, size, tuple);
    }
    HasTupleConcat(AllShown(earlier, size), Shown(answers[n], size), sorts, tuple);
    if !HasTuple(AllShown(earlier, size), sorts, tuple) {
      assert IsPage(views, answers, matches, sorts, size, n);
      PageShowsOrPostpones(views[n], matches, sorts, size, AfterTuple(answers, sorts, size, n), answers[n], tuple);
    }
  }

  /** The positions at which a tuple is shown. */
  function Positions(rows: seq<Row>, sorts: seq<Sort>, tuple: seq<Value>): set<nat> {
    set i: nat | i < |rows| && TupleOf(rows[i], sorts) == tuple
  }

  lemma {:induction false} LessIrreflexive(v: Value)
    ensures !Less(v, v)
  {
    if v.StrV? { TextTrichotomy(v.text, v.text); }
  }

  lemma {:induction false} BeforeIrreflexive(t: seq<Value>, sorts: seq<Sort>)
    requires |t| == |sorts|
    ensures !TupleBefore(t, t, sorts)
  {
    if sorts != [] {
      BeforeIrreflexive(t[1..], sorts[1..]);
      LessIrreflexive(t[0]);
    }
  }

  /** Live traversal completeness: a tuple that a matching row carries in every view of a
      finished traversal is shown exactly once. */
  lemma {:induction false} PresentShownOnce(views: seq<View>, answers: seq<seq<Row>>, matches: Row -> bool,
                                            sorts: seq<Sort>, size: nat, tuple: seq<Value>)
    requires IsRun(views, answers, matches, sorts, size) && AllOrderly(views, matches, sorts)
    requires Finished(answers, size)
    requires |tuple| == |sorts| && AlwaysPresent(views, matches, sorts, tuple)
    ensures exists i: nat :: Positions(AllShown(answers, size), sorts, tuple) == {i}
  {
    hide TupleOf, TupleBefore, Orderly, IsAnswer, AlwaysPresent;
    ShowsOrPostpones(views, answers, matches, sorts, size, tuple);
    ShownAscending(views, answers, matches, sorts, size);
    var shown := AllShown(answers, size);
    var i :| 0 <= i < |shown| && TupleOf(shown[i], sorts) == tuple;
    forall j: nat | j in Positions(shown, sorts, tuple) ensures j == i {
      if j != i {
        BeforeIrreflexive(tuple, sorts);
      }
    }
    assert Positions(shown, sorts, tuple) == {i};
  }

  /** Every row shown is a matching row of the view of its page. */
  lemma {:induction false} ShownMatches(views: seq<View>, answers: seq<seq<Row>>, matches: Row -> bool,
                                        sorts: seq<Sort>, size: nat, k: nat)
    requires IsRun(views, answers, matches, sorts, size) && k < |AllShown(answers, size)|
    ensures exists i ::
            0 <= i < |views| && AllShown(answers, size)[k] in views[i] && matches(AllShown(answers, size)[k])
    decreases |answers|
  {
    hide TupleOf, TupleBefore;
    var n := |answers| - 1;
    var before := |AllShown(answers[..n], size)|;
    assert n == 0 ==> answers[..n] == [];
    if k < before {
      RunPrefix(views, answers, matches, sorts, size);
      ShownMatches(views[..n], answers[..n], matches, sorts, size, k);
      var row := AllShown(answers, size)[k];
      var i :| 0 <= i < n && row in views[..n][i] && matches(row);
      assert row in views[i];
    } else {
      assert IsPage(views, answers, matches, sorts, size, n);
      assert AllShown(answers, size)[k] == answers[n][k - before];
      assert AllShown(answers, size)[k] in views[n];
    }
  }

  // ---- A table that does not change -----------------------------------------

  /** The rows of a view that match. */
  ghost function Matching(view: View, matches: Row -> bool): set<Row> {
    set row | row in view && matches(row)
  }

  ghost predicate Unchanging(views: seq<View>, view: View) {
    forall i :: 0 <= i < |views| ==> views[i] == view
  }

  lemma {:induction false} SameEmptiness(a: seq<Row>, b: seq<Row>)
    requires forall row :: row in a <==> row in b
    ensures a == [] <==> b == []
  {
    assert a != [] ==> a[0] in b;
    assert b != [] ==> b[0] in a;
  }

  lemma {:induction false} TailMembers(a: seq<Row>, sorts: seq<Sort>, row: Row)
    requires Ascending(a, sorts) && a != []
    ensures row in a[1..] <==> row in a && row != a[0]
  {
    hide TupleBefore, TupleOf;
    BeforeIrreflexive(TupleOf(a[0], sorts), sorts);
    assert a == [a[0]] + a[1..];
    if row in a[1..] {
      var i :| 0 <= i < |a| - 1 && a[1..][i] == row;
      assert a[i + 1] == row;
    }
  }

  lemma {:induction false} TupleAsymmetric(a: seq<Value>, b: seq<Value>, sorts: seq<Sort>)
    requires |a| == |b| == |sorts|
    ensures !(TupleBefore(a, b, sorts) && TupleBefore(b, a, sorts))
  {
    if TupleBefore(a, b, sorts) && TupleBefore(b, a, sorts) {
      TupleTransitive(a, b, a, sorts);
      BeforeIrreflexive(a, sorts);
    }
  }

  /** A strictly ascending listing of a set of rows is unique. */
  lemma {:induction false} AscendingUnique(a: seq<Row>, b: seq<Row>, sorts: seq<Sort>)
    requires Ascending(a, sorts) && Ascending(b, sorts)
    requires forall row :: row in a <==> row in b
    ensures a == b
    decreases |a|
  {
    hide TupleBefore, TupleOf;
    SameEmptiness(a, b);
    if a != [] {
      assert a[0] in b && b[0] in a;
      if a[0] != b[0] {
        TupleAsymmetric(TupleOf(a[0], sorts), TupleOf(b[0], sorts), sorts);
      }
      forall row ensures row in a[1..] <==> row in b[1..] {
        TailMembers(a, sorts, row);
        TailMembers(b, sorts, row);
      }
      AscendingUnique(a[1..], b[1..], sorts);
      assert a == [a[0]] + a[1..] && b == [b[0]] + b[1..];
    }
  }

  lemma {:induction false} MatchingShown(views: seq<View>, answers: seq<seq<Row>>, matches: Row -> bool,
                                         sorts: seq<Sort>, size: nat, view: View, row: Row)
    requires IsRun(views, answers, matches, sorts, size) && Finished(answers, size)
    requires Unchanging(views, view) && Orderly(view, matches, sorts)
    requires row in view && matches(row)
    ensures row in AllShown(answers, size)
  {
    hide IsAnswer, TupleBefore, TupleOf, TypedTuple;
    var shown, tuple := AllShown(answers, size), TupleOf(row, sorts);
    assert forall i :: 0 <= i < |views| ==> PresentIn(views[i], matches, sorts, tuple);
    PresentShownOnce(views, answers, matches, sorts, size, tuple);
    var i: nat :| Positions(shown, sorts, tuple) == {i};
    assert i in Positions(shown, sorts, tuple);
    ShownMatches(views, answers, matches, sorts, size, i);
  }

  /** A finished traversal of an unchanging table shows exactly the matching rows, in the
      order of ORDER BY: any ascending listing of them is the concatenation of the pages. */
  lemma {:induction false} StaticTraversalExact(views: seq<View>, answers: seq<seq<Row>>, matches: Row -> bool,
                                                sorts: seq<Sort>, size: nat, view: View, listing: seq<Row>)
    requires IsRun(views, answers, matches, sorts, size) && Finished(answers, size)
    requires Unchanging(views, view) && Orderly(view, matches, sorts)
    requires Ascending(listing, sorts) && forall row :: row in listing <==> row in Matching(view, matches)
    ensures AllShown(answers, size) == listing
  {
    hide IsAnswer, TupleBefore, Orderly, TupleOf;
    var shown := AllShown(answers, size);
    assert AllOrderly(views, matches, sorts);
    ShownAscending(views, answers, matches, sorts, size);
    forall row ensures row in shown <==> row in listing {
      if row in shown {
        var k :| 0 <= k < |shown| && shown[k] == row;
        ShownMatches(views, answers, matches, sorts, size, k);
      }
      if row in Matching(view, matches) {
        MatchingShown(views, answers, matches, sorts, size, view, row);
      }
    }
    AscendingUnique(shown, listing, sorts);
  }

  lemma {:induction false} ShownLength(answers: seq<seq<Row>>, size: nat)
    requires answers != [] && forall i :: 0 <= i < |answers| - 1 ==> |answers[i]| > size
    ensures |AllShown(answers, size)| == size * (|answers| - 1) + Visible(|answers[|answers| - 1]|, size)
    decreases |answers|
  {
    var n := |answers| - 1;
    if n > 0 {
      ShownLength(answers[..n], size);
    } else {
      assert answers[..0] == [];
    }
  }

  /** On an unchanging table, a page after a full one is never empty. */
  lemma {:induction false} NextPageNonEmpty(views: seq<View>, answers: seq<seq<Row>>, matches: Row -> bool,
                                            sorts: seq<Sort>, size: nat, view: View)
    requires IsRun(views, answers, matches, sorts, size) && |answers| > 1
    requires Unchanging(views, view) && Orderly(view, matches, sorts)
    ensures answers[|answers| - 1] != []
  {
    hide TupleBefore, TupleOf, Orderly;
    var n := |answers| - 1;
    var row := answers[n - 1][size];
    assert IsPage(views, answers, matches, sorts, size, n - 1);
    AnswerAscending(view, matches, sorts, size + 1, AfterTuple(answers, sorts, size, n - 1), answers[n - 1]);
    assert IsPage(views, answers, matches, sorts, size, n);
    assert Passes(row, matches, sorts, AfterTuple(answers, sorts, size, n));
    assert row in views[n];
  }

  /** The number of pages that `count` rows need: one for none, else rounded up. */
  function PageCount(count: nat, size: nat): nat
    requires size > 0
  {
    if count == 0 then 1 else (count + size - 1) / size
  }

  lemma {:induction false} MultiplyOrder(d: nat, a: nat, b: nat)
    requires a <= b
    ensures d * a <= d * b
  {}

  lemma {:induction false} DivideExact(x: nat, d: nat, q: nat, r: nat)
    requires d > 0 && x == d * q + r && r < d
    ensures x / d == q
  {
    if x / d < q { assert d * (x / d + 1) <= d * q by { MultiplyOrder(d, x / d + 1, q); } }
    if x / d > q { assert d * (q + 1) <= d * (x / d) by { MultiplyOrder(d, q + 1, x / d); } }
  }

  lemma {:induction false} Quotient(count: nat, size: nat, pages: nat, rest: nat)
    requires size > 0 && count == size * pages + rest && 0 < rest <= size
    ensures (count + size - 1) / size == pages + 1
  {
    var x := count + size - 1;
    assert x == size * (pages + 1) + (rest - 1);
    assert x / size == pages + 1 by { DivideExact(x, size, pages + 1, rest - 1); }
  }

  lemma {:induction false} AscendingSize(a: seq<Row>, sorts: seq<Sort>)
    requires Ascending(a, sorts)
    ensures |set row | row in a| == |a|
  {
    hide TupleBefore, TupleOf;
    if a != [] {
      AscendingSize(a[1..], sorts);
      TailMembers(a, sorts, a[0]);
      assert (set row | row in a) == {a[0]} + (set row | row in a[1..]) by { assert a == [a[0]] + a[1..]; }
    }
  }

  lemma {:induction false} SubsetSize<T>(a: set<T>, b: set<T>)
    requires a <= b
    ensures |a| <= |b|
  {
    assert b == a + (b - a);
  }

  lemma {:induction false} AscendingSubset(a: seq<Row>, b: seq<Row>, sorts: seq<Sort>)
    requires Ascending(a, sorts) && Ascending(b, sorts)
    requires forall row :: row in a ==> row in b
    ensures |a| <= |b|
  {
    hide TupleBefore, TupleOf;
    AscendingSize(a, sorts);
    AscendingSize(b, sorts);
    SubsetSize((set row | row in a), (set row | row in b));
  }

  lemma {:induction false} UnfinishedShowsLess(views: seq<View>, answers: seq<seq<Row>>, matches: Row -> bool,
                                               sorts: seq<Sort>, size: nat, view: View, listing: seq<Row>)
    requires IsRun(views, answers, matches, sorts, size) && !Finished(answers, size)
    requires Unchanging(views, view) && Orderly(view, matches, sorts)
    requires Ascending(listing, sorts) && forall row :: row in listing <==> row in Matching(view, matches)
    ensures |AllShown(answers, size)| < |listing|
  {
    hide TupleBefore, Orderly, TupleOf;
    var n := |answers| - 1;
    var shown := AllShown(answers, size);
    var extra := answers[n][size];
    assert AllOrderly(views, matches, sorts);
    ShownAscending(views, answers, matches, sorts, size);
    assert IsPage(views, answers, matches, sorts, size, n);
    AnswerAscending(view, matches, sorts, size + 1, AfterTuple(answers, sorts, size, n), answers[n]);
    LastShown(answers, size);
    AscendingConcat(shown, [extra], sorts);
    var longer := shown + [extra];
    forall row | row in longer ensures row in listing {
      if row in shown {
        var k :| 0 <= k < |shown| && shown[k] == row;
        ShownMatches(views, answers, matches, sorts, size, k);
      }
    }
    AscendingSubset(longer, listing, sorts);
  }

  /** A finished traversal of an unchanging table takes exactly as many pages as its matching
      rows need; an unfinished one has not shown them all, so it cannot go on for ever. */
  lemma {:induction false} StaticTraversalEnds(views: seq<View>, answers: seq<seq<Row>>, matches: Row -> bool,
                                               sorts: seq<Sort>, size: nat, view: View, listing: seq<Row>)
    requires IsRun(views, answers, matches, sorts, size)
    requires Unchanging(views, view) && Orderly(view, matches, sorts)
    requires Ascending(listing, sorts) && forall row :: row in listing <==> row in Matching(view, matches)
    ensures Finished(answers, size) ==> |answers| == PageCount(|listing|, size)
    ensures !Finished(answers, size) ==> |answers| * size < |listing|
  {
    hide IsAnswer, TupleBefore, Orderly, TupleOf;
    ShownLength(answers, size);
    var last := |answers[|answers| - 1]|;
    if |answers| > 1 { NextPageNonEmpty(views, answers, matches, sorts, size, view); }
    if Finished(answers, size) {
      StaticTraversalExact(views, answers, matches, sorts, size, view, listing);
      if last == 0 {
        assert |listing| == 0;
      } else {
        Quotient(|listing|, size, |answers| - 1, last);
      }
    } else {
      UnfinishedShowsLess(views, answers, matches, sorts, size, view, listing);
      assert size * (|answers| - 1) + size == |answers| * size;
    }
  }

  // ---- Answers and listings exist -------------------------------------------

  /** A row put in its place in an ascending listing. */
  ghost function Inserted(listing: seq<Row>, row: Row, sorts: seq<Sort>): seq<Row> {
    if listing == [] then [row]
    else if TupleBefore(TupleOf(row, sorts), TupleOf(listing[0], sorts), sorts) then [row] + listing
    else [listing[0]] + Inserted(listing[1..], row, sorts)
  }

  /** Comparable with a row of another tuple. */
  ghost predicate Comparable(a: Row, b: Row, sorts: seq<Sort>) {
    SameKinds(TupleOf(a, sorts), TupleOf(b, sorts)) && TupleOf(a, sorts) != TupleOf(b, sorts)
  }

  lemma {:induction false} InsertedMembers(listing: seq<Row>, row: Row, sorts: seq<Sort>, other: Row)
    ensures other in Inserted(listing, row, sorts) <==> other == row || other in listing
  {
    hide TupleBefore, TupleOf;
    if listing != [] {
      InsertedMembers(listing[1..], row, sorts, other);
      assert listing == [listing[0]] + listing[1..];
    }
  }

  lemma {:induction false} AscendingCons(first: Row, rest: seq<Row>, sorts: seq<Sort>)
    requires Ascending(rest, sorts)
    requires forall row :: row in rest ==> TupleBefore(TupleOf(first, sorts), TupleOf(row, sorts), sorts)
    ensures Ascending([first] + rest, sorts)
  {
    hide TupleBefore, TupleOf;
    forall i, j | 0 <= i < j < |[first] + rest|
      ensures TupleBefore(TupleOf(([first] + rest)[i], sorts), TupleOf(([first] + rest)[j], sorts), sorts)
    {
      assert ([first] + rest)[j] == rest[j - 1];
      if i > 0 { assert ([first] + rest)[i] == rest[i - 1]; }
    }
  }

  lemma {:induction false} InsertedAscending(listing: seq<Row>, row: Row, sorts: seq<Sort>)
    requires Ascending(listing, sorts) && forall other :: other in listing ==> Comparable(row, other, sorts)
    ensures Ascending(Inserted(listing, row, sorts), sorts)
  {
    hide TupleBefore, TupleOf;
    if listing == [] {
    } else if TupleBefore(TupleOf(row, sorts), TupleOf(listing[0], sorts), sorts) {
      forall other | other in listing ensures TupleBefore(TupleOf(row, sorts), TupleOf(other, sorts), sorts) {
        if other != listing[0] {
          var j :| 0 < j < |listing| && listing[j] == other;
          TupleTransitive(TupleOf(row, sorts), TupleOf(listing[0], sorts), TupleOf(other, sorts), sorts);
        }
      }
      AscendingCons(row, listing, sorts);
    } else {
      var rest := Inserted(listing[1..], row, sorts);
      InsertedAscending(listing[1..], row, sorts);
      assert Comparable(row, listing[0], sorts);
      TupleTotal(TupleOf(row, sorts), TupleOf(listing[0], sorts), sorts);
      forall other | other in rest ensures TupleBefore(TupleOf(listing[0], sorts), TupleOf(other, sorts), sorts) {
        InsertedMembers(listing[1..], row, sorts, other);
        if other != row {
          var j :| 0 <= j < |listing| - 1 && listing[1..][j] == other;
          assert listing[j + 1] == other;
        }
      }
      AscendingCons(listing[0], rest, sorts);
    }
  }

  /** Any finite set of rows with comparable, pairwise distinct tuples has an ascending listing. */
  lemma {:induction false} ListingExists(rows: set<Row>, sorts: seq<Sort>) returns (listing: seq<Row>)
    requires forall a, b :: a in rows && b in rows && a != b ==> Comparable(a, b, sorts)
    ensures Ascending(listing, sorts) && forall row :: row in listing <==> row in rows
  {
    hide TupleBefore, TupleOf, Comparable;
    if rows == {} {
      listing := [];
    } else {
      var row :| row in rows;
      var rest := ListingExists(rows - {row}, sorts);
      listing := Inserted(rest, row, sorts);
      InsertedAscending(rest, row, sorts);
      forall other ensures other in listing <==> other in rows { InsertedMembers(rest, row, sorts, other); }
    }
  }

  lemma {:induction false} OrderlyListing(view: View, matches: Row -> bool, sorts: seq<Sort>)
    returns (listing: seq<Row>)
    requires Orderly(view, matches, sorts)
    ensures Ascending(listing, sorts) && forall row :: row in listing <==> row in Matching(view, matches)
  {
    hide TupleBefore, TupleOf, TypedTuple;
    forall a, b | a in Matching(view, matches) && b in Matching(view, matches) && a != b
      ensures Comparable(a, b, sorts) {
      TypedSameKinds(sorts, TupleOf(a, sorts), TupleOf(b, sorts));
    }
    listing := ListingExists(Matching(view, matches), sorts);
  }

  lemma {:induction false} PassingOrderly(view: View, matches: Row -> bool, sorts: seq<Sort>,
                                          after: Option<seq<Value>>, passes: Row -> bool)
    requires after.Some? ==> |after.value| == |sorts|
    requires Orderly(view, matches, sorts) && forall row :: passes(row) <==> Passes(row, matches, sorts, after)
    ensures Orderly(view, passes, sorts)
  {
    hide TupleBefore, TupleOf, TypedTuple;
  }

  /** The engine can answer every query over an orderly view. */
  lemma {:induction false} AnswerExists(view: View, matches: Row -> bool, sorts: seq<Sort>, limit: nat,
                                        after: Option<seq<Value>>)
    returns (answer: seq<Row>)
    requires after.Some? ==> |after.value| == |sorts|
    requires Orderly(view, matches, sorts)
    ensures IsAnswer(view, matches, sorts, limit, after, answer)
  {
    hide TupleBefore, TupleOf, TypedTuple, Passes;
    var passes := row => Passes(row, matches, sorts, after);
    PassingOrderly(view, matches, sorts, after, passes);
    var listing := OrderlyListing(view, passes, sorts);
    var n := if |listing| <= limit then |listing| else limit;
    answer := listing[..n];
    forall i, j | 0 <= i < j < |listing|
      ensures !TupleBefore(TupleOf(listing[j], sorts), TupleOf(listing[i], sorts), sorts)
    {
      TupleAsymmetric(TupleOf(listing[i], sorts), TupleOf(listing[j], sorts), sorts);
    }
    forall i, j | 0 <= i < j < |listing| ensures listing[i] != listing[j] {
      BeforeIrreflexive(TupleOf(listing[i], sorts), sorts);
    }
    forall i | 0 <= i < |answer| ensures answer[i] in view && Passes(answer[i], matches, sorts, after) {
      assert answer[i] in listing;
    }
    forall row | row in view && Passes(row, matches, sorts, after) && row !in answer
      ensures |answer| == limit
      ensures forall i :: 0 <= i < |answer| ==> !TupleBefore(TupleOf(row, sorts), TupleOf(answer[i], sorts), sorts)
    {
      assert row in Matching(view, passes);
      assert listing == answer + listing[n..];
      var k :| 0 <= k < |listing[n..]| && listing[n..][k] == row;
      assert listing[n + k] == row;
    }
  }
}
