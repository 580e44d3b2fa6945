/** The bounded time window that every scan must carry. */
module Windows {
  import opened Common
  import opened Rows
  import opened Sorting
  import opened Layouts
  import opened Filters
  import opened MappingFirst
  import opened MappingReading
  import opened Timestamps

  // ---- Checks ---------------------------------------------------------------

  /** `_timestamp_ranges`: fully bounded ranges on the timestamp, through and- and or-nodes. */
  function Ranges(e: Filter, field: string): seq<(Json, Json)>
    decreases e
  {
    match e
    case TimestampRange(operand, start, end, _, _) =>
      if operand.Field? && operand.name == field && start.Some? && start.value.Literal? && end.Some?
          && end.value.Literal?
      then [(start.value.value, end.value.value)] else []
    case Boolean(_, operands) => AllRanges(operands, field)
    case _ => []
  }

  function AllRanges(es: seq<Filter>, field: string): seq<(Json, Json)>
    decreases es
  {
    if es == [] then [] else Ranges(es[0], field) + AllRanges(es[1..], field)
  }

  lemma {:induction false} RangesAppend(a: seq<Filter>, b: seq<Filter>, field: string)
    ensures AllRanges(a + b, field) == AllRanges(a, field) + AllRanges(b, field)
  {
    hide Ranges;
    if a == [] {
      assert a + b == b;
    } else {
      assert (a + b)[1..] == a[1..] + b;
      RangesAppend(a[1..], b, field);
    }
  }

  /** What is counted: every range on the field between two literals, whatever they are, in the
      order in which such ranges stand below connectives; ranges of any other form and all other
      nodes count nothing. */
  lemma {:induction false} CountedRanges(e: Filter, op: string, a: seq<Filter>, b: seq<Filter>, field: string)
    ensures Ranges(Boolean(op, []), field) == [] && Ranges(Boolean(op, [e]), field) == Ranges(e, field)
    ensures Ranges(Boolean(op, a + b), field) == Ranges(Boolean(op, a), field) + Ranges(Boolean(op, b), field)
    ensures !e.TimestampRange? && !e.Boolean? ==> Ranges(e, field) == []
    ensures e.TimestampRange? ==>
      if e.operand.Field? && e.operand.name == field && e.start.Some? && e.start.value.Literal? && e.end.Some?
         && e.end.value.Literal?
      then Ranges(e, field) == [(e.start.value.value, e.end.value.value)]
      else Ranges(e, field) == []
  {
    assert [e][1..] == [];
    RangesAppend(a, b, field);
  }

  function TicksOf(j: Json): Result<int> {
    if j.JStr? then TimestampNanoseconds(j.text) else Err(BadType)
  }

  /** `_validate_range`, in exact nanoseconds. */
  predicate RangeOk(start: Json, end: Json, maxSeconds: nat) {
    && TicksOf(start).Ok? && TicksOf(end).Ok?
    && 0 < TicksOf(end).value - TicksOf(start).value <= maxSeconds * 1_000_000_000
  }

  /** `_require_bounded_time_range`: gets are exempt. */
  predicate WireWindowOk(operation: string, filter: Option<Filter>, l: Layout, maxSeconds: nat) {
    operation == "get" ||
    (var ranges := if filter.Some? then Ranges(filter.value, l.timestampField) else [];
     |ranges| == 1 && RangeOk(ranges[0].0, ranges[0].1, maxSeconds))
  }

  /** `_validate_simple_bounds`, for queries and aggregates. */
  predicate MappingWindowOk(operation: string, bounds: map<string, (Json, Json)>, l: Layout, maxSeconds: nat) {
    operation !in {"query", "aggregate"} ||
    (l.timestampField in bounds &&
     (var (start, end) := bounds[l.timestampField];
      !start.JNull? && !end.JNull? && RangeOk(start, end, maxSeconds)))
  }

  /** The value is the text of an instant. */
  predicate IsInstant(j: Json, ticks: int) { j.JStr? && TimestampNanoseconds(j.text) == Ok(ticks) }

  /** Two instants, the second later by no more than the limit. */
  ghost predicate BoundedRange(start: Json, end: Json, maxSeconds: nat) {
    exists a, b :: IsInstant(start, a) && IsInstant(end, b) && a < b <= a + maxSeconds * 1_000_000_000
  }

  method ValidateRange(start: Json, end: Json, maxSeconds: nat) returns (ok: bool)
    ensures ok <==> RangeOk(start, end, maxSeconds)
    ensures ok <==> BoundedRange(start, end, maxSeconds)
  {
    hide TimestampNanoseconds;
    if !start.JStr? || !end.JStr? { return false; }
    var upper := TimestampNanoseconds(end.text);
    var lower := TimestampNanoseconds(start.text);
    if upper.Err? || lower.Err? { return false; }
    var nanoseconds := upper.value - lower.value;
    if nanoseconds <= 0 || nanoseconds > maxSeconds * 1_000_000_000 { return false; }
    assert IsInstant(start, lower.value) && IsInstant(end, upper.value);
    return true;
  }

  /** `_require_bounded_time_range`. */
  method RequireWireWindow(operation: string, filter: Option<Filter>, l: Layout, maxSeconds: nat) returns (ok: bool)
    ensures ok <==> WireWindowOk(operation, filter, l, maxSeconds)
    ensures operation == "get" ==> ok
    ensures operation != "get" ==> (ok <==> && filter.Some?
                                            && var found := Ranges(filter.value, l.timestampField);
                                               |found| == 1 && BoundedRange(found[0].0, found[0].1, maxSeconds))
  {
    hide Ranges, RangeOk, BoundedRange;
    if operation == "get" { return true; }
    if filter.None? { return false; }
    var ranges := Ranges(filter.value, l.timestampField);
    if |ranges| != 1 { return false; }
    ok := ValidateRange(ranges[0].0, ranges[0].1, maxSeconds);
  }

  /** `_validate_simple_bounds`; a bound that was not given is null. */
  method RequireMappingWindow(operation: string, bounds: map<string, (Json, Json)>, l: Layout, maxSeconds: nat)
    returns (ok: bool)
    ensures ok <==> MappingWindowOk(operation, bounds, l, maxSeconds)
    ensures operation != "query" && operation != "aggregate" ==> ok
    ensures operation == "query" || operation == "aggregate" ==>
      (ok <==> && l.timestampField in bounds
               && BoundedRange(bounds[l.timestampField].0, bounds[l.timestampField].1, maxSeconds))
  {
    hide RangeOk;
    if operation != "query" && operation != "aggregate" { return true; }
    if l.timestampField !in bounds { return false; }
    var (start, end) := bounds[l.timestampField];
    if start == JNull || end == JNull { return false; }
    ok := ValidateRange(start, end, maxSeconds);
  }

  // ---- What the checks guarantee --------------------------------------------

  /** The timestamp role is on a plain nanosecond timestamp column. */
  predicate TimestampTyped(l: Layout) {
    l.ColumnOf(l.timestampField).Some? && l.ColumnOf(l.timestampField).value.ctype == TIMESTAMP_TYPE
  }

  /** The row's timestamp lies between two instants, both included. */
  predicate Within(l: Layout, row: Row, start: Json, end: Json)
    requires l.timestampField in l.Names()
    requires TicksOf(start).Ok? && TicksOf(end).Ok?
  {
    var v := Cell(row, l.Physical(l.timestampField));
    v.TimeV? && TicksOf(start).value <= v.ticks <= TicksOf(end).value
  }

  lemma {:induction false} TimestampParameterType()
    ensures ParameterType(TIMESTAMP_TYPE) == TIMESTAMP_TYPE && "DateTime" <= TIMESTAMP_TYPE
  {
    assert TIMESTAMP_TYPE[0] != 'N' && TIMESTAMP_TYPE[0] != 'L';
    assert "Nullable("[0] == 'N' && "LowCardinality("[0] == 'L';
    assert TIMESTAMP_TYPE[..8] == "DateTime";
  }

  lemma {:induction false} InstantLiteral(j: Json)
    requires TicksOf(j).Ok?
    ensures LiteralMeaning(j, TIMESTAMP_TYPE) == TimeV(TicksOf(j).value)
  {
    TimestampParameterType();
  }

  /** A true comparison with an instant bounds the value. */
  lemma {:induction false} TrueComparison(op: CompareOp, v: Value, ticks: int)
    requires True(Compare(op, v, TimeV(ticks)))
    ensures op in {Ge, Gt} ==> v.TimeV? && v.ticks >= ticks
    ensures op in {Le, Lt} ==> v.TimeV? && v.ticks <= ticks
  {}

  lemma {:induction false} TrueRange(v: Value, start: Filter, end: Filter, includeStart: bool, includeEnd: bool)
    requires start.Literal? && end.Literal? && TicksOf(start.value).Ok? && TicksOf(end.value).Ok?
    requires BoundOk(Some(start), TIMESTAMP_TYPE) && BoundOk(Some(end), TIMESTAMP_TYPE)
    requires True(RangeMeaning(v, TIMESTAMP_TYPE, Some(start), Some(end), includeStart, includeEnd))
    ensures v.TimeV? && TicksOf(start.value).value <= v.ticks <= TicksOf(end.value).value
  {
    hide Compare, LiteralMeaning, TicksOf, BoundOk;
    InstantLiteral(start.value);
    InstantLiteral(end.value);
    TrueComparison(if includeStart then Ge else Gt, v, TicksOf(start.value).value);
    TrueComparison(if includeEnd then Le else Lt, v, TicksOf(end.value).value);
  }

  /** No or-node has a counted range below it. */
  predicate OnlyAndAbove(e: Filter, field: string)
    decreases e
  {
    match e
    case Boolean(op, operands) => (op == "and" || AllRanges(operands, field) == []) && AllOnlyAnd(operands, field)
    case _ => true
  }

  predicate AllOnlyAnd(es: seq<Filter>, field: string)
    decreases es
  {
    es == [] || (OnlyAndAbove(es[0], field) && AllOnlyAnd(es[1..], field))
  }

  lemma {:induction false} RangeOperand(l: Layout, e: Filter, row: Row)
    requires TimestampTyped(l) && Compiles(l, e) && e.TimestampRange? && e.operand.Field?
             && e.operand.name == l.timestampField
    ensures OperandType(l, e.operand) == Some(TIMESTAMP_TYPE)
    ensures Meaning(l, e.operand, row) == Cell(row, l.Physical(l.timestampField))
    ensures BoundOk(e.start, TIMESTAMP_TYPE) && BoundOk(e.end, TIMESTAMP_TYPE)
    ensures Meaning(l, e, row)
         == RangeMeaning(Cell(row, l.Physical(l.timestampField)), TIMESTAMP_TYPE, e.start, e.end, e.includeStart,
                         e.includeEnd)
  {
    hide RangeMeaning, BoundOk;
  }

  /** Under and-nodes only, a row that the filter matches lies inside every counted range. */
  lemma {:induction false} MatchedWithinRange(l: Layout, e: Filter, row: Row, i: nat)
    requires TimestampTyped(l) && Compiles(l, e)
    requires OnlyAndAbove(e, l.timestampField) && i < |Ranges(e, l.timestampField)|
    requires var (start, end) := Ranges(e, l.timestampField)[i]; TicksOf(start).Ok? && TicksOf(end).Ok?
    requires True(Meaning(l, e, row))
    ensures var (start, end) := Ranges(e, l.timestampField)[i]; Within(l, row, start, end)
    decreases e, 1
  {
    hide RangeMeaning, TicksOf;
    match e
    case TimestampRange(operand, start, end, includeStart, includeEnd) =>
      RangeOperand(l, e, row);
      TrueRange(Meaning(l, operand, row), start.value, end.value, includeStart, includeEnd);
    case Boolean(op, operands) =>
      var values := AllMeanings(l, operands, row);
      ConjunctionTruth(values[0], values[1..]);
      assert values == [values[0]] + values[1..];
      MatchedWithinOperands(l, operands, row, i);
    case _ =>
  }

  lemma {:induction false} MatchedWithinOperands(l: Layout, es: seq<Filter>, row: Row, i: nat)
    requires TimestampTyped(l) && AllCompile(l, es)
    requires AllOnlyAnd(es, l.timestampField) && i < |AllRanges(es, l.timestampField)|
    requires var (start, end) := AllRanges(es, l.timestampField)[i]; TicksOf(start).Ok? && TicksOf(end).Ok?
    requires forall k :: 0 <= k < |es| ==> True(AllMeanings(l, es, row)[k])
    ensures var (start, end) := AllRanges(es, l.timestampField)[i]; Within(l, row, start, end)
    decreases es, 0
  {
    hide TicksOf, Compiles, Meaning, OnlyAndAbove, Ranges, Within;
    var first := Ranges(es[0], l.timestampField);
    assert AllMeanings(l, es, row)[0] == Meaning(l, es[0], row);
    if i < |first| {
      MatchedWithinRange(l, es[0], row, i);
    } else {
      forall k | 0 <= k < |es| - 1 ensures True(AllMeanings(l, es[1..], row)[k]) {
        assert AllMeanings(l, es, row)[k + 1] == AllMeanings(l, es[1..], row)[k];
      }
      MatchedWithinOperands(l, es[1..], row, i - |first|);
    }
  }

  /** Bounded window of wire plans: with only and-nodes above the one counted range, every
      matched row lies in one interval no wider than the limit. */
  lemma {:induction false} WireWindow(operation: string, l: Layout, e: Filter, maxSeconds: nat, row: Row)
    requires TimestampTyped(l) && Compiles(l, e) && operation != "get"
    requires WireWindowOk(operation, Some(e), l, maxSeconds) && OnlyAndAbove(e, l.timestampField)
    requires True(Meaning(l, e, row))
    ensures var (start, end) := Ranges(e, l.timestampField)[0];
            && Within(l, row, start, end)
            && 0 < TicksOf(end).value - TicksOf(start).value <= maxSeconds * 1_000_000_000
  {
    hide Meaning, Compiles, TicksOf, Within, Ranges;
    MatchedWithinRange(l, e, row, 0);
  }

  // ---- Below or-nodes -------------------------------------------------------

  /** The filter with its counted ranges taken as false; none when nothing is left that could
      be true. It is computed from the tree alone. */
  function Rest(e: Filter, field: string): Option<Filter>
    decreases e
  {
    match e
    case TimestampRange(_, _, _, _, _) => if Ranges(e, field) == [] then Some(e) else None
    case Boolean(op, operands) =>
      if Remaining(operands, field) == [] || (op == "and" && AnyLost(operands, field)) then None
      else Some(Boolean(op, Remaining(operands, field)))
    case _ => Some(e)
  }

  function Remaining(es: seq<Filter>, field: string): seq<Filter>
    decreases es
  {
    if es == [] then []
    else (match Rest(es[0], field) case None => [] case Some(r) => [r]) + Remaining(es[1..], field)
  }

  predicate AnyLost(es: seq<Filter>, field: string)
    decreases es
  {
    es != [] && (Rest(es[0], field) == None || AnyLost(es[1..], field))
  }

  predicate AllTrue(l: Layout, es: seq<Filter>, row: Row)
    requires AllCompile(l, es)
  {
    es == [] || (True(Meaning(l, es[0], row)) && AllTrue(l, es[1..], row))
  }

  predicate AnyTrue(l: Layout, es: seq<Filter>, row: Row)
    requires AllCompile(l, es)
  {
    es != [] && (True(Meaning(l, es[0], row)) || AnyTrue(l, es[1..], row))
  }

  lemma {:induction false} TruthOfAll(l: Layout, es: seq<Filter>, row: Row)
    requires AllCompile(l, es)
    ensures var values := AllMeanings(l, es, row);
            && (AllTrue(l, es, row) <==> forall i :: 0 <= i < |values| ==> True(values[i]))
            && (AnyTrue(l, es, row) <==> exists i :: 0 <= i < |values| && True(values[i]))
  {
    hide Meaning, Compiles, True;
    if es != [] {
      TruthOfAll(l, es[1..], row);
      var values, more := AllMeanings(l, es, row), AllMeanings(l, es[1..], row);
      assert values == [values[0]] + more;
      forall i | 0 <= i < |more| ensures values[i + 1] == more[i] {}
    }
  }

  lemma {:induction false} SplitTruth(values: seq<Value>)
    requires values != []
    ensures (forall i :: 0 <= i < |values| ==> True(values[i])) <==>
            True(values[0]) && forall i :: 0 <= i < |values[1..]| ==> True(values[1..][i])
    ensures (exists i :: 0 <= i < |values| && True(values[i])) <==>
            True(values[0]) || exists i :: 0 <= i < |values[1..]| && True(values[1..][i])
  {
    hide True;
    assert forall i :: 0 < i < |values| ==> values[i] == values[1..][i - 1];
    assert forall i :: 0 <= i < |values[1..]| ==> values[1..][i] == values[i + 1];
  }

  /** An and-node is true when all operands are, any other boolean node when one is. */
  lemma {:induction false} BooleanTruth(l: Layout, op: string, es: seq<Filter>, row: Row)
    requires AllCompile(l, es)
    ensures True(Meaning(l, Boolean(op, es), row)) <==>
            es != [] && if op == "and" then AllTrue(l, es, row) else AnyTrue(l, es, row)
  {
    hide AllMeanings, Compiles;
    TruthOfAll(l, es, row);
    if es != [] {
      var values := AllMeanings(l, es, row);
      ConjunctionTruth(values[0], values[1..]);
      DisjunctionTruth(values[0], values[1..]);
      assert values == [values[0]] + values[1..];
      SplitTruth(values);
    }
  }

  lemma {:induction false} RestCompiles(l: Layout, e: Filter)
    requires Compiles(l, e)
    ensures Rest(e, l.timestampField).Some? ==> Compiles(l, Rest(e, l.timestampField).value)
    decreases e, 1
  {
    match e
    case Boolean(_, operands) => RemainingCompile(l, operands);
    case _ =>
  }

  lemma {:induction false} CompileJoined(l: Layout, head: seq<Filter>, tail: seq<Filter>)
    requires |head| <= 1 && (head != [] ==> Compiles(l, head[0])) && AllCompile(l, tail)
    ensures AllCompile(l, head + tail)
    ensures forall row :: AllTrue(l, head + tail, row) <==>
              (head == [] || True(Meaning(l, head[0], row))) && AllTrue(l, tail, row)
    ensures forall row :: AnyTrue(l, head + tail, row) <==>
              (head != [] && True(Meaning(l, head[0], row))) || AnyTrue(l, tail, row)
  {
    hide Compiles, Meaning, True;
    if head == [] { assert head + tail == tail; } else { assert (head + tail)[1..] == tail; }
  }

  lemma {:induction false} RemainingCompile(l: Layout, es: seq<Filter>)
    requires AllCompile(l, es)
    ensures AllCompile(l, Remaining(es, l.timestampField))
    decreases es, 0
  {
    hide Compiles, Rest;
    if es != [] {
      RestCompiles(l, es[0]);
      RemainingCompile(l, es[1..]);
      CompileJoined(l, match Rest(es[0], l.timestampField) case None => [] case Some(r) => [r],
                    Remaining(es[1..], l.timestampField));
    }
  }

  /** What is left implies the filter. */
  lemma {:induction false} RestImplies(l: Layout, e: Filter, row: Row)
    requires Compiles(l, e) && Rest(e, l.timestampField).Some?
    requires Compiles(l, Rest(e, l.timestampField).value) && True(Meaning(l, Rest(e, l.timestampField).value, row))
    ensures True(Meaning(l, e, row))
    decreases e, 1
  {
    hide Meaning, True, AllTrue, AnyTrue;
    match e
    case Boolean(op, operands) =>
      RemainingCompile(l, operands);
      RemainingImplies(l, operands, row);
      BooleanTruth(l, op, operands, row);
      BooleanTruth(l, op, Remaining(operands, l.timestampField), row);
    case _ =>
  }

  lemma {:induction false} RemainingImplies(l: Layout, es: seq<Filter>, row: Row)
    requires AllCompile(l, es) && AllCompile(l, Remaining(es, l.timestampField))
    ensures AnyTrue(l, Remaining(es, l.timestampField), row) ==> AnyTrue(l, es, row)
    ensures !AnyLost(es, l.timestampField) && AllTrue(l, Remaining(es, l.timestampField), row) ==> AllTrue(l, es, row)
    decreases es, 0
  {
    hide Compiles, Rest, Meaning, True;
    if es != [] {
      RestCompiles(l, es[0]);
      RemainingCompile(l, es[1..]);
      var rest := Rest(es[0], l.timestampField);
      CompileJoined(l, match rest case None => [] case Some(r) => [r], Remaining(es[1..], l.timestampField));
      if rest.Some? && True(Meaning(l, rest.value, row)) { RestImplies(l, es[0], row); }
      RemainingImplies(l, es[1..], row);
    }
  }

  /** The row lies in none of the ranges. */
  predicate Outside(l: Layout, ranges: seq<(Json, Json)>, row: Row)
    requires l.timestampField in l.Names()
  {
    forall i :: 0 <= i < |ranges| ==>
      TicksOf(ranges[i].0).Ok? && TicksOf(ranges[i].1).Ok? && !Within(l, row, ranges[i].0, ranges[i].1)
  }

  lemma {:induction false} OutsideBoth(l: Layout, a: seq<(Json, Json)>, b: seq<(Json, Json)>, row: Row)
    requires l.timestampField in l.Names() && Outside(l, a + b, row)
    ensures Outside(l, a, row) && Outside(l, b, row)
  {
    hide Within, TicksOf;
    forall i | 0 <= i < |a| ensures (a + b)[i] == a[i] {}
    forall i | 0 <= i < |b| ensures (a + b)[|a| + i] == b[i] {}
  }

  lemma {:induction false} NothingTrue(l: Layout, row: Row)
    ensures !AnyTrue(l, [], row)
  {}

  lemma {:induction false} NothingLost(l: Layout, es: seq<Filter>, row: Row)
    requires AllCompile(l, es) && es != [] && !AnyLost(es, l.timestampField)
    ensures Remaining(es, l.timestampField) != []
  {
    hide Compiles, Rest;
  }

  /** Outside the ranges, the filter implies what is left. */
  lemma {:induction false} RestSuffices(l: Layout, e: Filter, row: Row)
    requires TimestampTyped(l) && Compiles(l, e) && Outside(l, Ranges(e, l.timestampField), row)
    requires True(Meaning(l, e, row))
    ensures var rest := Rest(e, l.timestampField);
            rest.Some? && Compiles(l, rest.value) && True(Meaning(l, rest.value, row))
    decreases e, 1
  {
    hide Meaning, True, AllTrue, AnyTrue, Within, TicksOf;
    RestCompiles(l, e);
    match e
    case TimestampRange(_, _, _, _, _) =>
      if Ranges(e, l.timestampField) != [] {
        assert Ranges(e, l.timestampField)[0] == (e.start.value.value, e.end.value.value);
        MatchedWithinRange(l, e, row, 0);
      }
    case Boolean(op, operands) =>
      RemainingCompile(l, operands);
      RemainingSuffices(l, operands, row);
      BooleanTruth(l, op, operands, row);
      BooleanTruth(l, op, Remaining(operands, l.timestampField), row);
      NothingTrue(l, row);
      if op == "and" { NothingLost(l, operands, row); }
    case _ =>
  }

  lemma {:induction false} RemainingSuffices(l: Layout, es: seq<Filter>, row: Row)
    requires TimestampTyped(l) && AllCompile(l, es) && Outside(l, AllRanges(es, l.timestampField), row)
    requires AllCompile(l, Remaining(es, l.timestampField))
    ensures AnyTrue(l, es, row) ==> AnyTrue(l, Remaining(es, l.timestampField), row)
    ensures AllTrue(l, es, row) ==> !AnyLost(es, l.timestampField) && AllTrue(l, Remaining(es, l.timestampField), row)
    decreases es, 0
  {
    hide Compiles, Rest, Meaning, True, Outside, Ranges;
    if es != [] {
      OutsideBoth(l, Ranges(es[0], l.timestampField), AllRanges(es[1..], l.timestampField), row);
      RestCompiles(l, es[0]);
      RemainingCompile(l, es[1..]);
      var rest := Rest(es[0], l.timestampField);
      CompileJoined(l, match rest case None => [] case Some(r) => [r], Remaining(es[1..], l.timestampField));
      if True(Meaning(l, es[0], row)) { RestSuffices(l, es[0], row); }
      RemainingSuffices(l, es[1..], row);
    }
  }

  /** Bounded window of wire plans, exactly: an accepted filter matches a row outside its one
      counted range if and only if what is left without the range matches it. */
  lemma {:induction false} OutsideWindow(operation: string, l: Layout, e: Filter, maxSeconds: nat, row: Row)
    requires TimestampTyped(l) && Compiles(l, e) && operation != "get"
             && WireWindowOk(operation, Some(e), l, maxSeconds)
    requires var (start, end) := Ranges(e, l.timestampField)[0]; !Within(l, row, start, end)
    ensures Rest(e, l.timestampField).Some? ==> Compiles(l, Rest(e, l.timestampField).value)
    ensures True(Meaning(l, e, row)) <==>
            Rest(e, l.timestampField).Some? && True(Meaning(l, Rest(e, l.timestampField).value, row))
  {
    hide Meaning, True, Compiles, Rest, Ranges, TicksOf, Within;
    RestCompiles(l, e);
    if True(Meaning(l, e, row)) { RestSuffices(l, e, row); }
    if Rest(e, l.timestampField).Some? && True(Meaning(l, Rest(e, l.timestampField).value, row)) {
      RestImplies(l, e, row);
    }
  }

  /** With only and-nodes above a counted range nothing is left without it. */
  lemma {:induction false} OnlyAndLeavesNothing(e: Filter, field: string)
    requires OnlyAndAbove(e, field) && Ranges(e, field) != []
    ensures Rest(e, field) == None
    decreases e, 1
  {
    match e
    case Boolean(_, operands) => OnlyAndLoses(operands, field);
    case _ =>
  }

  lemma {:induction false} OnlyAndLoses(es: seq<Filter>, field: string)
    requires AllOnlyAnd(es, field) && AllRanges(es, field) != []
    ensures AnyLost(es, field)
    decreases es, 0
  {
    hide OnlyAndAbove, Ranges, Rest;
    if Ranges(es[0], field) != [] { OnlyAndLeavesNothing(es[0], field); } else { OnlyAndLoses(es[1..], field); }
  }

  /** Whether the tree names the field anywhere. */
  predicate Mentions(e: Filter, field: string)
    decreases e
  {
    match e
    case Field(_, name) => name == field
    case Binary(_, left, right) => Mentions(left, field) || Mentions(right, field)
    case Boolean(_, operands) => AnyMentions(operands, field)
    case Unary(_, operand) => Mentions(operand, field)
    case NullTest(operand, _) => Mentions(operand, field)
    case Membership(operand, _, _) => Mentions(operand, field)
    case TimestampRange(operand, _, _, _, _) => Mentions(operand, field)
    case _ => false
  }

  predicate AnyMentions(es: seq<Filter>, field: string)
    decreases es
  {
    es != [] && (Mentions(es[0], field) || AnyMentions(es[1..], field))
  }

  function Stamped(l: Layout, row: Row, v: Value): Row
    requires l.timestampField in l.Names()
  {
    row[l.Physical(l.timestampField) := v]
  }

  lemma {:induction false} OtherCell(l: Layout, name: string, row: Row, v: Value)
    requires ColumnsOk(l) && l.timestampField in l.Names() && name in l.Names() && name != l.timestampField
    ensures Cell(Stamped(l, row, v), l.Physical(name)) == Cell(row, l.Physical(name))
  {
    hide Column.Valid;
    var c, t := l.ColumnOf(name).value, l.ColumnOf(l.timestampField).value;
    var i :| 0 <= i < |l.columns| && l.columns[i] == c;
    var j :| 0 <= j < |l.columns| && l.columns[j] == t;
    assert PhysicalNames(l.columns)[i] == c.physical && PhysicalNames(l.columns)[j] == t.physical;
  }

  /** A tree that does not name the timestamp does not depend on it. */
  lemma {:induction false} IgnoresTimestamp(l: Layout, e: Filter, row: Row, v: Value)
    requires ColumnsOk(l) && l.timestampField in l.Names() && Compiles(l, e) && !Mentions(e, l.timestampField)
    ensures Meaning(l, e, Stamped(l, row, v)) == Meaning(l, e, row)
    decreases e, 1
  {
    hide Compare, In3, Not3, LiteralMeaning, RangeMeaning, OperandType, ColumnsOk, Stamped;
    match e
    case Field(_, name) => OtherCell(l, name, row, v);
    case Literal(_, _) =>
    case Binary(_, left, right) =>
      IgnoresTimestamp(l, left, row, v);
      if !right.Literal? { IgnoresTimestamp(l, right, row, v); }
    case Boolean(_, operands) => AllIgnoreTimestamp(l, operands, row, v);
    case Unary(_, operand) => IgnoresTimestamp(l, operand, row, v);
    case NullTest(operand, _) => IgnoresTimestamp(l, operand, row, v);
    case Membership(operand, _, _) => IgnoresTimestamp(l, operand, row, v);
    case TimestampRange(operand, _, _, _, _) => IgnoresTimestamp(l, operand, row, v);
  }

  lemma {:induction false} AllIgnoreTimestamp(l: Layout, es: seq<Filter>, row: Row, v: Value)
    requires ColumnsOk(l) && l.timestampField in l.Names() && AllCompile(l, es) && !AnyMentions(es, l.timestampField)
    ensures AllMeanings(l, es, Stamped(l, row, v)) == AllMeanings(l, es, row)
    decreases es, 0
  {
    hide Meaning, Compiles, ColumnsOk, Stamped, Mentions;
    if es != [] {
      IgnoresTimestamp(l, es[0], row, v);
      AllIgnoreTimestamp(l, es[1..], row, v);
    }
  }

  /** When what is left does not name the timestamp, a row that it matches is matched with
      every other timestamp too. */
  lemma {:induction false} AnyTimestampMatches(l: Layout, e: Filter, row: Row, v: Value)
    requires ColumnsOk(l) && l.timestampField in l.Names() && Compiles(l, e)
    requires Rest(e, l.timestampField).Some? && !Mentions(Rest(e, l.timestampField).value, l.timestampField)
    requires Compiles(l, Rest(e, l.timestampField).value) && True(Meaning(l, Rest(e, l.timestampField).value, row))
    ensures True(Meaning(l, e, Stamped(l, row, v)))
  {
    hide Meaning, True, Compiles, Rest, Mentions, ColumnsOk, Stamped;
    IgnoresTimestamp(l, Rest(e, l.timestampField).value, row, v);
    RestImplies(l, e, Stamped(l, row, v));
  }

  /** Every matched row lies between the two instants. */
  ghost predicate KeepsWindow(l: Layout, e: Filter, start: Json, end: Json)
    requires l.timestampField in l.Names() && Compiles(l, e) && TicksOf(start).Ok? && TicksOf(end).Ok?
  {
    forall row :: True(Meaning(l, e, row)) ==> Within(l, row, start, end)
  }

  ghost predicate MatchesNothing(l: Layout, e: Filter)
    requires Compiles(l, e)
  {
    forall row :: !True(Meaning(l, e, row))
  }

  lemma {:induction false} NullIsOutside(l: Layout, row: Row, start: Json, end: Json)
    requires l.timestampField in l.Names() && TicksOf(start).Ok? && TicksOf(end).Ok?
    ensures !Within(l, Stamped(l, row, Null), start, end)
  {}

  /** The window holds for all matched rows of an accepted filter exactly when nothing is left
      without the counted range, or nothing that any row could match. */
  lemma {:induction false} WindowHolds(operation: string, l: Layout, e: Filter, maxSeconds: nat)
    requires ColumnsOk(l) && TimestampTyped(l) && Compiles(l, e) && operation != "get"
    requires WireWindowOk(operation, Some(e), l, maxSeconds)
    requires Rest(e, l.timestampField).Some? ==> !Mentions(Rest(e, l.timestampField).value, l.timestampField)
    ensures Rest(e, l.timestampField).Some? ==> Compiles(l, Rest(e, l.timestampField).value)
    ensures var (start, end) := Ranges(e, l.timestampField)[0];
            KeepsWindow(l, e, start, end) <==>
            Rest(e, l.timestampField) == None || MatchesNothing(l, Rest(e, l.timestampField).value)
  {
    hide Meaning, True, Compiles, Rest, Ranges, TicksOf, Within, Mentions, ColumnsOk, Stamped;
    RestCompiles(l, e);
    var rest := Rest(e, l.timestampField);
    var (start, end) := Ranges(e, l.timestampField)[0];
    if KeepsWindow(l, e, start, end) && rest.Some? {
      forall row ensures !True(Meaning(l, rest.value, row)) {
        if True(Meaning(l, rest.value, row)) {
          AnyTimestampMatches(l, e, row, Null);
          NullIsOutside(l, row, start, end);
          assert false;
        }
      }
    }
    if rest == None || MatchesNothing(l, rest.value) {
      forall row | True(Meaning(l, e, row)) ensures Within(l, row, start, end) {
        if !Within(l, row, start, end) { OutsideWindow(operation, l, e, maxSeconds, row); }
      }
    }
  }

  lemma {:induction false} OrShape(l: Layout, es: seq<Filter>)
    requires AllCompile(l, es)
    ensures Compiles(l, Boolean("or", es))
    ensures Ranges(Boolean("or", es), l.timestampField) == AllRanges(es, l.timestampField)
  {}

  lemma {:induction false} RangeBounds(l: Layout, range: Filter, row: Row)
    requires TimestampTyped(l) && Compiles(l, range) && range.TimestampRange? && |Ranges(range, l.timestampField)| == 1
    requires var (start, end) := Ranges(range, l.timestampField)[0]; TicksOf(start).Ok? && TicksOf(end).Ok?
    requires True(Meaning(l, range, row))
    ensures var (start, end) := Ranges(range, l.timestampField)[0]; Within(l, row, start, end)
  {
    hide Meaning, True, Compiles, TicksOf, Within, Ranges;
    assert OnlyAndAbove(range, l.timestampField);
    MatchedWithinRange(l, range, row, 0);
  }

  lemma {:induction false} EachCompiles(l: Layout, es: seq<Filter>)
    requires AllCompile(l, es)
    ensures forall j :: 0 <= j < |es| ==> Compiles(l, es[j])
  {
    hide Compiles;
    if es != [] {
      EachCompiles(l, es[1..]);
      forall j | 0 < j < |es| ensures es[j] == es[1..][j - 1] {}
    }
  }

  lemma {:induction false} AnyTrueAt(l: Layout, es: seq<Filter>, row: Row)
    requires AllCompile(l, es) && forall j :: 0 <= j < |es| ==> Compiles(l, es[j])
    ensures AnyTrue(l, es, row) <==> es != [] && exists j :: 0 <= j < |es| && True(Meaning(l, es[j], row))
  {
    hide Meaning, True, Compiles;
    if es != [] {
      forall j | 0 < j < |es| ensures es[j] == es[1..][j - 1] {}
      AnyTrueAt(l, es[1..], row);
      assert AnyTrue(l, es[1..], row) ==> exists j :: 0 <= j < |es[1..]| && True(Meaning(l, es[1..][j], row));
      forall j | 0 <= j < |es[1..]| ensures es[1..][j] == es[j + 1] {}
    }
  }

  lemma {:induction false} OrTruth(l: Layout, es: seq<Filter>, row: Row)
    requires AllCompile(l, es) && forall j :: 0 <= j < |es| ==> Compiles(l, es[j])
    ensures True(Meaning(l, Boolean("or", es), row)) <==> exists j :: 0 <= j < |es| && True(Meaning(l, es[j], row))
  {
    hide Meaning, True, Compiles, AnyTrue;
    assert |"or"| != |"and"|;
    BooleanTruth(l, "or", es, row);
    AnyTrueAt(l, es, row);
  }

  /** A range anywhere in an or-list of any length: the window holds exactly when every other
      operand, if none of them names the timestamp, is true of no row. */
  lemma {:induction false} OrWindow(operation: string, l: Layout, es: seq<Filter>, at: nat, maxSeconds: nat)
    requires ColumnsOk(l) && TimestampTyped(l) && AllCompile(l, es) && operation != "get"
    requires WireWindowOk(operation, Some(Boolean("or", es)), l, maxSeconds)
    requires at < |es| && es[at].TimestampRange? && Ranges(es[at], l.timestampField) == AllRanges(es, l.timestampField)
    requires forall j :: 0 <= j < |es| && j != at ==> !Mentions(es[j], l.timestampField)
    ensures forall j :: 0 <= j < |es| ==> Compiles(l, es[j])
    ensures var (start, end) := AllRanges(es, l.timestampField)[0];
            KeepsWindow(l, Boolean("or", es), start, end) <==>
            forall j :: 0 <= j < |es| && j != at ==> MatchesNothing(l, es[j])
  {
    hide Meaning, True, Compiles, TicksOf, Within, Mentions, ColumnsOk, Stamped, Ranges, AllRanges;
    var e := Boolean("or", es);
    assert Compiles(l, e) && Ranges(e, l.timestampField) == AllRanges(es, l.timestampField) by { OrShape(l, es); }
    var (start, end) := AllRanges(es, l.timestampField)[0];
    EachCompiles(l, es);
    if KeepsWindow(l, e, start, end) {
      forall j, row | 0 <= j < |es| && j != at ensures !True(Meaning(l, es[j], row)) {
        if True(Meaning(l, es[j], row)) {
          IgnoresTimestamp(l, es[j], row, Null);
          OrTruth(l, es, Stamped(l, row, Null));
          NullIsOutside(l, row, start, end);
          assert false;
        }
      }
    }
    if forall j :: 0 <= j < |es| && j != at ==> MatchesNothing(l, es[j]) {
      forall row | True(Meaning(l, e, row)) ensures Within(l, row, start, end) {
        OrTruth(l, es, row);
        var j :| 0 <= j < |es| && True(Meaning(l, es[j], row));
        assert j == at;
        RangeBounds(l, es[at], row);
      }
    }
  }

  lemma {:induction false} TwoOperands(l: Layout, a: Filter, b: Filter)
    requires Compiles(l, a) && Compiles(l, b)
    ensures AllCompile(l, [a, b]) && Compiles(l, Boolean("or", [a, b]))
    ensures Ranges(Boolean("or", [a, b]), l.timestampField) == Ranges(a, l.timestampField) + Ranges(b, l.timestampField)
  {
    var es := [a, b];
    assert es[1..] == [b] && [b][1..] == [];
    assert AllCompile(l, [b]);
    assert AllRanges([b], l.timestampField) == Ranges(b, l.timestampField) + [];
  }

  lemma {:induction false} StampedNothing(l: Layout, v: Value)
    requires l.timestampField in l.Names()
    ensures Stamped(l, map[], v) == map[l.Physical(l.timestampField) := v]
  {}

  lemma {:induction false} NullHolds(l: Layout, f: string, row: Row)
    requires f in l.Names() && Cell(row, l.Physical(f)) == Null && Compiles(l, NullTest(Field(None, f), true))
    ensures True(Meaning(l, NullTest(Field(None, f), true), row))
  {}

  /** An input for which the window fails: next to any accepted range, the test of another
      column for null is accepted too, and then a row with any timestamp whatever matches. */
  lemma {:induction false} EscapingInput(operation: string, l: Layout, range: Filter, f: string, maxSeconds: nat,
                                         ticks: int)
    requires ColumnsOk(l) && TimestampTyped(l) && Compiles(l, range) && operation != "get"
    requires range.TimestampRange? && WireWindowOk(operation, Some(range), l, maxSeconds)
    requires f in l.Names() && f != l.timestampField
    ensures var either := Boolean("or", [range, NullTest(Field(None, f), true)]);
            && Compiles(l, either) && WireWindowOk(operation, Some(either), l, maxSeconds)
            && True(Meaning(l, either, map[l.Physical(l.timestampField) := TimeV(ticks)]))
  {
    hide TicksOf, ColumnsOk, Stamped, True, Meaning, RangeOk;
    var test, row := NullTest(Field(None, f), true), map[l.Physical(l.timestampField) := TimeV(ticks)];
    var es := [range, test];
    TwoOperands(l, range, test);
    OtherCell(l, f, map[], TimeV(ticks));
    StampedNothing(l, TimeV(ticks));
    EachCompiles(l, es);
    NullHolds(l, f, row);
    OrTruth(l, es, row);
    assert es[1] == test;
  }

  // ---- Mapping-first --------------------------------------------------------

  lemma {:induction false} LastIsTest(ops: seq<(string, Json)>, first: string, second: string) returns (j: nat)
    requires !LastOf(ops, first, second).JNull?
    ensures j < |ops| && ops[j].0 in {first, second} && ops[j].1 == LastOf(ops, first, second)
  {
    var n := |ops| - 1;
    if ops[n].0 == first || ops[n].0 == second { j := n; } else { j := LastIsTest(ops[..n], first, second); }
  }

  /** Recorded bounds come from the tests of that field. */
  lemma {:induction false} BoundsSource(items: Where, field: string) returns (i: nat)
    requires field in BoundsOf(items)
    ensures i < |items| && items[i].0 == field && items[i].1.Tests? && BoundsOf(items)[field] == FieldBounds(items[i].1)
  {
    var n := |items| - 1;
    if items[n].0 == field && items[n].1.Tests? { i := n; } else { i := BoundsSource(items[..n], field); }
  }

  lemma {:induction false} AtomIndex(l: Layout, items: Where, i: nat, k: nat) returns (j: nat)
    requires KnownFields(l, items) && i < |items|
    requires k < |FieldAtoms(l.ColumnOf(items[i].0).value, items[i].1)|
    ensures j < |ItemAtoms(l, items)|
    ensures ItemAtoms(l, items)[j] == FieldAtoms(l.ColumnOf(items[i].0).value, items[i].1)[k]
  {
    hide FieldAtoms;
    if i == 0 {
      j := k;
    } else {
      var rest := AtomIndex(l, items[1..], i - 1, k);
      j := |FieldAtoms(l.ColumnOf(items[0].0).value, items[0].1)| + rest;
    }
  }

  lemma {:induction false} NonNullBound(j: Json)
    ensures TicksOf(j).Ok? ==> !j.JNull?
  {}

  lemma {:induction false} OrderingAtom(a: Atom, row: Row)
    requires AtomOk(a) && a.op in {"gt", "gte", "lt", "lte"}
    ensures ComparisonOp(a.op) == Some(if a.op == "gt" then Gt else if a.op == "gte" then Ge else if a.op == "lt"
            then Lt else Le)
    ensures AtomMeaning(a, row) == Compare(ComparisonOp(a.op).value, Cell(row, a.column),
                                           LiteralMeaning(a.value, a.ctype))
  {
    hide LiteralMeaning, Compare, Binds;
  }

  lemma {:induction false} TimestampAtom(a: Atom, row: Row)
    requires AtomOk(a) && a.ctype == TIMESTAMP_TYPE && TicksOf(a.value).Ok? && True(AtomMeaning(a, row))
    ensures a.op in {"gt", "gte"} ==> Cell(row, a.column).TimeV? && Cell(row, a.column).ticks >= TicksOf(a.value).value
    ensures a.op in {"lt", "lte"} ==> Cell(row, a.column).TimeV? && Cell(row, a.column).ticks <= TicksOf(a.value).value
  {
    hide LiteralMeaning, Compare, AtomMeaning, AtomOk, TicksOf, ComparisonOp;
    if a.op in {"gt", "gte", "lt", "lte"} {
      OrderingAtom(a, row);
      InstantLiteral(a.value);
      TrueComparison(ComparisonOp(a.op).value, Cell(row, a.column), TicksOf(a.value).value);
    }
  }

  /** A recorded bound is enforced by one of the conditions, so it bounds every matched row. */
  lemma {:induction false} BoundEnforced(l: Layout, where: Where, row: Row, lower: bool)
    requires TimestampTyped(l) && WhereOk(l, where) && True(WhereMeaning(Atoms(l, where), row))
    requires l.timestampField in BoundsOf(Sort(FieldOf, where))
    requires var b := BoundsOf(Sort(FieldOf, where))[l.timestampField];
             TicksOf(if lower then b.0 else b.1).Ok?
    ensures var b := BoundsOf(Sort(FieldOf, where))[l.timestampField];
            var v := Cell(row, l.Physical(l.timestampField));
            v.TimeV? && (if lower then v.ticks >= TicksOf(b.0).value else v.ticks <= TicksOf(b.1).value)
  {
    hide BoundsOf, Sort, ItemAtoms, WhereMeaning, TicksOf, AtomMeaning, LastOf;
    var items := Sort(FieldOf, where);
    var i := BoundsSource(items, l.timestampField);
    var ops := Sort(OpOf, items[i].1.ops);
    var first, second := if lower then "gt" else "lt", if lower then "gte" else "lte";
    NonNullBound(LastOf(ops, first, second));
    var k := LastIsTest(ops, first, second);
    var j := AtomIndex(l, items, i, k);
    var a := Atoms(l, where)[j];
    assert a == Atom(l.Physical(l.timestampField), TIMESTAMP_TYPE, ops[k].0, ops[k].1);
    WhereTruth(Atoms(l, where), row);
    assert AtomOk(a) && True(AtomMeaning(a, row));
    TimestampAtom(a, row);
  }

  /** Bounded window of mapping-first queries: every matched row lies in one interval no
      wider than the limit, also when both tests of a side are given. */
  lemma {:induction false} MappingWindow(operation: string, l: Layout, where: Where, maxSeconds: nat, row: Row)
    requires TimestampTyped(l) && operation in {"query", "aggregate"} && WhereOk(l, where)
    requires MappingWindowOk(operation, BoundsOf(Sort(FieldOf, where)), l, maxSeconds)
    requires True(WhereMeaning(Atoms(l, where), row))
    ensures var (start, end) := BoundsOf(Sort(FieldOf, where))[l.timestampField];
            && Within(l, row, start, end)
            && 0 < TicksOf(end).value - TicksOf(start).value <= maxSeconds * 1_000_000_000
  {
    hide BoundsOf, Sort, Atoms, WhereMeaning, WhereOk, TicksOf;
    BoundEnforced(l, where, row, true);
    BoundEnforced(l, where, row, false);
  }
}
