/** Record queries: scope first, filter in brackets, keyset last. */
module Translator {
  import opened Common
  import opened Rows
  import opened Layouts
  import opened Sql
  import opened Filters
  import opened SqlCompilers
  import opened FilterReading
  import opened MappingFirst
  import opened MappingReading
  import opened Keysets
  import opened Sorts
  import opened Windows
  import opened Cursors
  import opened Identifiers
  import opened SelectStatements
  import opened Values
  import Sorting

  // ---- Requests -------------------------------------------------------------

  datatype Context = Context(schemas: map<string, string>, registry: string, scopeFingerprint: string)

  /** The digest behind the `sha256:` prefix. */
  function ScopeDigest(fingerprint: string): string {
    if "sha256:" <= fingerprint then fingerprint[7..] else fingerprint
  }

  /** What a query needs of the adapter's settings. */
  datatype QuerySettings = QuerySettings(database: string, maxSeconds: nat)

  /** An entry of a projection: a Schema field, or any other expression. */
  datatype Projection = ByName(qualifier: Option<string>, name: string, alias: Option<string>) | ByOther

  /** A wire plan; its targets are canonical resource names. */
  datatype Operation = Operation(
    name: string, consistency: string, targets: seq<string>, joins: nat, traverses: bool,
    projection: seq<Projection>, total: bool, filter: Option<Filter>, order: seq<WireOrder>, size: nat,
    cursor: Option<Cursor>)

  datatype MappingInput = MappingInput(
    select: Json, where: Where, limit: Option<Json>, orderBy: Json, cursor: Option<Cursor>)

  /** A compiled record query. */
  datatype Compiled = Compiled(statement: Text, parameters: map<string, Json>, command: Command)

  // ---- What is selected -----------------------------------------------------

  /** A logical field under the alias that results show it as. */
  datatype Selected = Selected(field: string, alias: string)

  predicate SelectedAlone(l: Layout, s: Selected) { s.field in l.Names() && QuoteIdentifier(s.alias).Ok? }

  /** Every field is known and every alias can be quoted. */
  predicate SelectedOk(l: Layout, selected: seq<Selected>) {
    forall i :: 0 <= i < |selected| ==> SelectedAlone(l, selected[i])
  }

  /** Fields under their own names. */
  function Named(names: seq<string>): (r: seq<Selected>)
    ensures |r| == |names|
  {
    seq(|names|, i requires 0 <= i < |names| => Selected(names[i], names[i]))
  }

  function Aliases(selected: seq<Selected>): (r: seq<string>)
    ensures |r| == |selected|
  {
    seq(|selected|, i requires 0 <= i < |selected| => selected[i].alias)
  }

  /** An absent or empty alias is the name of the field. */
  function Projected(p: Projection): Selected
    requires p.ByName?
  {
    Selected(p.name, if p.alias.Some? && p.alias.value != "" then p.alias.value else p.name)
  }

  predicate ProjectionOk(l: Layout, p: Projection) {
    && p.ByName? && (p.qualifier == None || p.qualifier == Some(l.resource.Canonical()))
    && SelectedAlone(l, Projected(p))
  }

  /** Without a projection every column is selected. */
  predicate WireSelectOk(l: Layout, projection: seq<Projection>) {
    if projection == [] then SelectedOk(l, Named(l.Names()))
    else forall i :: 0 <= i < |projection| ==> ProjectionOk(l, projection[i])
  }

  function WireSelected(l: Layout, projection: seq<Projection>): (r: seq<Selected>)
    requires WireSelectOk(l, projection)
    ensures SelectedOk(l, r)
  {
    if projection == [] then Named(l.Names())
    else
      seq(|projection|, i requires 0 <= i < |projection| && ProjectionOk(l, projection[i]) => Projected(projection[i]))
  }

  lemma {:induction false} NamedOk(l: Layout, names: seq<string>)
    ensures SelectedOk(l, Named(names)) <==>
            forall name :: name in names ==> name in l.Names() && name != "" && '\0' !in name
  {
    forall i | 0 <= i < |names| ensures Named(names)[i] == Selected(names[i], names[i]) {}
    if SelectedOk(l, Named(names)) {
      forall name | name in names ensures name in l.Names() && name != "" && '\0' !in name {
        var i :| 0 <= i < |names| && names[i] == name;
        assert SelectedAlone(l, Named(names)[i]);
      }
    }
  }

  method SelectNamed(l: Layout, names: seq<string>) returns (r: Result<seq<Selected>>)
    ensures r.Ok? <==> forall name :: name in names ==> name in l.Names() && name != "" && '\0' !in name
    ensures r.Ok? <==> SelectedOk(l, Named(names))
    ensures r.Ok? ==> r.value == Named(names)
    ensures r.Ok? ==> |r.value| == |names| && forall i :: 0 <= i < |names| ==>
      r.value[i].field == r.value[i].alias == names[i]
  {
    var selected: seq<Selected> := [];
    for i := 0 to |names|
      invariant |selected| == i
      invariant forall j :: 0 <= j < i ==> selected[j] == Named(names)[j]
      invariant SelectedOk(l, selected)
    {
      if l.ColumnOf(names[i]).None? || QuoteIdentifier(names[i]).Err? {
        NamedOk(l, names);
        return Err(UnknownField);
      }
      selected := selected + [Selected(names[i], names[i])];
    }
    assert selected == Named(names);
    NamedOk(l, names);
    return Ok(selected);
  }

  /** A projection that names a known field of this resource under an alias that can be quoted. */
  predicate Selectable(l: Layout, p: Projection) {
    && p.ByName? && (p.qualifier.Some? ==> p.qualifier.value == l.resource.Canonical()) && p.name in l.Names()
    && var alias := if p.alias in {None, Some("")} then p.name else p.alias.value; alias != "" && '\0' !in alias
  }

  lemma {:induction false} SelectableIsOk(l: Layout, p: Projection)
    ensures Selectable(l, p) <==> ProjectionOk(l, p)
  {
    if p.ByName? {
      assert p.alias in {None, Some("")} <==> p.alias.None? || p.alias.value == "";
    }
  }

  /** The selection part of `_record_sql`. */
  method SelectWire(l: Layout, projection: seq<Projection>) returns (r: Result<seq<Selected>>)
    ensures r.Ok? <==> WireSelectOk(l, projection)
    ensures r.Ok? ==> r.value == WireSelected(l, projection)
    ensures r.Ok? ==> forall s :: s in r.value ==> s.field in l.Names() && s.alias != "" && '\0' !in s.alias
    ensures r.Ok? <==> if projection == [] then forall name :: name in l.Names() ==> name != "" && '\0' !in name
                       else forall p :: p in projection ==> Selectable(l, p)
    ensures r.Ok? && projection == [] ==>
      |r.value| == |l.columns| && forall i :: 0 <= i < |l.columns| ==> r.value[i].field == l.columns[i].logical
    ensures r.Ok? && projection != [] ==>
      && |r.value| == |projection|
      && forall i :: 0 <= i < |projection| ==>
           && r.value[i].field == projection[i].name
           && r.value[i].alias == if projection[i].alias in {None, Some("")} then projection[i].name
                                  else projection[i].alias.value
  {
    hide QuoteIdentifier;
    if projection == [] {
      r := SelectNamed(l, l.Names());
      return;
    }
    forall p ensures Selectable(l, p) <==> ProjectionOk(l, p) { SelectableIsOk(l, p); }
    assert (forall p :: p in projection ==> ProjectionOk(l, p)) <==> WireSelectOk(l, projection);
    var selected: seq<Selected> := [];
    for i := 0 to |projection|
      invariant |selected| == i
      invariant forall j :: 0 <= j < i ==> ProjectionOk(l, projection[j]) && selected[j] == Projected(projection[j])
    {
      var p := projection[i];
      if p.ByOther? { return Err(Unsupported); }
      if p.qualifier != None && p.qualifier != Some(l.resource.Canonical()) { return Err(Unsupported); }
      var alias := if p.alias == None || p.alias == Some("") then p.name else p.alias.value;
      if l.ColumnOf(p.name).None? || QuoteIdentifier(alias).Err? { return Err(UnknownField); }
      selected := selected + [Selected(p.name, alias)];
    }
    assert selected == WireSelected(l, projection);
    return Ok(selected);
  }

  /** JSON values that count as absent. */
  predicate Falsy(j: Json) {
    match j
    case JNull => true
    case JBool(flag) => !flag
    case JInt(n) => n == 0
    case JStr(text) => text == ""
    case JArr(items) => items == []
    case JObj(members) => members == map[]
  }

  /** `_field_names`: non-empty texts only. */
  predicate FieldNames(j: Json) {
    j.JArr? && forall i :: 0 <= i < |j.items| ==> j.items[i].JStr? && j.items[i].text != ""
  }

  function MappingNames(l: Layout, select: Json): seq<string>
    requires Falsy(select) || FieldNames(select)
  {
    if Falsy(select) then l.Names()
    else seq(|select.items|, i requires 0 <= i < |select.items| => select.items[i].text)
  }

  /** The field list of a mapping-first query: absent or empty means all columns in order. */
  method ChosenNames(l: Layout, select: Json) returns (r: Result<seq<string>>)
    ensures r.Ok? <==> Falsy(select) || FieldNames(select)
    ensures r.Ok? ==> r.value == MappingNames(l, select)
    ensures select in {JNull, JBool(false), JInt(0), JStr(""), JArr([]), JObj(map[])} ==> r == Ok(l.Names())
    ensures select.JArr? && select.items != [] ==>
      (r.Ok? <==> forall item :: item in select.items ==> item.JStr? && item.text != "")
    ensures select.JArr? && select.items != [] && r.Ok? ==>
      |r.value| == |select.items| && forall i :: 0 <= i < |select.items| ==> select.items[i] == JStr(r.value[i])
    ensures select !in {JNull, JBool(false), JInt(0), JStr(""), JObj(map[])} && !select.JArr? ==> r.Err?
  {
    if select in {JNull, JBool(false), JInt(0), JStr(""), JArr([]), JObj(map[])} { return Ok(l.Names()); }
    if !select.JArr? { return Err(BadType); }
    var names: seq<string> := [];
    for i := 0 to |select.items|
      invariant |names| == i
      invariant forall j :: 0 <= j < i ==> select.items[j].JStr? && names[j] == select.items[j].text != ""
    {
      if !select.items[i].JStr? || select.items[i].text == "" {
        assert select.items[i] in select.items;
        return Err(BadType);
      }
      names := names + [select.items[i].text];
    }
    assert names == MappingNames(l, select);
    return Ok(names);
  }

  predicate MappingSelectOk(l: Layout, select: Json) {
    (Falsy(select) || FieldNames(select)) && SelectedOk(l, Named(MappingNames(l, select)))
  }

  function MappingSelected(l: Layout, select: Json): seq<Selected>
    requires Falsy(select) || FieldNames(select)
  {
    Named(MappingNames(l, select))
  }

  // ---- Result metadata ------------------------------------------------------

  /** The field behind each alias; the last selection of an alias counts. */
  function ResultFields(selected: seq<Selected>): map<string, string> {
    if selected == [] then map[] else
    var last := selected[|selected| - 1];
    ResultFields(selected[..|selected| - 1])[last.alias := last.field]
  }

  predicate FieldsKnown(l: Layout, fields: map<string, string>) {
    forall alias :: alias in fields ==> fields[alias] in l.Names()
  }

  lemma {:induction false} ResultFieldsKnown(l: Layout, selected: seq<Selected>)
    requires SelectedOk(l, selected)
    ensures FieldsKnown(l, ResultFields(selected))
  {
    hide QuoteIdentifier;
    if selected != [] { ResultFieldsKnown(l, selected[..|selected| - 1]); }
  }

  function KindName(l: Layout, field: string): string
    requires field in l.Names()
  {
    match KindOf(l.ColumnOf(field).value.logicalType)
    case Ok(kind) => kind
    case Err(_) => ""
  }

  /** The kind of a field is that of its logical type, given by name or inside an object. */
  lemma {:induction false} KindNamed(l: Layout, field: string, kind: string)
    requires field in l.Names() && kind != ""
    ensures var t := l.ColumnOf(field).value.logicalType;
            KindName(l, field) == kind <==> t == JStr(kind) || (t.JObj? && "kind" in t.members
                                                                && t.members["kind"] == JStr(kind))
  {}

  const TIME_KINDS := {"utcTimestamp"}
  const JSON_KINDS := {"json", "objectRef", "recordRef"}

  function Flagged(l: Layout, fields: map<string, string>, done: set<string>, kinds: set<string>): set<string>
    requires FieldsKnown(l, fields)
  {
    set alias | alias in done && alias in fields && KindName(l, fields[alias]) in kinds
  }

  /** The aliases whose fields are of one of these kinds. */
  function AliasesOfKind(l: Layout, selected: seq<Selected>, kinds: set<string>): set<string>
    requires SelectedOk(l, selected)
  {
    ResultFieldsKnown(l, selected);
    Flagged(l, ResultFields(selected), ResultFields(selected).Keys, kinds)
  }

  lemma {:induction false} NoneFlagged(l: Layout, fields: map<string, string>, kinds: set<string>)
    requires FieldsKnown(l, fields)
    ensures Flagged(l, fields, {}, kinds) == {}
  {}

  lemma {:induction false} TimeIsNotJson(kind: string)
    ensures kind in TIME_KINDS <==> kind == "utcTimestamp"
    ensures kind == "utcTimestamp" ==> kind !in JSON_KINDS
  {
    assert |"utcTimestamp"| == 12;
  }

  lemma {:induction false} FlaggedMore(l: Layout, fields: map<string, string>, done: set<string>, alias: string,
                                       kinds: set<string>)
    requires FieldsKnown(l, fields) && alias in fields
    ensures Flagged(l, fields, done + {alias}, kinds)
         == Flagged(l, fields, done, kinds) + (if KindName(l, fields[alias]) in kinds then {alias} else {})
  {
    hide KindName;
  }

  lemma {:induction false} FlaggedIs(l: Layout, fields: map<string, string>, kinds: set<string>, alias: string)
    requires FieldsKnown(l, fields)
    ensures alias in Flagged(l, fields, fields.Keys, kinds) <==> alias in fields && KindName(l, fields[alias]) in kinds
  {
    hide KindName;
  }

  /** `_result_metadata` for selected columns. */
  method ResultMetadata(l: Layout, fields: map<string, string>) returns (times: set<string>, jsons: set<string>)
    requires FieldsKnown(l, fields)
    ensures forall alias :: alias in times <==> alias in fields && KindName(l, fields[alias]) == "utcTimestamp"
    ensures forall alias :: alias in jsons <==>
      alias in fields && KindName(l, fields[alias]) in {"json", "objectRef", "recordRef"}
    ensures times == Flagged(l, fields, fields.Keys, TIME_KINDS)
    ensures jsons == Flagged(l, fields, fields.Keys, JSON_KINDS)
  {
    hide KindName, Flagged;
    times, jsons := {}, {};
    var done: set<string> := {};
    NoneFlagged(l, fields, TIME_KINDS);
    NoneFlagged(l, fields, JSON_KINDS);
    while done != fields.Keys
      invariant done <= fields.Keys
      invariant times == Flagged(l, fields, done, TIME_KINDS)
      invariant jsons == Flagged(l, fields, done, JSON_KINDS)
      decreases fields.Keys - done
    {
      var alias :| alias in fields && alias !in done;
      var kind := KindName(l, fields[alias]);
      FlaggedMore(l, fields, done, alias, TIME_KINDS);
      FlaggedMore(l, fields, done, alias, JSON_KINDS);
      TimeIsNotJson(kind);
      if kind == "utcTimestamp" {
        times := times + {alias};
      } else if kind in JSON_KINDS {
        jsons := jsons + {alias};
      }
      done := done + {alias};
    }
    forall alias
      ensures alias in times <==> alias in fields && KindName(l, fields[alias]) == "utcTimestamp"
      ensures alias in jsons <==> alias in fields && KindName(l, fields[alias]) in {"json", "objectRef", "recordRef"}
    {
      FlaggedIs(l, fields, TIME_KINDS, alias);
      FlaggedIs(l, fields, JSON_KINDS, alias);
    }
  }

  method FieldsByAlias(selected: seq<Selected>) returns (fields: map<string, string>)
    ensures fields == ResultFields(selected)
  {
    fields := map[];
    for i := 0 to |selected|
      invariant fields == ResultFields(selected[..i])
    {
      assert selected[..i + 1][..i] == selected[..i];
      fields := fields[selected[i].alias := selected[i].field];
    }
    assert selected[..|selected|] == selected;
  }

  lemma {:induction false} ResultFieldOf(selected: seq<Selected>, i: nat)
    requires i < |selected| && Unique(Aliases(selected))
    ensures selected[i].alias in ResultFields(selected) && ResultFields(selected)[selected[i].alias]
            == selected[i].field
  {
    var n := |selected| - 1;
    assert forall j :: 0 <= j < |selected| ==> Aliases(selected)[j] == selected[j].alias;
    if i < n {
      assert Aliases(selected[..n]) == Aliases(selected)[..n];
      ResultFieldOf(selected[..n], i);
    }
  }

  /** With aliases of their own, selected fields are flagged by their own kind. */
  lemma {:induction false} FlaggedByKind(l: Layout, selected: seq<Selected>, kinds: set<string>, i: nat)
    requires SelectedOk(l, selected) && i < |selected| && Unique(Aliases(selected))
    ensures selected[i].alias in AliasesOfKind(l, selected, kinds) <==> KindName(l, selected[i].field) in kinds
  {
    hide QuoteIdentifier, KindName;
    ResultFieldsKnown(l, selected);
    ResultFieldOf(selected, i);
  }

  /** Everything that the statement selects: the columns, the sort aliases and the total. */
  function Selections(l: Layout, selected: seq<Selected>, sorts: seq<Sort>, total: bool): seq<Selection>
    requires SelectedOk(l, selected)
  {
    seq(|selected|, i requires 0 <= i < |selected| => OfColumn(l.Physical(selected[i].field), selected[i].alias))
    + seq(|sorts|, i requires 0 <= i < |sorts| => OfColumn(sorts[i].column, SortAlias(i)))
    + (if total then [OfCount(TOTAL_ALIAS)] else [])
  }

  // ---- The condition text ---------------------------------------------------

  function ScopePart(n: nat): Text { [Ident(HIDDEN_SCOPE), Op(Eq), Parameter(n, "String")] }

  function Bracketed(text: Text): Text { [LParen] + text + [RParen] }

  /** Scope comparison, bracketed filter and, after a cursor, the bracketed keyset. */
  function FullWhere(predicate_: Text, n: nat, keyset: Option<seq<Sort>>): Text {
    ScopePart(n) + [KwAnd] + Bracketed(predicate_)
    + (match keyset case None => [] case Some(sorts) => [KwAnd] + Bracketed(KeysetText(sorts, n + 1)))
  }

  function ScopeAst(n: nat): Expr { Cmp(Eq, Col(HIDDEN_SCOPE), ParExpr(n, "String")) }

  /** (scope AND filter) AND keyset. */
  function FullAst(filter: Option<Expr>, n: nat, keyset: Option<seq<Sort>>): Option<Expr> {
    if filter.None? then None else
    var scoped := And(ScopeAst(n), filter.value);
    match keyset
    case None => Some(scoped)
    case Some(sorts) => if KeysetAst(sorts, n + 1).None? then None else Some(And(scoped, KeysetAst(sorts, n + 1).value))
  }

  /** Inside brackets, and whatever follows them, the text is one operand. */
  ghost predicate OperandInBrackets(text: Text, ast: Option<Expr>) {
    forall rest :: ParsePrimary(Bracketed(text) + rest) == Lift(ast, rest)
  }

  lemma {:induction false} BracketedReads(text: Text, ast: Option<Expr>)
    requires OperandInBrackets(text, ast)
    ensures Reads(Bracketed(text), ast)
  {
    hide ParsePrimary, ParseNot, Reads;
    PrimaryReads(Bracketed(text), ast);
  }

  lemma {:induction false} BracketsAre(text: Text)
    ensures Bracketed(text) == [LParen] + text + [RParen]
  {}

  lemma {:induction false} ScopeReads(n: nat)
    ensures Reads(ScopePart(n), Some(ScopeAst(n)))
  {
    hide Reads, Parameter, ParExpr;
    ColumnReads(HIDDEN_SCOPE, Eq, n, "String");
  }

  lemma {:induction false} JoinTwo(parts: seq<Text>)
    requires |parts| == 2
    ensures Join(parts, KwAnd) == parts[0] + [KwAnd] + parts[1]
  {
    assert parts[1..] == [parts[1]];
  }

  lemma {:induction false} JoinThree(parts: seq<Text>)
    requires |parts| == 3
    ensures Join(parts, KwAnd) == parts[0] + [KwAnd] + parts[1] + ([KwAnd] + parts[2])
  {
    JoinTwo(parts[1..]);
    assert parts[0] + [KwAnd] + (parts[1] + [KwAnd] + parts[2]) == parts[0] + [KwAnd] + parts[1] + ([KwAnd] + parts[2]);
  }

  lemma {:induction false} FoldOne(a: Expr, b: Option<Expr>)
    ensures FoldAnd(Some(a), [b]) == if b.None? then None else Some(And(a, b.value))
  {
    assert [b][1..] == [];
  }

  lemma {:induction false} FoldTwo(a: Expr, b: Option<Expr>, c: Option<Expr>)
    ensures FoldAnd(Some(a), [b, c]) == if b.None? || c.None? then None else Some(And(And(a, b.value), c.value))
  {
    assert [b, c][1..] == [c];
    if b.Some? { FoldOne(And(a, b.value), c); }
  }

  lemma {:induction false} ScopeFirstBefore(text: Text, ast: Option<Expr>, n: nat, keyset: Option<seq<Sort>>,
                                            rest: Text)
    requires OperandInBrackets(text, ast) && Ends(rest)
    requires keyset.Some? ==> keyset.value != []
    ensures ParseOr(FullWhere(text, n, keyset) + rest) == Lift(FullAst(ast, n, keyset), rest)
  {
    hide Reads, ParseOr, ParsePrimary, OperandInBrackets, KeysetText, KeysetAst, Join, ScopePart, ScopeAst, Bracketed;
    BracketedReads(text, ast);
    ScopeReads(n);
    match keyset {
      case None =>
        var parts, asts := [ScopePart(n), Bracketed(text)], [Some(ScopeAst(n)), ast];
        JoinTwo(parts);
        assert FullWhere(text, n, keyset) == Join(parts, KwAnd);
        AndReadsAsOr(parts, asts, rest);
        assert asts[1..] == [ast];
        FoldOne(ScopeAst(n), ast);
      case Some(sorts) =>
        KeysetReads(sorts, n + 1);
        var k := KeysetAst(sorts, n + 1);
        assert Reads(Bracketed(KeysetText(sorts, n + 1)), k) by { BracketsAre(KeysetText(sorts, n + 1)); }
        var parts := [ScopePart(n), Bracketed(text), Bracketed(KeysetText(sorts, n + 1))];
        var asts := [Some(ScopeAst(n)), ast, k];
        JoinThree(parts);
        AndReadsAsOr(parts, asts, rest);
        assert asts[1..] == [ast, k];
        FoldTwo(ScopeAst(n), ast, k);
    }
  }

  /** Scope is never widened: for every filter text that is one operand in brackets, also one
      with a top-level OR, the whole condition is read as scope AND filter AND keyset. */
  lemma {:induction false} ScopeFirst(text: Text, ast: Option<Expr>, n: nat, keyset: Option<seq<Sort>>)
    requires OperandInBrackets(text, ast)
    requires keyset.Some? ==> keyset.value != []
    ensures ReadsWhole(FullWhere(text, n, keyset), FullAst(ast, n, keyset))
    ensures Parse(FullWhere(text, n, keyset)) == FullAst(ast, n, keyset)
  {
    hide ParseOr, FullWhere, FullAst, OperandInBrackets;
    forall rest | Ends(rest)
      ensures ParseOr(FullWhere(text, n, keyset) + rest) == Lift(FullAst(ast, n, keyset), rest)
    {
      ScopeFirstBefore(text, ast, n, keyset, rest);
    }
    assert FullWhere(text, n, keyset) + [] == FullWhere(text, n, keyset);
    assert Ends([]);
  }

  // ---- The two predicates ---------------------------------------------------

  function WirePredicate(l: Layout, filter: Option<Filter>): Text
    requires filter.Some? ==> Compiles(l, filter.value)
  {
    match filter case None => [One] case Some(e) => TextOf(l, e, 0)
  }

  function WirePredicateAst(l: Layout, filter: Option<Filter>): Option<Expr>
    requires filter.Some? ==> Compiles(l, filter.value)
  {
    match filter case None => Some(ConstOne) case Some(e) => Ast(l, e, 0, true)
  }

  function WireBindings(l: Layout, filter: Option<Filter>): seq<Json>
    requires filter.Some? ==> Compiles(l, filter.value)
  {
    match filter case None => [] case Some(e) => Bindings(l, e)
  }

  lemma {:induction false} OneReads(rest: Text)
    requires rest != [] && rest[0] == RParen
    ensures ParseOr([One] + rest) == Read(ConstOne, rest)
  {
    var text := [One] + rest;
    assert text[1..] == rest;
    assert ParsePrimary(text) == Read(ConstOne, rest);
    PrimaryAlone(text, Some(ConstOne), rest);
    NotAsOr(text, Some(ConstOne), rest);
  }

  lemma {:induction false} OneInBrackets()
    ensures OperandInBrackets([One], Some(ConstOne))
  {
    hide ParsePrimary, ParseOr;
    forall rest ensures ParsePrimary(Bracketed([One]) + rest) == Read(ConstOne, rest) {
      OneReads([RParen] + rest);
      BracketsRead([One], Some(ConstOne), rest);
    }
  }

  lemma {:induction false} WirePredicateReads(l: Layout, filter: Option<Filter>)
    requires filter.Some? ==> Compiles(l, filter.value)
    ensures OperandInBrackets(WirePredicate(l, filter), WirePredicateAst(l, filter))
  {
    hide ParsePrimary, TextOf, Ast;
    match filter {
      case None => OneInBrackets();
      case Some(e) =>
        AnyText(l, e, 0);
        forall rest ensures ParsePrimary(Bracketed(TextOf(l, e, 0)) + rest) == Lift(Ast(l, e, 0, true), rest) {
          PartInBrackets(TextOf(l, e, 0), Ast(l, e, 0, true), rest);
        }
    }
  }

  lemma {:induction false} MappingPredicateReads(atoms: seq<Atom>)
    requires AtomsOk(atoms)
    ensures OperandInBrackets(WhereText(atoms, 0), WhereAst(atoms, 0))
  {
    hide ParsePrimary, ParseOr, AtomTexts, AtomAsts, Join, Folded, AtomOk, Reads;
    if atoms == [] {
      OneInBrackets();
    } else {
      AtomsRead(atoms, 0);
      var parts, asts := AtomTexts(atoms, 0), AtomAsts(atoms, 0);
      FoldedAnd(asts);
      forall rest ensures ParsePrimary(Bracketed(WhereText(atoms, 0)) + rest) == Lift(WhereAst(atoms, 0), rest) {
        AndReadsAsOr(parts, asts, [RParen] + rest);
        BracketsRead(Join(parts, KwAnd), WhereAst(atoms, 0), rest);
      }
    }
  }

  // ---- Compilation ----------------------------------------------------------

  function Pins(plan: string, ctx: Context, size: nat): Expectations {
    Expectations(plan, ctx.schemas, ctx.registry, ctx.scopeFingerprint, size)
  }

  predicate Pinned(l: Layout, ctx: Context) {
    l.resource.Canonical() in ctx.schemas && ctx.schemas[l.resource.Canonical()] == l.schemaFingerprint
  }

  /** The cursor, if any, passes verification and its values can be bound. */
  predicate CursorOk(cursor: Option<Cursor>, pins: Expectations, sorts: seq<Sort>) {
    cursor.Some? ==> Verify(cursor.value, pins).Ok? && KeysetBinds(sorts, cursor.value.sortTuple)
  }

  /** Everything about a query that does not change from page to page. */
  datatype Query = Query(
    l: Layout, database: string, selected: seq<Selected>, total: bool, text: Text, bindings: seq<Json>,
    sorts: seq<Sort>, scope: string, pins: Expectations)

  function CommandOf(q: Query): Command
    requires SelectedOk(q.l, q.selected)
  {
    Command(false, false, q.sorts, Aliases(q.selected), AliasesOfKind(q.l, q.selected, TIME_KINDS),
            AliasesOfKind(q.l, q.selected, JSON_KINDS), q.pins)
  }

  function WhereOf(q: Query, cursor: Option<Cursor>): Text {
    FullWhere(q.text, |q.bindings|, if cursor.Some? then Some(q.sorts) else None)
  }

  function StatementOf(q: Query, where: Text): Text
    requires SelectedOk(q.l, q.selected)
  {
    SelectText(Selections(q.l, q.selected, q.sorts, q.total), q.database, q.l.table, q.l.queryFinal, where, q.sorts,
               q.pins.pageSize + 1)
  }

  /** The query as it is compiled for one page. */
  function Assembled(q: Query, cursor: Option<Cursor>): Compiled
    requires SelectedOk(q.l, q.selected) && CursorOk(cursor, q.pins, q.sorts)
  {
    Compiled(StatementOf(q, WhereOf(q, cursor)),
             ParameterMap(q.bindings + [JStr(q.scope)]
                          + (if cursor.Some? then KeysetBindings(q.sorts, cursor.value.sortTuple) else [])),
             CommandOf(q))
  }

  /** Whether the plan is one that the adapter advertises, for this layout. */
  predicate Advertised(l: Layout, op: Operation) {
    && op.name != "aggregate" && op.consistency == "eventual"
    && op.joins == 0 && !op.traverses && op.targets == [l.resource.Canonical()]
  }

  predicate WireAccepted(l: Layout, op: Operation, ctx: Context, settings: QuerySettings, plan: string)
    requires RolesOk(l)
  {
    && Advertised(l, op)
    && Pinned(l, ctx)
    && (op.filter.Some? ==> Compiles(l, op.filter.value))
    && WireWindowOk(op.name, op.filter, l, settings.maxSeconds)
    && WireOk(l, op.order)
    && CursorOk(op.cursor, Pins(plan, ctx, op.size), Completed(l, WireOrders(op.order)))
    && WireSelectOk(l, op.projection)
    && PhysicalIdentifier(settings.database)
  }

  function WireQuery(l: Layout, op: Operation, ctx: Context, settings: QuerySettings, plan: string): Query
    requires RolesOk(l) && WireOk(l, op.order) && WireSelectOk(l, op.projection)
    requires op.filter.Some? ==> Compiles(l, op.filter.value)
  {
    Query(l, settings.database, WireSelected(l, op.projection), op.total, WirePredicate(l, op.filter),
          WireBindings(l, op.filter), Completed(l, WireOrders(op.order)), ScopeDigest(ctx.scopeFingerprint),
          Pins(plan, ctx, op.size))
  }

  /** `_record_sql` and the command around it. */
  method Record(l: Layout, database: string, selected: seq<Selected>, total: bool, where: Text, sorts: seq<Sort>,
                pins: Expectations, parameters: map<string, Json>) returns (r: Compiled)
    requires SelectedOk(l, selected)
    ensures forall text: Text, bindings: seq<Json>, scope: string ::
      var q := Query(l, database, selected, total, text, bindings, sorts, scope, pins);
      r == Compiled(StatementOf(q, where), parameters, CommandOf(q))
  {
    hide SelectText, QuoteIdentifier, SortAlias;
    var selections: seq<Selection> := [];
    var columns: seq<string> := [];
    for i := 0 to |selected|
      invariant columns == Aliases(selected)[..i]
      invariant selections == Selections(l, selected, sorts, total)[..i]
    {
      assert SelectedAlone(l, selected[i]);
      selections := selections + [OfColumn(l.Physical(selected[i].field), selected[i].alias)];
      columns := columns + [selected[i].alias];
    }
    for i := 0 to |sorts|
      invariant selections == Selections(l, selected, sorts, total)[..|selected| + i]
    {
      selections := selections + [OfColumn(sorts[i].column, SortAlias(i))];
    }
    if total { selections := selections + [OfCount(TOTAL_ALIAS)]; }
    assert selections == Selections(l, selected, sorts, total) && columns == Aliases(selected);
    var fields := FieldsByAlias(selected);
    ResultFieldsKnown(l, selected);
    var times, jsons := ResultMetadata(l, fields);
    return Compiled(
      SelectText(selections, database, l.table, l.queryFinal, where, sorts, pins.pageSize + 1),
      parameters, Command(false, false, sorts, columns, times, jsons, pins));
  }

  lemma {:induction false} GroupWhere(text: Text, n: nat, resumed: bool, sorts: seq<Sort>)
    ensures var start := [Ident(HIDDEN_SCOPE), Op(Eq), Parameter(n, "String")] + [KwAnd] + [LParen] + text + [RParen];
            FullWhere(text, n, if resumed then Some(sorts) else None)
            == if resumed then start + [KwAnd] + [LParen] + KeysetText(sorts, n + 1) + [RParen] else start
  {
    hide KeysetText, Parameter;
    var start := [Ident(HIDDEN_SCOPE), Op(Eq), Parameter(n, "String")] + [KwAnd] + [LParen] + text + [RParen];
    assert start == ScopePart(n) + [KwAnd] + Bracketed(text);
    var k := KeysetText(sorts, n + 1);
    assert start + [KwAnd] + [LParen] + k + [RParen] == start + ([KwAnd] + Bracketed(k));
    assert start + [] == start;
  }

  /** The condition and parameters that a compilation has built up are those of the query. */
  lemma {:induction false} Built(q: Query, cursor: Option<Cursor>, where: Text, compiled: Compiled)
    requires SelectedOk(q.l, q.selected) && CursorOk(cursor, q.pins, q.sorts)
    requires var start := [Ident(HIDDEN_SCOPE), Op(Eq), Parameter(|q.bindings|, "String")] + [KwAnd] + [LParen]
             + q.text + [RParen];
             where == if cursor.Some? then start + [KwAnd] + [LParen] + KeysetText(q.sorts, |q.bindings| + 1)
               + [RParen] else start
    requires compiled.statement == StatementOf(q, where) && compiled.command == CommandOf(q)
    requires compiled.parameters
          == ParameterMap(q.bindings + [JStr(q.scope)]
                          + (if cursor.Some? then KeysetBindings(q.sorts, cursor.value.sortTuple) else []))
    ensures compiled == Assembled(q, cursor)
  {
    hide KeysetText, Parameter, FullWhere, ParameterMap, KeysetBindings, CursorOk, StatementOf, CommandOf, SelectedOk;
    GroupWhere(q.text, |q.bindings|, cursor.Some?, q.sorts);
  }

  lemma {:induction false} ScopeBinds(scope: string)
    ensures ParameterValue(JStr(scope), "String") == Ok(JStr(scope))
  {
    assert "String"[0] == 'S' && "Nullable("[0] == 'N' && "LowCardinality("[0] == 'L' && "DateTime"[0] == 'D';
  }

  /** `_compile_operation` for record queries; `l` is the layout that the settings hold for the
      target, and `plan` the fingerprint of the operation without its cursor. */
  method CompileWire(l: Layout, op: Operation, ctx: Context, settings: QuerySettings, plan: string)
    returns (r: Result<Compiled>)
    requires RolesOk(l) && op.name != "aggregate"
    ensures r.Ok? <==> WireAccepted(l, op, ctx, settings, plan)
    ensures r.Ok? ==> r.value == Assembled(WireQuery(l, op, ctx, settings, plan), op.cursor)
  {
    hide Compiles, TextOf, Bindings, Completed, KeysetText, KeysetBindings, KeysetBinds, ParameterMap, WireOk,
         WireWindowOk, Assembled, ScopeDigest, Parameter, ParameterValue, WireSelectOk, WireSelected, SelectedOk,
         PhysicalIdentifier, CommandOf, StatementOf;
    if op.consistency != "eventual" { return Err(Unsupported); }
    if op.joins > 0 || op.traverses || |op.targets| != 1 { return Err(Unsupported); }
    if op.targets[0] != l.resource.Canonical() { return Err(UnknownField); }
    var canonical := l.resource.Canonical();
    if canonical !in ctx.schemas || ctx.schemas[canonical] != l.schemaFingerprint { return Err(Incompatible); }
    var compiler := new SqlCompiler(l);
    var predicate_: Text := [One];
    if op.filter.Some? {
      var text := compiler.Expression(op.filter.value);
      if text.Err? { return Err(text.error); }
      predicate_ := text.value;
    }
    assert compiler.bound == WireBindings(l, op.filter) && predicate_ == WirePredicate(l, op.filter);
    var bounded := RequireWireWindow(op.name, op.filter, l, settings.maxSeconds);
    if !bounded { return Err(Unbounded); }
    ScopeBinds(ScopeDigest(ctx.scopeFingerprint));
    var scope := compiler.Parameter(JStr(ScopeDigest(ctx.scopeFingerprint)), "String");
    var where := [Ident(HIDDEN_SCOPE), Op(Eq), scope.value] + [KwAnd] + [LParen] + predicate_ + [RParen];
    var sorts := CompleteWire(l, op.order);
    if sorts.Err? { return Err(sorts.error); }
    var pins := Pins(plan, ctx, op.size);
    if op.cursor.Some? {
      var payload := Verify(op.cursor.value, pins);
      if payload.Err? { return Err(payload.error); }
      var keyset := compiler.Keyset(sorts.value, payload.value);
      if keyset.Err? { return Err(keyset.error); }
      where := where + [KwAnd] + [LParen] + keyset.value + [RParen];
    }
    var selected := SelectWire(l, op.projection);
    if selected.Err? { return Err(selected.error); }
    if !PhysicalIdentifier(settings.database) { return Err(BadLayout); }
    ghost var q := WireQuery(l, op, ctx, settings, plan);
    assert compiler.bound == q.bindings + [JStr(q.scope)]
                             + (if op.cursor.Some? then KeysetBindings(q.sorts, op.cursor.value.sortTuple) else []);
    var compiled := Record(l, settings.database, selected.value, op.total, where, sorts.value, pins,
                           compiler.parameters);
    Built(q, op.cursor, where, compiled);
    return Ok(compiled);
  }

  /** The page size of a mapping-first query. */
  function PageLimit(operation: string, limit: Option<Json>): Option<nat> {
    match limit
    case None => Some(if operation == "get" then 1 else 50)
    case Some(JInt(n)) => if 1 <= n <= 500 then Some(n) else None
    case _ => None
  }

  /** The limit check of `compile_simple_query`. */
  method ReadLimit(operation: string, limit: Option<Json>) returns (r: Option<nat>)
    ensures r == PageLimit(operation, limit)
    ensures limit == None ==> r == Some(if operation == "get" then 1 else 50)
    ensures limit.Some? ==> (r.Some? <==> limit.value.JInt? && 1 <= limit.value.number <= 500)
    ensures limit.Some? && r.Some? ==> limit.value == JInt(r.value)
  {
    if limit.None? {
      if operation == "get" { return Some(1); }
      return Some(50);
    }
    if !limit.value.JInt? || limit.value.number < 1 || limit.value.number > 500 { return None; }
    return Some(limit.value.number);
  }

  predicate MappingAccepted(l: Layout, operation: string, input: MappingInput, ctx: Context, settings: QuerySettings,
                            plan: string)
    requires RolesOk(l)
  {
    && operation != "aggregate"
    && WhereOk(l, input.where)
    && MappingWindowOk(operation, BoundsOf(Sorting.Sort(FieldOf, input.where)), l, settings.maxSeconds)
    && MappingSelectOk(l, input.select)
    && PageLimit(operation, input.limit).Some?
    && MappingOk(l, input.orderBy)
    && CursorOk(input.cursor, Pins(plan, ctx, PageLimit(operation, input.limit).value),
                Completed(l, EntryOrders(input.orderBy.items)))
    && PhysicalIdentifier(settings.database)
  }

  function MappingQuery(l: Layout, operation: string, input: MappingInput, ctx: Context, settings: QuerySettings,
                        plan: string): Query
    requires RolesOk(l) && MappingOk(l, input.orderBy) && WhereOk(l, input.where) && MappingSelectOk(l, input.select)
    requires PageLimit(operation, input.limit).Some?
  {
    Query(l, settings.database, MappingSelected(l, input.select), false, WhereText(Atoms(l, input.where), 0),
          AllAtomBindings(Atoms(l, input.where)), Completed(l, EntryOrders(input.orderBy.items)),
          ScopeDigest(ctx.scopeFingerprint), Pins(plan, ctx, PageLimit(operation, input.limit).value))
  }

  /** `compile_simple_query` for record queries; `plan` is the fingerprint of the input
      without its cursor. */
  method CompileMapping(l: Layout, operation: string, input: MappingInput, ctx: Context, settings: QuerySettings,
                        plan: string)
    returns (r: Result<Compiled>)
    requires RolesOk(l) && operation != "aggregate"
    ensures r.Ok? <==> MappingAccepted(l, operation, input, ctx, settings, plan)
    ensures r.Ok? ==> r.value == Assembled(MappingQuery(l, operation, input, ctx, settings, plan), input.cursor)
  {
    hide WhereText, Atoms, AllAtomBindings, AtomsOk, Completed, KeysetText, KeysetBindings, KeysetBinds, ParameterMap,
         MappingOk, MappingWindowOk, BoundsOf, Sorting.Sort, Assembled, ScopeDigest, Parameter, ParameterValue,
         SelectedOk, Named, PhysicalIdentifier, CommandOf, StatementOf;
    var compiler := new SqlCompiler(l);
    var compiled := compiler.SimpleWhere(input.where);
    if compiled.Err? { return Err(compiled.error); }
    var (predicate_, bounds) := compiled.value;
    ScopeBinds(ScopeDigest(ctx.scopeFingerprint));
    var scope := compiler.Parameter(JStr(ScopeDigest(ctx.scopeFingerprint)), "String");
    var where := [Ident(HIDDEN_SCOPE), Op(Eq), scope.value] + [KwAnd] + [LParen] + predicate_ + [RParen];
    var bounded := RequireMappingWindow(operation, bounds, l, settings.maxSeconds);
    if !bounded { return Err(Unbounded); }
    var names := ChosenNames(l, input.select);
    if names.Err? { return Err(names.error); }
    var selected := SelectNamed(l, names.value);
    if selected.Err? { return Err(selected.error); }
    var size := ReadLimit(operation, input.limit);
    if size.None? { return Err(OutOfRange); }
    var sorts := CompleteMapping(l, input.orderBy);
    if sorts.Err? { return Err(sorts.error); }
    var pins := Pins(plan, ctx, size.value);
    if input.cursor.Some? {
      var payload := Verify(input.cursor.value, pins);
      if payload.Err? { return Err(payload.error); }
      var keyset := compiler.Keyset(sorts.value, payload.value);
      if keyset.Err? { return Err(keyset.error); }
      where := where + [KwAnd] + [LParen] + keyset.value + [RParen];
    }
    if !PhysicalIdentifier(settings.database) { return Err(BadLayout); }
    ghost var q := MappingQuery(l, operation, input, ctx, settings, plan);
    assert compiler.bound == q.bindings + [JStr(q.scope)]
                             + (if input.cursor.Some? then KeysetBindings(q.sorts, input.cursor.value.sortTuple)
                               else []);
    var built := Record(l, settings.database, selected.value, false, where, sorts.value, pins, compiler.parameters);
    Built(q, input.cursor, where, built);
    return Ok(built);
  }

  // ---- What a compiled query selects ----------------------------------------

  /** The emitted statement is read back whole: its selections under their aliases, the table
      with FINAL as the layout asks, scope AND filter AND keyset, the sort columns with their
      directions, and one row more than the page holds. */
  lemma {:induction false} StatementIsRead(q: Query, ast: Option<Expr>, cursor: Option<Cursor>)
    requires SelectedOk(q.l, q.selected) && CursorOk(cursor, q.pins, q.sorts) && q.sorts != []
    requires OperandInBrackets(q.text, ast)
    ensures var condition := FullAst(ast, |q.bindings|, if cursor.Some? then Some(q.sorts) else None);
            ReadSelect(Assembled(q, cursor).statement) ==
            if condition.None? then None
            else Some(Select(Selections(q.l, q.selected, q.sorts, q.total), q.database, q.l.table, q.l.queryFinal,
                             condition.value, Directions(q.sorts), q.pins.pageSize + 1))
  {
    hide OperandInBrackets, ReadSelect, SelectText, FullWhere, FullAst, ParameterMap, KeysetBindings, CursorOk,
         ReadsWhole, SelectedOk, CommandOf;
    var keyset := if cursor.Some? then Some(q.sorts) else None;
    ScopeFirst(q.text, ast, |q.bindings|, keyset);
    SelectIsRead(Selections(q.l, q.selected, q.sorts, q.total), q.database, q.l.table, q.l.queryFinal,
                 FullWhere(q.text, |q.bindings|, keyset), FullAst(ast, |q.bindings|, keyset), q.sorts,
                 q.pins.pageSize + 1);
  }

  /** The selections of a statement, one by one, under the aliases that results are read by. */
  lemma {:induction false} SelectionsInWords(q: Query)
    requires SelectedOk(q.l, q.selected)
    ensures var s, n := Selections(q.l, q.selected, q.sorts, q.total), |q.selected|;
            && |s| == n + |q.sorts| + (if q.total then 1 else 0)
            && (forall i :: 0 <= i < n ==>
                  SelectedAlone(q.l, q.selected[i])
                  && s[i] == OfColumn(q.l.Physical(q.selected[i].field), q.selected[i].alias))
            && (forall i :: 0 <= i < |q.sorts| ==>
                  s[n + i] == OfColumn(q.sorts[i].column, "__meridian_sort_" + Decimal.Natural(i)))
            && (q.total ==> s[|s| - 1] == OfCount("__meridian_total"))
  {
    hide QuoteIdentifier;
  }

  /** The engine's verdict on a row. */
  ghost predicate Selects(c: Compiled, row: Row) {
    var read := ReadSelect(c.statement);
    read.Some? && True(Eval(read.value.where, c.parameters, row))
  }

  /** The filter, read alone and evaluated with the parameters of the query, is `meaning`. */
  ghost predicate FilterMeans(ast: Option<Expr>, bindings: seq<Json>, meaning: Row -> Value) {
    ast.Some? && forall env: Env, row: Row :: Holds(env, 0, bindings) ==> Eval(ast.value, env, row) == meaning(row)
  }

  lemma {:induction false} TrueAnd3(env: Env, row: Row, a: Expr, b: Expr)
    ensures True(Eval(And(a, b), env, row)) <==> True(Eval(a, env, row)) && True(Eval(b, env, row))
  {}

  lemma {:induction false} PlainString()
    ensures ParameterType("String") == "String"
  {
    assert "String"[0] == 'S' && "Nullable("[0] == 'N' && "LowCardinality("[0] == 'L';
  }

  lemma {:induction false} EvalScope(bindings: seq<Json>, scope: string, values: seq<Json>, row: Row)
    ensures var env := ParameterMap(bindings + [JStr(scope)] + values);
            True(Eval(ScopeAst(|bindings|), env, row)) <==> Cell(row, HIDDEN_SCOPE) == StrV(scope)
  {
    hide ParameterMap, Holds, ParameterName, ParameterType;
    var env := ParameterMap(bindings + [JStr(scope)] + values);
    HoldsIn(bindings, [JStr(scope)], values);
    HoldsAt(env, |bindings|, [JStr(scope)], 0);
    assert ParameterType("String") == "String" by { PlainString(); }
    assert !("DateTime" <= "String") by { assert "String"[0] == 'S'; }
    assert Eval(ParExpr(|bindings|, "String"), env, row) == StrV(scope);
  }

  lemma {:induction false} EvalBound(env: Env, n: nat, values: seq<Json>, i: nat, ctype: string)
    requires Holds(env, n, values) && i < |values|
    ensures Eval(ParExpr(n + i, ctype), env, map[]) == Denote(ParameterType(ctype), values[i])
  {
    hide Holds, ParameterName, ParameterType, Denote;
    HoldsAt(env, n, values, i);
  }

  lemma {:induction false} EvalKeyset(bindings: seq<Json>, scope: string, sorts: seq<Sort>, tuple: seq<Value>,
                                      native: bool, row: Row)
    requires sorts != [] && TypedTuple(sorts, tuple) && TypedTuple(sorts, TupleOf(row, sorts))
    requires KeysetBinds(sorts, CursorTuple(sorts, tuple, native))
    ensures var env := ParameterMap(bindings + [JStr(scope)] + KeysetBindings(sorts,
            CursorTuple(sorts, tuple, native)));
            && KeysetAst(sorts, |bindings| + 1).Some?
            && (True(Eval(KeysetAst(sorts, |bindings| + 1).value, env, row)) <==>
              TupleBefore(tuple, TupleOf(row, sorts), sorts))
  {
    hide ParameterMap, Holds, KeysetAst, CursorTuple, TypedTuple, TupleBefore, ParameterType, Denote, Eval, ParExpr,
         TupleOf;
    var n := |bindings| + 1;
    var values := KeysetBindings(sorts, CursorTuple(sorts, tuple, native));
    var env := ParameterMap(bindings + [JStr(scope)] + values);
    TupleLossless(sorts, tuple, native);
    TypedSameKinds(sorts, tuple, TupleOf(row, sorts));
    assert bindings + [JStr(scope)] + values + [] == bindings + [JStr(scope)] + values;
    HoldsIn(bindings + [JStr(scope)], values, []);
    forall i | 0 <= i < |sorts| ensures DenotesAt(env, sorts, n, tuple, i) {
      EvalBound(env, n, values, i, sorts[i].ctype);
    }
    KeysetCorrect(env, sorts, n, tuple, row);
  }

  /** The parameters of a query, in the order of their numbers. */
  function BoundBy(q: Query, cursor: Option<Cursor>): seq<Json>
    requires CursorOk(cursor, q.pins, q.sorts)
  {
    q.bindings + [JStr(q.scope)]
    + (if cursor.Some? then KeysetBindings(q.sorts, cursor.value.sortTuple) else [])
  }

  lemma {:induction false} SelectsFull(q: Query, ast: Option<Expr>, cursor: Option<Cursor>, row: Row)
    requires SelectedOk(q.l, q.selected) && CursorOk(cursor, q.pins, q.sorts) && q.sorts != []
    requires OperandInBrackets(q.text, ast)
    ensures var full := FullAst(ast, |q.bindings|, if cursor.Some? then Some(q.sorts) else None);
            Selects(Assembled(q, cursor), row) <==>
            full.Some? && True(Eval(full.value, ParameterMap(BoundBy(q, cursor)), row))
  {
    hide ReadSelect, Eval, ParameterMap, KeysetBindings, FullAst, Truth, StatementOf, CommandOf, SelectedOk,
         Selections, Directions, OperandInBrackets, CursorOk;
    StatementIsRead(q, ast, cursor);
  }

  /** Selection is exactly: own scope, filter true, and strictly after the cursor tuple. */
  lemma {:induction false} SelectionMeaning(q: Query, ast: Option<Expr>, meaning: Row -> Value,
                                            tuple: Option<seq<Value>>, native: bool, cursor: Option<Cursor>, row: Row)
    requires SelectedOk(q.l, q.selected)
    requires OperandInBrackets(q.text, ast) && FilterMeans(ast, q.bindings, meaning)
    requires q.sorts != []
    requires tuple.Some? ==> TypedTuple(q.sorts, tuple.value) && TypedTuple(q.sorts, TupleOf(row, q.sorts))
    requires cursor == match tuple case None => None case Some(t) => Some(Issue(q.pins,
             CursorTuple(q.sorts, t, native)))
    requires CursorOk(cursor, q.pins, q.sorts)
    ensures Selects(Assembled(q, cursor), row) <==>
            && Cell(row, HIDDEN_SCOPE) == StrV(q.scope)
            && True(meaning(row))
            && (tuple.Some? ==> TupleBefore(tuple.value, TupleOf(row, q.sorts), q.sorts))
  {
    hide Eval, Holds, ParameterMap, KeysetAst, KeysetBindings, CursorTuple, OperandInBrackets, TypedTuple, TupleBefore,
         ParExpr, TupleOf, ScopeAst, Truth, Assembled, Selects, SelectedOk;
    var n, sorts, bindings, scope := |q.bindings|, q.sorts, q.bindings, q.scope;
    var values := if cursor.Some? then KeysetBindings(sorts, cursor.value.sortTuple) else [];
    var env := ParameterMap(bindings + [JStr(scope)] + values);
    SelectsFull(q, ast, cursor, row);
    assert Holds(env, 0, bindings) by {
      assert [] + bindings + ([JStr(scope)] + values) == bindings + [JStr(scope)] + values;
      HoldsIn([], bindings, [JStr(scope)] + values);
    }
    EvalScope(bindings, scope, values, row);
    if tuple.Some? {
      EvalKeyset(bindings, scope, sorts, tuple.value, native, row);
      TrueAnd3(env, row, And(ScopeAst(n), ast.value), KeysetAst(sorts, n + 1).value);
    }
    TrueAnd3(env, row, ScopeAst(n), ast.value);
  }
}
