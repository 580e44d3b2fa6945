/** How an engine reads a table definition, and that it reads what the layout means. */
module Definitions {
  import opened Common
  import opened Identifiers
  import opened Layouts
  import opened Sorts
  import opened Schema
  import Decimal
  import Timestamps

  // ---- The reader -----------------------------------------------------------

  /** An index as it is defined: name, columns, and what follows TYPE. */
  datatype Index = Index(name: string, columns: seq<string>, kind: string)

  datatype Item = ColumnItem(column: (string, string)) | IndexItem(index: Index)

  /** The engine: its name, where replicas meet, and the version column. */
  datatype Engine = Engine(name: string, path: Option<string>, version: string)

  /** A table as the engine's system tables describe it: a partition is a function of a column, and
      a retention a number of seconds after a column. */
  datatype TableDef = TableDef(
    columns: seq<(string, string)>, indexes: seq<Index>, engine: string, path: Option<string>, version: string,
    partition: Option<(string, string)>, key: seq<string>, retention: Option<(string, nat)>, settings: string)

  datatype Statement = Statement(database: string, table: string, definition: TableDef)

  function ReadQuoted(text: string): (r: Option<(string, string)>)
    ensures r.Some? ==> |r.value.1| < |text|
  {
    if text == "" || text[0] != '`' then None else
    match Unquote(text[1..])
    case None => None
    case Some((name, rest)) => if name == "" then None else Some((name, rest))
  }

  /** The longest start of a text that a plain name can be. */
  function Bare(text: string): (r: string)
    ensures r <= text
  {
    if text == "" || !IsPart(text[0]) then "" else [text[0]] + Bare(text[1..])
  }

  /** A plain name, or any name in quotes. */
  function ReadName(text: string): Option<(string, string)> {
    if text != "" && IsStart(text[0]) then Some((Bare(text), text[|Bare(text)|..])) else ReadQuoted(text)
  }

  /** Names separated by a comma and a space, closed by a bracket. */
  function ReadNames(text: string): Option<(seq<string>, string)>
    decreases |text|
  {
    match ReadQuoted(text)
    case None => None
    case Some((name, rest)) =>
      if rest != "" && rest[0] == ')' then Some(([name], rest[1..]))
      else if |rest| < 2 || rest[..2] != ", " then None
      else match ReadNames(rest[2..])
        case None => None
        case Some((names, behind)) => Some(([name] + names, behind))
  }

  function ReadIndex(text: string): Option<Index> {
    match ReadQuoted(text)
    case None => None
    case Some((name, rest)) =>
      if !(" (" <= rest) then None else
      match ReadNames(rest[2..])
      case None => None
      case Some((columns, kind)) => if " TYPE " <= kind then Some(Index(name, columns, kind[6..])) else None
  }

  function ReadColumn(text: string): Option<(string, string)> {
    match ReadName(text)
    case None => None
    case Some((name, rest)) => if " " <= rest then Some((name, rest[1..])) else None
  }

  function ReadItem(line: string): Option<Item> {
    if "    INDEX " <= line then (match ReadIndex(line[10..]) case None => None case Some(i) => Some(IndexItem(i)))
    else if "    " <= line then (match ReadColumn(line[4..]) case None => None case Some(c) => Some(ColumnItem(c)))
    else None
  }

  /** Definitions up to the closing bracket; all but the last end in a comma. */
  function ReadDefinitions(lines: seq<string>): Option<(seq<Item>, seq<string>)> {
    if |lines| < 2 then None
    else if lines[1] == ")" then
      match ReadItem(lines[0])
      case None => None
      case Some(item) => Some(([item], lines[2..]))
    else if lines[0] == "" || lines[0][|lines[0]| - 1] != ',' then None
    else
      match ReadItem(lines[0][..|lines[0]| - 1])
      case None => None
      case Some(item) =>
        match ReadDefinitions(lines[1..])
        case None => None
        case Some((items, rest)) => Some(([item] + items, rest))
  }

  /** The text up to the first occurrence of a character. */
  function UpTo(c: char, s: string): (r: string)
    ensures r <= s
  {
    if s == "" || s[0] == c then "" else [s[0]] + UpTo(c, s[1..])
  }

  function ReadHeader(line: string): Option<(string, string)> {
    if !("CREATE TABLE IF NOT EXISTS " <= line) then None else
    match ReadQuoted(line[27..])
    case None => None
    case Some((database, rest)) =>
      if !("." <= rest) then None else
      match ReadQuoted(rest[1..])
      case None => None
      case Some((table, tail)) => if tail == " (" then Some((database, table)) else None
  }

  /** One name before a closing bracket. */
  function ReadLast(text: string): Option<string> {
    match ReadName(text)
    case None => None
    case Some((name, rest)) => if rest == ")" then Some(name) else None
  }

  /** The arguments of an engine: path and replica, if there are replicas, and the version column. */
  function ReadArguments(name: string, arguments: string): Option<Engine> {
    if "'" <= arguments then
      var path := UpTo('\'', arguments[1..]);
      var rest := arguments[1..][|path|..];
      if !("', '{replica}', " <= rest) then None else
      match ReadLast(rest[16..])
      case None => None
      case Some(version) => Some(Engine(name, Some(path), version))
    else
      match ReadLast(arguments)
      case None => None
      case Some(version) => Some(Engine(name, None, version))
  }

  function ReadEngine(line: string): Option<Engine> {
    if !("ENGINE = " <= line) then None else
    var name := UpTo('(', line[9..]);
    var open := line[9..][|name|..];
    if open == "" then None else ReadArguments(name, open[1..])
  }

  function ReadPartition(line: string): Option<(string, string)> {
    if !("PARTITION BY " <= line) then None else
    var f := UpTo('(', line[13..]);
    var open := line[13..][|f|..];
    if open == "" then None else
    match ReadLast(open[1..])
    case None => None
    case Some(column) => Some((f, column))
  }

  /** The key: bracketed names, or one name alone. */
  function ReadKey(line: string): Option<seq<string>> {
    if "ORDER BY (" <= line then
      match ReadNames(line[10..])
      case None => None
      case Some((names, rest)) => if rest == "" then Some(names) else None
    else if "ORDER BY " <= line then
      match ReadName(line[9..])
      case None => None
      case Some((name, rest)) => if rest == "" then Some([name]) else None
    else None
  }

  /** Rows are deleted some seconds after their time. */
  function ReadTtl(line: string): Option<(string, nat)> {
    if !("TTL toDateTime(" <= line) then None else
    match ReadName(line[15..])
    case None => None
    case Some((column, rest)) =>
      if !(") + toIntervalSecond(" <= rest) then None else
      var number := rest[21..];
      var n := Timestamps.LeadingDigits(number);
      if n > 0 && number[n..] == ") DELETE" then Some((column, Decimal.Number(number[..n]))) else None
  }

  function ReadSettings(lines: seq<string>): Option<string> {
    if lines == [] then Some("")
    else if |lines| == 1 && "SETTINGS " <= lines[0] then Some(lines[0][9..])
    else None
  }

  /** The engine prints a plain name bare and any other name in quotes. */
  function PrintName(name: string): string { if name != "" && AllParts(name) then name else Quoted(name) }

  function PrintNames(names: seq<string>): (r: seq<string>)
    ensures |r| == |names|
  {
    seq(|names|, i requires 0 <= i < |names| => PrintName(names[i]))
  }

  function ColumnsOf(items: seq<Item>): seq<(string, string)> {
    if items == [] then []
    else (if items[0].ColumnItem? then [items[0].column] else []) + ColumnsOf(items[1..])
  }

  function IndexesOf(items: seq<Item>): seq<Index> {
    if items == [] then []
    else (if items[0].IndexItem? then [items[0].index] else []) + IndexesOf(items[1..])
  }

  /** The clauses behind the definitions: engine, optional partition, key, optional retention and
      optional settings, in this order and nothing else. */
  function ReadClauses(items: seq<Item>, lines: seq<string>): Option<TableDef> {
    if lines == [] then None else
    match ReadEngine(lines[0])
    case None => None
    case Some(engine) =>
      var partitioned := |lines| > 1 && "PARTITION BY " <= lines[1];
      var partition := if partitioned then ReadPartition(lines[1]) else None;
      if partitioned && partition == None then None else
      var keyed := if partitioned then lines[2..] else lines[1..];
      if keyed == [] then None else
      match ReadKey(keyed[0])
      case None => None
      case Some(key) =>
        var retained := |keyed| > 1 && "TTL " <= keyed[1];
        var retention := if retained then ReadTtl(keyed[1]) else None;
        if retained && retention == None then None else
        match ReadSettings(if retained then keyed[2..] else keyed[1..])
        case None => None
        case Some(settings) =>
          Some(TableDef(ColumnsOf(items), IndexesOf(items), engine.name, engine.path, engine.version, partition,
                        PrintNames(key), retention, settings))
  }

  function ReadTable(lines: seq<string>): Option<Statement> {
    if lines == [] then None else
    match ReadHeader(lines[0])
    case None => None
    case Some((database, table)) =>
      match ReadDefinitions(lines[1..])
      case None => None
      case Some((items, rest)) =>
        match ReadClauses(items, rest)
        case None => None
        case Some(definition) => Some(Statement(database, table, definition))
  }

  // ---- Names ----------------------------------------------------------------

  lemma {:induction false} QuotedIsRead(name: string, rest: string)
    requires name != "" && (rest == "" || rest[0] != '`')
    ensures ReadQuoted(Quoted(name) + rest) == Some((name, rest))
    ensures ReadName(Quoted(name) + rest) == Some((name, rest))
  {
    UnquoteDoubled(name, rest);
    assert (Quoted(name) + rest)[1..] == Doubled(name) + "`" + rest;
    assert (Quoted(name) + rest)[0] == '`';
  }

  lemma {:induction false} BareIsRead(name: string, rest: string)
    requires AllParts(name) && (rest == "" || !IsPart(rest[0]))
    ensures Bare(name + rest) == name
    ensures name != "" && IsStart(name[0]) ==> ReadName(name + rest) == Some((name, rest))
  {
    var text := name + rest;
    if name != "" {
      BareIsRead(name[1..], rest);
      assert text[1..] == name[1..] + rest;
      assert text[|name|..] == rest;
    } else {
      assert text == rest;
    }
  }

  lemma {:induction false} NamesAreRead(names: seq<string>, rest: string)
    requires names != [] && forall n :: n in names ==> n != ""
    ensures ReadNames(JoinNames(QuotedNames(names)) + (")" + rest)) == Some((names, rest))
  {
    hide ReadQuoted, Quoted;
    var quoted := QuotedNames(names);
    assert names[0] in names;
    if |names| == 1 {
      QuotedIsRead(names[0], ")" + rest);
      assert names == [names[0]];
    } else {
      var more := ", " + (JoinNames(quoted[1..]) + (")" + rest));
      assert JoinNames(quoted) + (")" + rest) == quoted[0] + more;
      assert quoted[1..] == QuotedNames(names[1..]);
      forall n | n in names[1..] ensures n != "" { assert n in names; }
      NamesAreRead(names[1..], rest);
      QuotedIsRead(names[0], more);
      assert more[..2] == ", " && more[2..] == JoinNames(quoted[1..]) + (")" + rest);
      assert names == [names[0]] + names[1..];
    }
  }

  lemma {:induction false} LastIsRead(name: string)
    requires name != ""
    ensures ReadLast(Quoted(name) + ")") == Some(name)
  {
    hide ReadName, Quoted;
    QuotedIsRead(name, ")");
  }

  lemma {:induction false} FoundUpTo(c: char, name: string, rest: string)
    requires (forall i :: 0 <= i < |name| ==> name[i] != c) && rest != "" && rest[0] == c
    ensures UpTo(c, name + rest) == name && (name + rest)[|name|..] == rest
  {
    var text := name + rest;
    if name != "" {
      FoundUpTo(c, name[1..], rest);
      assert text[1..] == name[1..] + rest;
    }
  }

  lemma {:induction false} NoOddParts(name: string, c: char)
    requires AllParts(name) && !IsPart(c)
    ensures forall i :: 0 <= i < |name| ==> name[i] != c
  {}

  // ---- Definitions ----------------------------------------------------------

  /** Name and type of every column, hidden columns first. */
  function TableColumns(l: Layout): (r: seq<(string, string)>)
    ensures |r| == 7 + |l.columns|
  {
    seq(7, i requires 0 <= i < 7 => (HIDDEN_COLUMNS[i], HIDDEN_TYPES[i]))
    + seq(|l.columns|, i requires 0 <= i < |l.columns| => (l.columns[i].physical, l.columns[i].ctype))
  }

  /** Each index covers the columns of its fields, in their order. */
  function TableIndexes(l: Layout, names: seq<string>): (r: seq<Index>)
    requires forall n :: n in names ==> n in l.indexes && forall f :: f in l.indexes[n] ==> f in l.Names()
    ensures |r| == |names|
  {
    seq(|names|, i requires 0 <= i < |names| =>
      Index(names[i], PhysicalOf(l, l.indexes[names[i]]), "minmax GRANULARITY 1"))
  }

  /** A line, without its comma, that defines the item. */
  ghost predicate Defines(line: string, item: Item) { line != ")" && line != "" && ReadItem(line) == Some(item) }

  lemma {:induction false} QuotedStarts(name: string)
    ensures Quoted(name)[0] == '`'
  {}

  lemma {:induction false} ColumnDefines(name: string, ctype: string)
    requires name != ""
    ensures Defines(ColumnLine(name, ctype), ColumnItem((name, ctype)))
  {
    hide ReadQuoted, Quoted, ReadName;
    var line := ColumnLine(name, ctype);
    assert line == "    " + (Quoted(name) + (" " + ctype));
    assert line[4..] == Quoted(name) + (" " + ctype) && "    " <= line;
    QuotedIsRead(name, " " + ctype);
    assert (" " + ctype)[1..] == ctype;
    assert line[4] == '`' && "    INDEX "[4] == 'I' by { QuotedStarts(name); }
    assert line[0] == ' ';
  }

  lemma {:induction false} BareDefines(name: string, ctype: string)
    requires name != "" && AllParts(name) && 'a' <= name[0] <= 'z'
    ensures Defines("    " + name + " " + ctype, ColumnItem((name, ctype)))
  {
    hide Bare, ReadQuoted;
    var line, rest := "    " + name + " " + ctype, " " + ctype;
    assert line[4..] == name + rest && line[..4] == "    ";
    BareIsRead(name, rest);
    assert rest[1..] == ctype;
    assert line[0] == ' ' && line[4] == name[0] && "    INDEX "[4] == 'I';
  }

  lemma {:induction false} IndexDefines(l: Layout, name: string)
    requires name in l.indexes && l.indexes[name] != [] && forall f :: f in l.indexes[name] ==> f in l.Names()
    requires name != "" && forall f :: f in l.indexes[name] ==> l.Physical(f) != ""
    ensures Defines(IndexLine(l, name), IndexItem(Index(name, PhysicalOf(l, l.indexes[name]), "minmax GRANULARITY 1")))
  {
    hide ReadQuoted, Quoted, ReadNames, JoinNames;
    var columns := PhysicalOf(l, l.indexes[name]);
    var tail := " TYPE minmax GRANULARITY 1";
    var inner := JoinNames(QuotedNames(columns)) + (")" + tail);
    var line := IndexLine(l, name);
    assert ")" + tail == ") TYPE minmax GRANULARITY 1";
    assert line == "    INDEX " + (Quoted(name) + (" (" + inner));
    assert line[10..] == Quoted(name) + (" (" + inner) && "    INDEX " <= line && line[0] == ' ';
    QuotedIsRead(name, " (" + inner);
    assert (" (" + inner)[2..] == inner;
    forall n | n in columns ensures n != "" {
      var i :| 0 <= i < |columns| && columns[i] == n;
      assert l.indexes[name][i] in l.indexes[name];
    }
    NamesAreRead(columns, tail);
    assert tail[6..] == "minmax GRANULARITY 1";
  }

  lemma {:induction false} NotTheEnd(line: string, comma: bool)
    requires line != ")" && line != ""
    ensures line + (if comma then "," else "") != ")"
  {
    var text := line + (if comma then "," else "");
    if comma { assert |text| > 1; } else { assert text == line; }
  }

  lemma {:induction false} TailCommas(lines: seq<string>)
    requires lines != []
    ensures WithCommas(lines)[1..] == WithCommas(lines[1..])
  {}

  lemma {:induction false} DefinitionsAreRead(lines: seq<string>, items: seq<Item>, rest: seq<string>)
    requires |lines| == |items| > 0 && forall i :: 0 <= i < |lines| ==> Defines(lines[i], items[i])
    ensures ReadDefinitions(WithCommas(lines) + ([")"] + rest)) == Some((items, rest))
  {
    hide ReadItem;
    var text := WithCommas(lines) + ([")"] + rest);
    assert Defines(lines[0], items[0]);
    if |lines| == 1 {
      assert text == [lines[0] + ""] + ([")"] + rest) && lines[0] + "" == lines[0];
      assert text[2..] == rest && items == [items[0]];
    } else {
      var line := lines[0] + ",";
      assert text[0] == line && line[|line| - 1] == ',' && line[..|line| - 1] == lines[0];
      TailCommas(lines);
      assert text[1..] == WithCommas(lines[1..]) + ([")"] + rest);
      assert Defines(lines[1], items[1]);
      assert text[1] != ")" by {
        assert text[1] == lines[1] + (if 1 < |lines| - 1 then "," else ""); NotTheEnd(lines[1], 1 < |lines| - 1);
      }
      DefinitionsAreRead(lines[1..], items[1..], rest);
      assert items == [items[0]] + items[1..];
    }
  }

  function ItemsOf(columns: seq<(string, string)>, indexes: seq<Index>): (r: seq<Item>)
    ensures |r| == |columns| + |indexes|
  {
    seq(|columns|, i requires 0 <= i < |columns| => ColumnItem(columns[i]))
    + seq(|indexes|, i requires 0 <= i < |indexes| => IndexItem(indexes[i]))
  }

  lemma {:induction false} ItemsSplit(columns: seq<(string, string)>, indexes: seq<Index>)
    ensures ColumnsOf(ItemsOf(columns, indexes)) == columns && IndexesOf(ItemsOf(columns, indexes)) == indexes
    decreases |columns| + |indexes|
  {
    var items := ItemsOf(columns, indexes);
    if columns != [] {
      ItemsSplit(columns[1..], indexes);
      assert items[1..] == ItemsOf(columns[1..], indexes);
      assert columns == [columns[0]] + columns[1..];
    } else if indexes != [] {
      ItemsSplit(columns, indexes[1..]);
      assert items[1..] == ItemsOf(columns, indexes[1..]);
      assert indexes == [indexes[0]] + indexes[1..];
    }
  }

  lemma {:induction false} IndexShape(l: Layout, name: string)
    requires ColumnsOk(l) && IndexesOk(l) && name in l.indexes
    ensures name != "" && l.indexes[name] != [] && forall f :: f in l.indexes[name] ==>
            f in l.Names() && l.Physical(f) != ""
  {
    hide Column.Valid;
    assert IndexOk(l, name);
    forall f | f in l.indexes[name] ensures f in l.Names() && l.Physical(f) != "" {
      assert f in Elements(l.Names());
      PhysicalOfIsPlain(l, f);
    }
  }

  lemma {:induction false} DefinitionLine(l: Layout, names: seq<string>, i: nat)
    requires ColumnsOk(l) && IndexesOk(l) && IndexNames(l, names) && i < 7 + |l.columns| + |names|
    ensures Defines((HiddenLines() + UserLines(l) + IndexLines(l, names))[i],
                    ItemsOf(TableColumns(l), TableIndexes(l, names))[i])
  {
    hide ReadItem, ColumnLine, IndexLine, ValidColumnType, Defines;
    if i < 7 {
      ColumnDefines(HIDDEN_COLUMNS[i], HIDDEN_TYPES[i]);
    } else if i < 7 + |l.columns| {
      var c := l.columns[i - 7];
      assert c in l.columns && c.Valid();
      ColumnDefines(c.physical, c.ctype);
    } else {
      var name := names[i - 7 - |l.columns|];
      assert name in names;
      IndexShape(l, name);
      IndexDefines(l, name);
    }
  }

  // ---- Clauses --------------------------------------------------------------

  lemma {:induction false} HeaderIsRead(database: string, table: string)
    requires database != "" && table != ""
    ensures ReadHeader(HeaderLine(database, table)) == Some((database, table))
  {
    hide ReadQuoted, Quoted;
    var line := HeaderLine(database, table);
    assert line[..27] == "CREATE TABLE IF NOT EXISTS ";
    var rest := "." + (Quoted(table) + " (");
    assert line[27..] == Quoted(database) + rest;
    QuotedIsRead(database, rest);
    assert rest[1..] == Quoted(table) + " (";
    QuotedIsRead(table, " (");
  }

  /** The path that the engine has for its replicas, if the topology has any. */
  function PathOf(database: string, table: string, topology: string): Option<string> {
    if topology == "clickhouse-replicated" then Some(ReplicaPath(database, table)) else None
  }

  /** Different tables of one installation never share a path. */
  lemma {:induction false} PathsDiffer(database: string, table: string, other: string, another: string)
    requires AllParts(database) && AllParts(table) && AllParts(other) && AllParts(another)
    requires ReplicaPath(database, table) == ReplicaPath(other, another)
    ensures database == other && table == another
  {
    var a, b := database + ("/" + table), other + ("/" + another);
    assert ReplicaPath(database, table) == "/clickhouse/tables/{shard}/" + a;
    assert ReplicaPath(other, another) == "/clickhouse/tables/{shard}/" + b;
    assert a == ReplicaPath(database, table)[27..] && b == ReplicaPath(other, another)[27..];
    NoOddParts(database, '/');
    NoOddParts(other, '/');
    FoundUpTo('/', database, "/" + table);
    FoundUpTo('/', other, "/" + another);
    assert ("/" + table)[1..] == table && ("/" + another)[1..] == another;
  }

  lemma {:induction false} PathHasNoQuote(database: string, table: string)
    requires AllParts(database) && AllParts(table)
    ensures forall i :: 0 <= i < |ReplicaPath(database, table)| ==> ReplicaPath(database, table)[i] != '\''
  {
    NoOddParts(database, '\'');
    NoOddParts(table, '\'');
    var a := "/clickhouse/tables/{shard}/";
    assert forall i :: 0 <= i < |a| ==> a[i] != '\'';
    assert ReplicaPath(database, table) == a + database + "/" + table;
  }

  lemma {:induction false} ArgumentsAreRead(name: string, path: string, version: string, printed: string)
    requires forall i :: 0 <= i < |path| ==> path[i] != '\''
    requires ReadLast(printed + ")") == Some(version) && printed != "" && printed[0] != '\''
    ensures ReadArguments(name, printed + ")") == Some(Engine(name, None, version))
    ensures ReadArguments(name, "'" + (path + "', '{replica}', ") + (printed + ")"))
            == Some(Engine(name, Some(path), version))
  {
    hide ReadLast, UpTo;
    assert (printed + ")")[0] == printed[0];
    var rest := "', '{replica}', " + (printed + ")");
    var arguments := "'" + (path + "', '{replica}', ") + (printed + ")");
    assert arguments == "'" + (path + rest);
    assert arguments[1..] == path + rest;
    FoundUpTo('\'', path, rest);
    assert rest[16..] == printed + ")" && rest[..16] == "', '{replica}', ";
  }

  lemma {:induction false} NoBracket(topology: string)
    ensures forall i :: 0 <= i < |EngineName(topology)| ==> EngineName(topology)[i] != '('
  {}

  lemma {:induction false} EngineIsRead(database: string, table: string, topology: string, version: string,
                                        printed: string)
    requires AllParts(database) && AllParts(table)
    requires ReadLast(printed + ")") == Some(version) && printed != "" && printed[0] != '\''
    ensures ReadEngine("ENGINE = " + EngineText(database, table, topology, printed))
         == Some(Engine(EngineName(topology), PathOf(database, table, topology), version))
  {
    hide ReadLast, ReplicaPath, UpTo, ReadArguments;
    var path, name := ReplicaPath(database, table), EngineName(topology);
    var arguments := (if topology == "clickhouse-replicated" then "'" + (path + "', '{replica}', ") else "")
                     + (printed + ")");
    var line := "ENGINE = " + EngineText(database, table, topology, printed);
    assert line[..9] == "ENGINE = " && line[9..] == name + ("(" + arguments);
    NoBracket(topology);
    FoundUpTo('(', name, "(" + arguments);
    assert ("(" + arguments)[1..] == arguments;
    PathHasNoQuote(database, table);
    ArgumentsAreRead(name, path, version, printed);
    if topology != "clickhouse-replicated" { assert arguments == printed + ")"; }
  }

  /** The function by which a table of this interval is partitioned. */
  function PartitionFunction(interval: string): string {
    match interval
    case "hour" => "toStartOfHour"
    case "day" => "toDate"
    case _ => "toYYYYMM"
  }

  lemma {:induction false} PhysicalIsPlain(c: Column)
    requires c.Valid()
    ensures c.physical != "" && AllParts(c.physical)
  {}

  lemma {:induction false} PhysicalOfIsPlain(l: Layout, name: string)
    requires ColumnsOk(l) && name in l.Names()
    ensures l.Physical(name) != "" && AllParts(l.Physical(name))
  {
    var c := l.ColumnOf(name).value;
    assert c in l.columns;
    PhysicalIsPlain(c);
  }

  lemma {:induction false} PartitionIsRead(l: Layout)
    requires ColumnsOk(l) && RolesOk(l)
    ensures "PARTITION BY " <= PartitionLine(l)
    ensures ReadPartition(PartitionLine(l)) == Some((PartitionFunction(l.partition), l.Physical(l.timestampField)))
  {
    hide Quoted, ReadLast, UpTo, ColumnsOk;
    var line, f, column := PartitionLine(l), PartitionFunction(l.partition), l.Physical(l.timestampField);
    assert line == "PARTITION BY " + (f + ("(" + (Quoted(column) + ")")));
    assert line[13..] == f + ("(" + (Quoted(column) + ")")) && line[..13] == "PARTITION BY ";
    FoundUpTo('(', f, "(" + (Quoted(column) + ")"));
    assert ("(" + (Quoted(column) + ")"))[1..] == Quoted(column) + ")";
    PhysicalOfIsPlain(l, l.timestampField);
    LastIsRead(column);
  }

  function RetentionOf(l: Layout): Option<(string, nat)>
    requires RolesOk(l)
  {
    if l.retention.Some? && l.retention.value >= 0 then Some((l.Physical(l.timestampField), l.retention.value))
      else None
  }

  lemma {:induction false} NaturalNonEmpty(n: nat)
    ensures Decimal.Natural(n) != ""
  {}

  lemma {:induction false} RetentionIsRead(l: Layout)
    requires ColumnsOk(l) && RolesOk(l) && RetentionOf(l).Some?
    ensures |RetentionLines(l)| == 1 && "TTL " <= RetentionLines(l)[0]
    ensures ReadTtl(RetentionLines(l)[0]) == RetentionOf(l)
  {
    hide Quoted, ReadName, ColumnsOk, RolesDisjoint, Decimal.Natural, Decimal.Number, Timestamps.LeadingDigits,
         AllParts;
    var line, column, n := RetentionLines(l)[0], l.Physical(l.timestampField), l.retention.value;
    var digits, behind := Decimal.Natural(n), ") DELETE";
    var rest := ") + toIntervalSecond(" + (digits + behind);
    assert line == "TTL toDateTime(" + (Quoted(column) + rest);
    assert line[15..] == Quoted(column) + rest && line[..15] == "TTL toDateTime(" && line[..4] == "TTL ";
    PhysicalOfIsPlain(l, l.timestampField);
    QuotedIsRead(column, rest);
    assert rest[21..] == digits + behind && rest[..21] == ") + toIntervalSecond(";
    Timestamps.LeadingDigitsExact(digits, behind);
    assert (digits + behind)[..|digits|] == digits && (digits + behind)[|digits|..] == behind;
    Decimal.NumberOfNatural(n);
    NaturalNonEmpty(n);
  }

  lemma {:induction false} HiddenPlain()
    ensures AllParts(HIDDEN_SCOPE) && AllParts(HIDDEN_ROW)
  {}

  lemma {:induction false} KeyNamePlain(l: Layout, k: string)
    requires ColumnsOk(l) && RolesOk(l) && k in KeyColumns(l)
    ensures k != "" && AllParts(k)
  {
    hide Column.Valid, KeyColumns, AllParts;
    KeyColumnCases(l, k);
    if k == HIDDEN_SCOPE || k == HIDDEN_ROW {
      HiddenPlain();
    } else {
      var name :| name in l.Names() && k == l.Physical(name);
      PhysicalOfIsPlain(l, name);
    }
  }

  lemma {:induction false} KeyNamesPlain(l: Layout)
    requires ColumnsOk(l) && RolesOk(l)
    ensures PlainNames(KeyColumns(l))
  {
    hide Column.Valid, KeyColumns, ColumnsOk, RolesOk, AllParts;
    forall k | k in KeyColumns(l) ensures k != "" && AllParts(k) {
      KeyNamePlain(l, k);
    }
  }

  lemma {:induction false} KeyNotEmpty(l: Layout)
    requires RolesOk(l)
    ensures KeyColumns(l) != []
  {}

  lemma {:induction false} OrderIsRead(l: Layout)
    requires ColumnsOk(l) && RolesOk(l)
    ensures ReadKey(OrderLine(l)) == Some(KeyColumns(l))
    ensures PrintNames(KeyColumns(l)) == KeyColumns(l)
  {
    hide KeyColumns, ReadNames, JoinNames;
    KeyNamesPlain(l);
    var line, keys := OrderLine(l), JoinNames(QuotedNames(KeyColumns(l)));
    assert line == "ORDER BY (" + (keys + ")");
    assert line[10..] == keys + (")" + "") by { assert ")" + "" == ")"; }
    assert KeyColumns(l) != [] by { KeyNotEmpty(l); }
    NamesAreRead(KeyColumns(l), "");
    forall i | 0 <= i < |KeyColumns(l)| ensures PrintNames(KeyColumns(l))[i] == KeyColumns(l)[i] {
      assert KeyColumns(l)[i] in KeyColumns(l);
    }
  }

  // ---- The table of a layout ------------------------------------------------

  /** What the layout asks for: its columns behind the hidden ones, its indexes, a replacing engine
      whose last version is the latest ingestion, partitions by the timestamp, the replacement key
      and the retention on the timestamp. */
  function LayoutTable(database: string, l: Layout, names: seq<string>): TableDef
    requires RolesOk(l)
    requires forall n :: n in names ==> n in l.indexes && forall f :: f in l.indexes[n] ==> f in l.Names()
  {
    TableDef(TableColumns(l), TableIndexes(l, names), EngineName(l.topology), PathOf(database, l.table, l.topology),
             HIDDEN_INGESTED, Some((PartitionFunction(l.partition), l.Physical(l.timestampField))), KeyColumns(l),
             RetentionOf(l), "index_granularity = 8192")
  }

  lemma {:induction false} NoRetention(l: Layout)
    requires RolesOk(l) && RetentionOf(l).None?
    ensures RetentionLines(l) == []
  {}

  lemma {:induction false} VersionIsRead()
    ensures ReadLast(Quoted(HIDDEN_INGESTED) + ")") == Some(HIDDEN_INGESTED)
    ensures Quoted(HIDDEN_INGESTED) != "" && Quoted(HIDDEN_INGESTED)[0] != '\''
  {
    hide ReadLast;
    LastIsRead(HIDDEN_INGESTED);
  }

  lemma {:induction false} SettingsAreRead()
    ensures var settings := "SETTINGS index_granularity = 8192";
            ReadSettings([settings]) == Some("index_granularity = 8192") && !("TTL " <= settings)
  {
    var settings := "SETTINGS index_granularity = 8192";
    assert settings[9..] == "index_granularity = 8192" && settings[..9] == "SETTINGS " && settings[0] == 'S'
        && "TTL "[0] == 'T';
  }

  lemma {:induction false} ClausesAreRead(database: string, l: Layout, items: seq<Item>)
    requires AllParts(database) && HeaderOk(l) && ColumnsOk(l) && RolesOk(l)
    ensures ReadClauses(items, [EngineLine(database, l), PartitionLine(l), OrderLine(l)] + RetentionLines(l)
                               + ["SETTINGS index_granularity = 8192"])
         == Some(TableDef(ColumnsOf(items), IndexesOf(items), EngineName(l.topology),
                          PathOf(database, l.table, l.topology), HIDDEN_INGESTED,
                          Some((PartitionFunction(l.partition), l.Physical(l.timestampField))), KeyColumns(l),
                          RetentionOf(l), "index_granularity = 8192"))
  {
    hide ReadEngine, ReadPartition, ReadKey, ReadTtl, EngineText, PartitionLine, OrderLine, RetentionLines, KeyColumns,
         ColumnsOf, IndexesOf, EngineName, PathOf, ColumnsOk, RolesOk, PartitionFunction, Fingerprint, AllParts,
         Quoted, ReadSettings;
    var settings := "SETTINGS index_granularity = 8192";
    var lines := [EngineLine(database, l), PartitionLine(l), OrderLine(l)] + RetentionLines(l) + [settings];
    VersionIsRead();
    assert AllParts(l.table);
    EngineIsRead(database, l.table, l.topology, HIDDEN_INGESTED, Quoted(HIDDEN_INGESTED));
    PartitionIsRead(l);
    OrderIsRead(l);
    var keyed := lines[2..];
    assert keyed[0] == OrderLine(l) && lines[1] == PartitionLine(l);
    SettingsAreRead();
    if RetentionOf(l).Some? {
      RetentionIsRead(l);
      assert keyed[1] == RetentionLines(l)[0] && keyed[2..] == [settings];
    } else {
      NoRetention(l);
      assert keyed[1..] == [settings];
    }
  }

  lemma {:induction false} TailLines(database: string, l: Layout, names: seq<string>)
    requires RolesOk(l) && IndexNames(l, names)
    ensures var defs := HiddenLines() + UserLines(l) + IndexLines(l, names);
            var tail := [EngineLine(database, l), PartitionLine(l), OrderLine(l)] + RetentionLines(l)
              + ["SETTINGS index_granularity = 8192"];
            CreateTable(database, l, names)[1..] == WithCommas(defs) + ([")"] + tail)
  {
    hide EngineLine, PartitionLine, OrderLine, RetentionLines, WithCommas, HeaderLine;
    var tail := [EngineLine(database, l), PartitionLine(l), OrderLine(l)] + RetentionLines(l)
      + ["SETTINGS index_granularity = 8192"];
    assert [")", EngineLine(database, l), PartitionLine(l), OrderLine(l)] + RetentionLines(l)
      + ["SETTINGS index_granularity = 8192"] == [")"] + tail;
  }

  /** The definition is read back as the table of the layout, with every clause. */
  lemma {:induction false} TableIsRead(database: string, l: Layout, names: seq<string>)
    requires PhysicalIdentifier(database)
    requires HeaderOk(l) && ColumnsOk(l) && RolesOk(l) && IndexesOk(l) && IndexNames(l, names)
    ensures ReadTable(CreateTable(database, l, names))
         == Some(Statement(database, l.table, LayoutTable(database, l, names)))
  {
    hide ReadHeader, HeaderLine, ReadDefinitions, Defines, KeyColumns, EngineLine, OrderLine, PartitionLine,
         WithCommas, RetentionLines, ReadClauses, HiddenLines, UserLines, IndexLines, TableColumns, TableIndexes,
         EngineName, ColumnsOk, IndexesOk, RolesOk, PathOf, RetentionOf, PartitionFunction, ItemsOf, ColumnsOf,
         IndexesOf, AllParts, Fingerprint;
    var lines := CreateTable(database, l, names);
    var defs := HiddenLines() + UserLines(l) + IndexLines(l, names);
    var items := ItemsOf(TableColumns(l), TableIndexes(l, names));
    var tail := [EngineLine(database, l), PartitionLine(l), OrderLine(l)] + RetentionLines(l)
      + ["SETTINGS index_granularity = 8192"];
    assert lines[1..] == WithCommas(defs) + ([")"] + tail) by { TailLines(database, l, names); }
    HeaderIsRead(database, l.table);
    forall i | 0 <= i < |defs| ensures Defines(defs[i], items[i]) { DefinitionLine(l, names, i); }
    DefinitionsAreRead(defs, items, tail);
    ItemsSplit(TableColumns(l), TableIndexes(l, names));
    ClausesAreRead(database, l, items);
  }

  /** The table was created for the layout. */
  ghost predicate TableFor(t: TableDef, database: string, l: Layout)
    requires RolesOk(l)
  {
    exists names :: IndexNames(l, names) && t == LayoutTable(database, l, names)
  }

  /** What every table that was created for a layout has, whatever its indexes. */
  lemma {:induction false} TableForFields(t: TableDef, database: string, l: Layout)
    requires RolesOk(l) && TableFor(t, database, l)
    ensures t.columns == TableColumns(l) && t.engine == EngineName(l.topology) && t.key == KeyColumns(l)
    ensures t.version == HIDDEN_INGESTED && t.retention == RetentionOf(l)
            && t.path == PathOf(database, l.table, l.topology)
    ensures t.partition == Some((PartitionFunction(l.partition), l.Physical(l.timestampField)))
  {
    hide TableColumns, EngineName, KeyColumns, RetentionOf, PathOf, PartitionFunction;
  }

  // ---- The metadata table ---------------------------------------------------

  /** The metadata table, which keeps the latest update of each resource. */
  function MetadataDef(database: string, topology: string): TableDef {
    TableDef(METADATA_COLUMNS, [], EngineName(topology), PathOf(database, METADATA_TABLE, topology), "updated_at", None,
             ["resource_ref"], None, "")
  }

  lemma {:induction false} MetadataColumn(i: nat)
    requires i < 8
    ensures var (name, _) := METADATA_COLUMNS[i]; name != "" && AllParts(name) && 'a' <= name[0] <= 'z'
  {}

  lemma {:induction false} MetadataLine(i: nat)
    requires i < 8
    ensures Defines(MetadataLines()[i], ColumnItem(METADATA_COLUMNS[i]))
  {
    hide Defines;
    var (name, ctype) := METADATA_COLUMNS[i];
    MetadataColumn(i);
    BareDefines(name, ctype);
  }

  lemma {:induction false} MetadataKeyIsRead()
    ensures ReadKey("ORDER BY resource_ref") == Some(["resource_ref"])
    ensures PrintNames(["resource_ref"]) == ["resource_ref"]
    ensures !("PARTITION BY " <= "ORDER BY resource_ref")
  {
    hide Bare;
    var line := "ORDER BY resource_ref";
    assert line[9] == 'r' && "ORDER BY ("[9] == '(' && line[0] == 'O' && "PARTITION BY "[0] == 'P';
    assert line[..9] == "ORDER BY " && line[9..] == "resource_ref" + "";
    MetadataColumn(0);
    BareIsRead("resource_ref", "");
    assert PrintNames(["resource_ref"])[0] == "resource_ref";
  }

  lemma {:induction false} UpdatedIsRead()
    ensures ReadLast("updated_at" + ")") == Some("updated_at")
  {
    hide Bare;
    MetadataColumn(7);
    BareIsRead("updated_at", ")");
  }

  lemma {:induction false} MetadataPlain()
    ensures AllParts(METADATA_TABLE)
  {}

  lemma {:induction false} MetadataItem(i: nat)
    requires i < 8
    ensures ItemsOf(METADATA_COLUMNS, [])[i] == ColumnItem(METADATA_COLUMNS[i])
  {}

  /** The metadata statement, whose names are bare, is read as the metadata table. */
  lemma {:induction false} MetadataIsRead(database: string, topology: string)
    requires PhysicalIdentifier(database)
    ensures ReadTable(MetadataTable(database, topology))
         == Some(Statement(database, METADATA_TABLE, MetadataDef(database, topology)))
  {
    hide ReadHeader, HeaderLine, ReadDefinitions, Defines, EngineText, EngineName, MetadataLines, ReadKey, ReadEngine,
         ReadLast, PathOf, ItemsOf, ColumnsOf, IndexesOf, WithCommas, AllParts;
    var engine := "ENGINE = " + EngineText(database, METADATA_TABLE, topology, "updated_at");
    var defs, tail := MetadataLines(), [engine, "ORDER BY resource_ref"];
    var items := ItemsOf(METADATA_COLUMNS, []);
    assert MetadataTable(database, topology)[1..] == WithCommas(defs) + ([")"] + tail);
    HeaderIsRead(database, METADATA_TABLE);
    forall i | 0 <= i < |defs| ensures Defines(defs[i], items[i]) {
      MetadataLine(i);
      MetadataItem(i);
    }
    DefinitionsAreRead(defs, items, tail);
    ItemsSplit(METADATA_COLUMNS, []);
    UpdatedIsRead();
    assert AllParts(METADATA_TABLE) by { MetadataPlain(); }
    EngineIsRead(database, METADATA_TABLE, topology, "updated_at", "updated_at");
    MetadataKeyIsRead();
    assert tail[1..] == ["ORDER BY resource_ref"];
  }

  // ---- Both tables, name by name --------------------------------------------

  /** A name is read exactly where it stands quoted. */
  lemma {:induction false} ReadsQuotedOnly(text: string, name: string, rest: string)
    ensures ReadQuoted(text) == Some((name, rest)) <==>
            name != "" && text == Quoted(name) + rest && (rest == "" || rest[0] != '`')
  {
    hide Unquote, Doubled;
    if ReadQuoted(text) == Some((name, rest)) {
      UnquoteExact(text[1..]);
      assert text == "`" + text[1..];
    }
    if name != "" && text == Quoted(name) + rest && (rest == "" || rest[0] != '`') {
      QuotedIsRead(name, rest);
    }
  }

  /** The engine and the replica path of a table in words. */
  predicate EngineIs(t: TableDef, database: string, table: string, topology: string) {
    if topology == "clickhouse-replicated" then
      && t.engine == "ReplicatedReplacingMergeTree"
      && t.path == Some("/clickhouse/tables/{shard}/" + database + "/" + table)
    else t.engine == "ReplacingMergeTree" && t.path == None
  }

  lemma {:induction false} ColumnsInWords(l: Layout)
    ensures TableColumns(l)[..7] == [
      ("_meridian_scope_fingerprint", "FixedString(64)"), ("_meridian_tenant", "String"),
      ("_meridian_batch_id", "String"), ("_meridian_row_fingerprint", "FixedString(64)"),
      ("_meridian_resource", "LowCardinality(String)"), ("_meridian_schema_version", "String"),
      ("_meridian_ingested_at", "DateTime64(9, 'UTC')")]
    ensures forall i :: 0 <= i < |l.columns| ==> TableColumns(l)[7 + i] == (l.columns[i].physical, l.columns[i].ctype)
  {
    assert TableColumns(l)[..7] == seq(7, i requires 0 <= i < 7 => (HIDDEN_COLUMNS[i], HIDDEN_TYPES[i]));
  }

  /** The key of a layout in words. */
  predicate KeyIs(key: seq<string>, l: Layout) {
    var count := |l.identityFields|;
    && |key| == 2 + count + (if l.appendOnly then 1 else 0)
    && key[0] == "_meridian_scope_fingerprint"
    && l.timestampField in l.Names() && key[1] == l.Physical(l.timestampField)
    && (forall i :: 0 <= i < count ==>
          l.identityFields[i] in l.Names() && key[2 + i] == l.Physical(l.identityFields[i]))
    && (l.appendOnly ==> key[|key| - 1] == "_meridian_row_fingerprint")
  }

  lemma {:induction false} KeyInWords(l: Layout)
    requires RolesOk(l)
    ensures KeyIs(KeyColumns(l), l)
  {
    hide Layout.Physical;
    var key, ids := KeyColumns(l), PhysicalOf(l, l.identityFields);
    forall i | 0 <= i < |l.identityFields|
      ensures l.identityFields[i] in l.Names() && key[2 + i] == l.Physical(l.identityFields[i])
    {
      assert l.identityFields[i] in Elements(l.Names()) && key[2 + i] == ids[i];
    }
  }

  /** The table of a layout, with every reserved name, type, function and setting written out. */
  predicate TableIs(t: TableDef, database: string, l: Layout) {
    && |t.columns| == 7 + |l.columns|
    && t.columns[..7] == [("_meridian_scope_fingerprint", "FixedString(64)"), ("_meridian_tenant", "String"),
                          ("_meridian_batch_id", "String"), ("_meridian_row_fingerprint", "FixedString(64)"),
                          ("_meridian_resource", "LowCardinality(String)"), ("_meridian_schema_version", "String"),
                          ("_meridian_ingested_at", "DateTime64(9, 'UTC')")]
    && (forall i :: 0 <= i < |l.columns| ==> t.columns[7 + i] == (l.columns[i].physical, l.columns[i].ctype))
    && EngineIs(t, database, l.table, l.topology) && t.version == "_meridian_ingested_at"
    && KeyIs(t.key, l)
    && t.partition == Some((if l.partition == "hour" then "toStartOfHour" else if l.partition == "day" then "toDate"
                            else "toYYYYMM", t.key[1]))
    && (l.retention.Some? && l.retention.value > 0 ==> t.retention == Some((t.key[1], l.retention.value)))
    && (l.retention == None ==> t.retention == None)
    && t.settings == "index_granularity = 8192"
  }

  lemma {:induction false} TableInWords(database: string, l: Layout, names: seq<string>)
    requires RolesOk(l)
    requires forall n :: n in names ==> n in l.indexes && forall f :: f in l.indexes[n] ==> f in l.Names()
    ensures TableIs(LayoutTable(database, l, names), database, l)
  {
    hide TableColumns, KeyColumns, TableIndexes, RolesOk;
    ColumnsInWords(l);
    KeyInWords(l);
  }

  /** What the emitted definition creates. */
  lemma {:induction false} CreatedInWords(database: string, l: Layout, names: seq<string>) returns (t: TableDef)
    requires PhysicalIdentifier(database)
    requires HeaderOk(l) && ColumnsOk(l) && RolesOk(l) && IndexesOk(l) && IndexNames(l, names)
    ensures ReadTable(CreateTable(database, l, names)) == Some(Statement(database, l.table, t))
    ensures TableIs(t, database, l)
  {
    hide ReadTable, CreateTable, ColumnsOk, RolesOk, IndexesOk, HeaderOk, TableIs, LayoutTable;
    TableIsRead(database, l, names);
    TableInWords(database, l, names);
    t := LayoutTable(database, l, names);
  }

  /** The metadata table in words. */
  lemma {:induction false} MetadataInWords(database: string, topology: string)
    requires PhysicalIdentifier(database)
    ensures var read := ReadTable(MetadataTable(database, topology));
            && read.Some? && read.value.database == database && read.value.table == "_meridian_resources"
            && var t := read.value.definition;
            && t.columns == [("resource_ref", "String"), ("resource_fingerprint", "FixedString(71)"),
                             ("schema_fingerprint", "FixedString(71)"), ("profile", "LowCardinality(String)"),
                             ("table_name", "String"), ("layout_fingerprint", "FixedString(71)"),
                             ("schema_version", "String"), ("updated_at", "DateTime64(6, 'UTC')")]
            && EngineIs(t, database, "_meridian_resources", topology) && t.version == "updated_at"
            && t.partition == None && t.key == ["resource_ref"] && t.retention == None
  {
    hide ReadTable, MetadataTable;
    MetadataIsRead(database, topology);
  }
}
