/** `migrations.py`: planning and applying migrations that may stop at any step. */
module Migrations {
  import opened Common
  import opened Identifiers
  import opened Sorting
  import opened Layouts
  import opened LayoutDocuments
  import opened Sorts
  import opened Schema
  import opened Definitions
  import opened Probe

  // ---- Planning -------------------------------------------------------------

  /** A compiled schema: its layout and its two statements. */
  datatype Compilation = Compilation(layout: Layout, metadataSql: seq<string>, createSql: seq<string>)

  datatype Bundle = Bundle(id: string, statements: seq<seq<string>>, layouts: seq<Layout>)

  function CompilationKey(c: Compilation): string { CanonicalOf(c.layout) }

  function ResourceNames(cs: seq<Compilation>): (r: seq<string>)
    ensures |r| == |cs|
    ensures forall i :: 0 <= i < |cs| ==> r[i] == CompilationKey(cs[i])
  {
    seq(|cs|, i requires 0 <= i < |cs| => CompilationKey(cs[i]))
  }

  function LayoutsOf(cs: seq<Compilation>): (r: seq<Layout>)
    ensures |r| == |cs| && forall i :: 0 <= i < |cs| ==> r[i] == cs[i].layout
  {
    seq(|cs|, i requires 0 <= i < |cs| => cs[i].layout)
  }

  function Creates(cs: seq<Compilation>): (r: seq<seq<string>>)
    ensures |r| == |cs| && forall i :: 0 <= i < |cs| ==> r[i] == cs[i].createSql
  {
    seq(|cs|, i requires 0 <= i < |cs| => cs[i].createSql)
  }

  predicate Plannable(id: string, cs: seq<Compilation>) {
    && id != "" && cs != []
    && (forall c, d :: c in cs && d in cs ==> c.layout.topology == d.layout.topology)
    && Unique(ResourceNames(cs))
    && (forall c, d :: c in cs && d in cs ==> c.metadataSql == d.metadataSql)
  }

  function Planned(id: string, cs: seq<Compilation>): Bundle
    requires cs != []
  {
    var ordered := Sort(CompilationKey, cs);
    Bundle(id, [ordered[0].metadataSql] + Creates(ordered), LayoutsOf(ordered))
  }

  lemma {:induction false} NamesAsSet(cs: seq<Compilation>)
    ensures Elements(ResourceNames(cs)) == set c | c in cs :: CompilationKey(c)
  {
    hide CompilationKey;
    var names := ResourceNames(cs);
    forall c | c in cs ensures CompilationKey(c) in names {
      var i :| 0 <= i < |cs| && cs[i] == c;
      assert names[i] == CompilationKey(c);
    }
  }

  lemma {:induction false} SortedCompilations(cs: seq<Compilation>)
    ensures forall c :: c in Sort(CompilationKey, cs) <==> c in cs
    ensures |Sort(CompilationKey, cs)| == |cs|
    ensures Unique(ResourceNames(Sort(CompilationKey, cs))) <==> Unique(ResourceNames(cs))
  {
    hide Sort, CompilationKey;
    var ordered := Sort(CompilationKey, cs);
    forall c ensures c in ordered <==> c in cs {
      assert c in multiset(ordered) <==> c in multiset(cs);
    }
    UniqueBySize(ResourceNames(cs));
    UniqueBySize(ResourceNames(ordered));
    assert Elements(ResourceNames(ordered)) == Elements(ResourceNames(cs)) by {
      NamesAsSet(ordered);
      NamesAsSet(cs);
    }
  }

  /** `plan_initial_migration`. */
  method PlanInitial(id: string, cs: seq<Compilation>) returns (r: Result<Bundle>)
    ensures r.Ok? <==> Plannable(id, cs)
    ensures r.Ok? ==> r.value == Planned(id, cs)
  {
    hide Sort, CompilationKey;
    if cs == [] { return Err(Incompatible); }
    var ordered := Sort(CompilationKey, cs);
    SortedCompilations(cs);
    var topology := ordered[0].layout.topology;
    assert ordered[0] in ordered;
    if exists c :: c in ordered && c.layout.topology != topology { return Err(Incompatible); }
    UniqueBySize(ResourceNames(ordered));
    if |Elements(ResourceNames(ordered))| != |ordered| { return Err(Incompatible); }
    if exists c :: c in ordered && c.metadataSql != ordered[0].metadataSql { return Err(Incompatible); }
    var statements := [ordered[0].metadataSql] + Creates(ordered);
    if id == "" { return Err(Incompatible); }
    return Ok(Bundle(id, statements, LayoutsOf(ordered)));
  }

  /** The statement at `i` creates the table of the layout there, from one of the compilations. */
  ghost predicate PlannedAt(cs: seq<Compilation>, b: Bundle, i: nat) {
    && i < |b.layouts| == |b.statements| - 1
    && exists c :: c in cs && c.layout == b.layouts[i] && c.createSql == b.statements[i + 1]
                   && c.metadataSql == b.statements[0]
  }

  ghost predicate Planning(cs: seq<Compilation>, b: Bundle, c: Compilation) {
    exists i :: 0 <= i < |b.layouts| == |b.statements| - 1 && c.layout == b.layouts[i]
                && c.createSql == b.statements[i + 1]
  }

  lemma {:induction false} PlannedItem(id: string, cs: seq<Compilation>, k: nat)
    requires Plannable(id, cs) && k < |cs|
    ensures PlannedAt(cs, Planned(id, cs), k) && Planning(cs, Planned(id, cs), cs[k])
  {
    hide Sort, CompilationKey, ResourceNames, Unique;
    var b, ordered := Planned(id, cs), Sort(CompilationKey, cs);
    SortedCompilations(cs);
    assert ordered[k] in ordered && ordered[0] in ordered;
    assert ordered[k].metadataSql == b.statements[0];
    assert cs[k] in ordered;
    var n :| 0 <= n < |ordered| && ordered[n] == cs[k];
    assert cs[k].layout == b.layouts[n] && cs[k].createSql == b.statements[n + 1];
  }

  /** A plan creates the metadata table, then every table of its compilations, and no other, in the
      order of the canonical names, which must differ. */
  lemma {:induction false} PlanInWords(id: string, cs: seq<Compilation>, i: nat, j: nat)
    requires Plannable(id, cs) && i < j < |cs|
    ensures cs[i].layout.resource.Canonical() != cs[j].layout.resource.Canonical()
    ensures var b := Planned(id, cs);
            && b.id == id && |b.layouts| == |cs|
            && PlannedAt(cs, b, i) && PlannedAt(cs, b, j) && Planning(cs, b, cs[i]) && Planning(cs, b, cs[j])
            && !TextLess(b.layouts[j].resource.Canonical(), b.layouts[i].resource.Canonical())
  {
    hide Sort, PlannedAt, Planning;
    var ordered := Sort(CompilationKey, cs);
    SortedCompilations(cs);
    SortSorted(CompilationKey, cs);
    assert ResourceNames(cs)[i] != ResourceNames(cs)[j];
    PlannedItem(id, cs, i);
    PlannedItem(id, cs, j);
    assert !TextLess(CompilationKey(ordered[j]), CompilationKey(ordered[i]));
  }

  /** The plan does not depend on the order in which compilations are given. */
  lemma {:induction false} PlanOrderIndependent(id: string, a: seq<Compilation>, b: seq<Compilation>)
    requires multiset(a) == multiset(b) && Plannable(id, a)
    ensures Plannable(id, b) && Planned(id, a) == Planned(id, b)
  {
    hide Sort, CompilationKey;
    assert |a| == |multiset(a)| && |b| == |multiset(b)|;
    forall i, j | 0 <= i < j < |a| ensures CompilationKey(a[i]) != CompilationKey(a[j]) {
      assert ResourceNames(a)[i] != ResourceNames(a)[j];
    }
    SortPermutation(CompilationKey, a, b);
    SortedCompilations(a);
    SortedCompilations(b);
  }

  /** One plan targets one database: equal metadata statements name the same database. */
  lemma {:induction false} OneDatabase(id: string, cs: seq<Compilation>, c: Compilation, d: Compilation, first: string,
                                       second: string)
    requires Plannable(id, cs) && c in cs && d in cs && first != "" && second != ""
    requires c.metadataSql == MetadataTable(first, c.layout.topology)
             && d.metadataSql == MetadataTable(second, d.layout.topology)
    ensures first == second
  {
    hide HeaderLine, ReadHeader, Unique;
    assert c.metadataSql[0] == d.metadataSql[0];
    HeaderIsRead(first, METADATA_TABLE);
    HeaderIsRead(second, METADATA_TABLE);
  }

  // ---- Statements -----------------------------------------------------------

  /** CREATE TABLE IF NOT EXISTS adds a missing table of the database and changes nothing else. */
  function Executed(tables: Tables, name: string, lines: seq<string>): Tables {
    match ReadTable(lines)
    case None => tables
    case Some(s) => if s.database == name && s.table !in tables then tables[s.table := s.definition] else tables
  }

  function Run(tables: Tables, name: string, statements: seq<seq<string>>): Tables {
    if statements == [] then tables else Executed(Run(tables, name, statements[..|statements| - 1]), name,
                                                  statements[|statements| - 1])
  }

  ghost predicate Extends(before: Tables, after: Tables) {
    forall t :: t in before ==> t in after && after[t] == before[t]
  }

  lemma {:induction false} RunExtends(tables: Tables, name: string, statements: seq<seq<string>>)
    ensures Extends(tables, Run(tables, name, statements))
  {
    hide ReadTable;
    if statements != [] {
      RunExtends(tables, name, statements[..|statements| - 1]);
    }
  }

  lemma {:induction false} QuotedNonEmpty(text: string)
    ensures ReadQuoted(text).Some? ==> ReadQuoted(text).value.0 != ""
  {}

  lemma {:induction false} ReadNamesNonEmpty(text: string)
    ensures ReadNames(text).Some? ==> forall n :: n in ReadNames(text).value.0 ==> n != ""
    decreases |text|
  {
    hide ReadQuoted;
    match ReadQuoted(text) {
      case None =>
      case Some((name, rest)) =>
        QuotedNonEmpty(text);
        if !(rest != "" && rest[0] == ')') && |rest| >= 2 && rest[..2] == ", " {
          ReadNamesNonEmpty(rest[2..]);
        }
    }
  }

  lemma {:induction false} PrintedNameForm(name: string)
    requires name != ""
    ensures PrintedName(PrintName(name))
  {
    if !AllParts(name) { assert Odd(Quoted(name)[0]); }
  }

  lemma {:induction false} ReadKeyNonEmpty(line: string)
    ensures ReadKey(line).Some? ==> forall n :: n in ReadKey(line).value ==> n != ""
  {
    hide ReadNames, ReadQuoted;
    if "ORDER BY (" <= line {
      ReadNamesNonEmpty(line[10..]);
    } else if "ORDER BY " <= line {
      QuotedNonEmpty(line[9..]);
    }
  }

  lemma {:induction false} ReadKeyPrinted(lines: seq<string>)
    ensures ReadTable(lines).Some? ==> PrintedNames(ReadTable(lines).value.definition.key)
  {
    hide ReadDefinitions, ReadHeader, ReadKey, ReadEngine, ReadPartition, ReadTtl, ReadSettings, ColumnsOf, IndexesOf,
         PrintName, PrintedName;
    if ReadTable(lines).Some? {
      var rest := ReadDefinitions(lines[1..]).value.1;
      var keyed := if |rest| > 1 && "PARTITION BY " <= rest[1] then rest[2..] else rest[1..];
      ReadKeyNonEmpty(keyed[0]);
      var names := ReadKey(keyed[0]).value;
      forall n | n in PrintNames(names) ensures PrintedName(n) {
        var i :| 0 <= i < |names| && PrintNames(names)[i] == n;
        assert names[i] in names;
        PrintedNameForm(names[i]);
      }
    }
  }

  lemma {:induction false} RunPrinted(tables: Tables, name: string, statements: seq<seq<string>>)
    requires PrintedTables(tables)
    ensures PrintedTables(Run(tables, name, statements))
  {
    hide ReadTable, PrintedNames;
    if statements != [] {
      RunPrinted(tables, name, statements[..|statements| - 1]);
      ReadKeyPrinted(statements[|statements| - 1]);
    }
  }

  lemma {:induction false} RunMisses(tables: Tables, name: string, statements: seq<seq<string>>, table: string)
    requires table !in tables
    requires forall j :: 0 <= j < |statements| && ReadTable(statements[j]).Some? ==>
             ReadTable(statements[j]).value.table != table
    ensures table !in Run(tables, name, statements)
  {
    hide ReadTable;
    if statements != [] {
      RunMisses(tables, name, statements[..|statements| - 1], table);
    }
  }

  /** The first statement for a missing table defines it. */
  lemma {:induction false} RunDefines(tables: Tables, name: string, statements: seq<seq<string>>, k: nat,
                                      table: string, definition: TableDef)
    requires k < |statements| && table !in tables
    requires ReadTable(statements[k]) == Some(Statement(name, table, definition))
    requires forall j :: 0 <= j < k && ReadTable(statements[j]).Some? ==> ReadTable(statements[j]).value.table != table
    ensures table in Run(tables, name, statements) && Run(tables, name, statements)[table] == definition
  {
    hide ReadTable;
    var n := |statements| - 1;
    if k < n {
      RunDefines(tables, name, statements[..n], k, table, definition);
    } else {
      RunMisses(tables, name, statements[..n], table);
    }
  }

  /** Statements for other databases change nothing. */
  lemma {:induction false} RunElsewhere(tables: Tables, name: string, statements: seq<seq<string>>)
    requires forall s :: s in statements && ReadTable(s).Some? ==> ReadTable(s).value.database != name
    ensures Run(tables, name, statements) == tables
  {
    hide ReadTable;
    if statements != [] {
      RunElsewhere(tables, name, statements[..|statements| - 1]);
      assert statements[|statements| - 1] in statements;
    }
  }

  // ---- What one migration may do --------------------------------------------

  /** A row of the metadata table. */
  datatype MetaRow = MetaRow(resource: string, resourceFingerprint: string, schemaFingerprint: string, profile: string,
                             table: string, layoutFingerprint: string, schemaVersion: string, updatedAt: int)

  function MetadataRow(l: Layout, now: int, hash: Json -> string): MetaRow {
    MetaRow(CanonicalOf(l), l.resourceFingerprint, l.schemaFingerprint, l.profile, l.table, LayoutFingerprint(l, hash),
            l.schemaVersion, now)
  }

  function MetadataRows(layouts: seq<Layout>, now: int, hash: Json -> string): set<MetaRow> { set l | l in layouts ::
      MetadataRow(l, now, hash) }

  predicate LayoutMatches(settings: Settings, l: Layout, hash: Json -> string) {
    var expected := FindLayout(settings.layouts, CanonicalOf(l));
    expected.Some? && LayoutFingerprint(expected.value, hash) == LayoutFingerprint(l, hash)
  }

  /** The bundle's layouts are those of the closed binding. */
  predicate SettingsMatch(settings: Settings, layouts: seq<Layout>, hash: Json -> string) {
    forall l :: l in layouts ==> LayoutMatches(settings, l, hash)
  }

  datatype Contents = Contents(tables: Tables, metadata: set<MetaRow>)

  ghost predicate EffectAt(before: Contents, after: Contents, settings: Settings, bundle: Bundle, now: int,
                           hash: Json -> string, n: nat)
    requires n <= |bundle.statements| && forall l :: l in bundle.layouts ==> RolesOk(l)
  {
    && after.tables == Run(before.tables, settings.database, bundle.statements[..n])
    && (|| after.metadata <= before.metadata
        || (&& n == |bundle.statements|
            && SettingsMatch(settings, bundle.layouts, hash)
            && OrdersOk(bundle.layouts, after.tables)
            && after.metadata <= before.metadata + MetadataRows(bundle.layouts, now, hash)))
  }

  /** The effect of a migration that may have stopped at any step: some statements ran, and
      metadata was written only after all of them ran and all append-only keys verified. */
  ghost predicate Effect(before: Contents, after: Contents, settings: Settings, bundle: Bundle, now: int,
                         hash: Json -> string)
    requires forall l :: l in bundle.layouts ==> RolesOk(l)
  {
    exists n: nat :: n <= |bundle.statements| && EffectAt(before, after, settings, bundle, now, hash, n)
  }

  ghost predicate Named(l: Layout, row: MetaRow, hash: Json -> string) {
    Valid(l) && l.appendOnly && LayoutFingerprint(l, hash) == row.layoutFingerprint
  }

  /** A stored row that names an append-only layout refers to a table with its compiled key. */
  ghost predicate RowSafe(tables: Tables, row: MetaRow, hash: Json -> string) {
    forall l :: Named(l, row, hash) ==>
      l.table == row.table && l.table in tables && RolesOk(l) && tables[l.table].key == KeyColumns(l)
  }

  ghost predicate Safe(c: Contents, hash: Json -> string) {
    PrintedTables(c.tables) && forall row :: row in c.metadata ==> RowSafe(c.tables, row, hash)
  }

  lemma {:induction false} RowStaysSafe(before: Tables, after: Tables, row: MetaRow, hash: Json -> string)
    requires RowSafe(before, row, hash) && Extends(before, after)
    ensures RowSafe(after, row, hash)
  {
    hide Named, RolesOk, KeyColumns;
  }

  lemma {:induction false} NewRowSafe(tables: Tables, l: Layout, now: int, hash: Json -> string)
    requires Injective(hash) && Valid(l) && RolesOk(l) && PrintedTables(tables)
    requires l.appendOnly ==> VerifyAppendOrder(tables, l).Ok?
    ensures RowSafe(tables, MetadataRow(l, now, hash), hash)
  {
    hide Injective, LayoutFingerprint, RolesOk, ColumnsOk, HeaderOk, PolicyOk, IndexesOk, Normal, PrintedTables,
         VerifyAppendOrder, KeyColumns;
    forall m | Named(m, MetadataRow(l, now, hash), hash)
      ensures m.table == l.table && m.table in tables && RolesOk(m) && tables[m.table].key == KeyColumns(m)
    {
      DocumentInjective(m, l, hash);
      AppendOrderExact(tables, l);
    }
  }

  /** A migration, wherever it stops, keeps the metadata safe. */
  lemma {:induction false} EffectKeepsSafe(before: Contents, after: Contents, settings: Settings, bundle: Bundle,
                                           now: int, hash: Json -> string)
    requires Injective(hash) && Safe(before, hash)
    requires forall l :: l in bundle.layouts ==> Valid(l) && RolesOk(l)
    requires Effect(before, after, settings, bundle, now, hash)
    ensures Safe(after, hash)
  {
    hide Injective, RowSafe, Run, PrintedTables, RolesOk, Valid, VerifyAppendOrder, MetadataRow, SettingsMatch, Extends;
    var n: nat :| n <= |bundle.statements| && EffectAt(before, after, settings, bundle, now, hash, n);
    RunExtends(before.tables, settings.database, bundle.statements[..n]);
    RunPrinted(before.tables, settings.database, bundle.statements[..n]);
    forall row | row in after.metadata ensures RowSafe(after.tables, row, hash) {
      if row in before.metadata {
        RowStaysSafe(before.tables, after.tables, row, hash);
      } else {
        var l :| l in bundle.layouts && row == MetadataRow(l, now, hash);
        NewRowSafe(after.tables, l, now, hash);
      }
    }
  }

  ghost predicate GoodBundle(bundle: Bundle) { forall l :: l in bundle.layouts ==> Valid(l) && RolesOk(l) }

  /** One run of the migrator between two contents of the database. */
  ghost predicate SomeMigration(before: Contents, after: Contents, hash: Json -> string) {
    exists settings: Settings, bundle: Bundle, now: int ::
      GoodBundle(bundle) && Effect(before, after, settings, bundle, now, hash)
  }

  /** Migration safety over all runs: after any sequence of migrations, each of which may
      have stopped at any step, no old table is labelled with an append-only layout. */
  lemma {:induction false} MigrationsSafe(history: seq<Contents>, hash: Json -> string, i: nat)
    requires Injective(hash) && i < |history|
    requires Safe(history[0], hash)
    requires forall j :: 0 < j < |history| ==> SomeMigration(history[j - 1], history[j], hash)
    ensures Safe(history[i], hash)
  {
    hide Injective, Effect, PrintedTables, RowSafe;
    if i > 0 {
      MigrationsSafe(history, hash, i - 1);
      assert SomeMigration(history[i - 1], history[i], hash);
      var settings, bundle, now :| GoodBundle(bundle) && Effect(history[i - 1], history[i], settings, bundle, now,
                                                                hash);
      EffectKeepsSafe(history[i - 1], history[i], settings, bundle, now, hash);
    }
  }

  /** An old table under the name of an append-only layout, with any other key, keeps its
      definition, and no metadata is written. */
  lemma {:induction false} OldTableNotRelabelled(before: Contents, after: Contents, settings: Settings, bundle: Bundle,
                                                 now: int, hash: Json -> string, l: Layout)
    requires PrintedTables(before.tables) && GoodBundle(bundle)
    requires Effect(before, after, settings, bundle, now, hash)
    requires l in bundle.layouts && l.appendOnly && l.table in before.tables
             && before.tables[l.table].key != KeyColumns(l)
    ensures l.table in after.tables && after.tables[l.table] == before.tables[l.table]
    ensures after.metadata <= before.metadata
  {
    hide Run, PrintedTables, RolesOk, ColumnsOk, HeaderOk, PolicyOk, IndexesOk, Normal, VerifyAppendOrder,
         MetadataRows, SettingsMatch, KeyColumns;
    var n: nat :| n <= |bundle.statements| && EffectAt(before, after, settings, bundle, now, hash, n);
    RunExtends(before.tables, settings.database, bundle.statements[..n]);
    RunPrinted(before.tables, settings.database, bundle.statements[..n]);
    AppendOrderExact(after.tables, l);
  }

  // ---- Applying -------------------------------------------------------------

  /** What happens to one client call: it is answered, or the connection breaks before or
      after the engine carried it out. */
  datatype Call = Answered | LostBefore | LostAfter

  /** The newest rows of each resource. */
  function Latest(rows: set<MetaRow>): set<MetaRow> {
    set r | r in rows && forall q :: q in rows && q.resource == r.resource ==> q.updatedAt <= r.updatedAt
  }

  /** What is kept: for each resource its newest rows, and those only. */
  lemma {:induction false} NewestKept(rows: set<MetaRow>, row: MetaRow)
    requires row in rows
    ensures exists k :: k in Latest(rows) && k.resource == row.resource && k.updatedAt >= row.updatedAt
    ensures row in Latest(rows) <==> !exists q :: q in rows && q.resource == row.resource && q.updatedAt > row.updatedAt
    decreases |rows|
  {
    if row !in Latest(rows) {
      var q :| q in rows && q.resource == row.resource && q.updatedAt > row.updatedAt;
      var rest := rows - {row};
      assert |rest| < |rows|;
      NewestKept(rest, q);
      var k :| k in Latest(rest) && k.resource == q.resource && k.updatedAt >= q.updatedAt;
      assert k in Latest(rows);
    }
  }

  /** A database behind a connection; `calls` tells what will happen to the coming calls. */
  class Database {
    const name: string
    var tables: Tables
    var metadata: set<MetaRow>
    var calls: seq<Call>

    constructor (name: string, tables: Tables, metadata: set<MetaRow>, calls: seq<Call>)
      ensures this.name == name && this.tables == tables && this.metadata == metadata && this.calls == calls
    {
      this.name := name;
      this.tables := tables;
      this.metadata := metadata;
      this.calls := calls;
    }

    function Holds(): Contents
      reads this
    {
      Contents(tables, metadata)
    }

    method NextCall() returns (c: Call)
      modifies this`calls
      ensures old(calls) == [] ==> c == Answered && calls == []
      ensures old(calls) != [] ==> c == old(calls)[0] && calls == old(calls)[1..]
    {
      if calls == [] { return Answered; }
      c := calls[0];
      calls := calls[1..];
    }

    method Command(lines: seq<string>) returns (ok: bool)
      modifies this`tables, this`calls
      ensures tables == old(tables) || tables == Executed(old(tables), name, lines)
      ensures ok ==> tables == Executed(old(tables), name, lines)
      ensures old(calls) == [] ==> ok && calls == []
    {
      var c := NextCall();
      if c != LostBefore { tables := Executed(tables, name, lines); }
      ok := c == Answered;
    }

    /** The sorting key as `system.tables` reports it, checked against the layout. */
    method CheckAppendOrder(l: Layout) returns (ok: bool)
      requires RolesOk(l)
      modifies this`calls
      ensures ok ==> VerifyAppendOrder(tables, l).Ok?
      ensures old(calls) == [] ==> calls == [] && (ok <==> VerifyAppendOrder(tables, l).Ok?)
    {
      var c := NextCall();
      ok := c == Answered && VerifyAppendOrder(tables, l).Ok?;
    }

    /** An insert into the metadata table; a remembered token makes the engine drop it. */
    method Insert(rows: set<MetaRow>, dropped: bool) returns (ok: bool)
      modifies this`metadata, this`calls
      ensures metadata == old(metadata) || metadata == old(metadata) + rows
      ensures ok && !dropped ==> metadata == old(metadata) + rows
      ensures old(calls) == [] ==> ok && calls == []
    {
      var c := NextCall();
      if c != LostBefore && !dropped { metadata := metadata + rows; }
      ok := c == Answered;
    }

    method Optimize() returns (ok: bool)
      modifies this`metadata, this`calls
      ensures metadata == old(metadata) || metadata == Latest(old(metadata))
      ensures ok ==> metadata == Latest(old(metadata))
      ensures old(calls) == [] ==> ok && calls == []
    {
      var c := NextCall();
      if c != LostBefore { metadata := Latest(metadata); }
      ok := c == Answered;
    }
  }

  lemma {:induction false} RunStep(tables: Tables, name: string, statements: seq<seq<string>>, i: nat)
    requires i < |statements|
    ensures Run(tables, name, statements[..i + 1]) == Executed(Run(tables, name, statements[..i]), name, statements[i])
  {
    hide Executed;
    assert statements[..i + 1][..i] == statements[..i];
  }

  lemma {:induction false} EmptyRun(tables: Tables, name: string)
    ensures Run(tables, name, []) == tables
  {}

  /** The statements loop of `apply`. */
  method RunStatements(db: Database, statements: seq<seq<string>>) returns (ok: bool, ghost n: nat)
    modifies db`tables, db`calls
    ensures n <= |statements| && db.tables == Run(old(db.tables), db.name, statements[..n])
    ensures ok ==> n == |statements|
    ensures old(db.calls) == [] ==> ok && db.calls == []
  {
    hide Executed, Run;
    n := 0;
    assert Run(db.tables, db.name, statements[..0]) == db.tables by { EmptyRun(db.tables, db.name); }
    for i := 0 to |statements|
      invariant n == i && db.tables == Run(old(db.tables), db.name, statements[..n])
      invariant old(db.calls) == [] ==> db.calls == []
    {
      RunStep(old(db.tables), db.name, statements, i);
      ghost var before := db.tables;
      var done := db.Command(statements[i]);
      if !done {
        if db.tables != before { n := n + 1; }
        return false, n;
      }
      n := n + 1;
    }
    return true, n;
  }

  /** The verification loop of `apply`. */
  method VerifyKeys(db: Database, layouts: seq<Layout>) returns (ok: bool)
    requires forall l :: l in layouts ==> RolesOk(l)
    modifies db`calls
    ensures ok ==> OrdersOk(layouts, db.tables)
    ensures old(db.calls) == [] ==> db.calls == [] && (ok <==> OrdersOk(layouts, db.tables))
  {
    hide RolesOk, VerifyAppendOrder;
    for i := 0 to |layouts|
      invariant forall j :: 0 <= j < i && layouts[j].appendOnly ==> VerifyAppendOrder(db.tables, layouts[j]).Ok?
      invariant old(db.calls) == [] ==> db.calls == []
    {
      if layouts[i].appendOnly {
        var verified := db.CheckAppendOrder(layouts[i]);
        if !verified {
          assert layouts[i] in layouts;
          return false;
        }
      }
    }
    return true;
  }

  lemma {:induction false} OneMoreRow(layouts: seq<Layout>, i: nat, now: int, hash: Json -> string)
    requires i < |layouts|
    ensures MetadataRows(layouts[..i + 1], now, hash)
         == MetadataRows(layouts[..i], now, hash) + {MetadataRow(layouts[i], now, hash)}
  {
    hide MetadataRow;
    assert layouts[..i + 1] == layouts[..i] + [layouts[i]];
  }

  lemma {:induction false} NoRows(layouts: seq<Layout>, now: int, hash: Json -> string)
    ensures MetadataRows(layouts[..0], now, hash) == {}
  {}

  /** The rows that are inserted, one for each layout. */
  method RowsOf(layouts: seq<Layout>, now: int, hash: Json -> string) returns (rows: set<MetaRow>)
    ensures rows == MetadataRows(layouts, now, hash)
  {
    hide MetadataRows, LayoutFingerprint;
    rows := {};
    assert MetadataRows(layouts[..0], now, hash) == {} by { NoRows(layouts, now, hash); }
    for i := 0 to |layouts|
      invariant rows == MetadataRows(layouts[..i], now, hash)
    {
      var l := layouts[i];
      OneMoreRow(layouts, i, now, hash);
      rows := rows + {MetaRow(l.resource.Canonical(), l.resourceFingerprint, l.schemaFingerprint, l.profile, l.table,
                              LayoutFingerprint(l, hash), l.schemaVersion, now)};
    }
    assert layouts[..|layouts|] == layouts;
  }

  /** `apply`: settings first, then all statements, then all append-only keys, and only then
      the metadata. Wherever it stops, its effect is one that keeps the metadata safe; on an
      unbroken connection it succeeds exactly when settings and keys agree. */
  method Apply(db: Database, settings: Settings, bundle: Bundle, now: int, dropped: bool, hash: Json -> string)
    returns (ok: bool)
    requires db.name == settings.database
    requires forall l :: l in bundle.layouts ==> RolesOk(l)
    modifies db
    ensures Effect(old(db.Holds()), db.Holds(), settings, bundle, now, hash)
    ensures ok ==> SettingsMatch(settings, bundle.layouts, hash) && OrdersOk(bundle.layouts, db.tables)
    ensures ok ==> db.tables == Run(old(db.tables), db.name, bundle.statements)
    ensures ok && !dropped ==> db.metadata == Latest(old(db.metadata) + MetadataRows(bundle.layouts, now, hash))
    ensures old(db.calls) == [] ==>
      (ok <==> && SettingsMatch(settings, bundle.layouts, hash)
               && OrdersOk(bundle.layouts, Run(old(db.tables), db.name, bundle.statements)))
  {
    hide RolesOk, Run, LayoutFingerprint, OrdersOk, Executed, MetadataRows;
    ghost var before := db.Holds();
    assert Run(db.tables, db.name, bundle.statements[..0]) == db.tables by { EmptyRun(db.tables, db.name); }
    for i := 0 to |bundle.layouts|
      invariant forall j :: 0 <= j < i ==> LayoutMatches(settings, bundle.layouts[j], hash)
    {
      var expected := FindLayout(settings.layouts, CanonicalOf(bundle.layouts[i]));
      if expected.None? || LayoutFingerprint(expected.value, hash) != LayoutFingerprint(bundle.layouts[i], hash) {
        assert EffectAt(before, db.Holds(), settings, bundle, now, hash, 0);
        assert bundle.layouts[i] in bundle.layouts;
        return false;
      }
    }
    assert SettingsMatch(settings, bundle.layouts, hash);
    var ran, n := RunStatements(db, bundle.statements);
    assert bundle.statements[..|bundle.statements|] == bundle.statements;
    assert EffectAt(before, db.Holds(), settings, bundle, now, hash, n);
    if !ran { return false; }
    var verified := VerifyKeys(db, bundle.layouts);
    assert EffectAt(before, db.Holds(), settings, bundle, now, hash, n);
    if !verified { return false; }
    var rows := RowsOf(bundle.layouts, now, hash);
    var inserted := db.Insert(rows, dropped);
    assert EffectAt(before, db.Holds(), settings, bundle, now, hash, n);
    if !inserted { return false; }
    ok := db.Optimize();
    assert EffectAt(before, db.Holds(), settings, bundle, now, hash, n);
  }

  // ---- A fresh database -----------------------------------------------------

  /** A compilation as the schema compiler renders it; it refuses other database names. */
  ghost predicate Rendered(c: Compilation, database: string) {
    && PhysicalIdentifier(database)
    && HeaderOk(c.layout) && ColumnsOk(c.layout) && RolesOk(c.layout) && IndexesOk(c.layout)
    && c.metadataSql == MetadataTable(database, c.layout.topology)
    && exists names :: IndexNames(c.layout, names) && c.createSql == CreateTable(database, c.layout, names)
  }

  lemma {:induction false} RenderedIsRead(c: Compilation, database: string)
    requires Rendered(c, database)
    ensures ReadTable(c.createSql).Some?
    ensures var s := ReadTable(c.createSql).value;
            s.database == database && s.table == c.layout.table && RolesOk(c.layout)
            && TableFor(s.definition, database, c.layout)
  {
    hide ReadTable, CreateTable, LayoutTable, HeaderOk, ColumnsOk, RolesOk, IndexesOk, MetadataTable,
         PhysicalIdentifier;
    var names :| IndexNames(c.layout, names) && c.createSql == CreateTable(database, c.layout, names);
    TableIsRead(database, c.layout, names);
  }

  /** The tables of a planned bundle are new, and no two of its resources share one. */
  predicate FreshTables(cs: seq<Compilation>, tables: Tables) {
    && (forall c :: c in cs ==> c.layout.table !in tables)
    && (forall c, d :: c in cs && d in cs && c.layout.table == d.layout.table ==> c == d)
  }

  ghost predicate AllRendered(cs: seq<Compilation>, database: string) {
    forall c :: c in cs ==> Rendered(c, database) && RolesOk(c.layout)
  }

  lemma {:induction false} DifferentTables(cs: seq<Compilation>, j: nat, k: nat)
    requires Unique(ResourceNames(cs)) && j < k < |cs|
    requires forall c, d :: c in cs && d in cs && c.layout.table == d.layout.table ==> c == d
    ensures cs[j].layout.table != cs[k].layout.table
  {
    assert ResourceNames(cs)[j] != ResourceNames(cs)[k];
    assert cs[j] in cs && cs[k] in cs;
  }

  lemma {:induction false} MetadataOf(c: Compilation, database: string)
    requires Rendered(c, database)
    ensures ReadTable(c.metadataSql)
         == Some(Statement(database, METADATA_TABLE, MetadataDef(database, c.layout.topology)))
  {
    hide ReadTable, MetadataTable, CreateTable, MetadataDef;
    MetadataIsRead(database, c.layout.topology);
  }

  /** After the statements of a first migration, the table of each resource is the one that was
      compiled for it, unless it has the name of the metadata table, which is created first. */
  lemma {:induction false} FreshTable(cs: seq<Compilation>, ordered: seq<Compilation>, database: string,
                                      tables: Tables, statements: seq<seq<string>>, k: nat)
    requires forall c :: c in ordered ==> c in cs
    requires Unique(ResourceNames(ordered)) && k < |ordered|
    requires AllRendered(cs, database) && FreshTables(cs, tables)
    requires statements == [ordered[0].metadataSql] + Creates(ordered)
    ensures var l, after := ordered[k].layout, Run(tables, database, statements);
            && l.table in after && RolesOk(l)
            && if l.table == METADATA_TABLE then after[l.table] == MetadataDef(database, ordered[0].layout.topology)
               else TableFor(after[l.table], database, l)
  {
    hide CompilationKey, Rendered, RolesOk, Run, ReadTable, TableFor, MetadataDef, Unique;
    var c := ordered[k];
    assert ordered[0] in cs && c in cs;
    MetadataOf(ordered[0], database);
    assert statements[0] == ordered[0].metadataSql;
    if c.layout.table == METADATA_TABLE {
      RunDefines(tables, database, statements, 0, METADATA_TABLE, MetadataDef(database, ordered[0].layout.topology));
    } else {
      RenderedIsRead(c, database);
      forall j | 0 <= j < k + 1 && ReadTable(statements[j]).Some?
        ensures ReadTable(statements[j]).value.table != c.layout.table
      {
        if j > 0 {
          assert ordered[j - 1] in cs;
          RenderedIsRead(ordered[j - 1], database);
          DifferentTables(ordered, j - 1, k);
        }
      }
      RunDefines(tables, database, statements, k + 1, c.layout.table, ReadTable(c.createSql).value.definition);
    }
  }

  lemma {:induction false} LongKey(l: Layout)
    requires RolesOk(l)
    ensures |KeyColumns(l)| > 1
  {}

  /** The key of the metadata table is printed unlike the key of any layout. */
  lemma {:induction false} ResourceRefIsNoKey(l: Layout)
    requires ColumnsOk(l) && RolesOk(l)
    ensures JoinNames(["resource_ref"]) != ExpectedKey(l)
  {
    hide ColumnsOk, RolesOk, JoinNames, KeyColumns, OrderNames;
    KeyNamesPlain(l);
    OrderNamesAreKey(l);
    if JoinNames(["resource_ref"]) == ExpectedKey(l) {
      MetadataColumn(0);
      JoinInjective(["resource_ref"], KeyColumns(l));
      LongKey(l);
    }
  }

  lemma {:induction false} RenderedColumns(c: Compilation, database: string)
    requires Rendered(c, database)
    ensures ColumnsOk(c.layout) && RolesOk(c.layout)
  {
    hide MetadataTable, CreateTable, ColumnsOk;
  }

  lemma {:induction false} FreshKeyVerifies(cs: seq<Compilation>, ordered: seq<Compilation>, database: string,
                                            tables: Tables, statements: seq<seq<string>>, k: nat)
    requires forall c :: c in ordered ==> c in cs
    requires Unique(ResourceNames(ordered)) && k < |ordered|
    requires AllRendered(cs, database) && FreshTables(cs, tables)
    requires statements == [ordered[0].metadataSql] + Creates(ordered)
    ensures RolesOk(ordered[k].layout)
    ensures VerifyAppendOrder(Run(tables, database, statements), ordered[k].layout).Ok? <==>
            ordered[k].layout.table != METADATA_TABLE
  {
    hide CompilationKey, Rendered, RolesOk, Run, ReadTable, KeyColumns, TableColumns, EngineName, OrderNames, Unique,
         JoinNames, TableFor;
    FreshTable(cs, ordered, database, tables, statements, k);
    if ordered[k].layout.table != METADATA_TABLE {
      TableForFields(Run(tables, database, statements)[ordered[k].layout.table], database, ordered[k].layout);
    }
    RenderedColumns(ordered[k], database);
    OrderNamesAreKey(ordered[k].layout);
    ResourceRefIsNoKey(ordered[k].layout);
  }

  /** On a database without these tables, the keys of a planned bundle verify after its
      statements, so that an unbroken first migration succeeds, exactly when no append-only
      layout has the name of the metadata table. */
  lemma {:induction false} FreshKeysVerify(id: string, cs: seq<Compilation>, database: string, tables: Tables)
    requires Plannable(id, cs) && AllRendered(cs, database) && FreshTables(cs, tables)
    ensures forall l :: l in Planned(id, cs).layouts ==> RolesOk(l)
    ensures OrdersOk(Planned(id, cs).layouts, Run(tables, database, Planned(id, cs).statements))
       <==> forall c :: c in cs && c.layout.appendOnly ==> c.layout.table != METADATA_TABLE
  {
    hide Sort, CompilationKey, Rendered, RolesOk, Run, ReadTable, VerifyAppendOrder, Unique, FreshTables;
    SortedCompilations(cs);
    var ordered, bundle := Sort(CompilationKey, cs), Planned(id, cs);
    var after := Run(tables, database, bundle.statements);
    forall k | 0 <= k < |ordered|
      ensures RolesOk(ordered[k].layout)
      ensures VerifyAppendOrder(after, ordered[k].layout).Ok? <==> ordered[k].layout.table != METADATA_TABLE
    {
      FreshKeyVerifies(cs, ordered, database, tables, bundle.statements, k);
    }
    forall l | l in bundle.layouts ensures exists k :: 0 <= k < |ordered| && ordered[k].layout == l {
      var k :| 0 <= k < |LayoutsOf(ordered)| && LayoutsOf(ordered)[k] == l;
    }
    forall c | c in cs ensures c.layout in bundle.layouts {
      var k :| 0 <= k < |ordered| && ordered[k] == c;
      assert LayoutsOf(ordered)[k] == c.layout;
    }
    forall l | l in bundle.layouts ensures exists c :: c in cs && c.layout == l {
      var k :| 0 <= k < |ordered| && ordered[k].layout == l;
      assert ordered[k] in cs;
    }
  }

  /** Generated table names are never that of the metadata table. */
  lemma {:induction false} GeneratedIsNotMetadata(ascii: string, digest: string, prefix: string)
    requires prefix in {"m", "c", "idx"} && |digest| == 12 && AllParts(digest)
    ensures PhysicalName(ascii, digest, prefix) != METADATA_TABLE
  {
    hide PhysicalName;
    PhysicalNameIsIdentifier(ascii, digest, prefix);
  }

  /** The columns of a metadata row after its key, in the order in which they are read. */
  function RowValues(row: MetaRow): seq<string> {
    [row.resourceFingerprint, row.schemaFingerprint, row.profile, row.table, row.layoutFingerprint, row.schemaVersion]
  }

  /** The registry declares a resource with the pins of its layout. */
  predicate Pins(d: Declared, l: Layout) {
    && d.canonical == CanonicalOf(l) && d.resourceFingerprint == l.resourceFingerprint && d.profile == l.profile
    && (d.schemaFingerprint == None || d.schemaFingerprint == Some("")
        || d.schemaFingerprint == Some(l.schemaFingerprint))
  }

  lemma {:induction false} FirstColumnsDiffer(l: Layout)
    ensures TableColumns(l) != METADATA_COLUMNS
  {
    assert TableColumns(l)[0].0 == HIDDEN_COLUMNS[0];
    assert HIDDEN_COLUMNS[0][0] == '_' && METADATA_COLUMNS[0].0[0] == 'r';
  }

  /** After an unbroken first migration a resource passes physical verification, with the
      metadata row that was written for it, exactly when its table is not the metadata table. */
  lemma {:induction false} FreshResourceVerifies(id: string, cs: seq<Compilation>, settings: Settings, tables: Tables,
                                                 metadata: map<string, seq<string>>, c: Compilation, d: Declared,
                                                 now: int, hash: Json -> string)
    requires Plannable(id, cs) && AllRendered(cs, settings.database) && FreshTables(cs, tables) && c in cs
    requires forall l :: l in settings.layouts ==> RolesOk(l)
    requires FindLayout(settings.layouts, CanonicalOf(c.layout)) == Some(c.layout) && Pins(d, c.layout)
    requires d.canonical in metadata && metadata[d.canonical] == RowValues(MetadataRow(c.layout, now, hash))
    ensures ResourceOk(settings, Run(tables, settings.database, Planned(id, cs).statements), metadata, d, hash)
       <==> c.layout.table != METADATA_TABLE
  {
    hide Sort, CompilationKey, Rendered, RolesOk, Run, ReadTable, KeyColumns, TableColumns, ExpectedColumns,
         EngineName, OrderNames, Unique, LayoutFingerprint, FindLayout, VerifyAppendOrder, FreshTables, TableFor;
    SortedCompilations(cs);
    var ordered := Sort(CompilationKey, cs);
    assert c in ordered;
    var k :| 0 <= k < |ordered| && ordered[k] == c;
    FreshTable(cs, ordered, settings.database, tables, Planned(id, cs).statements, k);
    FreshKeyVerifies(cs, ordered, settings.database, tables, Planned(id, cs).statements, k);
    if c.layout.table != METADATA_TABLE {
      var after := Run(tables, settings.database, Planned(id, cs).statements);
      TableForFields(after[c.layout.table], settings.database, c.layout);
    }
    ExpectedAreCreated(c.layout);
    FirstColumnsDiffer(c.layout);
  }
}
