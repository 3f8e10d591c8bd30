/** Every database a history of index runs can lead to is fit for the maps drawn from it: what the
    bounded search and the facets take for granted about the tables holds (src/project_index.rs). */
module MapHistory {
  import opened Utf8
  import opened Projection
  import opened IndexRun
  import opened IndexHistory
  import opened CallGraph
  import opened MapEdges
  import opened EdgeSites

  /** What `parse_file` reports: three kinds of references, one source for the calls and imports of one
      place, and nothing else at the place of a call (src/project_structure.rs). */
  ghost predicate ParserIsRegular(env: Env) {
    forall c, p, b :: Regular(env.parse(c, p, b))
  }

  ghost predicate Regular(parsed: Parsed) {
    && (forall r :: r in parsed.references ==> r.kind == Calls || r.kind == Imports || r.kind == Inherits)
    && (forall r, q | r in parsed.references && q in parsed.references && r.start == q.start && r.end == q.end
          && CallOrImport(r.kind) && CallOrImport(q.kind) :: r.source == q.source)
    && (forall r, q | r in parsed.references && q in parsed.references && r.start == q.start && r.end == q.end && r.kind == Calls
          :: r == q)
  }

  /** A row of the tables comes from the file at its path. */
  lemma SymbolComesFromFile(env: Env, c: Constants, base: Base, tree: map<Path, Bytes>, row: SymbolRow)
    requires Sound(env) && Represents(env, c, base, tree) && row in base.symbols
    ensures row.path in tree && row.path in base.files && Insertable(env.parse(c, row.path, tree[row.path]))
    ensures row.symbol in env.parse(c, row.path, tree[row.path]).symbols && env.owner(row.symbol.key) == row.path
  {
    assert PathAgrees(env, c, base, tree, row.path);
    assert Owned(env, row.path, env.parse(c, row.path, tree[row.path]));
  }

  lemma ReferenceComesFromFile(env: Env, c: Constants, base: Base, tree: map<Path, Bytes>, row: ReferenceRow) returns (r: ParsedReference)
    requires Sound(env) && Represents(env, c, base, tree) && row in base.references
    ensures row.path in tree && row.path in base.files && env.owner(row.source) == row.path
    ensures r in env.parse(c, row.path, tree[row.path]).references && r.source.Some? && row == ReferenceRowOf(row.path, r)
  {
    assert PathAgrees(env, c, base, tree, row.path);
    var parsed := env.parse(c, row.path, tree[row.path]);
    assert Owned(env, row.path, parsed);
    r :| r in parsed.references && r.source.Some? && row == ReferenceRowOf(row.path, r);
  }

  lemma ProjectionIsKeyed(env: Env, c: Constants, base: Base, tree: map<Path, Bytes>)
    requires Sound(env) && Represents(env, c, base, tree)
    ensures PrimaryKeys(base.symbols)
  {
    forall a, b | a in base.symbols && b in base.symbols && a.symbol.key == b.symbol.key ensures a == b {
      SymbolComesFromFile(env, c, base, tree, a);
      SymbolComesFromFile(env, c, base, tree, b);
    }
  }

  lemma ReferencesAreRegular(env: Env, c: Constants, base: Base, tree: map<Path, Bytes>)
    requires Sound(env) && ParserIsRegular(env) && Represents(env, c, base, tree)
    ensures SourcesOwnPaths(base.references) && ReferenceKinds(base.references) && ReferenceSitesDecideSource(base.references)
    ensures ReferenceCallSitesAreAlone(base.references)
  {
    forall a, b | a in base.references && b in base.references
      ensures a.source == b.source ==> a.path == b.path
      ensures a.kind == Calls || a.kind == Imports || a.kind == Inherits
      ensures a.path == b.path && a.start == b.start && a.end == b.end && CallOrImport(a.kind) && CallOrImport(b.kind) ==> a.source == b.source
      ensures a.path == b.path && a.start == b.start && a.end == b.end && a.kind == Calls ==> a == b
    {
      var r := ReferenceComesFromFile(env, c, base, tree, a);
      var q := ReferenceComesFromFile(env, c, base, tree, b);
      assert Regular(env.parse(c, a.path, tree[a.path]));
    }
  }

  lemma RebuiltKeysDistinct(symbols: set<SymbolRow>, references: set<ReferenceRow>)
    requires PrimaryKeys(symbols) && SourcesOwnPaths(references)
    ensures KeysDistinct(Rebuild(symbols, references))
  {
    ContainsKeysDistinct(symbols);
    ResolvedKeysDistinct(symbols, references);
    var resolved := InsertOrIgnore(ContainsEdges(symbols), ResolvedEdges(symbols, references));
    InsertKeepsKeysDistinct(ContainsEdges(symbols), ResolvedEdges(symbols, references));
    TestedByKeysDistinct(symbols, resolved);
    InsertKeepsKeysDistinct(resolved, TestedByEdges(symbols, resolved));
  }

  /** The view of an open database: its tables, and anything else in the right order. */
  ghost predicate ViewOf(db: Db, g: View) {
    && g.symbols == db.base.symbols && g.edges == db.edges && g.files == db.base.files.Keys
    && (forall s :: Enumerates(g.rows(s), s))
    && (forall s :: multiset(g.sortCalls(s)) == multiset(s))
    && (forall s :: multiset(g.sortStates(s)) == multiset(s))
  }

  /** After every history, whoever opens the database: maps are drawn from consistent tables, and
      joining with the file table loses no symbol. */
  lemma ViewsAreConsistent(env: Env, h: seq<Event>, c: Constants, g: View)
    requires Sound(env) && ParserIsRegular(env) && forall e :: e in h ==> IndexHistory.WellFormed(e)
    requires ViewOf(Opened(c, Run(env, h)).db, g)
    ensures Consistent(g)
    ensures forall s :: s in g.symbols ==> s.path in g.files
  {
    var base := Opened(c, Run(env, h)).db.base;
    TablesAreProjections(env, h);
    var tree := OpenRepresents(env, c, Run(env, h));
    ProjectionIsKeyed(env, c, base, tree);
    ReferencesAreRegular(env, c, base, tree);
    RebuiltKeysDistinct(base.symbols, base.references);
    RebuiltEdgesFit(base.symbols, base.references);
    RebuiltEdgesDecide(base.symbols, base.references);
    RebuiltSitesAreAlone(base.symbols, base.references);
    RebuiltTestsAreMirrored(base.symbols, base.references);
    OpenedEdges(env, h, c);
    forall s | s in g.symbols ensures s.path in g.files {
      SymbolComesFromFile(env, c, base, tree, s);
    }
  }

  lemma RebuiltTestsAreMirrored(symbols: set<SymbolRow>, references: set<ReferenceRow>)
    requires PrimaryKeys(symbols) && SourcesOwnPaths(references) && ReferenceKinds(references)
    ensures TestCallsAreMirrored(symbols, Rebuild(symbols, references))
  {
    TestedByMirrorsTestCalls(symbols, references);
  }

  lemma OpenedEdges(env: Env, h: seq<Event>, c: Constants)
    requires Sound(env) && forall e :: e in h ==> IndexHistory.WellFormed(e)
    ensures var db := Opened(c, Run(env, h)).db; db.edges == Rebuild(db.base.symbols, db.base.references)
  {
    TablesAreProjections(env, h);
    OpenKeepsInv(env, c, Run(env, h));
    NothingToRebuild();
  }

  lemma NothingToRebuild()
    ensures Rebuild({}, {}) == {}
  {
  }
}
