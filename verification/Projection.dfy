/** The tables of the project index and the edge table rebuilt from them (src/project_index.rs). */
module Projection {
  import opened Utf8
  import opened Wrappers
  import opened ChunkSpans

  type Key = string

  datatype EdgeKind = Contains | Calls | Imports | Inherits | TestedBy

  datatype Confidence = Extracted | Inferred | Ambiguous

  // ----- What `parse_file` reports

  datatype ParsedSymbol = ParsedSymbol(key: Key, name: string, kind: string, qualifiedName: string, parent: Option<Key>,
                                       start: nat, end: nat, startLine: nat, endLine: nat, isTest: bool)

  datatype ParsedReference = ParsedReference(source: Option<Key>, targetName: string, kind: EdgeKind, start: nat, end: nat)

  datatype Parsed = Parsed(language: Option<string>, state: string, symbols: seq<ParsedSymbol>, references: seq<ParsedReference>)

  // ----- Rows

  datatype FileRow = FileRow(hash: string, byteCount: nat, language: Option<string>, state: string)

  datatype ChunkRow = ChunkRow(path: Path, span: Span, startLine: nat, endLine: nat, content: Bytes)

  datatype SymbolRow = SymbolRow(path: Path, symbol: ParsedSymbol)

  datatype ReferenceRow = ReferenceRow(path: Path, source: Key, targetName: string, kind: EdgeKind, start: nat, end: nat)

  datatype EdgeRow = EdgeRow(source: Key, target: Key, targetName: string, kind: EdgeKind, confidence: Confidence,
                             path: Path, start: nat, end: nat)

  /** The columns of the edge table's UNIQUE constraint. */
  datatype EdgeKey = EdgeKey(source: Key, target: Key, kind: EdgeKind, start: nat, end: nat)

  function KeyOf(e: EdgeRow): EdgeKey {
    EdgeKey(e.source, e.target, e.kind, e.start, e.end)
  }

  /** The PRIMARY KEY of the symbol table. */
  ghost predicate PrimaryKeys(symbols: set<SymbolRow>) {
    forall a, b :: a in symbols && b in symbols && a.symbol.key == b.symbol.key ==> a == b
  }

  /** A reference's source lies in the reference's file: source keys determine the path. */
  ghost predicate SourcesOwnPaths(references: set<ReferenceRow>) {
    forall a, b :: a in references && b in references && a.source == b.source ==> a.path == b.path
  }

  // ----- Name matching

  function FoldChar(c: char): char {
    if 'A' <= c <= 'Z' then c + 'a' - 'A' else c
  }

  function Fold(s: string): string {
    seq(|s|, i requires 0 <= i < |s| => FoldChar(s[i]))
  }

  /** SQLite's `COLLATE NOCASE`. */
  predicate SameName(a: string, b: string) {
    Fold(a) == Fold(b)
  }

  predicate Namesake(r: ReferenceRow, s: SymbolRow) {
    SameName(s.symbol.name, r.targetName)
  }

  predicate Local(r: ReferenceRow, s: SymbolRow) {
    s.path == r.path && Namesake(r, s)
  }

  function LocalNamesakes(symbols: set<SymbolRow>, r: ReferenceRow): set<SymbolRow> {
    set s | s in symbols && Local(r, s)
  }

  function GlobalNamesakes(symbols: set<SymbolRow>, r: ReferenceRow): set<SymbolRow> {
    set s | s in symbols && Namesake(r, s)
  }

  /** The join condition of the `resolved` query. */
  predicate Resolves(symbols: set<SymbolRow>, r: ReferenceRow, s: SymbolRow) {
    && s in symbols
    && Namesake(r, s)
    && ((s.path == r.path && LocalNamesakes(symbols, r) != {}) || LocalNamesakes(symbols, r) == {})
  }

  /** Its `candidate_count` column. */
  function CandidateCount(symbols: set<SymbolRow>, r: ReferenceRow): nat {
    if LocalNamesakes(symbols, r) != {} then |LocalNamesakes(symbols, r)| else |GlobalNamesakes(symbols, r)|
  }

  function EdgeFor(symbols: set<SymbolRow>, r: ReferenceRow, s: SymbolRow): EdgeRow {
    EdgeRow(r.source, s.symbol.key, s.symbol.name, r.kind,
            if CandidateCount(symbols, r) == 1 then Inferred else Ambiguous, r.path, r.start, r.end)
  }

  // ----- The three statements of `rebuild_project_edges`

  function ContainsEdge(s: SymbolRow): EdgeRow
    requires s.symbol.parent.Some?
  {
    EdgeRow(s.symbol.parent.value, s.symbol.key, s.symbol.name, Contains, Extracted, s.path, s.symbol.start, s.symbol.end)
  }

  function ContainsEdges(symbols: set<SymbolRow>): set<EdgeRow> {
    set s | s in symbols && s.symbol.parent.Some? :: ContainsEdge(s)
  }

  function ResolvedEdges(symbols: set<SymbolRow>, references: set<ReferenceRow>): set<EdgeRow> {
    set r, s | r in references && s in symbols && Resolves(symbols, r, s) :: EdgeFor(symbols, r, s)
  }

  predicate IsTestCall(e: EdgeRow, s: SymbolRow) {
    e.kind == Calls && e.source == s.symbol.key && s.symbol.isTest
  }

  function Mirror(e: EdgeRow, s: SymbolRow): EdgeRow {
    EdgeRow(e.target, e.source, s.symbol.name, TestedBy, e.confidence, e.path, e.start, e.end)
  }

  function TestedByEdges(symbols: set<SymbolRow>, edges: set<EdgeRow>): set<EdgeRow> {
    set e, s | e in edges && s in symbols && IsTestCall(e, s) :: Mirror(e, s)
  }

  /** `INSERT OR IGNORE`, when no two of the new rows compete for a key. */
  function InsertOrIgnore(existing: set<EdgeRow>, rows: set<EdgeRow>): set<EdgeRow> {
    existing + set e | e in rows && KeyIsFree(existing, e)
  }

  function Rebuild(symbols: set<SymbolRow>, references: set<ReferenceRow>): set<EdgeRow> {
    var resolved := InsertOrIgnore(ContainsEdges(symbols), ResolvedEdges(symbols, references));
    InsertOrIgnore(resolved, TestedByEdges(symbols, resolved))
  }

  ghost predicate KeysDistinct(edges: set<EdgeRow>) {
    forall a, b :: a in edges && b in edges && KeyOf(a) == KeyOf(b) ==> a == b
  }

  predicate KeyIsFree(edges: set<EdgeRow>, e: EdgeRow) {
    forall x :: x in edges ==> KeyOf(x) != KeyOf(e)
  }

  function InsertOne(edges: set<EdgeRow>, e: EdgeRow): set<EdgeRow> {
    if KeyIsFree(edges, e) then edges + {e} else edges
  }

  lemma InsertStep(existing: set<EdgeRow>, done: set<EdgeRow>, e: EdgeRow)
    requires e !in done && KeysDistinct(done + {e})
    ensures InsertOrIgnore(existing, done + {e}) == InsertOne(InsertOrIgnore(existing, done), e)
  {
  }

  /** The statement itself: rows arrive in any order, and one whose key is taken is skipped. */
  method InsertRows(existing: set<EdgeRow>, rows: set<EdgeRow>) returns (edges: set<EdgeRow>)
    requires KeysDistinct(rows)
    ensures edges == InsertOrIgnore(existing, rows)
  {
    edges := existing;
    var todo := rows;
    ghost var done := {};
    assert edges == InsertOrIgnore(existing, {});
    while todo != {}
      invariant done + todo == rows && done !! todo
      invariant edges == InsertOrIgnore(existing, done)
      decreases |todo|
    {
      var e :| e in todo;
      InsertStep(existing, done, e);
      edges := InsertOne(edges, e);
      todo := todo - {e};
      done := done + {e};
    }
    assert done == rows;
  }

  // ----- No two rows ever compete: whatever the scan order, the rebuilt table is the same

  /** References that could claim the same edge have the same candidates. */
  lemma SameCandidates(symbols: set<SymbolRow>, a: ReferenceRow, b: ReferenceRow, s: SymbolRow)
    requires a.path == b.path && Namesake(a, s) && Namesake(b, s)
    ensures CandidateCount(symbols, a) == CandidateCount(symbols, b)
  {
    assert Fold(a.targetName) == Fold(b.targetName);
    assert LocalNamesakes(symbols, a) == LocalNamesakes(symbols, b);
    assert GlobalNamesakes(symbols, a) == GlobalNamesakes(symbols, b);
  }

  lemma ResolvedKeysDistinct(symbols: set<SymbolRow>, references: set<ReferenceRow>)
    requires PrimaryKeys(symbols) && SourcesOwnPaths(references)
    ensures KeysDistinct(ResolvedEdges(symbols, references))
  {
    forall x, y | x in ResolvedEdges(symbols, references) && y in ResolvedEdges(symbols, references) && KeyOf(x) == KeyOf(y)
      ensures x == y
    {
      var a, s :| a in references && s in symbols && Resolves(symbols, a, s) && x == EdgeFor(symbols, a, s);
      var b, t :| b in references && t in symbols && Resolves(symbols, b, t) && y == EdgeFor(symbols, b, t);
      SameCandidates(symbols, a, b, s);
    }
  }

  lemma ContainsKeysDistinct(symbols: set<SymbolRow>)
    requires PrimaryKeys(symbols)
    ensures KeysDistinct(ContainsEdges(symbols))
  {
  }

  lemma TestedByKeysDistinct(symbols: set<SymbolRow>, edges: set<EdgeRow>)
    requires PrimaryKeys(symbols) && KeysDistinct(edges)
    ensures KeysDistinct(TestedByEdges(symbols, edges))
  {
  }

  lemma InsertKeepsKeysDistinct(existing: set<EdgeRow>, rows: set<EdgeRow>)
    requires KeysDistinct(existing) && KeysDistinct(rows)
    ensures KeysDistinct(InsertOrIgnore(existing, rows))
  {
  }

  /** `rebuild_project_edges`. */
  method RebuildEdges(symbols: set<SymbolRow>, references: set<ReferenceRow>) returns (edges: set<EdgeRow>)
    requires PrimaryKeys(symbols) && SourcesOwnPaths(references)
    ensures edges == Rebuild(symbols, references)
    ensures KeysDistinct(edges)
  {
    edges := {};
    ContainsKeysDistinct(symbols);
    edges := InsertRows(edges, ContainsEdges(symbols));
    assert edges == ContainsEdges(symbols);
    ResolvedKeysDistinct(symbols, references);
    InsertKeepsKeysDistinct(edges, ResolvedEdges(symbols, references));
    edges := InsertRows(edges, ResolvedEdges(symbols, references));
    TestedByKeysDistinct(symbols, edges);
    InsertKeepsKeysDistinct(edges, TestedByEdges(symbols, edges));
    edges := InsertRows(edges, TestedByEdges(symbols, edges));
  }

  // ----- What the rebuilt table says

  /** The kinds `parse_file` gives its references. */
  ghost predicate ReferenceKinds(references: set<ReferenceRow>) {
    forall r :: r in references ==> r.kind == Calls || r.kind == Imports || r.kind == Inherits
  }

  /** Same-file namesakes if there are any, otherwise every namesake. */
  function Candidates(symbols: set<SymbolRow>, r: ReferenceRow): set<SymbolRow> {
    if exists s :: s in symbols && Local(r, s) then set s | s in symbols && Local(r, s)
    else set s | s in symbols && Namesake(r, s)
  }

  /** Names are compared without regard to the case of ASCII letters. */
  predicate EqualNames(a: string, b: string) {
    |a| == |b| && forall i :: 0 <= i < |a| ==> EqualChars(a[i], b[i])
  }

  predicate EqualChars(a: char, b: char) {
    || a == b
    || ('A' <= a <= 'Z' && b as int == a as int + 32)
    || ('A' <= b <= 'Z' && a as int == b as int + 32)
  }

  lemma SameNamesAreEqual(a: string, b: string)
    ensures SameName(a, b) <==> EqualNames(a, b)
  {
    assert |Fold(a)| == |a| && |Fold(b)| == |b|;
    if SameName(a, b) {
      forall i | 0 <= i < |a| ensures EqualChars(a[i], b[i]) {
        assert Fold(a)[i] == Fold(b)[i];
      }
    }
    if EqualNames(a, b) {
      assert forall i :: 0 <= i < |a| ==> Fold(a)[i] == Fold(b)[i];
    }
  }

  /** A candidate has the name of the reference, and is in its file unless no symbol there has that name. */
  lemma CandidatesAre(symbols: set<SymbolRow>, r: ReferenceRow, s: SymbolRow)
    ensures s in Candidates(symbols, r) <==>
            && s in symbols && EqualNames(s.symbol.name, r.targetName)
            && (s.path == r.path || forall x :: x in symbols && x.path == r.path ==> !EqualNames(x.symbol.name, r.targetName))
  {
    forall x: SymbolRow ensures Namesake(r, x) <==> EqualNames(x.symbol.name, r.targetName) {
      SameNamesAreEqual(x.symbol.name, r.targetName);
    }
    if x :| x in symbols && x.path == r.path && EqualNames(x.symbol.name, r.targetName) {
      assert Local(r, x);
    }
  }

  /** `contains` edges lead from each symbol's parent to it. */
  lemma ContainsAre(symbols: set<SymbolRow>, references: set<ReferenceRow>, e: EdgeRow)
    requires ReferenceKinds(references) && e.kind == Contains
    ensures e in Rebuild(symbols, references) <==> exists s :: s in symbols && IsContained(e, s)
  {
    RebuildByKind(symbols, references, e);
    if s :| s in symbols && IsContained(e, s) {
      assert e == ContainsEdge(s);
    }
    if e in ContainsEdges(symbols) {
      var s :| s in symbols && s.symbol.parent.Some? && e == ContainsEdge(s);
      assert IsContained(e, s);
    }
  }

  predicate IsContained(e: EdgeRow, s: SymbolRow) {
    && s.symbol.parent == Some(e.source) && e.target == s.symbol.key && e.targetName == s.symbol.name && e.confidence == Extracted
    && e.path == s.path && e.start == s.symbol.start && e.end == s.symbol.end
  }

  /** The mirror of a call from a test leads from the symbol called to the test, at the place of the call. */
  lemma MirrorTurns(e: EdgeRow, s: SymbolRow)
    ensures var m := Mirror(e, s);
            && m.source == e.target && m.target == e.source && m.kind == TestedBy && m.targetName == s.symbol.name
            && m.confidence == e.confidence && m.path == e.path && m.start == e.start && m.end == e.end
  {
  }

  lemma ResolvesToCandidates(symbols: set<SymbolRow>, r: ReferenceRow)
    ensures forall s :: Resolves(symbols, r, s) <==> s in Candidates(symbols, r)
    ensures CandidateCount(symbols, r) == |Candidates(symbols, r)|
  {
    if s :| s in symbols && Local(r, s) {
      assert s in LocalNamesakes(symbols, r);
      assert Candidates(symbols, r) == LocalNamesakes(symbols, r);
    } else {
      assert LocalNamesakes(symbols, r) == {};
      assert Candidates(symbols, r) == GlobalNamesakes(symbols, r);
    }
  }

  lemma RebuildByKind(symbols: set<SymbolRow>, references: set<ReferenceRow>, e: EdgeRow)
    requires ReferenceKinds(references)
    ensures e in Rebuild(symbols, references) <==>
              match e.kind
              case Contains => e in ContainsEdges(symbols)
              case TestedBy => e in TestedByEdges(symbols, ResolvedEdges(symbols, references))
              case _ => e in ResolvedEdges(symbols, references)
  {
  }

  /** A reference resolves to each of its candidates and to nothing else; its edges are `inferred`
      exactly when there is one candidate, and otherwise there is one `ambiguous` edge for each. */
  lemma Resolution(symbols: set<SymbolRow>, references: set<ReferenceRow>, r: ReferenceRow)
    requires PrimaryKeys(symbols) && SourcesOwnPaths(references) && ReferenceKinds(references) && r in references
    ensures forall s :: s in Candidates(symbols, r) ==>
              EdgeRow(r.source, s.symbol.key, s.symbol.name, r.kind,
                      if |Candidates(symbols, r)| == 1 then Inferred else Ambiguous, r.path, r.start, r.end)
              in Rebuild(symbols, references)
  {
  }

  /** Conversely every call, import or inheritance edge comes from a reference and one of its candidates. */
  lemma ResolutionIsAll(symbols: set<SymbolRow>, references: set<ReferenceRow>, e: EdgeRow)
    requires ReferenceKinds(references)
    requires e in Rebuild(symbols, references) && e.kind != Contains && e.kind != TestedBy
    ensures exists r, s :: r in references && s in Candidates(symbols, r)
              && e == EdgeRow(r.source, s.symbol.key, s.symbol.name, r.kind,
                              if |Candidates(symbols, r)| == 1 then Inferred else Ambiguous, r.path, r.start, r.end)
  {
    RebuildByKind(symbols, references, e);
    var r, s :| r in references && s in symbols && Resolves(symbols, r, s) && e == EdgeFor(symbols, r, s);
    ResolvesToCandidates(symbols, r);
  }

  /** The `tested_by` edges are exactly the calls from tests, turned around: mirroring is a bijection. */
  lemma TestedByMirrorsTestCalls(symbols: set<SymbolRow>, references: set<ReferenceRow>)
    requires PrimaryKeys(symbols) && SourcesOwnPaths(references) && ReferenceKinds(references)
    ensures var edges := Rebuild(symbols, references);
            && (forall e, s :: e in edges && s in symbols && IsTestCall(e, s) ==> Mirror(e, s) in edges)
            && (forall m :: m in edges && m.kind == TestedBy ==>
                  exists e, s :: e in edges && s in symbols && IsTestCall(e, s) && m == Mirror(e, s))
            && (forall e, s, f, t | e in edges && s in symbols && IsTestCall(e, s) && f in edges && t in symbols && IsTestCall(f, t)
                :: Mirror(e, s) == Mirror(f, t) ==> e == f && s == t)
  {
  }
}
