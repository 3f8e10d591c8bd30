/** The edges a map shows for a symbol: where they come from, which of them a query asks for, and in
    what order (src/project_index.rs). */
module MapEdges {
  import opened Utf8
  import opened Wrappers
  import opened Projection
  import opened CallGraph

  datatype Direction = Incoming | Outgoing

  datatype MapKind = Structural(kind: EdgeKind) | BehavioralTestLead

  /** An edge of the symbol in question, seen from it. */
  datatype MapEdge = MapEdge(direction: Direction, kind: MapKind, confidence: Confidence, hops: nat, via: seq<Key>,
                             related: Key, relatedIsTest: bool, path: Path, start: nat, end: nat)

  // ----- What a query asks for

  datatype Intent = Callers | Callees | AnyCalls | Tests | Impact | ImportsOnly | Definition | Mixed

  datatype Wants = Wants(callers: bool, callees: bool, calls: bool, tests: bool, impact: bool, imports: bool, definition: bool)

  function If(b: bool, intent: Intent): set<Intent> {
    if b then {intent} else {}
  }

  /** `project_map_mode`, from the words found in the query. */
  function Mode(w: Wants): set<Intent> {
    var calls := w.callers || w.callees || w.calls;
    var modes := If(w.callers, Callers) + If(w.callees, Callees) + If(calls && !w.callers && !w.callees, AnyCalls)
                 + If(w.tests, Tests) + If(w.impact && !w.callers, Impact) + If(w.imports, ImportsOnly);
    if modes != {} then modes else if w.definition then {Definition} else {Mixed}
  }

  /** What each word leads to: what is named is asked for, and without any of it the definition, or
      everything. */
  lemma ModeIs(w: Wants)
    ensures Callers in Mode(w) <==> w.callers
    ensures Callees in Mode(w) <==> w.callees
    ensures AnyCalls in Mode(w) <==> w.calls && !w.callers && !w.callees
    ensures Tests in Mode(w) <==> w.tests
    ensures Impact in Mode(w) <==> w.impact && !w.callers
    ensures ImportsOnly in Mode(w) <==> w.imports
    ensures var named := w.callers || w.callees || w.calls || w.tests || w.impact || w.imports;
            (Definition in Mode(w) <==> !named && w.definition) && (Mixed in Mode(w) <==> !named && !w.definition)
  {
    if w.callers { assert Callers in Mode(w); }
    if w.callees { assert Callees in Mode(w); }
    if w.calls && !w.callers && !w.callees { assert AnyCalls in Mode(w); }
    if w.tests { assert Tests in Mode(w); }
    if w.impact && !w.callers { assert Impact in Mode(w); }
    if w.imports { assert ImportsOnly in Mode(w); }
  }

  /** The query asks for callers or for calls by name. */
  predicate AsksForCallers(intents: set<Intent>) {
    (Callers in intents || AnyCalls in intents) && Definition !in intents && Mixed !in intents
  }

  lemma ModeAsksForCallers(w: Wants)
    ensures AsksForCallers(Mode(w)) <==> w.callers || (w.calls && !w.callees)
  {
  }

  /** The query asks for tests by name. */
  predicate AsksForTests(intents: set<Intent>) {
    Tests in intents && Definition !in intents && Mixed !in intents
  }

  lemma ModeAsksForTests(w: Wants)
    ensures AsksForTests(Mode(w)) <==> w.tests
  {
    if w.tests {
      assert Tests in Mode(w);
    }
  }

  predicate IsCall(e: MapEdge, direction: Direction) {
    e.kind == Structural(Calls) && e.direction == direction
  }

  predicate DirectCaller(e: MapEdge) {
    IsCall(e, Incoming) && !e.relatedIsTest
  }

  predicate IncomingTestCall(e: MapEdge) {
    IsCall(e, Incoming) && e.relatedIsTest
  }

  predicate TouchesTests(e: MapEdge) {
    e.kind == Structural(TestedBy) || IncomingTestCall(e)
  }

  /** The first component of `project_map_edge_priority`. */
  function Rank(intents: set<Intent>, e: MapEdge): Option<nat> {
    if Callers in intents && DirectCaller(e) then Some(0)
    else if Tests in intents && e.kind == Structural(TestedBy) then Some(1)
    else if Callers in intents && IsCall(e, Incoming) then Some(2)
    else if Tests in intents && IsCall(e, Incoming) && e.relatedIsTest then Some(3)
    else if Tests in intents && e.kind == BehavioralTestLead then Some(4)
    else if Callees in intents && IsCall(e, Outgoing) then Some(0)
    else if AnyCalls in intents && e.kind == Structural(Calls) then Some(if e.direction == Incoming then 0 else 1)
    else if Impact in intents && e.direction == Incoming
            && (e.kind == Structural(Calls) || e.kind == Structural(Imports) || e.kind == Structural(Inherits)) then Some(0)
    else if ImportsOnly in intents && e.kind == Structural(Imports) then Some(0)
    else if Definition in intents && e.kind == Structural(Contains) then Some(0)
    else if Mixed in intents then Some(10)
    else None
  }

  /** Which edges each intent asks for, and in what order. */
  lemma RankOfOne(e: MapEdge)
    ensures Rank({Callers}, e) == if IsCall(e, Incoming) then Some(if e.relatedIsTest then 2 else 0) else None
    ensures Rank({Tests}, e) == match e.kind
                                case BehavioralTestLead => Some(4)
                                case Structural(k) => if k == TestedBy then Some(1)
                                                      else if k == Calls && e.direction == Incoming && e.relatedIsTest then Some(3)
                                                      else None
    ensures Rank({Callees}, e) == if e.kind == Structural(Calls) && e.direction == Outgoing then Some(0) else None
    ensures Rank({AnyCalls}, e) == if e.kind != Structural(Calls) then None else if e.direction == Incoming then Some(0) else Some(1)
    ensures Rank({Impact}, e) == if e.direction == Incoming && e.kind in {Structural(Calls), Structural(Imports), Structural(Inherits)}
                                 then Some(0) else None
    ensures Rank({ImportsOnly}, e) == if e.kind == Structural(Imports) then Some(0) else None
    ensures Rank({Definition}, e) == if e.kind == Structural(Contains) then Some(0) else None
    ensures Rank({Mixed}, e) == Some(10)
  {
  }

  function Turn(i: Intent): nat {
    match i
    case Callers => 0
    case Tests => 1
    case Callees => 2
    case AnyCalls => 3
    case Impact => 4
    case ImportsOnly => 5
    case Definition => 6
    case Mixed => 7
  }

  /** Of several intents, the first that asks for an edge ranks it, ... */
  lemma RankOfMany(intents: set<Intent>, e: MapEdge, i: Intent)
    requires i in intents && Rank({i}, e).Some? && forall j :: j in intents && Rank({j}, e).Some? ==> Turn(i) <= Turn(j)
    ensures Rank(intents, e) == Rank({i}, e)
  {
    RankOfOne(e);
  }

  /** ... and if none does, it is not asked for. */
  lemma AsksFor(intents: set<Intent>, e: MapEdge)
    ensures Rank(intents, e).Some? <==> exists i :: i in intents && Rank({i}, e).Some?
  {
    RankOfOne(e);
  }

  function ConfidenceRank(c: Confidence): nat {
    match c
    case Extracted => 0
    case Inferred => 1
    case Ambiguous => 2
  }

  /** Before by rank and confidence. */
  predicate RankedBefore(intents: set<Intent>, a: MapEdge, b: MapEdge) {
    && Rank(intents, a).Some? && Rank(intents, b).Some?
    && var (x, y) := (Rank(intents, a).value, Rank(intents, b).value);
    x < y || (x == y && ConfidenceRank(a.confidence) < ConfidenceRank(b.confidence))
  }

  /** Nothing the comparison looks at tells them apart. (Names belong to keys.) */
  predicate Tied(intents: set<Intent>, a: MapEdge, b: MapEdge) {
    && Rank(intents, a) == Rank(intents, b) && a.confidence == b.confidence && a.hops == b.hops
    && a.path == b.path && a.start == b.start && a.related == b.related
  }

  // ----- The candidates

  function SeenFrom(direction: Direction, e: EdgeRow, s: SymbolRow): MapEdge {
    MapEdge(direction, Structural(e.kind), e.confidence, 1, [], s.symbol.key, s.symbol.isTest, e.path, e.start, e.end)
  }

  predicate Relates(g: View, key: Key, direction: Direction, e: EdgeRow, s: SymbolRow) {
    && e in g.edges && s in g.symbols && s.path in g.files && e.path in g.files
    && (if direction == Incoming then e.target == key && s.symbol.key == e.source else e.source == key && s.symbol.key == e.target)
  }

  /** The rows of the query in `verified_symbol_edges`. */
  function Related(g: View, key: Key, direction: Direction): set<MapEdge> {
    set e, s | e in g.edges && s in g.symbols && Relates(g, key, direction, e, s) :: SeenFrom(direction, e, s)
  }

  function Relations(g: View, key: Key): set<MapEdge> {
    Related(g, key, Outgoing) + Related(g, key, Incoming)
  }

  /** All places in the projection where something that is not a test calls the symbol. */
  function CallerSites(g: View, key: Key): set<MapEdge> {
    set e, s | e in g.edges && s in g.symbols && Relates(g, key, Incoming, e, s) && e.kind == Calls && !s.symbol.isTest
      :: SeenFrom(Incoming, e, s)
  }

  function CalleeSites(g: View, key: Key): set<MapEdge> {
    set r | r in Relations(g, key) && IsCall(r, Outgoing)
  }

  /** All relations by which the projection says that a test calls the symbol, or the other way round. */
  function TestRelations(g: View, key: Key): set<MapEdge> {
    set r | r in Relations(g, key) && TouchesTests(r)
  }

  function TestedBySites(g: View, key: Key): set<MapEdge> {
    set r | r in Relations(g, key) && r.kind == Structural(TestedBy)
  }

  /** What the query for a symbol returns: its edges, seen from it, with the symbol at the other end. */
  lemma RelationsAre(g: View, key: Key, x: MapEdge)
    ensures x in Relations(g, key) <==> exists e, s :: e in g.edges && s in g.symbols && IsRelation(g, key, x, e, s)
  {
    if e, s :| e in g.edges && s in g.symbols && IsRelation(g, key, x, e, s) {
      assert Relates(g, key, x.direction, e, s) && x == SeenFrom(x.direction, e, s);
      assert x in Related(g, key, x.direction);
    } else if x in Relations(g, key) {
      var e, s := RowOf(g, key, x);
      assert IsRelation(g, key, x, e, s);
    }
  }

  predicate IsRelation(g: View, key: Key, x: MapEdge, e: EdgeRow, s: SymbolRow) {
    && (if x.direction == Incoming then e.target == key && x.related == e.source else e.source == key && x.related == e.target)
    && s.symbol.key == x.related && s.symbol.isTest == x.relatedIsTest && s.path in g.files && e.path in g.files
    && x.kind == Structural(e.kind) && x.confidence == e.confidence && x.hops == 1 && x.via == []
    && x.path == e.path && x.start == e.start && x.end == e.end
  }

  lemma CallersAreRelations(g: View, key: Key)
    ensures forall r :: r in CallerSites(g, key) <==> r in Relations(g, key) && DirectCaller(r)
  {
  }

  function KindRank(k: EdgeKind): nat {
    match k
    case Calls => 0
    case Contains => 1
    case Imports => 2
    case Inherits => 3
    case TestedBy => 4
  }

  /** Before in the query's own order: confidence, then kind and direction by name. */
  predicate SelectedBefore(a: MapEdge, b: MapEdge) {
    && a.kind.Structural? && b.kind.Structural?
    && var (ca, cb, ka, kb) := (ConfidenceRank(a.confidence), ConfidenceRank(b.confidence), KindRank(a.kind.kind), KindRank(b.kind.kind));
    ca < cb || (ca == cb && (ka < kb || (ka == kb && a.direction == Incoming && b.direction == Outgoing)))
  }

  // ----- Edges of one site

  datatype Site = Site(related: Key, path: Path, start: nat, end: nat)

  function SiteOf(e: MapEdge): Site {
    Site(e.related, e.path, e.start, e.end)
  }

  lemma RowOf(g: View, key: Key, x: MapEdge) returns (e: EdgeRow, s: SymbolRow)
    requires x in Relations(g, key)
    ensures Relates(g, key, x.direction, e, s) && x == SeenFrom(x.direction, e, s)
  {
    if x in Related(g, key, Outgoing) {
      e, s :| e in g.edges && s in g.symbols && Relates(g, key, Outgoing, e, s) && x == SeenFrom(Outgoing, e, s);
    } else {
      e, s :| e in g.edges && s in g.symbols && Relates(g, key, Incoming, e, s) && x == SeenFrom(Incoming, e, s);
    }
  }

  // ----- Facets

  datatype Completeness = Completeness(directCallers: bool, directCallees: bool, directTests: bool, behavioralTestLeads: bool)

  /** `mark_indexed_facet_incomplete`. */
  function Mark(c: Completeness, e: MapEdge): Completeness {
    if e.kind == Structural(TestedBy) then c.(directTests := false)
    else if e.kind == BehavioralTestLead then c.(behavioralTestLeads := false)
    else if IsCall(e, Incoming) then
      if e.relatedIsTest then c.(directTests := false) else c.(directCallers := false)
    else if IsCall(e, Outgoing) then c.(directCallees := false)
    else c
  }

  datatype Class = CallerClass | CalleeClass | TestClass | LeadClass

  function Flag(cl: Class, c: Completeness): bool {
    match cl
    case CallerClass => c.directCallers
    case CalleeClass => c.directCallees
    case TestClass => c.directTests
    case LeadClass => c.behavioralTestLeads
  }

  /** The edges a facet is marked incomplete for. */
  predicate Touches(cl: Class, e: MapEdge) {
    match cl
    case CallerClass => DirectCaller(e)
    case CalleeClass => IsCall(e, Outgoing)
    case TestClass => TouchesTests(e)
    case LeadClass => e.kind == BehavioralTestLead
  }

  datatype FacetState = NotRequested | CompleteInProjection | Incomplete

  datatype Facet = Facet(state: FacetState, returned: nat)

  datatype Facets = Facets(directCallers: Facet, directCallees: Facet, directTests: Facet, behavioralTestLeads: Facet)

  function Count(edges: seq<MapEdge>, p: MapEdge -> bool): nat {
    if edges == [] then 0 else Count(edges[..|edges| - 1], p) + if p(edges[|edges| - 1]) then 1 else 0
  }

  const IsCaller: MapEdge -> bool := (e: MapEdge) => DirectCaller(e)
  const IsCallee: MapEdge -> bool := (e: MapEdge) => IsCall(e, Outgoing) && !e.relatedIsTest
  const IsDirectTest: MapEdge -> bool := (e: MapEdge) => e.kind == Structural(TestedBy)
  const IsTestLead: MapEdge -> bool := (e: MapEdge) => e.kind == BehavioralTestLead

  function StateOf(requested: bool, complete: bool): FacetState {
    if !requested then NotRequested else if complete then CompleteInProjection else Incomplete
  }

  /** `project_map_facets`. */
  function FacetsOf(intents: set<Intent>, edges: seq<MapEdge>, c: Completeness): Facets {
    var calls := Mixed in intents || AnyCalls in intents;
    var tests := Mixed in intents || Tests in intents;
    Facets(Facet(StateOf(calls || Callers in intents, c.directCallers), Count(edges, IsCaller)),
           Facet(StateOf(calls || Callees in intents, c.directCallees), Count(edges, IsCallee)),
           Facet(StateOf(tests, c.directTests), Count(edges, IsDirectTest)),
           Facet(StateOf(tests, c.behavioralTestLeads), Count(edges, IsTestLead)))
  }
}
