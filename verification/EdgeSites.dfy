/** Edges that share a site: what name resolution guarantees about them, and which of them comes
    first (src/project_index.rs). */
module EdgeSites {
  import opened Utf8
  import opened Sets
  import opened Wrappers
  import opened Projection
  import opened CallGraph
  import opened TraversalTrace
  import opened TestTraversal
  import opened MapEdges

  // ----- What resolution guarantees about edges that share a site

  predicate FromReference(e: EdgeRow) {
    e.kind == Calls || e.kind == Imports || e.kind == Inherits
  }

  predicate SameSite(a: EdgeRow, b: EdgeRow) {
    a.path == b.path && a.start == b.start && a.end == b.end
  }

  ghost predicate TargetsDecideConfidence(edges: set<EdgeRow>) {
    forall a, b | a in edges && b in edges && FromReference(a) && FromReference(b) && a.path == b.path && a.target == b.target
      :: a.confidence == b.confidence
  }

  predicate CallOrImport(k: EdgeKind) {
    k == Calls || k == Imports
  }

  ghost predicate SitesDecideSource(edges: set<EdgeRow>) {
    forall a, b | a in edges && b in edges && SameSite(a, b) && CallOrImport(a.kind) && CallOrImport(b.kind)
      :: a.source == b.source
  }

  /** Calls and imports belong to the innermost symbol around them (src/project_structure.rs). */
  ghost predicate ReferenceSitesDecideSource(references: set<ReferenceRow>) {
    forall a, b | a in references && b in references && a.path == b.path && a.start == b.start && a.end == b.end
                  && CallOrImport(a.kind) && CallOrImport(b.kind)
      :: a.source == b.source
  }

  lemma RebuiltEdgesDecide(symbols: set<SymbolRow>, references: set<ReferenceRow>)
    requires PrimaryKeys(symbols) && SourcesOwnPaths(references) && ReferenceKinds(references) && ReferenceSitesDecideSource(references)
    ensures TargetsDecideConfidence(Rebuild(symbols, references)) && SitesDecideSource(Rebuild(symbols, references))
  {
    var edges := Rebuild(symbols, references);
    forall e | e in edges && FromReference(e) ensures e in ResolvedEdges(symbols, references) {
      RebuildByKind(symbols, references, e);
    }
    forall a, b | a in edges && b in edges && FromReference(a) && FromReference(b) && a.path == b.path
      ensures a.target == b.target ==> a.confidence == b.confidence
      ensures SameSite(a, b) && CallOrImport(a.kind) && CallOrImport(b.kind) ==> a.source == b.source
    {
      var r, s :| r in references && s in symbols && Resolves(symbols, r, s) && a == EdgeFor(symbols, r, s);
      var q, t :| q in references && t in symbols && Resolves(symbols, q, t) && b == EdgeFor(symbols, q, t);
      if a.target == b.target {
        SameCandidates(symbols, r, q, s);
      }
    }
  }

  /** The site of a call is that of no other reference: each call expression is reported once, and is
      neither an import nor a heritage clause (src/project_structure.rs). */
  ghost predicate ReferenceCallSitesAreAlone(references: set<ReferenceRow>) {
    forall a, b | a in references && b in references && a.path == b.path && a.start == b.start && a.end == b.end && a.kind == Calls
      :: a == b
  }

  ghost predicate CallSitesAreAlone(edges: set<EdgeRow>) {
    forall a, b | a in edges && b in edges && a.kind == Calls && FromReference(b) && SameSite(a, b)
      :: b.kind == Calls && b.source == a.source && (a.confidence == Inferred ==> a == b)
  }

  lemma OnlyCandidate(symbols: set<SymbolRow>, r: ReferenceRow, s: SymbolRow, t: SymbolRow)
    requires Resolves(symbols, r, s) && Resolves(symbols, r, t) && CandidateCount(symbols, r) == 1
    ensures s == t
  {
    ResolvesToCandidates(symbols, r);
    var all := Candidates(symbols, r);
    assert {s} <= all && {t} <= all;
    SubsetSize({s}, all);
    SubsetSize({t}, all);
  }

  lemma RebuiltSitesAreAlone(symbols: set<SymbolRow>, references: set<ReferenceRow>)
    requires ReferenceKinds(references) && ReferenceCallSitesAreAlone(references)
    ensures CallSitesAreAlone(Rebuild(symbols, references))
  {
    var edges := Rebuild(symbols, references);
    forall e | e in edges && FromReference(e) ensures e in ResolvedEdges(symbols, references) {
      RebuildByKind(symbols, references, e);
    }
    forall a, b | a in edges && b in edges && a.kind == Calls && FromReference(b) && SameSite(a, b)
      ensures b.kind == Calls && b.source == a.source && (a.confidence == Inferred ==> a == b)
    {
      var r, s :| r in references && s in symbols && Resolves(symbols, r, s) && a == EdgeFor(symbols, r, s);
      var q, t :| q in references && t in symbols && Resolves(symbols, q, t) && b == EdgeFor(symbols, q, t);
      assert r == q;
      if a.confidence == Inferred {
        OnlyCandidate(symbols, r, s, t);
      }
    }
  }

  /** `tested_by` edges and calls from tests come together. */
  ghost predicate TestCallsAreMirrored(symbols: set<SymbolRow>, edges: set<EdgeRow>) {
    && (forall e, s :: e in edges && s in symbols && IsTestCall(e, s) ==> Mirror(e, s) in edges)
    && (forall m :: m in edges && m.kind == TestedBy ==> MirrorsTestCall(symbols, edges, m))
  }

  ghost predicate MirrorsTestCall(symbols: set<SymbolRow>, edges: set<EdgeRow>, m: EdgeRow) {
    exists e, s :: e in edges && s in symbols && IsTestCall(e, s) && m == Mirror(e, s)
  }

  ghost predicate Consistent(g: View) {
    && WellFormed(g)
    && KeysDistinct(g.edges)
    && TargetsDecideConfidence(g.edges)
    && SitesDecideSource(g.edges)
    && CallSitesAreAlone(g.edges)
    && TestCallsAreMirrored(g.symbols, g.edges)
  }

  // ----- The edge a facet is about comes first at its site

  /** First in the final order, or else in the query's. */
  predicate Outranks(intents: set<Intent>, d: MapEdge, x: MapEdge) {
    RankedBefore(intents, d, x) || (Tied(intents, d, x) && SelectedBefore(d, x))
  }

  /** When callers are asked for, any other edge with the site of a caller comes after it, in the
      final order or else in the query's. */
  lemma CallerComesFirst(g: View, key: Key, intents: set<Intent>, d: MapEdge, x: MapEdge)
    requires Consistent(g) && AsksForCallers(intents)
    requires d in Relations(g, key) && DirectCaller(d) && x in Relations(g, key) && x != d && SiteOf(x) == SiteOf(d)
    requires Rank(intents, x).Some?
    ensures Outranks(intents, d, x)
  {
    var a, s := RowOf(g, key, d);
    var b, t := RowOf(g, key, x);
    assert Rank(intents, d) == Some(0);
    if Rank(intents, x) == Some(0) {
      assert s == t;
      assert b.target == key by {
        if x.direction == Outgoing {
          assert CallOrImport(b.kind);
          assert a.source == b.source;
        }
      }
      assert FromReference(a) && FromReference(b);
      assert b.kind == Calls && x.direction == Incoming ==> KeyOf(a) == KeyOf(b);
    }
  }

  /** A `tested_by` relation of a symbol that is not a test leads to a test that calls the symbol. */
  lemma TestedByCall(g: View, key: Key, d: MapEdge) returns (e: EdgeRow)
    requires Consistent(g) && !IsTest(g, key) && d in TestedBySites(g, key)
    ensures d.direction == Outgoing && IsTest(g, d.related) && d.relatedIsTest
    ensures e in g.edges && e.kind == Calls && e.source == d.related && e.target == key
    ensures e.path == d.path && e.start == d.start && e.end == d.end
  {
    var m, t := RowOf(g, key, d);
    assert MirrorsTestCall(g.symbols, g.edges, m);
    var s;
    e, s :| e in g.edges && s in g.symbols && IsTestCall(e, s) && m == Mirror(e, s);
  }

  /** When tests are asked for, nothing else at the site of such a relation comes before it. */
  lemma TestedByComesFirst(g: View, key: Key, intents: set<Intent>, d: MapEdge, x: MapEdge)
    requires Consistent(g) && AsksForTests(intents) && !IsTest(g, key)
    requires d in TestedBySites(g, key) && x in Relations(g, key) && x != d && SiteOf(x) == SiteOf(d)
    requires Rank(intents, x).Some?
    ensures Outranks(intents, d, x)
  {
    var call := TestedByCall(g, key, d);
    var a, s := RowOf(g, key, d);
    var b, t := RowOf(g, key, x);
    assert s == t && Rank(intents, d) == Some(1);
    assert x.kind == Structural(TestedBy) ==> KeyOf(a) == KeyOf(b) by {
      if x.kind == Structural(TestedBy) {
        var other := TestedByCall(g, key, x);
      }
    }
    assert FromReference(b) ==> b.kind == Calls && b.source == call.source;
  }

  /** A test lead as a row. */
  function LeadRow(t: Key, l: Lead): MapEdge {
    MapEdge(Outgoing, BehavioralTestLead, l.edge.confidence, l.hops, l.via, t, true, l.edge.path, l.edge.start, l.edge.end)
  }

  /** A lead is shown as an edge to the test, at the call the test makes. */
  lemma LeadRowShows(t: Key, l: Lead)
    ensures var e := LeadRow(t, l);
            && e.related == t && e.relatedIsTest && e.kind == BehavioralTestLead && e.direction == Outgoing
            && e.confidence == l.edge.confidence && e.path == l.edge.path && e.start == l.edge.start && e.end == l.edge.end
            && e.hops == l.hops && e.via == l.via
  {
  }

  ghost predicate IsLeadRow(g: View, key: Key, e: MapEdge) {
    exists l :: GoodLead(g, key, e.related, l) && e == LeadRow(e.related, l)
  }

  /** An inferred call of something else does not share its site with a reference to or from the symbol. */
  lemma ReferenceElsewhere(g: View, key: Key, a: EdgeRow, direction: Direction, b: EdgeRow, s: SymbolRow)
    requires Consistent(g) && a in g.edges && a.kind == Calls && a.confidence == Inferred && a.target != key
    requires Relates(g, key, direction, b, s) && s.symbol.key == a.source && FromReference(b)
    ensures !SameSite(a, b)
  {
  }

  lemma TestedByElsewhere(g: View, key: Key, a: EdgeRow, direction: Direction, b: EdgeRow, s: SymbolRow)
    requires Consistent(g) && a in g.edges && a.kind == Calls && a.confidence == Inferred && a.target != key
    requires Relates(g, key, direction, b, s) && s.symbol.key == a.source && b.kind == TestedBy
    ensures !SameSite(a, b)
  {
    if SameSite(a, b) {
      MirrorOfInferred(g.symbols, g.edges, a, b);
    }
  }

  /** A `tested_by` edge at the site of an inferred call mirrors that call. */
  lemma MirrorOfInferred(symbols: set<SymbolRow>, edges: set<EdgeRow>, a: EdgeRow, b: EdgeRow)
    requires TestCallsAreMirrored(symbols, edges) && CallSitesAreAlone(edges)
    requires a in edges && a.kind == Calls && a.confidence == Inferred && b in edges && b.kind == TestedBy && SameSite(a, b)
    ensures b.source == a.target && b.target == a.source
  {
    assert MirrorsTestCall(symbols, edges, b);
    var e, t :| e in edges && t in symbols && IsTestCall(e, t) && b == Mirror(e, t);
    assert e == a;
  }

  /** When tests are asked for, no relation of the symbol shares the site of one of its test leads. */
  lemma LeadsHaveOwnSites(g: View, key: Key, intents: set<Intent>, d: MapEdge, x: MapEdge)
    requires Consistent(g) && AsksForTests(intents)
    requires IsLeadRow(g, key, d) && x in Relations(g, key) && Rank(intents, x).Some?
    ensures SiteOf(x) != SiteOf(d)
  {
    var l :| GoodLead(g, key, d.related, l) && d == LeadRow(d.related, l);
    var b, s := RowOf(g, key, x);
    LeadCall(g, key, d.related, l);
    if x.related == d.related {
      if b.kind == TestedBy {
        TestedByElsewhere(g, key, l.edge, x.direction, b, s);
      } else {
        ReferenceElsewhere(g, key, l.edge, x.direction, b, s);
      }
    }
  }

  lemma LeadCall(g: View, key: Key, t: Key, l: Lead)
    requires GoodLead(g, key, t, l)
    ensures l.edge in g.edges && l.edge.kind == Calls && l.edge.confidence == Inferred
    ensures l.edge.source == t && l.edge.target != key
  {
    assert InferredCall(g, l.edge, t, l.via[0]) && Passable(g, key, l.via[0]);
  }

  // ----- Calls from tests and their mirrors

  /** The `tested_by` relation that goes with an incoming call from a test. */
  function Partner(x: MapEdge): MapEdge {
    x.(direction := Outgoing, kind := Structural(TestedBy))
  }

  lemma PartnerIsRelation(g: View, key: Key, x: MapEdge)
    requires Consistent(g) && x in Relations(g, key) && IncomingTestCall(x)
    ensures Partner(x) in TestedBySites(g, key)
  {
    var e, s := RowOf(g, key, x);
    var m := Mirror(e, s);
    assert IsTestCall(e, s) && m in g.edges;
    assert Relates(g, key, Outgoing, m, s) && SeenFrom(Outgoing, m, s) == Partner(x);
  }
}
