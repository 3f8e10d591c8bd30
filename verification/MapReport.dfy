/** From ranked symbols to the report: which of them lead it, and what they still claim once the report
    has been shrunk to its budget (src/project_index.rs). */
module MapReport {
  import opened Utf8
  import opened Wrappers
  import opened Sequences
  import opened Projection
  import opened CallGraph
  import opened MapEdges
  import opened MapBudget
  import Citation
  import F = Facets
  import C = EdgeChoice

  const MAX_PROJECT_MAP_LEADS := 8
  const MAX_PROJECT_MAP_RELATION_LEADS := 2
  const MAX_PROJECT_MAP_ALTERNATIVES := 3
  const MAX_PROJECT_MAP_EXCERPT_BYTES := 768
  const MAX_PROJECT_MAP_RELATION_EXCERPT_BYTES := 256

  /** A symbol the query found, best first; `text` holds its file, if that is still the one indexed. */
  datatype Candidate = Candidate(key: Key, name: string, exactNameMatch: bool, path: Path, hash: string,
                                 start: nat, end: nat, text: Option<Bytes>)

  // ----- The excerpt of a symbol

  datatype Evidence = Evidence(citation: string, excerpt: Bytes, truncated: bool)

  /** The symbol lies in its file, in whole characters. */
  predicate Locates(c: Candidate) {
    && c.text.Some? && c.start < c.end <= |c.text.value|
    && Boundary(c.text.value, c.start) && Boundary(c.text.value, c.end)
  }

  function Least(a: nat, b: nat): nat {
    if a <= b then a else b
  }

  function EvidenceOf(project: string, c: Candidate, maxBytes: nat): Option<Evidence>
    requires Addressable(project, c)
  {
    if !Locates(c) then None
    else
      var end := Floor(c.text.value, Least(c.end, c.start + maxBytes));
      StartsBefore(c, maxBytes);
      Some(EvidenceUpTo(project, c, end))
  }

  function CitationOf(project: string, c: Candidate, end: Citation.usize): Citation.Citation
    requires Addressable(project, c) && Locates(c)
  {
    Citation.Citation(project, c.path, c.hash, c.start, end)
  }

  function EvidenceUpTo(project: string, c: Candidate, end: nat): Evidence
    requires Addressable(project, c) && Locates(c) && c.start <= end <= c.end
  {
    Evidence(Citation.Print(CitationOf(project, c, end)), c.text.value[c.start..end], end < c.end)
  }

  lemma StartsBefore(c: Candidate, maxBytes: nat)
    requires Locates(c)
    ensures c.start <= Floor(c.text.value, Least(c.end, c.start + maxBytes))
  {
  }

  /** Project, path and hash can be printed, and the file is addressable memory. */
  predicate Addressable(project: string, c: Candidate) {
    && '/' !in project && '@' !in c.hash && '#' !in c.hash && Valid(c.path)
    && (c.text.Some? ==> |c.text.value| < Citation.USIZE_LIMIT)
  }

  /** `verified_symbol_excerpt`. */
  method VerifiedSymbolExcerpt(project: string, c: Candidate, maxBytes: nat) returns (r: Option<Evidence>)
    requires Addressable(project, c)
    ensures r == EvidenceOf(project, c, maxBytes)
  {
    if !Locates(c) {
      return None;
    }
    var text, end := c.text.value, Least(c.end, c.start + maxBytes);
    while end > c.start && !Boundary(text, end)
      invariant c.start <= end <= c.end && Floor(text, end) == Floor(text, Least(c.end, c.start + maxBytes))
    {
      end := end - 1;
    }
    return Some(EvidenceUpTo(project, c, end));
  }

  lemma CitationParses(project: string, c: Candidate, end: nat)
    requires Addressable(project, c) && Locates(c) && c.start <= end <= c.end
    ensures Citation.Parse(Citation.Print(CitationOf(project, c, end))) == Ok(CitationOf(project, c, end))
  {
    Citation.ParseOfPrint(CitationOf(project, c, end));
  }

  lemma UpToCites(project: string, c: Candidate, end: nat)
    requires Addressable(project, c) && Locates(c) && c.start <= end <= c.end
    ensures var e := EvidenceUpTo(project, c, end);
            && Citation.Parse(e.citation) == Ok(CitationOf(project, c, end)) && |e.excerpt| == end - c.start
            && Names(CitationOf(project, c, end), e.excerpt, c.text.value)
  {
    CitationParses(project, c, end);
  }

  /** The citation names exactly the excerpt in the file, ... */
  lemma EvidenceCites(project: string, c: Candidate, maxBytes: nat)
    requires Addressable(project, c) && EvidenceOf(project, c, maxBytes).Some?
    ensures var e := EvidenceOf(project, c, maxBytes).value;
            && c.start + |e.excerpt| <= c.end
            && Citation.Parse(e.citation) == Ok(CitationOf(project, c, c.start + |e.excerpt|))
            && Names(CitationOf(project, c, c.start + |e.excerpt|), e.excerpt, c.text.value)
  {
    StartsBefore(c, maxBytes);
    UpToCites(project, c, Floor(c.text.value, Least(c.end, c.start + maxBytes)));
  }

  /** ... and the excerpt is as much of the symbol as fits; it is called truncated exactly when that is
      not all of it. */
  lemma EvidenceIsLongest(project: string, c: Candidate, maxBytes: nat)
    requires Addressable(project, c) && EvidenceOf(project, c, maxBytes).Some?
    ensures var e := EvidenceOf(project, c, maxBytes).value;
            && |e.excerpt| <= maxBytes && c.start + |e.excerpt| <= c.end
            && (e.truncated <==> |e.excerpt| < c.end - c.start)
            && (forall k | c.start + |e.excerpt| < k <= c.end && k <= c.start + maxBytes :: !Boundary(c.text.value, k))
  {
    StartsBefore(c, maxBytes);
    var end := Floor(c.text.value, Least(c.end, c.start + maxBytes));
    assert EvidenceOf(project, c, maxBytes).value.excerpt == c.text.value[c.start..end];
  }

  // ----- One lead

  /** Each facet counts the edges shown, and one that says `complete_in_projection` shows everything. */
  ghost predicate HonestLead(g: View, key: Key, intents: set<Intent>, lead: MapLead) {
    && F.Genuine(g, key, lead.edges)
    && forall cl :: HonestFacet(g, key, intents, lead, cl)
  }

  ghost predicate HonestFacet(g: View, key: Key, intents: set<Intent>, lead: MapLead, cl: Class) {
    && F.Counts(cl, lead.facets, lead.edges)
    && (F.Follows(g, key, intents, cl) ==> F.Truthful(g, key, cl, lead.facets, lead.edges))
  }

  /** How the edges, the facets and the flags of a lead came about. */
  ghost predicate Made(v: C.MapView, key: Key, intents: set<Intent>, first: bool, lead: MapLead, c: Completeness, s: C.Steps, o: F.Origin) {
    && F.Told(v, key, intents, first, lead.edges, lead.edgesTruncated, lead.testLeadsTruncated, c, s, o)
    && lead.facets == FacetsOf(intents, lead.edges, c)
    && (!lead.edgesTruncated && !F.Lost(lead.edges, s, o) ==> F.Represented(v, key, intents, lead.edges))
  }

  /** Each followed facet of a lead tells exactly whether it is complete, ... */
  ghost predicate Tells(v: C.MapView, key: Key, intents: set<Intent>, first: bool, lead: MapLead) {
    forall cl :: F.Follows(v.graph, key, intents, cl) ==> F.Says(v, key, cl, first, lead.facets, lead.edges)
  }

  method BuildLead(v: C.MapView, a: Candidate, e: Evidence, intents: set<Intent>, first: bool)
    returns (lead: MapLead, stale: bool, ghost c: Completeness, ghost s: C.Steps, ghost o: F.Origin)
    requires C.Ordered(v)
    ensures Made(v, a.key, intents, first, lead, c, s, o) && (stale <==> F.Lost(lead.edges, s, o))
    ensures HonestLead(v.graph, a.key, intents, lead)
    ensures Tells(v, a.key, intents, first, lead)
    ensures lead.name == a.name && lead.citation == e.citation && lead.excerpt == e.excerpt && lead.excerptTruncated == e.truncated
  {
    var edges, edgesTruncated, testLeadsTruncated, complete;
    edges, edgesTruncated, testLeadsTruncated, complete, stale, s, o := F.SymbolEdges(v, a.key, intents, first);
    c := complete;
    lead := MapLead(a.name, e.citation, e.excerpt, e.truncated, FacetsOf(intents, edges, complete), edges,
                    edgesTruncated, testLeadsTruncated);
    forall cl ensures HonestFacet(v.graph, a.key, intents, lead, cl)
                      && (F.Follows(v.graph, a.key, intents, cl) ==> F.Says(v, a.key, cl, first, lead.facets, edges))
    {
      F.FacetsAreHonest(v, a.key, intents, first, edges, c, cl);
    }
  }

  lemma KeptCount(b: MapLead, a: MapLead, cl: Class)
    requires EdgesShrunk(b, a) && NoDups(b.edges) && F.Counts(cl, b.facets, b.edges)
    ensures NoDups(a.edges) && F.Counts(cl, a.facets, a.edges)
  {
    assert a.edges == b.edges[..|a.edges|];
    F.CountIsShown(a.edges, cl);
  }

  lemma KeptComplete(b: MapLead, a: MapLead, cl: Class)
    requires EdgesShrunk(b, a) && F.FacetFor(cl, a.facets).state == CompleteInProjection
    ensures F.FacetFor(cl, b.facets).state == CompleteInProjection
    ensures forall e :: e in b.edges && Touches(cl, e) ==> e in a.edges
  {
    var dropped := b.edges[|a.edges|..];
    assert b.edges == a.edges + dropped;
    assert forall e :: e in dropped ==> !Touching(cl)(e);
  }

  lemma ShrunkFacetIsHonest(g: View, key: Key, intents: set<Intent>, b: MapLead, a: MapLead, cl: Class)
    requires NoDups(b.edges) && HonestFacet(g, key, intents, b, cl) && EdgesShrunk(b, a)
    ensures HonestFacet(g, key, intents, a, cl)
  {
    KeptCount(b, a, cl);
    if F.FacetFor(cl, a.facets).state == CompleteInProjection {
      KeptComplete(b, a, cl);
      StillShowsAll(g, key, b.edges, a.edges, cl);
    }
  }

  lemma StillShowsAll(g: View, key: Key, b: seq<MapEdge>, a: seq<MapEdge>, cl: Class)
    requires a <= b && forall e :: e in b && Touches(cl, e) ==> e in a
    ensures F.ShowsAll(g, key, cl, b) ==> F.ShowsAll(g, key, cl, a)
  {
    assert forall e :: e in a ==> e in b;
    match cl {
      case CallerClass => assert F.Chosen(a, IsCaller) == F.Chosen(b, IsCaller);
      case CalleeClass => assert F.Chosen(a, IsCallee) <= F.Chosen(b, IsCallee);
      case TestClass => assert F.Chosen(a, IsDirectTest) == F.Chosen(b, IsDirectTest);
      case LeadClass => assert forall t :: F.ShowsTest(b, t) ==> F.ShowsTest(a, t);
    }
  }

  /** Shrinking a lead keeps it honest. */
  lemma ShrunkLeadIsHonest(g: View, key: Key, intents: set<Intent>, b: MapLead, a: MapLead)
    requires HonestLead(g, key, intents, b) && EdgesShrunk(b, a)
    ensures HonestLead(g, key, intents, a)
  {
    forall cl ensures HonestFacet(g, key, intents, a, cl) {
      ShrunkFacetIsHonest(g, key, intents, b, a, cl);
    }
    assert forall e :: e in a.edges ==> e in b.edges;
  }

  // ----- The leads

  /** `lead_limit`. */
  function LeadLimit(intents: set<Intent>): (r: nat)
    ensures r <= STRONG_LEADS
  {
    if RelationFocused(intents) then MAX_PROJECT_MAP_RELATION_LEADS else Least(5, MAX_PROJECT_MAP_LEADS)
  }

  function ExcerptLimit(intents: set<Intent>): nat {
    if RelationFocused(intents) then MAX_PROJECT_MAP_RELATION_EXCERPT_BYTES else MAX_PROJECT_MAP_EXCERPT_BYTES
  }

  predicate HasExact(candidates: seq<Candidate>) {
    exists c :: c in candidates && c.exactNameMatch
  }

  /** Candidates that may lead: with the name asked for, if any has it, and still as indexed. */
  function MayLead(exactOnly: bool): Candidate -> bool {
    (c: Candidate) => (exactOnly ==> c.exactNameMatch) && Locates(c)
  }

  /** Those among the first `n`. */
  function Eligible(candidates: seq<Candidate>, n: nat): seq<Candidate>
    requires n <= |candidates|
  {
    Filter(candidates[..n], MayLead(HasExact(candidates)))
  }

  /** The candidates that lead the report. */
  function Anchors(candidates: seq<Candidate>, intents: set<Intent>): (r: seq<Candidate>)
    ensures |r| <= LeadLimit(intents)
  {
    var all := Eligible(candidates, |candidates|);
    all[..Least(|all|, LeadLimit(intents))]
  }

  /** The name asked for, if any candidate has it, and the place it was indexed at. */
  ghost predicate MayLeadFor(candidates: seq<Candidate>, c: Candidate) {
    && (c.exactNameMatch || forall d :: d in candidates ==> !d.exactNameMatch)
    && c.text.Some? && c.start < c.end <= |c.text.value| && Boundary(c.text.value, c.start) && Boundary(c.text.value, c.end)
  }

  /** The first candidates of that kind lead, two of them when relations are asked for and else five. */
  lemma AnchorsAreFirst(candidates: seq<Candidate>, intents: set<Intent>)
    ensures var anchors, limit := Anchors(candidates, intents), if AboutRelations(intents) then 2 else 5;
            && |anchors| <= limit && (forall a :: a in anchors ==> a in candidates && MayLeadFor(candidates, a))
            && forall c :: c in candidates && MayLeadFor(candidates, c) && c !in anchors ==>
                 |anchors| == limit && forall a :: a in anchors ==> Precedes(candidates, a, c)
  {
    LimitIs(intents);
    var may := MayLead(HasExact(candidates));
    var all, anchors := Eligible(candidates, |candidates|), Anchors(candidates, intents);
    assert candidates[..|candidates|] == candidates;
    FilterKeeps(candidates, may);
    assert forall c :: c in candidates ==> (may(c) <==> MayLeadFor(candidates, c));
    assert anchors <= all;
    forall c | c in candidates && MayLeadFor(candidates, c) && c !in anchors
      ensures |anchors| == (if AboutRelations(intents) then 2 else 5) && forall a :: a in anchors ==> Precedes(candidates, a, c)
    {
      var j :| 0 <= j < |all| && all[j] == c;
      assert j >= |anchors| by {
        assert forall i :: 0 <= i < |anchors| ==> anchors[i] == all[i];
      }
      forall a | a in anchors ensures Precedes(candidates, a, c) {
        var i :| 0 <= i < |anchors| && anchors[i] == a;
        assert Precedes(all, a, c);
        FilterPrecedes(candidates, may, a, c);
      }
    }
  }

  /** The lead speaks for the symbol: it is honest, and its excerpt is what its citation names in the file. */
  ghost predicate SpeaksFor(g: View, intents: set<Intent>, a: Candidate, lead: MapLead) {
    && lead.name == a.name && HonestLead(g, a.key, intents, lead)
    && a.text.Some? && Cites(lead, a.text.value) && Sized(lead)
  }

  /** As much of the symbol as fits, in whole characters. */
  ghost predicate ShowsSymbol(a: Candidate, lead: MapLead, maxBytes: nat) {
    && Locates(a) && a.start + |lead.excerpt| <= a.end && |lead.excerpt| <= maxBytes
    && lead.excerpt == a.text.value[a.start..a.start + |lead.excerpt|]
    && (lead.excerptTruncated <==> |lead.excerpt| < a.end - a.start)
    && forall k | a.start + |lead.excerpt| < k <= a.end && k <= a.start + maxBytes :: !Boundary(a.text.value, k)
  }

  /** A query about relations gets shorter excerpts. */
  predicate AboutRelations(intents: set<Intent>) {
    exists i :: i in intents && i != Definition && i != Mixed
  }

  /** A lead as it is built: its evidence, its edges and its facets. */
  ghost predicate Built(v: C.MapView, intents: set<Intent>, a: Candidate, lead: MapLead, first: bool) {
    && SpeaksFor(v.graph, intents, a, lead)
    && ShowsSymbol(a, lead, if AboutRelations(intents) then 256 else 768)
    && Tells(v, a.key, intents, first, lead)
    && exists c, s, o :: Made(v, a.key, intents, first, lead, c, s, o)
  }

  /** Something holds of every lead, knowing whether it is the first. */
  ghost predicate AllAre(anchors: seq<Candidate>, leads: seq<MapLead>, p: (Candidate, MapLead, bool) -> bool) {
    |leads| <= |anchors| && forall i :: 0 <= i < |leads| ==> p(anchors[i], leads[i], i == 0)
  }

  ghost predicate SomeIs(anchors: seq<Candidate>, leads: seq<MapLead>, p: (Candidate, MapLead, bool) -> bool) {
    |leads| <= |anchors| && exists i :: 0 <= i < |leads| && p(anchors[i], leads[i], i == 0)
  }

  /** Nothing the lead shows, or would have shown, was lost. */
  ghost predicate Fresh(v: C.MapView, intents: set<Intent>, a: Candidate, lead: MapLead, first: bool) {
    exists c, s, o :: Made(v, a.key, intents, first, lead, c, s, o) && !F.Lost(lead.edges, s, o)
  }

  ghost predicate LeadsFor(g: View, intents: set<Intent>, anchors: seq<Candidate>, leads: seq<MapLead>) {
    |leads| <= |anchors| && forall i :: 0 <= i < |leads| ==> SpeaksFor(g, intents, anchors[i], leads[i])
  }

  lemma EvidenceShows(project: string, a: Candidate, intents: set<Intent>, lead: MapLead)
    requires Addressable(project, a) && EvidenceOf(project, a, ExcerptLimit(intents)).Some?
    requires var e := EvidenceOf(project, a, ExcerptLimit(intents)).value;
             lead.citation == e.citation && lead.excerpt == e.excerpt && lead.excerptTruncated == e.truncated
    ensures ShowsSymbol(a, lead, if AboutRelations(intents) then 256 else 768)
    ensures a.text.Some? && Cites(lead, a.text.value) && Sized(lead)
  {
    EvidenceCites(project, a, ExcerptLimit(intents));
    EvidenceIsLongest(project, a, ExcerptLimit(intents));
    LimitIs(intents);
  }

  lemma LimitIs(intents: set<Intent>)
    ensures ExcerptLimit(intents) == if AboutRelations(intents) then 256 else 768
    ensures LeadLimit(intents) == if AboutRelations(intents) then 2 else 5
  {
  }

  method BuildAnchor(v: C.MapView, project: string, a: Candidate, intents: set<Intent>, first: bool)
    returns (lead: Option<MapLead>, stale: bool)
    requires C.Ordered(v) && Addressable(project, a)
    ensures lead.Some? <==> Locates(a)
    ensures lead.None? ==> stale
    ensures lead.Some? ==> Built(v, intents, a, lead.value, first)
    ensures lead.Some? ==> if stale then IsLost(v, intents, a, lead.value, first) else Fresh(v, intents, a, lead.value, first)
  {
    var evidence := VerifiedSymbolExcerpt(project, a, ExcerptLimit(intents));
    if evidence.None? {
      return None, true;
    }
    var built;
    ghost var c, s, o;
    built, stale, c, s, o := BuildLead(v, a, evidence.value, intents, first);
    EvidenceShows(project, a, intents, built);
    lead := Some(built);
  }

  /** What is said of the leads. */
  datatype Judges = Judges(built: (Candidate, MapLead, bool) -> bool, intact: (Candidate, MapLead, bool) -> bool,
                           lost: (Candidate, MapLead, bool) -> bool)

  ghost function Judge(v: C.MapView, intents: set<Intent>): Judges {
    Judges((a: Candidate, lead: MapLead, first: bool) => Built(v, intents, a, lead, first),
           (a: Candidate, lead: MapLead, first: bool) => Fresh(v, intents, a, lead, first),
           (a: Candidate, lead: MapLead, first: bool) => IsLost(v, intents, a, lead, first))
  }

  lemma Judged(v: C.MapView, intents: set<Intent>, a: Candidate, lead: MapLead, first: bool)
    ensures Judge(v, intents).built(a, lead, first) <==> Built(v, intents, a, lead, first)
    ensures Judge(v, intents).intact(a, lead, first) <==> Fresh(v, intents, a, lead, first)
    ensures Judge(v, intents).lost(a, lead, first) <==> IsLost(v, intents, a, lead, first)
  {
  }

  ghost predicate IsLost(v: C.MapView, intents: set<Intent>, a: Candidate, lead: MapLead, first: bool) {
    exists c, s, o :: Made(v, a.key, intents, first, lead, c, s, o) && F.Lost(lead.edges, s, o)
  }

  /** A candidate is no longer as indexed, or a lead has lost something. */
  ghost predicate SomeLost(j: Judges, candidates: seq<Candidate>, anchors: seq<Candidate>, leads: seq<MapLead>)
  {
    (exists c :: c in candidates && !Locates(c)) || SomeIs(anchors, leads, j.lost)
  }

  /** What the loop has gathered from the first `n` candidates. */
  ghost predicate Gathered(j: Judges, intents: set<Intent>, candidates: seq<Candidate>, n: nat, leads: seq<MapLead>,
                           alternatives: seq<string>, stale: bool)
    requires n <= |candidates|
  {
    && |leads| == Least(|Eligible(candidates, n)|, LeadLimit(intents))
    && AllAre(Eligible(candidates, n), leads, j.built)
    && (!stale ==> AllAre(Eligible(candidates, n), leads, j.intact))
    && (stale ==> SomeLost(j, candidates[..n], Eligible(candidates, n), leads))
    && alternatives == First(PassedOver(candidates, intents, n), 3)
  }

  /** The names of those among the first `n` candidates that come without the name asked for, though
      another has it, or after the last lead. */
  function PassedOver(candidates: seq<Candidate>, intents: set<Intent>, n: nat): seq<string>
    requires n <= |candidates|
  {
    if n == 0 then []
    else PassedOver(candidates, intents, n - 1) + if PassedAt(candidates, intents, n - 1) then [candidates[n - 1].name] else []
  }

  predicate PassedAt(candidates: seq<Candidate>, intents: set<Intent>, n: nat)
    requires n < |candidates|
  {
    || (HasExact(candidates) && !candidates[n].exactNameMatch)
    || |Eligible(candidates, n)| >= LeadLimit(intents)
  }

  lemma {:induction false} PassedMore(candidates: seq<Candidate>, intents: set<Intent>, n: nat, m: nat)
    requires n <= m <= |candidates|
    ensures PassedOver(candidates, intents, n) <= PassedOver(candidates, intents, m)
    decreases m
  {
    if n < m {
      PassedMore(candidates, intents, n, m - 1);
    }
  }

  lemma FirstOfMore<T>(a: seq<T>, b: seq<T>, n: nat)
    requires a <= b && |First(a, n)| == n
    ensures First(a, n) == First(b, n)
  {
  }

  /** The leads are the first eligible candidates, the alternatives the first passed over, and the flag
      tells whether anything was lost. */
  ghost predicate Led(j: Judges, intents: set<Intent>, candidates: seq<Candidate>, leads: seq<MapLead>, alternatives: seq<string>,
                      stale: bool) {
    var anchors := Anchors(candidates, intents);
    && |leads| == |anchors| && AllAre(anchors, leads, j.built)
    && alternatives == First(PassedOver(candidates, intents, |candidates|), 3)
    && if stale then SomeLost(j, candidates, anchors, leads) else AllAre(anchors, leads, j.intact)
  }

  method GatherLeads(v: C.MapView, project: string, candidates: seq<Candidate>, intents: set<Intent>, ghost j: Judges)
    returns (leads: seq<MapLead>, alternatives: seq<string>, stale: bool)
    requires C.Ordered(v) && (forall c :: c in candidates ==> Addressable(project, c)) && j == Judge(v, intents)
    ensures Led(j, intents, candidates, leads, alternatives, stale)
  {
    leads, alternatives, stale := [], [], false;
    NothingGathered(j, intents, candidates);
    for i := 0 to |candidates|
      invariant Gathered(j, intents, candidates, i, leads, alternatives, stale)
    {
      var full;
      leads, alternatives, stale, full := GatherTurn(v, project, candidates, i, intents, leads, alternatives, stale, j);
      if full {
        return;
      }
    }
    GatheredAll(j, intents, candidates, leads, alternatives, stale);
  }

  /** One turn of the loop; it is the last when both lists are full. */
  method GatherTurn(v: C.MapView, project: string, candidates: seq<Candidate>, i: nat, intents: set<Intent>,
                    leads: seq<MapLead>, alternatives: seq<string>, stale: bool, ghost j: Judges)
    returns (leadsNow: seq<MapLead>, alternativesNow: seq<string>, staleNow: bool, full: bool)
    requires C.Ordered(v) && (forall c :: c in candidates ==> Addressable(project, c)) && j == Judge(v, intents)
    requires i < |candidates| && Gathered(j, intents, candidates, i, leads, alternatives, stale)
    ensures !full ==> Gathered(j, intents, candidates, i + 1, leadsNow, alternativesNow, staleNow)
    ensures full ==> Led(j, intents, candidates, leadsNow, alternativesNow, staleNow)
  {
    leadsNow, alternativesNow, staleNow := GatherNext(v, project, candidates, i, intents, leads, alternatives, stale, j);
    full := |leadsNow| >= LeadLimit(intents) && |alternativesNow| == MAX_PROJECT_MAP_ALTERNATIVES;
    LimitIsReached(j, intents, candidates, i + 1, leadsNow, alternativesNow, staleNow, full);
  }

  lemma NothingGathered(j: Judges, intents: set<Intent>, candidates: seq<Candidate>)
    ensures Gathered(j, intents, candidates, 0, [], [], false)
  {
  }

  lemma GatheredAll(j: Judges, intents: set<Intent>, candidates: seq<Candidate>, leads: seq<MapLead>, alternatives: seq<string>,
                    stale: bool)
    requires Gathered(j, intents, candidates, |candidates|, leads, alternatives, stale)
    ensures Led(j, intents, candidates, leads, alternatives, stale)
  {
    assert candidates[..|candidates|] == candidates;
    var all := Eligible(candidates, |candidates|);
    assert forall i :: 0 <= i < |leads| ==> Anchors(candidates, intents)[i] == all[i];
  }

  /** Once both lists are full, the rest changes nothing. */
  lemma LimitIsReached(j: Judges, intents: set<Intent>, candidates: seq<Candidate>, n: nat, leads: seq<MapLead>,
                       alternatives: seq<string>, stale: bool, full: bool)
    requires n <= |candidates| && Gathered(j, intents, candidates, n, leads, alternatives, stale)
    requires full ==> |leads| >= LeadLimit(intents) && |alternatives| == MAX_PROJECT_MAP_ALTERNATIVES
    ensures full ==> Led(j, intents, candidates, leads, alternatives, stale)
  {
    if full {
      assert candidates[..|candidates|] == candidates;
      FilterOfPrefix(candidates, n, MayLead(HasExact(candidates)));
      PassedMore(candidates, intents, n, |candidates|);
      FirstOfMore(PassedOver(candidates, intents, n), PassedOver(candidates, intents, |candidates|), 3);
      SamePrefix(j, candidates[..n], candidates, Eligible(candidates, n), Eligible(candidates, |candidates|), leads);
      GatheredAll(j, intents, candidates, leads, alternatives, stale);
    }
  }

  lemma SamePrefix(j: Judges, some: seq<Candidate>, all: seq<Candidate>, a: seq<Candidate>, b: seq<Candidate>,
                   leads: seq<MapLead>)
    requires some <= all && a <= b && |leads| <= |a|
    ensures forall p :: AllAre(a, leads, p) ==> AllAre(b, leads, p)
    ensures SomeLost(j, some, a, leads) ==> SomeLost(j, all, b, leads)
  {
    assert forall i :: 0 <= i < |leads| ==> a[i] == b[i];
  }

  lemma OneMore(anchors: seq<Candidate>, leads: seq<MapLead>, p: (Candidate, MapLead, bool) -> bool, a: Candidate, lead: MapLead)
    requires |leads| == |anchors|
    ensures AllAre(anchors, leads, p) && p(a, lead, leads == []) ==> AllAre(anchors + [a], leads + [lead], p)
    ensures SomeIs(anchors, leads, p) || p(a, lead, leads == []) ==> SomeIs(anchors + [a], leads + [lead], p)
  {
    if i :| 0 <= i < |leads| && p(anchors[i], leads[i], i == 0) {
      assert (anchors + [a])[i] == anchors[i] && (leads + [lead])[i] == leads[i];
    }
    assert (anchors + [a])[|leads|] == a && (leads + [lead])[|leads|] == lead;
  }

  method GatherNext(v: C.MapView, project: string, candidates: seq<Candidate>, i: nat, intents: set<Intent>,
                    leads: seq<MapLead>, alternatives: seq<string>, stale: bool, ghost j: Judges)
    returns (leadsNow: seq<MapLead>, alternativesNow: seq<string>, staleNow: bool)
    requires C.Ordered(v) && (forall c :: c in candidates ==> Addressable(project, c)) && j == Judge(v, intents)
    requires i < |candidates| && Gathered(j, intents, candidates, i, leads, alternatives, stale)
    ensures Gathered(j, intents, candidates, i + 1, leadsNow, alternativesNow, staleNow)
  {
    leadsNow, alternativesNow, staleNow := leads, alternatives, stale;
    var c, exactOnly := candidates[i], HasExact(candidates);
    if (exactOnly && !c.exactNameMatch) || |leads| >= LeadLimit(intents) {
      alternativesNow := WithAlternative(alternatives, c);
      PassesOver(j, intents, candidates, i, leads, alternatives, stale);
      return;
    }
    var lead, lost := BuildAnchor(v, project, c, intents, leads == []);
    staleNow := stale || lost;
    if lead.Some? {
      Judged(v, intents, c, lead.value, leads == []);
      leadsNow := leads + [lead.value];
      TakesLead(j, intents, candidates, i, leads, alternatives, stale, lead.value, lost);
    } else {
      FindsNone(j, intents, candidates, i, leads, alternatives, stale, lost);
    }
  }

  lemma PassesOver(j: Judges, intents: set<Intent>, candidates: seq<Candidate>, i: nat, leads: seq<MapLead>,
                   alternatives: seq<string>, stale: bool)
    requires i < |candidates| && Gathered(j, intents, candidates, i, leads, alternatives, stale)
    requires (HasExact(candidates) && !candidates[i].exactNameMatch) || |leads| >= LeadLimit(intents)
    ensures Gathered(j, intents, candidates, i + 1, leads, WithAlternative(alternatives, candidates[i]), stale)
  {
    FilterNext(candidates, i, MayLead(HasExact(candidates)));
    assert candidates[..i] <= candidates[..i + 1];
    assert PassedAt(candidates, intents, i);
    SamePrefix(j, candidates[..i], candidates[..i + 1], Eligible(candidates, i), Eligible(candidates, i + 1), leads);
  }

  lemma TakesLead(j: Judges, intents: set<Intent>, candidates: seq<Candidate>, i: nat, leads: seq<MapLead>,
                  alternatives: seq<string>, stale: bool, lead: MapLead, lost: bool)
    requires i < |candidates| && Gathered(j, intents, candidates, i, leads, alternatives, stale)
    requires !(HasExact(candidates) && !candidates[i].exactNameMatch) && |leads| < LeadLimit(intents)
    requires Locates(candidates[i]) && j.built(candidates[i], lead, leads == [])
    requires if lost then j.lost(candidates[i], lead, leads == [])
             else j.intact(candidates[i], lead, leads == [])
    ensures Gathered(j, intents, candidates, i + 1, leads + [lead], alternatives, stale || lost)
  {
    FilterNext(candidates, i, MayLead(HasExact(candidates)));
    var a := Eligible(candidates, i);
    assert Eligible(candidates, i + 1) == a + [candidates[i]] && |leads| == |a|;
    assert !PassedAt(candidates, intents, i);
    OneMore(a, leads, j.built, candidates[i], lead);
    OneMore(a, leads, j.intact, candidates[i], lead);
    OneMore(a, leads, j.lost, candidates[i], lead);
    assert candidates[..i + 1] == candidates[..i] + [candidates[i]];
  }

  lemma FindsNone(j: Judges, intents: set<Intent>, candidates: seq<Candidate>, i: nat, leads: seq<MapLead>,
                  alternatives: seq<string>, stale: bool, lost: bool)
    requires i < |candidates| && Gathered(j, intents, candidates, i, leads, alternatives, stale)
    requires !(HasExact(candidates) && !candidates[i].exactNameMatch) && |leads| < LeadLimit(intents) && !Locates(candidates[i]) && lost
    ensures Gathered(j, intents, candidates, i + 1, leads, alternatives, stale || lost)
  {
    FilterNext(candidates, i, MayLead(HasExact(candidates)));
    assert Eligible(candidates, i + 1) == Eligible(candidates, i) && !PassedAt(candidates, intents, i);
    assert candidates[i] in candidates[..i + 1];
  }

  function WithAlternative(alternatives: seq<string>, c: Candidate): seq<string> {
    if |alternatives| < MAX_PROJECT_MAP_ALTERNATIVES then alternatives + [c.name] else alternatives
  }

  // ----- The report

  lemma ShrunkLeadsSpeak(g: View, intents: set<Intent>, anchors: seq<Candidate>, b: seq<MapLead>, a: seq<MapLead>)
    requires LeadsFor(g, intents, anchors, b) && LeadsShrunk(b, a)
    ensures LeadsFor(g, intents, anchors, a)
  {
    forall i | 0 <= i < |a| ensures SpeaksFor(g, intents, anchors[i], a[i]) {
      assert LeadShrunk(b[i], a[i]);
      ShrunkLeadIsHonest(g, anchors[i].key, intents, b[i], a[i]);
    }
  }

  lemma BuiltSpeak(v: C.MapView, intents: set<Intent>, anchors: seq<Candidate>, leads: seq<MapLead>)
    requires AllAre(anchors, leads, Judge(v, intents).built)
    ensures LeadsFor(v.graph, intents, anchors, leads)
  {
    forall i | 0 <= i < |leads| ensures SpeaksFor(v.graph, intents, anchors[i], leads[i]) {
      Judged(v, intents, anchors[i], leads[i], i == 0);
    }
  }

  lemma SpeakersAreSized(g: View, intents: set<Intent>, anchors: seq<Candidate>, leads: seq<MapLead>)
    requires LeadsFor(g, intents, anchors, leads)
    ensures AllSized(leads) && WellCited(leads)
  {
    forall lead | lead in leads ensures Sized(lead) && Citation.Parse(lead.citation).Ok? {
      var i :| 0 <= i < |leads| && leads[i] == lead;
      assert SpeaksFor(g, intents, anchors[i], leads[i]);
    }
  }

  /** A map, from its ranked candidates to the report; `whole` is the report before the budget. */
  method Report(v: C.MapView, project: string, candidates: seq<Candidate>, intents: set<Intent>, maxBytes: nat,
                serializedLength: Contents -> nat, lexicalResidue: seq<string>, textFallback: seq<string>,
                mentionsTruncated: bool, fallbackLost: bool)
    returns (report: ProjectMapReport, error: Option<BudgetError>, ghost whole: Contents, ghost t: seq<Contents>)
    requires C.Ordered(v) && forall c :: c in candidates ==> Addressable(project, c)
    // The best candidates lead, each with its own evidence, edges and facets, ...
    ensures |whole.leads| == |Anchors(candidates, intents)| <= STRONG_LEADS
    ensures AllAre(Anchors(candidates, intents), whole.leads, Judge(v, intents).built)
    ensures whole == Contents(whole.leads, First(PassedOver(candidates, intents, |candidates|), 3), lexicalResidue, textFallback,
                              mentionsTruncated, whole.truncated)
    ensures if whole.truncated then fallbackLost || SomeLost(Judge(v, intents), candidates, Anchors(candidates, intents), whole.leads)
            else !fallbackLost && AllAre(Anchors(candidates, intents), whole.leads, Judge(v, intents).intact)
    // ... the budget takes one thing at a time, as long as the report does not fit; whatever it takes
    // away, the leads that survive still speak for their symbols, ...
    ensures report.Traced(t) && t[0] == whole
    ensures report.intents == intents && report.serializedLength == serializedLength && report.maxBytes == maxBytes
    ensures error.None? ==> serializedLength(report.Value()) <= maxBytes && Shrunk(whole, report.Value())
    ensures serializedLength(whole) <= maxBytes ==> error.None? && report.Value() == whole
    ensures error.None? ==> LeadsFor(v.graph, intents, Anchors(candidates, intents), report.leads)
    // ... no lead and no edge is lost while text fallback or lexical residue is left, ...
    ensures error.None? && (report.textFallback != [] || report.lexicalResidue != []) ==>
              |report.leads| == |whole.leads| && SameEdges(whole.leads, report.leads)
    // ... nor a lead while alternatives or edges are, and the map fails only when nothing more could be dropped.
    ensures error.None? && |report.leads| < |whole.leads| ==> report.alternatives == [] && NoEdges(report.leads)
    ensures error.Some? ==> serializedLength(report.Value()) > maxBytes && report.Bare()
  {
    var leads, alternatives, stale := GatherLeads(v, project, candidates, intents, Judge(v, intents));
    BuiltSpeak(v, intents, Anchors(candidates, intents), leads);
    SpeakersAreSized(v.graph, intents, Anchors(candidates, intents), leads);
    var contents := Contents(leads, alternatives, lexicalResidue, textFallback, mentionsTruncated, stale || fallbackLost);
    report := new ProjectMapReport(intents, maxBytes, serializedLength, contents);
    whole := contents;
    error, t := report.EnforceBudget();
    if error.None? {
      ShrunkLeadsSpeak(v.graph, intents, Anchors(candidates, intents), leads, report.leads);
    }
  }
}
