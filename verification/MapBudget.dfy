/** Shrinking a map report to its byte budget (src/project_index.rs). */
module MapBudget {
  import opened Utf8
  import opened Wrappers
  import opened Sequences
  import opened MapEdges
  import Citation
  import Projection

  const MIN_EXCERPT_BYTES := 128
  const STRONG_LEADS := 5

  datatype MapLead = MapLead(name: string, citation: string, excerpt: Bytes, excerptTruncated: bool,
                             facets: Facets, edges: seq<MapEdge>, edgesTruncated: bool, testLeadsTruncated: bool)

  /** The parts of a report that shrinking changes. */
  datatype Contents = Contents(leads: seq<MapLead>, alternatives: seq<string>, lexicalResidue: seq<string>,
                               textFallback: seq<string>, mentionsTruncated: bool, truncated: bool)

  datatype BudgetError = TooSmall | BadCitation(error: Citation.CitationError)

  /** `project_map_is_relation_focused`. */
  predicate RelationFocused(intents: set<Intent>) {
    Callers in intents || Callees in intents || AnyCalls in intents || Tests in intents || Impact in intents || ImportsOnly in intents
  }

  // ----- One lead

  /** The citation of the lead names exactly its excerpt in the text. */
  predicate Cites(lead: MapLead, text: Bytes) {
    Citation.Parse(lead.citation).Ok? && Names(Citation.Parse(lead.citation).value, lead.excerpt, text)
  }

  predicate Names(x: Citation.Citation, excerpt: Bytes, text: Bytes) {
    x.start <= x.end <= |text| && text[x.start..x.end] == excerpt
  }

  /** Excerpts end in addressable memory. */
  predicate Sized(lead: MapLead) {
    Citation.Parse(lead.citation).Ok? ==> Citation.Parse(lead.citation).value.start + |lead.excerpt| < Citation.USIZE_LIMIT
  }

  /** The edges `mark_public_facet_incomplete` marks each facet for. */
  function Touching(cl: Class): MapEdge -> bool {
    (e: MapEdge) => Touches(cl, e)
  }

  function Lower(f: Facet): Facet {
    if f.state == NotRequested then f else f.(state := Incomplete)
  }

  /** `mark_public_facet_incomplete`. */
  function MarkPublic(f: Facets, e: MapEdge): Facets {
    if e.kind == Structural(Projection.TestedBy) then f.(directTests := Lower(f.directTests))
    else if e.kind == BehavioralTestLead then f.(behavioralTestLeads := Lower(f.behavioralTestLeads))
    else if IsCall(e, Incoming) then
      if e.relatedIsTest then f.(directTests := Lower(f.directTests)) else f.(directCallers := Lower(f.directCallers))
    else if IsCall(e, Outgoing) then f.(directCallees := Lower(f.directCallees))
    else f
  }

  /** `refresh_public_facet_counts`. */
  function Recount(f: Facets, edges: seq<MapEdge>): Facets {
    Facets(f.directCallers.(returned := Count(edges, IsCaller)), f.directCallees.(returned := Count(edges, IsCallee)),
           f.directTests.(returned := Count(edges, IsDirectTest)), f.behavioralTestLeads.(returned := Count(edges, IsTestLead)))
  }

  /** A facet only loses `complete_in_projection`, and keeps it only if none of its edges was dropped. */
  predicate FacetKept(b: Facet, a: Facet, dropped: seq<MapEdge>, touches: MapEdge -> bool) {
    && (a.state == b.state || (b.state == CompleteInProjection && a.state == Incomplete))
    && (a.state == CompleteInProjection ==> forall e :: e in dropped ==> !touches(e))
  }

  predicate FacetsKept(b: Facets, a: Facets, dropped: seq<MapEdge>) {
    && FacetKept(b.directCallers, a.directCallers, dropped, Touching(CallerClass))
    && FacetKept(b.directCallees, a.directCallees, dropped, Touching(CalleeClass))
    && FacetKept(b.directTests, a.directTests, dropped, Touching(TestClass))
    && FacetKept(b.behavioralTestLeads, a.behavioralTestLeads, dropped, Touching(LeadClass))
  }

  /** Edges go from the end, and the facets tell. */
  predicate EdgesShrunk(b: MapLead, a: MapLead) {
    && a.edges <= b.edges
    && FacetsKept(b.facets, a.facets, b.edges[|a.edges|..])
    && (if a.edges == b.edges then a.facets == b.facets && a.edgesTruncated == b.edgesTruncated
        else a.facets == Recount(a.facets, a.edges) && a.edgesTruncated)
  }

  /** The excerpt goes from the end, in whole characters, and the citation with it. */
  ghost predicate ExcerptShrunk(b: MapLead, a: MapLead) {
    && a.excerpt <= b.excerpt && Boundary(b.excerpt, |a.excerpt|)
    && (a.excerpt != b.excerpt ==> a.excerptTruncated)
    && (b.excerptTruncated ==> a.excerptTruncated)
    && (forall text :: Cites(b, text) ==> Cites(a, text))
    && (Citation.Parse(b.citation).Ok? ==> Citation.Parse(a.citation).Ok?)
    && (Sized(b) ==> Sized(a))
  }

  ghost predicate LeadShrunk(b: MapLead, a: MapLead) {
    a.name == b.name && EdgesShrunk(b, a) && ExcerptShrunk(b, a)
  }

  lemma LeadUnchanged(b: MapLead)
    ensures LeadShrunk(b, b)
  {
  }

  lemma EdgesShrunkTwice(c: MapLead, b: MapLead, a: MapLead)
    requires EdgesShrunk(c, b) && EdgesShrunk(b, a)
    ensures EdgesShrunk(c, a)
  {
  }

  lemma ExcerptShrunkTwice(c: MapLead, b: MapLead, a: MapLead)
    requires ExcerptShrunk(c, b) && ExcerptShrunk(b, a)
    ensures ExcerptShrunk(c, a)
  {
    assert |a.excerpt| < |b.excerpt| ==> b.excerpt[|a.excerpt|] == c.excerpt[|a.excerpt|];
  }

  lemma LeadShrunkTwice(c: MapLead, b: MapLead, a: MapLead)
    requires LeadShrunk(c, b) && LeadShrunk(b, a)
    ensures LeadShrunk(c, a)
  {
    EdgesShrunkTwice(c, b, a);
    ExcerptShrunkTwice(c, b, a);
  }

  // ----- Dropping the last edge of a lead

  function DropEdge(lead: MapLead, tests: bool): MapLead
    requires lead.edges != []
  {
    var edges, last := lead.edges[..|lead.edges| - 1], lead.edges[|lead.edges| - 1];
    lead.(edges := edges, edgesTruncated := true, testLeadsTruncated := lead.testLeadsTruncated || tests,
          facets := Recount(MarkPublic(lead.facets, last), edges))
  }

  lemma MarkingKeeps(f: Facets, e: MapEdge)
    ensures FacetsKept(f, MarkPublic(f, e), [e])
  {
  }

  lemma RecountKeeps(b: Facets, a: Facets, dropped: seq<MapEdge>, edges: seq<MapEdge>)
    requires FacetsKept(b, a, dropped)
    ensures FacetsKept(b, Recount(a, edges), dropped)
  {
  }

  /** Facets the edge has nothing to do with stay as they were. */
  predicate UntouchedStay(b: Facets, a: Facets, e: MapEdge) {
    && (!Touches(CallerClass, e) ==> a.directCallers.state == b.directCallers.state)
    && (!Touches(CalleeClass, e) ==> a.directCallees.state == b.directCallees.state)
    && (!Touches(TestClass, e) ==> a.directTests.state == b.directTests.state)
    && (!Touches(LeadClass, e) ==> a.behavioralTestLeads.state == b.behavioralTestLeads.state)
  }

  lemma DropEdgeShrinks(lead: MapLead, tests: bool)
    requires lead.edges != []
    ensures LeadShrunk(lead, DropEdge(lead, tests)) && |DropEdge(lead, tests).edges| == |lead.edges| - 1
    ensures DropEdge(lead, tests).testLeadsTruncated <==> lead.testLeadsTruncated || tests
    ensures UntouchedStay(lead.facets, DropEdge(lead, tests).facets, lead.edges[|lead.edges| - 1])
  {
    var last := lead.edges[|lead.edges| - 1];
    assert lead.edges[|lead.edges| - 1..] == [last];
    MarkingKeeps(lead.facets, last);
    RecountKeeps(lead.facets, MarkPublic(lead.facets, last), [last], DropEdge(lead, tests).edges);
  }

  // ----- Shortening its excerpt

  function Target(length: nat): (r: nat)
    ensures length > MIN_EXCERPT_BYTES ==> r < length
  {
    if length / 2 >= MIN_EXCERPT_BYTES then length / 2 else MIN_EXCERPT_BYTES
  }

  function Cut(lead: MapLead): (end: nat)
    requires |lead.excerpt| > MIN_EXCERPT_BYTES
    ensures end < |lead.excerpt|
  {
    Floor(lead.excerpt, Target(|lead.excerpt|))
  }

  function Shorten(lead: MapLead): MapLead
    requires |lead.excerpt| > MIN_EXCERPT_BYTES && Sized(lead) && Citation.Parse(lead.citation).Ok?
  {
    var x := Citation.Parse(lead.citation).value;
    lead.(excerpt := lead.excerpt[..Cut(lead)], excerptTruncated := true,
          citation := Citation.Print(x.(end := x.start + Cut(lead))))
  }

  /** It is halved, but for a character cut in two, and never goes far below 128 bytes. */
  lemma ShortenHalves(lead: MapLead)
    requires |lead.excerpt| > MIN_EXCERPT_BYTES && Sized(lead) && Citation.Parse(lead.citation).Ok? && Valid(lead.excerpt)
    ensures var (length, half) := (|Shorten(lead).excerpt|, if |lead.excerpt| / 2 >= 128 then |lead.excerpt| / 2 else 128);
            half - 3 <= length <= half
    ensures Valid(Shorten(lead).excerpt)
  {
    ValidIsBounded(lead.excerpt);
    FloorIsNear(lead.excerpt, Target(|lead.excerpt|));
    CutIsValid(lead.excerpt, Cut(lead));
  }

  lemma NamesPrefix(x: Citation.Citation, excerpt: Bytes, n: nat, text: Bytes)
    requires Names(x, excerpt, text) && n <= |excerpt|
    ensures x.start + n < Citation.USIZE_LIMIT && Names(x.(end := x.start + n), excerpt[..n], text)
  {
    SlicePrefix(text, x.start, x.end, n);
  }

  lemma ShortenedCitation(lead: MapLead)
    requires |lead.excerpt| > MIN_EXCERPT_BYTES && Sized(lead) && Citation.Parse(lead.citation).Ok?
    ensures var x := Citation.Parse(lead.citation).value;
            Citation.Parse(Shorten(lead).citation) == Ok(x.(end := x.start + Cut(lead)))
  {
    var x := Citation.Parse(lead.citation).value;
    Citation.ParsedIsPrintable(lead.citation);
    Citation.ParseOfPrint(x.(end := x.start + Cut(lead)));
  }

  lemma ShortenedCites(lead: MapLead, text: Bytes)
    requires |lead.excerpt| > MIN_EXCERPT_BYTES && Sized(lead) && Cites(lead, text)
    ensures Cites(Shorten(lead), text)
  {
    ShortenedCitation(lead);
    NamesPrefix(Citation.Parse(lead.citation).value, lead.excerpt, Cut(lead), text);
  }

  lemma ShortenShrinks(lead: MapLead)
    requires |lead.excerpt| > MIN_EXCERPT_BYTES && Sized(lead) && Citation.Parse(lead.citation).Ok?
    ensures LeadShrunk(lead, Shorten(lead))
  {
    ShortenedCitation(lead);
    forall text | Cites(lead, text) ensures Cites(Shorten(lead), text) {
      ShortenedCites(lead, text);
    }
    assert EdgesShrunk(lead, Shorten(lead));
  }

  // ----- The whole report

  /** Every list keeps a prefix, every lead that is left is only shortened, and the flags tell. */
  ghost predicate Shrunk(b: Contents, a: Contents) {
    && LeadsShrunk(b.leads, a.leads)
    && a.alternatives <= b.alternatives && a.lexicalResidue <= b.lexicalResidue && a.textFallback <= b.textFallback
    && (if a.lexicalResidue == b.lexicalResidue then a.mentionsTruncated == b.mentionsTruncated else a.mentionsTruncated)
    && (a == b || a.truncated)
  }

  ghost predicate LeadsShrunk(b: seq<MapLead>, a: seq<MapLead>) {
    |a| <= |b| && forall i :: 0 <= i < |a| ==> LeadShrunk(b[i], a[i])
  }

  ghost predicate SameEdges(b: seq<MapLead>, a: seq<MapLead>) {
    |a| <= |b| && forall i :: 0 <= i < |a| ==> a[i].edges == b[i].edges
  }

  lemma PrefixShrinks(leads: seq<MapLead>, n: nat)
    requires n <= |leads|
    ensures LeadsShrunk(leads, leads[..n]) && SameEdges(leads, leads[..n])
  {
  }

  lemma OneShrinks(leads: seq<MapLead>, i: nat, lead: MapLead)
    requires i < |leads| && LeadShrunk(leads[i], lead)
    ensures LeadsShrunk(leads, leads[i := lead])
  {
    forall j | 0 <= j < |leads| ensures LeadShrunk(leads[j], leads[i := lead][j]) {
      LeadUnchanged(leads[j]);
    }
  }

  lemma LeadsShrunkTwice(c: seq<MapLead>, b: seq<MapLead>, a: seq<MapLead>)
    requires LeadsShrunk(c, b) && LeadsShrunk(b, a)
    ensures LeadsShrunk(c, a)
  {
    forall i | 0 <= i < |a| ensures LeadShrunk(c[i], a[i]) {
      LeadShrunkTwice(c[i], b[i], a[i]);
    }
  }

  lemma ShrunkTwice(c: Contents, b: Contents, a: Contents)
    requires Shrunk(c, b) && Shrunk(b, a)
    ensures Shrunk(c, a)
  {
    LeadsShrunkTwice(c.leads, b.leads, a.leads);
  }

  /** ... and no lead that is left loses an edge. */
  ghost predicate Trimmed(b: Contents, a: Contents) {
    Shrunk(b, a) && SameEdges(b.leads, a.leads)
  }

  lemma ShrunkIsTrimmed(b: Contents, a: Contents)
    requires Shrunk(b, a) && SameEdges(b.leads, a.leads)
    ensures Trimmed(b, a)
  {
  }

  lemma TrimmedTwice(c: Contents, b: Contents, a: Contents)
    requires Trimmed(c, b) && Shrunk(b, a) && SameEdges(b.leads, a.leads)
    ensures Trimmed(c, a)
  {
  }

  lemma TrimmedIsWellCited(b: Contents, a: Contents)
    requires Trimmed(b, a)
    ensures (WellCited(b.leads) ==> WellCited(a.leads)) && (AllSized(b.leads) ==> AllSized(a.leads))
  {
  }

  lemma NothingShrinks(b: Contents)
    ensures Shrunk(b, b)
  {
  }

  function Total(leads: seq<MapLead>, size: MapLead -> nat): nat {
    if leads == [] then 0 else Total(leads[..|leads| - 1], size) + size(leads[|leads| - 1])
  }

  const EdgeCount: MapLead -> nat := (lead: MapLead) => |lead.edges|
  const ExcerptBytes: MapLead -> nat := (lead: MapLead) => |lead.excerpt|

  lemma {:induction false} TotalDecreases(leads: seq<MapLead>, i: nat, lead: MapLead, size: MapLead -> nat)
    requires i < |leads| && size(lead) < size(leads[i])
    ensures Total(leads[i := lead], size) < Total(leads, size)
  {
    var last := |leads| - 1;
    if i == last {
      assert leads[i := lead][..last] == leads[..last];
    } else {
      assert leads[i := lead][..last] == leads[..last][i := lead];
      TotalDecreases(leads[..last], i, lead, size);
    }
  }

  ghost predicate WellCited(leads: seq<MapLead>) {
    forall lead :: lead in leads ==> Citation.Parse(lead.citation).Ok?
  }

  ghost predicate AllSized(leads: seq<MapLead>) {
    forall lead :: lead in leads ==> Sized(lead)
  }

  lemma StaysWellCited(b: seq<MapLead>, a: seq<MapLead>)
    requires LeadsShrunk(b, a)
    ensures WellCited(b) ==> WellCited(a)
    ensures AllSized(b) ==> AllSized(a)
  {
  }

  datatype Shortening = Shortened | NothingLong | Unreadable(error: Citation.CitationError)

  predicate NoEdges(leads: seq<MapLead>) {
    forall i :: 0 <= i < |leads| ==> leads[i].edges == []
  }

  predicate ShortExcerpts(leads: seq<MapLead>) {
    forall i :: 0 <= i < |leads| ==> |leads[i].excerpt| <= MIN_EXCERPT_BYTES
  }

  predicate LastWithEdges(leads: seq<MapLead>, i: nat) {
    i < |leads| && leads[i].edges != [] && NoEdges(leads[i + 1..])
  }

  /** The last lead that has edges lost its last one, and nothing else changed. */
  ghost predicate OneEdgeLess(b: seq<MapLead>, a: seq<MapLead>, tests: bool) {
    exists i: nat :: LastWithEdges(b, i) && a == b[i := DropEdge(b[i], tests)]
  }

  predicate LastLongExcerpt(leads: seq<MapLead>, i: nat) {
    i < |leads| && |leads[i].excerpt| > MIN_EXCERPT_BYTES && ShortExcerpts(leads[i + 1..])
  }

  /** The last lead with a long excerpt had it shortened, and nothing else changed. */
  ghost predicate OneExcerptShorter(b: seq<MapLead>, a: seq<MapLead>) {
    exists i: nat :: LastLongExcerpt(b, i) && IsShortened(b, a, i)
  }

  ghost predicate IsShortened(b: seq<MapLead>, a: seq<MapLead>, i: nat)
    requires i < |b| && |b[i].excerpt| > MIN_EXCERPT_BYTES
  {
    Sized(b[i]) && Citation.Parse(b[i].citation).Ok? && a == b[i := Shorten(b[i])]
  }

  lemma OneEdgeGoes(b: Contents, i: nat, tests: bool)
    requires LastWithEdges(b.leads, i)
    ensures var leads := b.leads[i := DropEdge(b.leads[i], tests)];
            && OneEdgeLess(b.leads, leads, tests) && Total(leads, EdgeCount) < Total(b.leads, EdgeCount)
            && Shrunk(b, b.(leads := leads, truncated := true))
  {
    var lead := DropEdge(b.leads[i], tests);
    DropEdgeShrinks(b.leads[i], tests);
    OneShrinks(b.leads, i, lead);
    TotalDecreases(b.leads, i, lead, EdgeCount);
  }

  // ----- One thing at a time

  function Init<T>(s: seq<T>): seq<T>
    requires s != []
  {
    s[..|s| - 1]
  }

  ghost predicate ExcerptGoes(b: Contents, a: Contents) {
    OneExcerptShorter(b.leads, a.leads) && a == b.(leads := a.leads, truncated := true)
  }

  /** One excerpt is shortened: less text is left, and the rest is as it was. */
  ghost predicate ExcerptStep(b: Contents, a: Contents) {
    && ExcerptGoes(b, a) && Shrunk(b, a) && SameEdges(b.leads, a.leads) && |a.leads| == |b.leads|
    && Total(a.leads, ExcerptBytes) < Total(b.leads, ExcerptBytes)
  }

  lemma OneExcerptShrinks(b: Contents, i: nat)
    requires LastLongExcerpt(b.leads, i) && Sized(b.leads[i]) && Citation.Parse(b.leads[i].citation).Ok?
    ensures ExcerptStep(b, b.(leads := b.leads[i := Shorten(b.leads[i])], truncated := true))
  {
    var lead := Shorten(b.leads[i]);
    ShortenShrinks(b.leads[i]);
    OneShrinks(b.leads, i, lead);
    TotalDecreases(b.leads, i, lead, ExcerptBytes);
    assert IsShortened(b.leads, b.leads[i := lead], i);
  }

  // What is gone before something else goes.

  predicate TextGone(c: Contents) {
    c.textFallback == [] && |c.leads| <= 5
  }

  predicate ContextGone(c: Contents, intents: set<Intent>) {
    TextGone(c) && (RelationFocused(intents) ==> c.alternatives == [] && ShortExcerpts(c.leads))
  }

  predicate EdgesGone(c: Contents, intents: set<Intent>) {
    ContextGone(c, intents) && c.lexicalResidue == [] && NoEdges(c.leads)
  }

  ghost predicate AlternativeGoes(b: Contents, a: Contents) {
    b.alternatives != [] && a == b.(alternatives := Init(b.alternatives), truncated := true)
  }

  ghost predicate LeadGoes(b: Contents, a: Contents) {
    b.leads != [] && a == b.(leads := Init(b.leads), truncated := true)
  }

  /** What goes next: text fallback first, then leads beyond the fifth; when relations are asked for,
      alternatives and half of a long excerpt; lexical residue; edges; and then whatever is left. */
  ghost predicate OneDrop(b: Contents, a: Contents, intents: set<Intent>) {
    if b.textFallback != [] then a == b.(textFallback := Init(b.textFallback), truncated := true)
    else if |b.leads| > 5 then LeadGoes(b, a)
    else if RelationFocused(intents) && b.alternatives != [] then AlternativeGoes(b, a)
    else if RelationFocused(intents) && !ShortExcerpts(b.leads) then ExcerptGoes(b, a)
    else if b.lexicalResidue != [] then
      a == b.(lexicalResidue := Init(b.lexicalResidue), mentionsTruncated := true, truncated := true)
    else if !NoEdges(b.leads) then OneEdgeLess(b.leads, a.leads, Tests in intents) && a == b.(leads := a.leads, truncated := true)
    else if b.alternatives != [] then AlternativeGoes(b, a)
    else if |b.leads| > 1 then LeadGoes(b, a)
    else ExcerptGoes(b, a)
  }

  /** No lead loses an edge while text fallback or lexical residue is left; and of five leads (a map has
      no more, see MapReport) none goes before the text, the alternatives and all edges have gone. */
  ghost predicate LeadsGoLast(b: Contents, a: Contents) {
    && (a.textFallback != [] || a.lexicalResidue != [] ==> SameEdges(b.leads, a.leads))
    && (|b.leads| <= STRONG_LEADS && (a.textFallback != [] || a.lexicalResidue != []) ==>
          |a.leads| == |b.leads| && SameEdges(b.leads, a.leads))
    && (|a.leads| < |b.leads| ==> a.textFallback == [])
    && (|a.leads| < |b.leads| && |a.leads| < STRONG_LEADS ==> a.lexicalResidue == [] && a.alternatives == [] && NoEdges(a.leads))
  }

  /** Edges, alternatives and leads only go when text and residue have gone, leads after all edges. */
  ghost predicate StructureGoes(b: Contents, a: Contents) {
    && Shrunk(b, a) && a.textFallback == b.textFallback && a.lexicalResidue == b.lexicalResidue
    && (a == b || (b.textFallback == [] && b.lexicalResidue == []))
    && (|a.leads| < |b.leads| ==> a.alternatives == [] && NoEdges(a.leads))
  }

  lemma StructureWent(b: Contents, v: Contents, a: Contents)
    requires Shrunk(b, v) && |v.leads| == |b.leads| && v == b.(leads := v.leads, truncated := v.truncated)
    requires v == b || (b.textFallback == [] && b.lexicalResidue == [])
    requires Trimmed(v, a) && a == v.(leads := a.leads, alternatives := a.alternatives, truncated := a.truncated)
    requires a == v || (v.textFallback == [] && v.lexicalResidue == [] && NoEdges(v.leads))
    requires |a.leads| < |v.leads| ==> a.alternatives == []
    ensures StructureGoes(b, a)
  {
    ShrunkTwice(b, v, a);
  }

  lemma LeadsWentLast(b: Contents, v: Contents, a: Contents)
    requires Trimmed(b, v) && (|v.leads| < |b.leads| ==> v.textFallback == [] && |v.leads| >= STRONG_LEADS)
    requires StructureGoes(v, a)
    ensures Shrunk(b, a) && LeadsGoLast(b, a)
  {
    ShrunkTwice(b, v, a);
  }

  /** Long excerpts are next. */
  predicate ExcerptsNext(c: Contents, intents: set<Intent>) {
    c.alternatives == [] && ((TextGone(c) && RelationFocused(intents)) || (EdgesGone(c, intents) && |c.leads| <= 1))
  }

  lemma ExcerptIsNext(b: Contents, a: Contents, intents: set<Intent>)
    requires ExcerptsNext(b, intents) && ExcerptGoes(b, a) && SameEdges(b.leads, a.leads) && |a.leads| == |b.leads|
    ensures OneDrop(b, a, intents)
    ensures ExcerptsNext(a, intents)
  {
    var i: nat :| LastLongExcerpt(b.leads, i) && IsShortened(b.leads, a.leads, i);
    assert !ShortExcerpts(b.leads);
  }

  /** One drop after the other, each from a report that did not fit. */
  ghost predicate Drops(t: seq<Contents>, now: Contents, intents: set<Intent>, fits: Contents -> bool) {
    && t != [] && t[|t| - 1] == now
    && forall i :: 0 <= i < |t| - 1 ==> !fits(t[i]) && OneDrop(t[i], t[i + 1], intents)
  }

  lemma DropsMore(t: seq<Contents>, b: Contents, a: Contents, intents: set<Intent>, fits: Contents -> bool)
    requires Drops(t, b, intents, fits) && !fits(b) && OneDrop(b, a, intents)
    ensures Drops(t + [a], a, intents, fits)
  {
    var u := t + [a];
    forall i | 0 <= i < |u| - 1 ensures !fits(u[i]) && OneDrop(u[i], u[i + 1], intents) {
      if i == |t| - 1 {
        assert u[i] == b && u[i + 1] == a;
      } else {
        assert u[i] == t[i] && u[i + 1] == t[i + 1];
      }
    }
  }

  class ProjectMapReport {
    const intents: set<Intent>
    const maxBytes: nat
    const serializedLength: Contents -> nat

    var leads: seq<MapLead>
    var alternatives: seq<string>
    var lexicalResidue: seq<string>
    var textFallback: seq<string>
    var mentionsTruncated: bool
    var truncated: bool

    function Value(): Contents
      reads this
    {
      Contents(leads, alternatives, lexicalResidue, textFallback, mentionsTruncated, truncated)
    }

    function FitsIn(): Contents -> bool {
      (c: Contents) => serializedLength(c) <= maxBytes
    }

    predicate Fits()
      reads this
    {
      FitsIn()(Value())
    }

    ghost predicate Traced(t: seq<Contents>)
      reads this
    {
      Drops(t, Value(), intents, FitsIn())
    }

    constructor (intents: set<Intent>, maxBytes: nat, serializedLength: Contents -> nat, contents: Contents)
      ensures this.intents == intents && this.maxBytes == maxBytes && this.serializedLength == serializedLength
      ensures Value() == contents
    {
      this.intents, this.maxBytes, this.serializedLength := intents, maxBytes, serializedLength;
      leads, alternatives, lexicalResidue := contents.leads, contents.alternatives, contents.lexicalResidue;
      textFallback, mentionsTruncated, truncated := contents.textFallback, contents.mentionsTruncated, contents.truncated;
    }

    method DropFallback(ghost t: seq<Contents>) returns (ghost u: seq<Contents>)
      requires Traced(t)
      modifies this`textFallback, this`truncated
      ensures Traced(u) && t <= u
      ensures Shrunk(old(Value()), Value()) && (old(Fits()) ==> Value() == old(Value()))
      ensures Fits() || textFallback == []
    {
      NothingShrinks(Value());
      u := t;
      while !Fits() && textFallback != []
        invariant Traced(u) && t <= u
        invariant Shrunk(old(Value()), Value()) && (old(Fits()) ==> Value() == old(Value()))
        decreases |textFallback|
      {
        ghost var before := Value();
        textFallback := textFallback[..|textFallback| - 1];
        truncated := true;
        DropsMore(u, before, Value(), intents, FitsIn());
        u := u + [Value()];
      }
    }

    method DropLeads(keep: nat, ghost t: seq<Contents>) returns (ghost u: seq<Contents>)
      requires Traced(t)
      requires !Fits() ==> if keep == 1 then EdgesGone(Value(), intents) && alternatives == [] else textFallback == [] && keep == 5
      modifies this`leads, this`truncated
      ensures Traced(u) && t <= u
      ensures Shrunk(old(Value()), Value()) && (old(Fits()) ==> Value() == old(Value()))
      ensures leads <= old(leads) && (|leads| < |old(leads)| ==> |leads| >= keep)
      ensures Fits() || |leads| <= keep
    {
      NothingShrinks(Value());
      u := t;
      while !Fits() && |leads| > keep
        invariant !old(Fits()) ==> if keep == 1 then EdgesGone(Value(), intents) && alternatives == [] else textFallback == []
        invariant Traced(u) && t <= u
        invariant leads <= old(leads) && (|leads| < |old(leads)| ==> |leads| >= keep && truncated)
        invariant |leads| == |old(leads)| ==> Value() == old(Value())
        invariant old(Fits()) ==> Value() == old(Value())
        decreases |leads|
      {
        ghost var before := Value();
        leads := leads[..|leads| - 1];
        truncated := true;
        DropsMore(u, before, Value(), intents, FitsIn());
        u := u + [Value()];
      }
      PrefixShrinks(old(leads), |leads|);
      assert leads == old(leads)[..|leads|];
    }

    method DropAlternatives(ghost t: seq<Contents>) returns (ghost u: seq<Contents>)
      requires Traced(t)
      requires !Fits() ==> EdgesGone(Value(), intents) || (TextGone(Value()) && RelationFocused(intents))
      modifies this`alternatives, this`truncated
      ensures Traced(u) && t <= u
      ensures Shrunk(old(Value()), Value()) && (old(Fits()) ==> Value() == old(Value()))
      ensures Fits() || alternatives == []
    {
      NothingShrinks(Value());
      u := t;
      while !Fits() && alternatives != []
        invariant !old(Fits()) ==> EdgesGone(Value(), intents) || (TextGone(Value()) && RelationFocused(intents))
        invariant Traced(u) && t <= u
        invariant Shrunk(old(Value()), Value()) && (old(Fits()) ==> Value() == old(Value()))
        decreases |alternatives|
      {
        ghost var before := Value();
        alternatives := alternatives[..|alternatives| - 1];
        truncated := true;
        DropsMore(u, before, Value(), intents, FitsIn());
        u := u + [Value()];
      }
    }

    method DropResidue(ghost t: seq<Contents>) returns (ghost u: seq<Contents>)
      requires Traced(t)
      requires !Fits() ==> ContextGone(Value(), intents)
      modifies this`lexicalResidue, this`mentionsTruncated, this`truncated
      ensures Traced(u) && t <= u
      ensures Shrunk(old(Value()), Value()) && (old(Fits()) ==> Value() == old(Value()))
      ensures Fits() || lexicalResidue == []
    {
      NothingShrinks(Value());
      u := t;
      while !Fits() && lexicalResidue != []
        invariant !old(Fits()) ==> ContextGone(Value(), intents)
        invariant Traced(u) && t <= u
        invariant Shrunk(old(Value()), Value()) && (old(Fits()) ==> Value() == old(Value()))
        decreases |lexicalResidue|
      {
        ghost var before := Value();
        lexicalResidue := lexicalResidue[..|lexicalResidue| - 1];
        mentionsTruncated := true;
        truncated := true;
        DropsMore(u, before, Value(), intents, FitsIn());
        u := u + [Value()];
      }
    }

    /** The last lead with edges, or -1. */
    method LastConnected() returns (i: int)
      ensures -1 <= i < |leads| && (i >= 0 ==> LastWithEdges(leads, i))
      ensures i == -1 ==> NoEdges(leads)
    {
      i := |leads| - 1;
      while i >= 0 && leads[i].edges == []
        invariant -1 <= i < |leads|
        invariant forall j :: i < j < |leads| ==> leads[j].edges == []
      {
        i := i - 1;
      }
    }

    /** The last edge of the last lead that has any. */
    method DropOneEdge() returns (removed: bool)
      modifies this`leads, this`truncated
      ensures Shrunk(old(Value()), Value()) && |leads| == |old(leads)|
      ensures removed ==> OneEdgeLess(old(leads), leads, Tests in intents) && Value() == old(Value()).(leads := leads, truncated := true)
      ensures removed ==> Total(leads, EdgeCount) < Total(old(leads), EdgeCount)
      ensures !removed ==> Value() == old(Value()) && NoEdges(leads)
    {
      var i := LastConnected();
      if i == -1 {
        NothingShrinks(Value());
        return false;
      }
      OneEdgeGoes(Value(), i, Tests in intents);
      leads := leads[i := DropEdge(leads[i], Tests in intents)];
      truncated := true;
      return true;
    }

    method DropEdges(ghost t: seq<Contents>) returns (ghost u: seq<Contents>)
      requires Traced(t)
      requires !Fits() ==> ContextGone(Value(), intents) && lexicalResidue == []
      modifies this`leads, this`truncated
      ensures Traced(u) && t <= u
      ensures Shrunk(old(Value()), Value()) && (old(Fits()) ==> Value() == old(Value()))
      ensures |leads| == |old(leads)|
      ensures Fits() || EdgesGone(Value(), intents)
    {
      NothingShrinks(Value());
      u := t;
      while !Fits()
        invariant !old(Fits()) ==> ContextGone(Value(), intents) && lexicalResidue == []
        invariant Traced(u) && t <= u
        invariant Shrunk(old(Value()), Value()) && (old(Fits()) ==> Value() == old(Value()))
        invariant |leads| == |old(leads)|
        decreases Total(leads, EdgeCount)
      {
        ghost var before := Value();
        var removed := DropOneEdge();
        ShrunkTwice(old(Value()), before, Value());
        if !removed {
          break;
        }
        DropsMore(u, before, Value(), intents, FitsIn());
        u := u + [Value()];
      }
    }

    /** The last lead with a long excerpt, or -1. */
    method LastLong() returns (i: int)
      ensures -1 <= i < |leads| && (i >= 0 ==> LastLongExcerpt(leads, i))
      ensures i == -1 ==> ShortExcerpts(leads)
    {
      i := |leads| - 1;
      while i >= 0 && |leads[i].excerpt| <= MIN_EXCERPT_BYTES
        invariant -1 <= i < |leads|
        invariant forall j :: i < j < |leads| ==> |leads[j].excerpt| <= MIN_EXCERPT_BYTES
      {
        i := i - 1;
      }
    }

    /** `shrink_project_map_lead_excerpt`: halves the last long excerpt. */
    method ShrinkExcerpt() returns (r: Shortening)
      requires AllSized(leads)
      modifies this`leads, this`truncated
      ensures r.Unreadable? ==> !WellCited(old(leads))
      ensures r.Shortened? ==> ExcerptStep(old(Value()), Value())
      ensures r.NothingLong? ==> Value() == old(Value()) && ShortExcerpts(leads)
    {
      var i := LastLong();
      if i == -1 {
        return NothingLong;
      }
      assert leads[i] in leads;
      var parsed := Citation.Parse(leads[i].citation);
      if parsed.Err? {
        leads := leads[i := leads[i].(excerpt := leads[i].excerpt[..Cut(leads[i])], excerptTruncated := true)];
        return Unreadable(parsed.error);
      }
      OneExcerptShrinks(Value(), i);
      leads := leads[i := Shorten(leads[i])];
      truncated := true;
      return Shortened;
    }

    method ShrinkExcerpts(ghost t: seq<Contents>) returns (error: Option<Citation.CitationError>, ghost u: seq<Contents>)
      requires AllSized(leads) && Traced(t)
      requires !Fits() ==> ExcerptsNext(Value(), intents)
      modifies this`leads, this`truncated
      ensures error.None? ==> Traced(u) && t <= u
      ensures error.Some? ==> !WellCited(old(leads))
      ensures error.None? ==> Shrunk(old(Value()), Value()) && SameEdges(old(leads), leads) && |leads| == |old(leads)|
      ensures old(Fits()) ==> error.None? && Value() == old(Value())
      ensures error.None? ==> Fits() || ShortExcerpts(leads)
    {
      NothingShrinks(Value());
      u := t;
      while !Fits()
        invariant !old(Fits()) ==> ExcerptsNext(Value(), intents)
        invariant Traced(u) && t <= u
        invariant Trimmed(old(Value()), Value()) && (old(Fits()) ==> Value() == old(Value()))
        invariant |leads| == |old(leads)| && AllSized(leads) && (WellCited(old(leads)) ==> WellCited(leads))
        decreases Total(leads, ExcerptBytes)
      {
        ghost var before := Value();
        var r := ShrinkExcerpt();
        if r.Unreadable? {
          return Some(r.error), u;
        }
        if r.NothingLong? {
          break;
        }
        TrimmedTwice(old(Value()), before, Value());
        TrimmedIsWellCited(old(Value()), Value());
        ExcerptIsNext(before, Value(), intents);
        DropsMore(u, before, Value(), intents, FitsIn());
        u := u + [Value()];
      }
      return None, u;
    }

    /** Nothing is left that could be dropped. */
    predicate Bare()
      reads this
    {
      && textFallback == [] && lexicalResidue == [] && alternatives == [] && |leads| <= 1
      && NoEdges(leads) && ShortExcerpts(leads)
    }

    /** When relations are asked for, alternatives and long excerpts go before lexical residue. */
    method DropContext(ghost t: seq<Contents>) returns (error: Option<Citation.CitationError>, ghost u: seq<Contents>)
      requires AllSized(leads) && Traced(t)
      requires !Fits() ==> TextGone(Value()) && RelationFocused(intents)
      modifies this`leads, this`alternatives, this`truncated
      ensures error.None? ==> Traced(u) && t <= u
      ensures error.Some? ==> !WellCited(old(leads))
      ensures error.None? ==> Trimmed(old(Value()), Value()) && |leads| == |old(leads)|
      ensures error.None? ==> Fits() || ContextGone(Value(), intents)
      ensures old(Fits()) ==> error.None? && Value() == old(Value())
    {
      u := DropAlternatives(t);
      ghost var v1 := Value();
      error, u := ShrinkExcerpts(u);
      if error.None? {
        ShrunkTwice(old(Value()), v1, Value());
      }
    }

    method DropFallbackAndWeakLeads(ghost t: seq<Contents>) returns (ghost u: seq<Contents>)
      requires Traced(t)
      modifies this`textFallback, this`leads, this`truncated
      ensures Traced(u) && t <= u
      ensures Trimmed(old(Value()), Value()) && (old(Fits()) ==> Value() == old(Value()))
      ensures Fits() || TextGone(Value())
      ensures |leads| < |old(leads)| ==> textFallback == [] && |leads| >= STRONG_LEADS
    {
      u := DropFallback(t);
      ghost var v1 := Value();
      u := DropLeads(STRONG_LEADS, u);
      ShrunkTwice(old(Value()), v1, Value());
      PrefixShrinks(old(leads), |leads|);
      assert leads == old(leads)[..|leads|];
    }

    /** What goes before any structural edge does. */
    method DropText(ghost t: seq<Contents>) returns (error: Option<Citation.CitationError>, ghost u: seq<Contents>)
      requires AllSized(leads) && Traced(t)
      modifies this
      ensures error.None? ==> Traced(u) && t <= u
      ensures error.Some? ==> !WellCited(old(leads))
      ensures error.None? ==> Trimmed(old(Value()), Value())
      ensures error.None? ==> Fits() || (ContextGone(Value(), intents) && lexicalResidue == [])
      ensures error.None? && |leads| < |old(leads)| ==> textFallback == [] && |leads| >= STRONG_LEADS
      ensures old(Fits()) ==> error.None? && Value() == old(Value())
    {
      error := None;
      u := DropFallbackAndWeakLeads(t);
      ghost var v1 := Value();
      TrimmedIsWellCited(old(Value()), v1);
      if RelationFocused(intents) {
        error, u := DropContext(u);
        if error.Some? {
          return;
        }
        TrimmedTwice(old(Value()), v1, Value());
      }
      ghost var v2 := Value();
      u := DropResidue(u);
      TrimmedTwice(old(Value()), v2, Value());
    }

    /** What goes once all edges are gone. */
    method DropRest(ghost t: seq<Contents>) returns (error: Option<Citation.CitationError>, ghost u: seq<Contents>)
      requires AllSized(leads) && Traced(t)
      requires !Fits() ==> EdgesGone(Value(), intents)
      modifies this`leads, this`alternatives, this`truncated
      ensures error.None? ==> Traced(u) && t <= u
      ensures error.Some? ==> !WellCited(old(leads))
      ensures error.None? ==> Trimmed(old(Value()), Value())
      ensures error.None? && |leads| < |old(leads)| ==> alternatives == [] && !old(Fits())
      ensures error.None? ==> Fits() || (alternatives == [] && |leads| <= 1 && ShortExcerpts(leads))
      ensures old(Fits()) ==> error.None? && Value() == old(Value())
    {
      u := DropAlternativesAndLeads(t);
      ghost var v1 := Value();
      TrimmedIsWellCited(old(Value()), v1);
      error, u := ShrinkExcerpts(u);
      if error.None? {
        ShrunkIsTrimmed(v1, Value());
        TrimmedTwice(old(Value()), v1, Value());
      }
    }

    method DropAlternativesAndLeads(ghost t: seq<Contents>) returns (ghost u: seq<Contents>)
      requires Traced(t)
      requires !Fits() ==> EdgesGone(Value(), intents)
      modifies this`leads, this`alternatives, this`truncated
      ensures Traced(u) && t <= u
      ensures Trimmed(old(Value()), Value()) && (old(Fits()) ==> Value() == old(Value()))
      ensures |leads| < |old(leads)| ==> alternatives == []
      ensures Fits() || (alternatives == [] && |leads| <= 1)
    {
      u := DropAlternatives(t);
      ghost var v1 := Value();
      u := DropLeads(1, u);
      ShrunkTwice(old(Value()), v1, Value());
      PrefixShrinks(old(leads), |leads|);
      assert leads == old(leads)[..|leads|];
    }

    /** What goes once the text and the residue are gone. */
    method DropStructure(ghost t: seq<Contents>) returns (error: Option<Citation.CitationError>, ghost u: seq<Contents>)
      requires AllSized(leads) && Traced(t)
      requires !Fits() ==> ContextGone(Value(), intents) && lexicalResidue == []
      modifies this`leads, this`alternatives, this`truncated
      ensures error.None? ==> Traced(u) && t <= u
      ensures error.Some? ==> !WellCited(old(leads))
      ensures error.None? ==> StructureGoes(old(Value()), Value()) && (Fits() || Bare())
      ensures old(Fits()) ==> error.None? && Value() == old(Value())
    {
      u := DropEdges(t);
      ghost var v := Value();
      StaysWellCited(old(leads), leads);
      error, u := DropRest(u);
      if error.None? {
        StructureWent(old(Value()), v, Value());
      }
    }

    /** `enforce_project_map_budget`. */
    method EnforceBudget() returns (error: Option<BudgetError>, ghost t: seq<Contents>)
      requires AllSized(leads)
      modifies this
      // The report fits, or nothing more could be dropped; it is left alone when it fits already.
      ensures error.None? ==> serializedLength(Value()) <= maxBytes
      ensures error == Some(TooSmall) ==> serializedLength(Value()) > maxBytes && Bare()
      ensures error.Some? && error.value.BadCitation? ==> !WellCited(old(leads))
      ensures old(serializedLength(Value())) <= maxBytes ==> error.None? && Value() == old(Value())
      // One thing is dropped at a time, and only from a report that does not fit.
      ensures error.None? || error == Some(TooSmall) ==> Traced(t) && t[0] == old(Value())
      // Everything that is left is as it was, or shortened as the flags, facets and citations say, ...
      ensures error.None? || error == Some(TooSmall) ==> Shrunk(old(Value()), Value())
      // ... and edges and leads go last.
      ensures error.None? ==> LeadsGoLast(old(Value()), Value())
    {
      t := [Value()];
      var bad;
      bad, t := DropText(t);
      if bad.Some? {
        return Some(BadCitation(bad.value)), t;
      }
      ghost var v := Value();
      TrimmedIsWellCited(old(Value()), v);
      bad, t := DropStructure(t);
      if bad.Some? {
        return Some(BadCitation(bad.value)), t;
      }
      LeadsWentLast(old(Value()), v, Value());
      if !Fits() {
        return Some(TooSmall), t;
      }
      return None, t;
    }
  }
}
