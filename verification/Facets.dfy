/** The edges a map returns for a symbol, and what its facets claim about them (src/project_index.rs). */
module Facets {
  import opened Wrappers
  import opened Projection
  import opened CallGraph
  import opened TraversalTrace
  import opened TestTraversal
  import opened MapEdges
  import opened EdgeSites
  import opened Sequences
  import opened Sets
  import opened EdgeChoice

  // ----- What every stage keeps

  /** The test leads found, whether the search for them was whole, and whether the rows have been
      thinned to one a site. */
  datatype Claim = Claim(leads: set<MapEdge>, whole: bool, thinned: bool)

  ghost predicate Within(v: MapView, key: Key) {
    |Relations(v.graph, key)| <= MAX_PROJECT_MAP_EDGE_CANDIDATES
  }

  /** When a facet is followed. A test's own facet of tests is not: see `TestRowsClash`. */
  ghost predicate Follows(g: View, key: Key, intents: set<Intent>, cl: Class) {
    match cl
    case CallerClass => AsksForCallers(intents)
    case CalleeClass => false
    case TestClass => AsksForTests(intents) && !IsTest(g, key)
    case LeadClass => AsksForTests(intents)
  }

  /** The rows that have to be there for a facet to be complete. */
  function Members(g: View, key: Key, k: Claim, cl: Class): set<MapEdge> {
    match cl
    case CallerClass => CallerSites(g, key)
    case CalleeClass => CalleeSites(g, key)
    case TestClass => if k.thinned then TestedBySites(g, key) else TestRelations(g, key)
    case LeadClass => k.leads
  }

  ghost predicate HasAll(members: set<MapEdge>, rows: seq<MapEdge>) {
    forall d :: d in members ==> d in rows
  }

  /** The flag tells whether nothing was cut off from the start and all members are still there. */
  ghost predicate Honest(members: set<MapEdge>, rows: seq<MapEdge>, flag: bool, base: bool) {
    flag <==> base && HasAll(members, rows)
  }

  ghost predicate Base(v: MapView, key: Key, k: Claim, cl: Class) {
    Within(v, key) && (cl == LeadClass ==> k.whole)
  }

  ghost predicate HonestFor(v: MapView, key: Key, k: Claim, cl: Class, rows: seq<MapEdge>, c: Completeness) {
    Honest(Members(v.graph, key, k, cl), rows, Flag(cl, c), Base(v, key, k, cl))
  }

  ghost predicate AllHonest(v: MapView, key: Key, intents: set<Intent>, k: Claim, rows: seq<MapEdge>, c: Completeness) {
    forall cl :: Follows(v.graph, key, intents, cl) ==> HonestFor(v, key, k, cl, rows, c)
  }

  /** No row twice, no relation that is not in the projection, and no other lead. */
  ghost predicate Proper(g: View, key: Key, leads: set<MapEdge>, rows: seq<MapEdge>) {
    NoDups(rows) && forall e :: e in rows ==> if e.kind.Structural? then e in Relations(g, key) else e in leads
  }

  /** Leads are real, one for a test. */
  ghost predicate GoodLeads(g: View, key: Key, leads: set<MapEdge>) {
    && (forall e :: e in leads ==> IsLeadRow(g, key, e))
    && (forall a, b :: a in leads && b in leads && a.related == b.related ==> a == b)
  }

  function MarkAll(c: Completeness, dropped: seq<MapEdge>): Completeness {
    if dropped == [] then c else Mark(MarkAll(c, dropped[..|dropped| - 1]), dropped[|dropped| - 1])
  }

  lemma MarkFlag(cl: Class, c: Completeness, e: MapEdge)
    ensures Flag(cl, Mark(c, e)) <==> Flag(cl, c) && !Touches(cl, e)
  {
  }

  lemma {:induction false} MarkedFlag(cl: Class, c: Completeness, dropped: seq<MapEdge>)
    ensures Flag(cl, MarkAll(c, dropped)) <==> Flag(cl, c) && forall e :: e in dropped ==> !Touches(cl, e)
  {
    if dropped != [] {
      var init, last := dropped[..|dropped| - 1], dropped[|dropped| - 1];
      assert dropped == init + [last];
      MarkedFlag(cl, c, init);
      MarkFlag(cl, MarkAll(c, init), last);
      assert last in dropped && forall e :: e in dropped <==> e in init || e == last;
    }
  }

  /** Every row is kept or dropped. */
  ghost predicate Parts(before: seq<MapEdge>, after: seq<MapEdge>, dropped: seq<MapEdge>) {
    && (forall e :: e in before <==> e in after || e in dropped)
    && (forall e :: e in after ==> e !in dropped)
  }

  /** Dropping rows keeps a flag honest, as long as every row it is marked for is a member. */
  lemma DropStaysHonest(cl: Class, members: set<MapEdge>, before: seq<MapEdge>, after: seq<MapEdge>, dropped: seq<MapEdge>,
                        c: Completeness, base: bool)
    requires Honest(members, before, Flag(cl, c), base) && Parts(before, after, dropped)
    requires forall e :: e in members ==> Touches(cl, e)
    requires Flag(cl, c) ==> forall e :: e in before && Touches(cl, e) ==> e in members
    ensures Honest(members, after, Flag(cl, MarkAll(c, dropped)), base)
  {
    MarkedFlag(cl, c, dropped);
    if Flag(cl, c) {
      assert HasAll(members, after) <==> forall e :: e in dropped ==> !Touches(cl, e);
    }
  }

  lemma MembersTouch(g: View, key: Key, k: Claim, cl: Class)
    requires GoodLeads(g, key, k.leads)
    ensures forall e :: e in Members(g, key, k, cl) ==> Touches(cl, e)
  {
    CallersAreRelations(g, key);
  }

  lemma TouchedAreMembers(g: View, key: Key, k: Claim, cl: Class, rows: seq<MapEdge>)
    requires Proper(g, key, k.leads, rows) && !k.thinned
    ensures forall e :: e in rows && Touches(cl, e) ==> e in Members(g, key, k, cl)
  {
    CallersAreRelations(g, key);
  }

  /** Every relation the query asks for is still represented by some row of its site. */
  ghost predicate Represented(v: MapView, key: Key, intents: set<Intent>, rows: seq<MapEdge>) {
    forall e :: e in Relations(v.graph, key) && Rank(intents, e).Some? ==> HasSite(rows, SiteOf(e))
  }

  // ----- Pruning

  /** The rows of `s` that pass are kept; the others are dropped and marked. */
  ghost predicate Dropping(s: seq<MapEdge>, p: MapEdge -> bool, before: Completeness, kept: seq<MapEdge>, c: Completeness) {
    kept == Filter(s, p) && c == MarkAll(before, Filter(s, Not(p)))
  }

  lemma MarkMore(c: Completeness, dropped: seq<MapEdge>, e: MapEdge)
    ensures MarkAll(c, dropped + [e]) == Mark(MarkAll(c, dropped), e)
  {
  }

  method KeepOrMark(ghost s: seq<MapEdge>, ghost p: MapEdge -> bool, ghost before: Completeness,
                    kept: seq<MapEdge>, c: Completeness, e: MapEdge, keep: bool)
    returns (keptNow: seq<MapEdge>, cNow: Completeness)
    requires Dropping(s, p, before, kept, c) && keep == p(e)
    ensures Dropping(s + [e], p, before, keptNow, cNow)
    ensures keptNow == if keep then kept + [e] else kept
  {
    assert (s + [e])[..|s|] == s;
    keptNow, cNow := kept, c;
    if keep {
      keptNow := kept + [e];
      assert Filter(s + [e], Not(p)) == Filter(s, Not(p));
    } else {
      cNow := Mark(c, e);
      MarkMore(before, Filter(s, Not(p)), e);
      assert Filter(s + [e], Not(p)) == Filter(s, Not(p)) + [e];
      assert Filter(s + [e], p) == Filter(s, p);
    }
  }

  method Prune(v: MapView, key: Key, raw: seq<MapEdge>, before: Completeness) returns (rows: seq<MapEdge>,
               c: Completeness, pruned: bool)
    ensures Dropping(raw, Fitting(v, key), before, rows, c)
    ensures !pruned <==> AllFit(v, key, raw)
  {
    rows, c, pruned := [], before, false;
    for i := 0 to |raw|
      invariant Dropping(raw[..i], Fitting(v, key), before, rows, c)
      invariant !pruned <==> AllFit(v, key, raw[..i])
    {
      assert raw[..i + 1] == raw[..i] + [raw[i]];
      var fits := Fits(v, key, raw[i]);
      rows, c := KeepOrMark(raw[..i], Fitting(v, key), before, rows, c, raw[i], fits);
      pruned := pruned || !fits;
    }
    assert raw[..|raw|] == raw;
  }

  // ----- One row a site

  /** Members are never the ones deduplication drops. */
  ghost predicate ComeFirst(members: set<MapEdge>, rows: seq<MapEdge>) {
    forall d, x | d in rows && x in rows && d in members && x != d && SiteOf(x) == SiteOf(d) :: Precedes(rows, d, x)
  }

  lemma FirstAreKept(members: set<MapEdge>, s: seq<MapEdge>)
    requires NoDups(s) && ComeFirst(members, s)
    ensures forall d :: d in members ==> (d in s <==> d in FirstRows(s))
  {
    FirstRowsAre(s);
    forall d | d in members && d in s ensures d in FirstRows(s) {
      var i :| 0 <= i < |s| && s[i] == d;
      forall j | 0 <= j < i ensures SiteOf(s[j]) != SiteOf(s[i]) {
        if SiteOf(s[j]) == SiteOf(s[i]) {
          PrecedesMeansBefore(s, i, j);
        }
      }
      assert FirstOfSite(s, i);
    }
  }

  /** Why a test's own facet of tests is not followed: when callees are asked for as well, each of its
      calls displaces the `tested_by` relation that mirrors it. */
  lemma TestRowsClash(g: View, key: Key, intents: set<Intent>, y: MapEdge)
    requires Consistent(g) && IsTest(g, key) && AsksForTests(intents) && Callees in intents
    requires y in Relations(g, key) && IsCall(y, Outgoing)
    ensures var x := y.(direction := Incoming, kind := Structural(TestedBy));
            x in TestedBySites(g, key) && RankedBefore(intents, y, x) && FirstRows([y, x]) == [y]
  {
    MirrorIsRelation(g, key, y);
    FirstOfTwo(y, y.(direction := Incoming, kind := Structural(TestedBy)));
  }

  lemma FirstOfTwo(y: MapEdge, x: MapEdge)
    requires SiteOf(x) == SiteOf(y)
    ensures FirstRows([y, x]) == [y]
  {
    FirstRowsMore([], y);
    FirstRowsMore([y], x);
    assert [] + [y] == [y] && [y] + [x] == [y, x];
  }

  lemma MirrorIsRelation(g: View, key: Key, y: MapEdge)
    requires Consistent(g) && IsTest(g, key) && y in Relations(g, key) && IsCall(y, Outgoing)
    ensures y.(direction := Incoming, kind := Structural(TestedBy)) in TestedBySites(g, key)
  {
    var e, t := RowOf(g, key, y);
    var s :| s in g.symbols && s.symbol.key == key && s.symbol.isTest;
    assert IsTestCall(e, s) && Mirror(e, s) in g.edges;
    assert Relates(g, key, Incoming, Mirror(e, s), t);
    assert SeenFrom(Incoming, Mirror(e, s), t) == y.(direction := Incoming, kind := Structural(TestedBy));
  }

  // ----- Stage one: the query, pruned, and the test leads

  /** Every relation the query asks for is there. */
  ghost predicate Contained(v: MapView, key: Key, intents: set<Intent>, rows: seq<MapEdge>) {
    forall e :: e in Relations(v.graph, key) && Rank(intents, e).Some? ==> e in rows
  }

  /** An incoming call from a test is there when its `tested_by` relation is. */
  ghost predicate Paired(v: MapView, key: Key, rows: seq<MapEdge>) {
    Within(v, key) ==>
      forall x :: x in Relations(v.graph, key) && IncomingTestCall(x) && Partner(x) in rows ==> x in rows
  }

  /** What holds of the rows between stages; `cut` says that something was cut off. */
  ghost predicate Stage(v: MapView, key: Key, intents: set<Intent>, k: Claim, rows: seq<MapEdge>, c: Completeness, cut: bool) {
    && Proper(v.graph, key, k.leads, rows) && GoodLeads(v.graph, key, k.leads) && !k.thinned
    && AllHonest(v, key, intents, k, rows, c)
    && (AsksForTests(intents) ==> Paired(v, key, rows))
    && (!cut ==> Contained(v, key, intents, rows))
  }

  ghost predicate SelectionOrder(rows: seq<MapEdge>) {
    forall a, b :: a in rows && b in rows && SelectedBefore(a, b) ==> Precedes(rows, a, b)
  }

  const ALL_COMPLETE := Completeness(true, true, true, true)
  const NONE_COMPLETE := Completeness(false, false, false, false)
  const NOTHING_YET := Claim({}, true, false)

  /** What the query returns. */
  ghost predicate Selected(v: MapView, key: Key, raw: seq<MapEdge>, c: Completeness) {
    && NoDups(raw) && (forall e :: e in raw ==> e in Relations(v.graph, key) && e.kind.Structural?)
    && (Within(v, key) ==> HasAll(Relations(v.graph, key), raw))
    && (|raw| <= MAX_PROJECT_MAP_EDGE_CANDIDATES <==> Within(v, key))
    && c == (if Within(v, key) then ALL_COMPLETE else NONE_COMPLETE)
    && SelectionOrder(raw)
  }

  lemma PrefixKeepsSelection(all: seq<MapEdge>, n: nat)
    requires NoDups(all) && SelectionOrder(all) && n <= |all|
    ensures NoDups(all[..n]) && SelectionOrder(all[..n])
  {
    forall a, b | a in all[..n] && b in all[..n] && SelectedBefore(a, b) ensures Precedes(all[..n], a, b) {
      assert a in all && b in all;
      PrecedesInPrefix(all, n, a, b);
    }
  }

  lemma RelationsAreStructural(g: View, key: Key)
    ensures forall e :: e in Relations(g, key) ==> e.kind.Structural?
  {
    forall e | e in Relations(g, key) ensures e.kind.Structural? {
      var direction, s := RowOf(g, key, e);
    }
  }

  lemma PrefixIsSelected(v: MapView, key: Key, all: seq<MapEdge>, raw: seq<MapEdge>, c: Completeness)
    requires Selects(Relations(v.graph, key), all)
    requires raw == if |all| > MAX_PROJECT_MAP_EDGE_CANDIDATES + 1 then all[..MAX_PROJECT_MAP_EDGE_CANDIDATES + 1] else all
    requires c == if |raw| > MAX_PROJECT_MAP_EDGE_CANDIDATES then NONE_COMPLETE else ALL_COMPLETE
    ensures Selected(v, key, raw, c)
  {
    RelationsAreStructural(v.graph, key);
    assert all[..|raw|] == raw;
    PrefixKeepsSelection(all, |raw|);
    assert forall e :: e in raw ==> e in all;
  }

  method Select(v: MapView, key: Key) returns (raw: seq<MapEdge>, c: Completeness)
    requires Ordered(v)
    ensures Selected(v, key, raw, c) && raw == First(v.rows(Relations(v.graph, key)), 513)
  {
    var relations := Relations(v.graph, key);
    var all := v.rows(relations);
    assert Selects(relations, all);
    var limit := MAX_PROJECT_MAP_EDGE_CANDIDATES + 1;
    raw := if |all| > limit then all[..limit] else all;
    c := if |raw| > MAX_PROJECT_MAP_EDGE_CANDIDATES then NONE_COMPLETE else ALL_COMPLETE;
    PrefixIsSelected(v, key, all, raw, c);
  }

  lemma SelectedIsHonest(v: MapView, key: Key, cl: Class, raw: seq<MapEdge>, c: Completeness)
    requires Selected(v, key, raw, c)
    ensures HonestFor(v, key, NOTHING_YET, cl, raw, c)
  {
    CallersAreRelations(v.graph, key);
  }

  /** The leads as rows, in some order. */
  method LeadRows(leads: map<Key, Lead>) returns (rows: seq<MapEdge>)
    ensures NoDups(rows) && forall e :: e in rows <==> exists t :: t in leads && e == LeadRow(t, leads[t])
  {
    rows := [];
    var todo := leads.Keys;
    while todo != {}
      invariant todo <= leads.Keys && NoDups(rows)
      invariant forall e :: e in rows <==> exists t :: t in leads && t !in todo && e == LeadRow(t, leads[t])
      decreases |todo|
    {
      var t :| t in todo;
      assert LeadRow(t, leads[t]) !in rows;
      rows := rows + [LeadRow(t, leads[t])];
      todo := todo - {t};
    }
  }

  lemma PruneIsHonest(v: MapView, key: Key, cl: Class, raw: seq<MapEdge>, c: Completeness, rows: seq<MapEdge>, dropped: seq<MapEdge>)
    requires Selected(v, key, raw, c)
    requires rows == Filter(raw, Fitting(v, key)) && dropped == Filter(raw, Not(Fitting(v, key)))
    ensures HonestFor(v, key, NOTHING_YET, cl, rows, MarkAll(c, dropped))
  {
    FilterKeeps(raw, Fitting(v, key));
    FilterKeeps(raw, Not(Fitting(v, key)));
    SelectedIsHonest(v, key, cl, raw, c);
    MembersTouch(v.graph, key, NOTHING_YET, cl);
    TouchedAreMembers(v.graph, key, NOTHING_YET, cl, raw);
    DropStaysHonest(cl, Members(v.graph, key, NOTHING_YET, cl), raw, rows, dropped, c, Base(v, key, NOTHING_YET, cl));
  }

  lemma PartnerFits(v: MapView, key: Key, raw: seq<MapEdge>, x: MapEdge)
    requires x in raw && IncomingTestCall(x) && Partner(x) in Filter(raw, Fitting(v, key))
    ensures x in Filter(raw, Fitting(v, key))
  {
    FilterKeeps(raw, Fitting(v, key));
    assert SiteOf(Partner(x)) == SiteOf(x) && Fits(v, key, Partner(x));
  }

  lemma PrunePairs(v: MapView, key: Key, raw: seq<MapEdge>, c: Completeness)
    requires Consistent(v.graph) && Selected(v, key, raw, c)
    ensures Paired(v, key, Filter(raw, Fitting(v, key)))
  {
    var rows := Filter(raw, Fitting(v, key));
    forall x | x in Relations(v.graph, key) && IncomingTestCall(x) && Partner(x) in rows && Within(v, key) ensures x in rows {
      PartnerFits(v, key, raw, x);
    }
  }

  lemma FilterKeepsSelection(raw: seq<MapEdge>, p: MapEdge -> bool)
    requires SelectionOrder(raw)
    ensures SelectionOrder(Filter(raw, p))
  {
    FilterKeeps(raw, p);
    forall a, b | a in Filter(raw, p) && b in Filter(raw, p) && SelectedBefore(a, b) ensures Precedes(Filter(raw, p), a, b) {
      FilterKeepsOrder(raw, p, a, b);
    }
  }

  lemma Unpruned(v: MapView, key: Key, raw: seq<MapEdge>, rows: seq<MapEdge>)
    requires rows == Filter(raw, Fitting(v, key)) && AllFit(v, key, raw)
    ensures rows == raw
  {
    FilterAll(raw, Fitting(v, key));
  }

  lemma Unmarked(v: MapView, key: Key, cl: Class, raw: seq<MapEdge>, before: Completeness, rows: seq<MapEdge>, c: Completeness)
    requires Selected(v, key, raw, before) && Dropping(raw, Fitting(v, key), before, rows, c)
    ensures HonestFor(v, key, NOTHING_YET, cl, rows, c)
  {
    PruneIsHonest(v, key, cl, raw, before, rows, Filter(raw, Not(Fitting(v, key))));
  }

  lemma PrunedIsProper(v: MapView, key: Key, raw: seq<MapEdge>, before: Completeness, rows: seq<MapEdge>)
    requires Selected(v, key, raw, before) && rows == Filter(raw, Fitting(v, key))
    ensures Proper(v.graph, key, {}, rows) && SelectionOrder(rows) && forall e :: e in rows ==> e.kind.Structural?
  {
    FilterKeeps(raw, Fitting(v, key));
    FilterKeepsSelection(raw, Fitting(v, key));
  }

  lemma PrunedIsContained(v: MapView, key: Key, intents: set<Intent>, raw: seq<MapEdge>, before: Completeness, rows: seq<MapEdge>)
    requires Selected(v, key, raw, before) && rows == Filter(raw, Fitting(v, key))
    requires AllFit(v, key, raw) && |rows| <= MAX_PROJECT_MAP_EDGE_CANDIDATES
    ensures Contained(v, key, intents, rows)
  {
    Unpruned(v, key, raw, rows);
  }

  lemma PruneKeepsStage(v: MapView, key: Key, intents: set<Intent>, raw: seq<MapEdge>, before: Completeness,
                        rows: seq<MapEdge>, c: Completeness, cut: bool)
    requires Consistent(v.graph) && Selected(v, key, raw, before) && Dropping(raw, Fitting(v, key), before, rows, c)
    requires cut <==> |rows| > MAX_PROJECT_MAP_EDGE_CANDIDATES || !AllFit(v, key, raw)
    ensures Stage(v, key, intents, NOTHING_YET, rows, c, cut) && SelectionOrder(rows)
    ensures forall e :: e in rows ==> e.kind.Structural?
  {
    PrunedIsProper(v, key, raw, before, rows);
    PrunePairs(v, key, raw, before);
    forall cl ensures HonestFor(v, key, NOTHING_YET, cl, rows, c) {
      Unmarked(v, key, cl, raw, before, rows, c);
    }
    if !cut {
      PrunedIsContained(v, key, intents, raw, before, rows);
    }
  }

  /** What the search for test leads contributes. */
  ghost predicate Searched(g: View, key: Key, includeTestLeads: bool, k: Claim, lost: bool) {
    && GoodLeads(g, key, k.leads)
    && (k.whole <==> includeTestLeads && Unbounded(g, key))
    && (lost ==> SomeChanged(g, key))
    && (k.whole && !lost ==> LeadsShow(g, key, k.leads))
  }

  ghost predicate LeadsShow(g: View, key: Key, leads: set<MapEdge>) {
    forall t :: ReachesTarget(g, key, t) ==> LeadFor(leads, t)
  }

  ghost predicate LeadFor(leads: set<MapEdge>, t: Key) {
    exists e :: e in leads && e.related == t
  }

  lemma LeadSetIsGood(g: View, key: Key, leads: map<Key, Lead>)
    requires forall t :: t in leads ==> GoodLead(g, key, t, leads[t])
    ensures GoodLeads(g, key, LeadSet(leads))
    ensures forall t :: t in leads ==> LeadFor(LeadSet(leads), t)
  {
    forall e | e in LeadSet(leads) ensures IsLeadRow(g, key, e) && e.related in leads && e == LeadRow(e.related, leads[e.related]) {
      assert GoodLead(g, key, e.related, leads[e.related]);
    }
    forall t | t in leads ensures LeadFor(LeadSet(leads), t) {
      assert LeadRow(t, leads[t]) in LeadSet(leads) && LeadRow(t, leads[t]).related == t;
    }
  }

  lemma AppendKeepsStage(v: MapView, key: Key, intents: set<Intent>, rows: seq<MapEdge>, leads: seq<MapEdge>, all: seq<MapEdge>, k: Claim,
                         c: Completeness, cut: bool, cutNow: bool)
    requires Stage(v, key, intents, NOTHING_YET, rows, c, cut) && SelectionOrder(rows) && (cut ==> cutNow)
    requires all == rows + leads && forall e :: e in rows ==> e.kind.Structural?
    requires NoDups(leads) && !k.thinned && (forall e :: e in leads <==> e in k.leads) && GoodLeads(v.graph, key, k.leads)
    ensures Stage(v, key, intents, k, all, c.(behavioralTestLeads := c.behavioralTestLeads && k.whole), cutNow) && SelectionOrder(all)
  {
    var now := c.(behavioralTestLeads := c.behavioralTestLeads && k.whole);
    assert forall e :: e in all <==> e in rows || e in leads;
    assert forall e :: e in leads ==> e in k.leads && IsLeadRow(v.graph, key, e) && !e.kind.Structural?;
    NoDupsOfSum(rows, leads);
    forall cl | Follows(v.graph, key, intents, cl) ensures HonestFor(v, key, k, cl, all, now) {
      AppendIsHonest(v, key, cl, rows, leads, k, c);
    }
    forall a, b | a in all && b in all && SelectedBefore(a, b) ensures Precedes(all, a, b) {
      assert a in rows && b in rows;
      PrecedesInSum(rows, leads, a, b);
    }
  }

  lemma AppendIsHonest(v: MapView, key: Key, cl: Class, rows: seq<MapEdge>, leads: seq<MapEdge>, k: Claim, c: Completeness)
    requires HonestFor(v, key, NOTHING_YET, cl, rows, c)
    requires !k.thinned && (forall e :: e in leads <==> e in k.leads) && GoodLeads(v.graph, key, k.leads)
    ensures HonestFor(v, key, k, cl, rows + leads, c.(behavioralTestLeads := c.behavioralTestLeads && k.whole))
  {
    CallersAreRelations(v.graph, key);
    var members := Members(v.graph, key, k, cl);
    assert cl != LeadClass ==> forall d :: d in members ==> d !in leads;
    assert cl != LeadClass ==> (HasAll(members, rows + leads) <==> HasAll(members, rows));
  }

  /** Where the rows come from: the query, and the search with the callers it looked at. */
  datatype Origin = Origin(raw: seq<MapEdge>, more: seq<MapEdge>, found: map<Key, Lead>, walked: seq<Look>, whole: bool, lost: bool)

  predicate Searches(intents: set<Intent>, includeTestLeads: bool) {
    includeTestLeads && Tests in intents
  }

  /** The test leads are those of the search, if there was one. */
  ghost predicate Sought(g: View, key: Key, searches: bool, o: Origin) {
    if searches then Walk(g, key, o.walked) && FarEnough(g, key, o.walked) && LeadsOf(g, o.found, o.walked) else o.found == map[]
  }

  ghost function Fitted(v: MapView, key: Key, raw: seq<MapEdge>): Completeness {
    MarkAll(if Within(v, key) then ALL_COMPLETE else NONE_COMPLETE, Filter(raw, Not(Fitting(v, key))))
  }

  /** Rows are cut off by the query, because their call does not fit, or by a bound of the search. */
  ghost predicate CutEarly(v: MapView, key: Key, searches: bool, whole: bool, raw: seq<MapEdge>) {
    |Filter(raw, Fitting(v, key))| > 512 || !AllFit(v, key, raw) || (searches && !whole)
  }

  ghost predicate FromQuery(v: MapView, key: Key, intents: set<Intent>, rows: seq<MapEdge>, c: Completeness, pruned: bool, raw: seq<MapEdge>) {
    && raw == First(v.rows(Relations(v.graph, key)), 513) && (forall e :: e in raw ==> e.kind.Structural?)
    && rows == Filter(raw, Fitting(v, key)) && (pruned <==> !AllFit(v, key, raw)) && c == Fitted(v, key, raw)
    && Stage(v, key, intents, NOTHING_YET, rows, c, |rows| > 512 || pruned) && SelectionOrder(rows)
    && forall e :: e in rows ==> e.kind.Structural?
  }

  /** The rows of the query that fit. */
  method Relate(v: MapView, key: Key, ghost intents: set<Intent>)
    returns (rows: seq<MapEdge>, c: Completeness, pruned: bool, ghost raw: seq<MapEdge>)
    requires Ordered(v)
    ensures FromQuery(v, key, intents, rows, c, pruned, raw)
  {
    var all, before := Select(v, key);
    raw := all;
    rows, c, pruned := Prune(v, key, all, before);
    PruneKeepsStage(v, key, intents, raw, before, rows, c, |rows| > 512 || pruned);
  }

  /** The rows of the search. */
  method Seek(v: MapView, key: Key) returns (more: seq<MapEdge>, cut: bool, testsCut: bool, stale: bool, ghost k: Claim,
              ghost found: map<Key, Lead>, ghost walked: seq<Look>)
    requires Ordered(v)
    ensures NoDups(more) && k == Claim(LeadSet(found), !cut, false) && forall e :: e in more <==> e in k.leads
    ensures testsCut == cut
    ensures Walk(v.graph, key, walked) && FarEnough(v.graph, key, walked) && LeadsOf(v.graph, found, walked)
    ensures Searched(v.graph, key, true, k, stale)
  {
    var leads;
    leads, cut, testsCut, stale, walked := TransitiveTestLeads(v.graph, key);
    found := leads;
    more := LeadRows(leads);
    LeadSetIsGood(v.graph, key, leads);
    k := Claim(LeadSet(leads), !cut, false);
  }

  /** What the rows gathered, the flags and the leads come from. */
  ghost predicate FromOrigin(v: MapView, key: Key, intents: set<Intent>, includeTestLeads: bool, rows: seq<MapEdge>,
                             c: Completeness, cut: bool, k: Claim, o: Origin) {
    && o.raw == First(v.rows(Relations(v.graph, key)), 513) && (forall e :: e in o.raw ==> e.kind.Structural?)
    && rows == Kept(v, key, o.raw, o.more) && (forall e :: e in o.more <==> e in LeadSet(o.found)) && k.leads == LeadSet(o.found)
    && Sought(v.graph, key, Searches(intents, includeTestLeads), o) && !k.thinned
    && c == Fitted(v, key, o.raw).(behavioralTestLeads := Fitted(v, key, o.raw).behavioralTestLeads && k.whole)
    && (cut <==> CutEarly(v, key, Searches(intents, includeTestLeads), k.whole, o.raw))
  }

  lemma Originates(v: MapView, key: Key, intents: set<Intent>, includeTestLeads: bool, k: Claim, o: Origin, rows: seq<MapEdge>)
    requires Sought(v.graph, key, Searches(intents, includeTestLeads), o) && k.leads == LeadSet(o.found) && !k.thinned
    requires o.raw == First(v.rows(Relations(v.graph, key)), 513) && forall e :: e in o.raw ==> e.kind.Structural?
    requires rows == Kept(v, key, o.raw, o.more) && forall e :: e in o.more <==> e in k.leads
    ensures var c := Fitted(v, key, o.raw);
            FromOrigin(v, key, intents, includeTestLeads, rows, c.(behavioralTestLeads := c.behavioralTestLeads && k.whole),
                       CutEarly(v, key, Searches(intents, includeTestLeads), k.whole, o.raw), k, o)
  {
  }

  /** With the leads of the search. */
  method AddLeads(v: MapView, key: Key, intents: set<Intent>, related: seq<MapEdge>, before: Completeness, pruned: bool,
                  ghost raw: seq<MapEdge>)
    returns (rows: seq<MapEdge>, c: Completeness, cut: bool, testsCut: bool, stale: bool, ghost k: Claim, ghost o: Origin)
    requires Ordered(v) && Tests in intents && FromQuery(v, key, intents, related, before, pruned, raw)
    ensures o.raw == raw && FromOrigin(v, key, intents, true, rows, c, cut, k, o) && (testsCut <==> !k.whole)
    ensures Stage(v, key, intents, k, rows, c, cut) && SelectionOrder(rows)
    ensures Searched(v.graph, key, true, k, stale)
  {
    var more, searchCut;
    ghost var found, walked;
    more, searchCut, testsCut, stale, k, found, walked := Seek(v, key);
    cut := |related| > MAX_PROJECT_MAP_EDGE_CANDIDATES || pruned;
    AppendKeepsStage(v, key, intents, related, more, related + more, k, before, cut, cut || searchCut);
    o := Origin(raw, more, found, walked, k.whole, stale);
    Originates(v, key, intents, true, k, o, related + more);
    cut := cut || searchCut;
    c := before.(behavioralTestLeads := before.behavioralTestLeads && !testsCut);
    rows := related + more;
  }

  lemma WithoutLeads(v: MapView, key: Key, intents: set<Intent>, includeTestLeads: bool, related: seq<MapEdge>, c: Completeness,
                     pruned: bool, raw: seq<MapEdge>, k: Claim)
    requires !Searches(intents, includeTestLeads) && FromQuery(v, key, intents, related, c, pruned, raw)
    requires k == Claim({}, Tests in intents ==> includeTestLeads, false)
    ensures var (o, now) := (Origin(raw, [], map[], [], k.whole, false), c.(behavioralTestLeads := c.behavioralTestLeads && k.whole));
            var cut := |related| > 512 || pruned;
            FromOrigin(v, key, intents, includeTestLeads, related, now, cut, k, o) && Stage(v, key, intents, k, related, now, cut)
  {
    assert related == related + [];
    AppendKeepsStage(v, key, intents, related, [], related, k, c, |related| > 512 || pruned, |related| > 512 || pruned);
    Originates(v, key, intents, includeTestLeads, k, Origin(raw, [], map[], [], k.whole, false), related);
  }

  method Gather(v: MapView, key: Key, intents: set<Intent>, includeTestLeads: bool)
    returns (rows: seq<MapEdge>, c: Completeness, cut: bool, testLeadsTruncated: bool, stale: bool, ghost k: Claim, ghost o: Origin)
    requires Ordered(v)
    ensures FromOrigin(v, key, intents, includeTestLeads, rows, c, cut, k, o)
    ensures testLeadsTruncated <==> Tests in intents && (!AllFit(v, key, o.raw) || !k.whole)
    ensures Stage(v, key, intents, k, rows, c, cut) && SelectionOrder(rows)
    ensures Tests in intents ==> Searched(v.graph, key, includeTestLeads, k, stale)
    ensures (stale ==> Searches(intents, includeTestLeads)) && (Tests !in intents ==> k.whole)
  {
    var pruned;
    ghost var raw;
    rows, c, pruned, raw := Relate(v, key, intents);
    testLeadsTruncated := Tests in intents && (!includeTestLeads || pruned);
    if includeTestLeads && Tests in intents {
      var testsCut;
      rows, c, cut, testsCut, stale, k, o := AddLeads(v, key, intents, rows, c, pruned, raw);
      testLeadsTruncated := testLeadsTruncated || testsCut;
    } else {
      cut, stale := |rows| > MAX_PROJECT_MAP_EDGE_CANDIDATES || pruned, false;
      k := Claim({}, Tests in intents ==> includeTestLeads, false);
      o := Origin(raw, [], map[], [], k.whole, false);
      WithoutLeads(v, key, intents, includeTestLeads, rows, c, pruned, raw, k);
      if Tests in intents {
        c := c.(behavioralTestLeads := false);
      }
    }
  }

  // ----- Stage two: what was asked for, in order, one row a site

  /** Nothing followed is left out by what was asked for. */
  lemma MembersAreAsked(g: View, key: Key, intents: set<Intent>, k: Claim, cl: Class)
    requires Follows(g, key, intents, cl) && GoodLeads(g, key, k.leads)
    ensures forall d :: d in Members(g, key, k, cl) ==> Rank(intents, d).Some?
  {
    MembersTouch(g, key, k, cl);
  }

  lemma AskedIsHonest(v: MapView, key: Key, intents: set<Intent>, k: Claim, cl: Class, rows: seq<MapEdge>, c: Completeness)
    requires Follows(v.graph, key, intents, cl) && GoodLeads(v.graph, key, k.leads) && HonestFor(v, key, k, cl, rows, c)
    ensures HonestFor(v, key, k, cl, Filter(rows, Asked(intents)), c)
  {
    FilterKeeps(rows, Asked(intents));
    MembersAreAsked(v.graph, key, intents, k, cl);
    var members := Members(v.graph, key, k, cl);
    assert HasAll(members, Filter(rows, Asked(intents))) <==> HasAll(members, rows);
  }

  lemma AskedPairs(v: MapView, key: Key, intents: set<Intent>, rows: seq<MapEdge>)
    requires AsksForTests(intents) && Paired(v, key, rows)
    ensures Paired(v, key, Filter(rows, Asked(intents)))
  {
    FilterKeeps(rows, Asked(intents));
    assert forall x :: IncomingTestCall(x) ==> Rank(intents, x).Some?;
  }

  lemma AskedKeepsStage(v: MapView, key: Key, intents: set<Intent>, k: Claim, rows: seq<MapEdge>, c: Completeness, cut: bool)
    requires Stage(v, key, intents, k, rows, c, cut) && SelectionOrder(rows)
    ensures Stage(v, key, intents, k, Filter(rows, Asked(intents)), c, cut) && SelectionOrder(Filter(rows, Asked(intents)))
  {
    FilterKeeps(rows, Asked(intents));
    FilterKeepsSelection(rows, Asked(intents));
    forall cl | Follows(v.graph, key, intents, cl) ensures HonestFor(v, key, k, cl, Filter(rows, Asked(intents)), c) {
      AskedIsHonest(v, key, intents, k, cl, rows, c);
    }
    if AsksForTests(intents) {
      AskedPairs(v, key, intents, rows);
    }
  }

  lemma SortIsHonest(v: MapView, key: Key, k: Claim, cl: Class, rows: seq<MapEdge>, sorted: seq<MapEdge>, c: Completeness)
    requires HonestFor(v, key, k, cl, rows, c) && forall e :: e in sorted <==> e in rows
    ensures HonestFor(v, key, k, cl, sorted, c)
  {
    assert HasAll(Members(v.graph, key, k, cl), sorted) <==> HasAll(Members(v.graph, key, k, cl), rows);
  }

  lemma SortKeepsStage(v: MapView, key: Key, intents: set<Intent>, k: Claim, rows: seq<MapEdge>, sorted: seq<MapEdge>,
                       c: Completeness, cut: bool)
    requires Stage(v, key, intents, k, rows, c, cut) && multiset(sorted) == multiset(rows)
    ensures Stage(v, key, intents, k, sorted, c, cut)
  {
    PermutationHasNoDups(rows, sorted);
    forall cl | Follows(v.graph, key, intents, cl) ensures HonestFor(v, key, k, cl, sorted, c) {
      SortIsHonest(v, key, k, cl, rows, sorted, c);
    }
  }

  /** The members whose rows must survive deduplication. */
  function Core(g: View, key: Key, k: Claim, cl: Class): set<MapEdge> {
    Members(g, key, k.(thinned := true), cl)
  }

  lemma CoreOutranks(g: View, key: Key, intents: set<Intent>, k: Claim, cl: Class, d: MapEdge, x: MapEdge)
    requires Consistent(g) && Follows(g, key, intents, cl) && GoodLeads(g, key, k.leads)
    requires d in Core(g, key, k, cl) && x != d && SiteOf(x) == SiteOf(d) && Rank(intents, x).Some?
    requires if x.kind.Structural? then x in Relations(g, key) else x in k.leads
    ensures Outranks(intents, d, x)
  {
    CallersAreRelations(g, key);
    assert x.kind.Structural? || IsLeadRow(g, key, x);
    if x.kind.Structural? {
      match cl {
        case CallerClass => CallerComesFirst(g, key, intents, d, x);
        case TestClass => TestedByComesFirst(g, key, intents, d, x);
        case LeadClass => LeadsHaveOwnSites(g, key, intents, d, x);
      }
    }
  }

  lemma SortedComeFirst(v: MapView, key: Key, intents: set<Intent>, k: Claim, cl: Class, rows: seq<MapEdge>, sorted: seq<MapEdge>)
    requires Consistent(v.graph) && Follows(v.graph, key, intents, cl) && GoodLeads(v.graph, key, k.leads)
    requires Proper(v.graph, key, k.leads, rows) && SelectionOrder(rows)
    requires Sorts(intents, rows, sorted) && forall e :: e in rows ==> Rank(intents, e).Some?
    ensures ComeFirst(Core(v.graph, key, k, cl), sorted)
  {
    PermutationHasNoDups(rows, sorted);
    var core := Core(v.graph, key, k, cl);
    forall d, x | d in sorted && x in sorted && d in core && x != d && SiteOf(x) == SiteOf(d) ensures Precedes(sorted, d, x) {
      CoreOutranks(v.graph, key, intents, k, cl, d, x);
      assert SelectedBefore(d, x) ==> Precedes(rows, d, x);
    }
  }

  /** When tests are asked for, leads come after all relations. */
  ghost predicate LeadsLast(rows: seq<MapEdge>) {
    forall x, l :: x in rows && l in rows && x.kind.Structural? && !l.kind.Structural? ==> Precedes(rows, x, l)
  }

  lemma SortedLeadsLast(intents: set<Intent>, rows: seq<MapEdge>, sorted: seq<MapEdge>)
    requires AsksForTests(intents) && Sorts(intents, rows, sorted) && forall e :: e in rows ==> Rank(intents, e).Some?
    ensures LeadsLast(sorted)
  {
    SameMembers(rows, sorted);
    forall x, l | x in sorted && l in sorted && x.kind.Structural? && !l.kind.Structural? ensures Precedes(sorted, x, l) {
      assert RankedBefore(intents, x, l);
    }
  }

  /** So the cap spares relations unless the query was cut off already. */
  lemma CapSparesRelations(v: MapView, key: Key, leads: set<MapEdge>, rows: seq<MapEdge>, x: MapEdge)
    requires Proper(v.graph, key, leads, rows) && LeadsLast(rows) && Within(v, key)
    requires |rows| > MAX_PROJECT_MAP_EDGE_CANDIDATES && x in rows && x.kind.Structural?
    ensures x in rows[..MAX_PROJECT_MAP_EDGE_CANDIDATES]
  {
    var i :| 0 <= i < |rows| && rows[i] == x;
    forall j | 0 <= j <= i ensures rows[j] in Relations(v.graph, key) {
      assert rows[j] in rows;
      if !rows[j].kind.Structural? {
        PrecedesMeansBefore(rows, i, j);
      }
    }
    var upTo := rows[..i + 1];
    SizeOfNoDups(upTo);
    assert (set e | e in upTo) <= Relations(v.graph, key);
    SubsetSize((set e | e in upTo), Relations(v.graph, key));
    assert rows[..MAX_PROJECT_MAP_EDGE_CANDIDATES][i] == x;
  }

  method MarkRest(c: Completeness, rest: seq<MapEdge>) returns (marked: Completeness)
    ensures marked == MarkAll(c, rest)
  {
    marked := c;
    for i := 0 to |rest|
      invariant marked == MarkAll(c, rest[..i])
    {
      assert rest[..i + 1] == rest[..i] + [rest[i]];
      MarkMore(c, rest[..i], rest[i]);
      marked := Mark(marked, rest[i]);
    }
    assert rest[..|rest|] == rest;
  }

  /** What holds once the rows are sorted. */
  ghost predicate Arranged(v: MapView, key: Key, intents: set<Intent>, k: Claim, rows: seq<MapEdge>, c: Completeness, cut: bool) {
    && Stage(v, key, intents, k, rows, c, cut)
    && (forall e :: e in rows ==> Rank(intents, e).Some?)
    && (forall cl :: Follows(v.graph, key, intents, cl) ==> ComeFirst(Core(v.graph, key, k, cl), rows))
  }

  method Arrange(v: MapView, key: Key, intents: set<Intent>, gathered: seq<MapEdge>, ghost k: Claim, ghost c: Completeness, ghost cut: bool)
    returns (rows: seq<MapEdge>)
    requires Ordered(v) && Stage(v, key, intents, k, gathered, c, cut) && SelectionOrder(gathered)
    ensures rows == v.sort(intents, Filter(gathered, Asked(intents)))
    ensures Arranged(v, key, intents, k, rows, c, cut)
    ensures AsksForTests(intents) ==> LeadsLast(rows)
  {
    var asked := Filter(gathered, Asked(intents));
    AskedKeepsStage(v, key, intents, k, gathered, c, cut);
    FilterKeeps(gathered, Asked(intents));
    rows := v.sort(intents, asked);
    assert Sorts(intents, asked, rows);
    SortKeepsStage(v, key, intents, k, asked, rows, c, cut);
    PermutationHasNoDups(asked, rows);
    forall cl | Follows(v.graph, key, intents, cl) ensures ComeFirst(Core(v.graph, key, k, cl), rows) {
      SortedComeFirst(v, key, intents, k, cl, asked, rows);
    }
    if AsksForTests(intents) {
      SortedLeadsLast(intents, asked, rows);
    }
  }

  lemma PrefixParts(rows: seq<MapEdge>, n: nat)
    requires NoDups(rows) && n <= |rows|
    ensures Parts(rows, rows[..n], rows[n..]) && NoDups(rows[..n])
  {
    PartsAreDisjoint(rows, n);
    assert rows == rows[..n] + rows[n..];
  }

  lemma CapIsHonest(v: MapView, key: Key, k: Claim, cl: Class, rows: seq<MapEdge>, n: nat, c: Completeness)
    requires Proper(v.graph, key, k.leads, rows) && GoodLeads(v.graph, key, k.leads) && !k.thinned && n <= |rows|
    requires HonestFor(v, key, k, cl, rows, c)
    ensures HonestFor(v, key, k, cl, rows[..n], MarkAll(c, rows[n..]))
  {
    PrefixParts(rows, n);
    MembersTouch(v.graph, key, k, cl);
    TouchedAreMembers(v.graph, key, k, cl, rows);
    DropStaysHonest(cl, Members(v.graph, key, k, cl), rows, rows[..n], rows[n..], c, Base(v, key, k, cl));
  }

  lemma PrefixComeFirst(members: set<MapEdge>, rows: seq<MapEdge>, n: nat)
    requires NoDups(rows) && n <= |rows| && ComeFirst(members, rows)
    ensures ComeFirst(members, rows[..n])
  {
    forall d, x | d in rows[..n] && x in rows[..n] && d in members && x != d && SiteOf(x) == SiteOf(d)
      ensures Precedes(rows[..n], d, x)
    {
      assert d in rows && x in rows;
      PrecedesInPrefix(rows, n, d, x);
    }
  }

  lemma CapPairs(v: MapView, key: Key, intents: set<Intent>, k: Claim, rows: seq<MapEdge>)
    requires Consistent(v.graph) && Proper(v.graph, key, k.leads, rows) && LeadsLast(rows) && Paired(v, key, rows)
    requires |rows| > MAX_PROJECT_MAP_EDGE_CANDIDATES
    ensures Paired(v, key, rows[..MAX_PROJECT_MAP_EDGE_CANDIDATES])
  {
    var n := MAX_PROJECT_MAP_EDGE_CANDIDATES;
    if Within(v, key) {
      forall x | x in Relations(v.graph, key) && IncomingTestCall(x) && Partner(x) in rows[..n] ensures x in rows[..n] {
        assert Partner(x) in rows;
        CapSparesRelations(v, key, k.leads, rows, x);
      }
    }
  }

  lemma CapKeepsArranged(v: MapView, key: Key, intents: set<Intent>, k: Claim, rows: seq<MapEdge>, c: Completeness, cut: bool)
    requires Consistent(v.graph) && Arranged(v, key, intents, k, rows, c, cut) && |rows| > MAX_PROJECT_MAP_EDGE_CANDIDATES
    requires AsksForTests(intents) ==> LeadsLast(rows)
    ensures var n := MAX_PROJECT_MAP_EDGE_CANDIDATES;
            Arranged(v, key, intents, k, rows[..n], MarkAll(c, rows[n..]), true)
  {
    var n := MAX_PROJECT_MAP_EDGE_CANDIDATES;
    PrefixParts(rows, n);
    forall cl | Follows(v.graph, key, intents, cl)
      ensures HonestFor(v, key, k, cl, rows[..n], MarkAll(c, rows[n..])) && ComeFirst(Core(v.graph, key, k, cl), rows[..n])
    {
      CapIsHonest(v, key, k, cl, rows, n, c);
      PrefixComeFirst(Core(v.graph, key, k, cl), rows, n);
    }
    if AsksForTests(intents) {
      CapPairs(v, key, intents, k, rows);
    }
  }

  /** Deduplication never drops what a facet is about. */
  lemma DeduplicationIsHonest(v: MapView, key: Key, intents: set<Intent>, k: Claim, cl: Class, rows: seq<MapEdge>, c: Completeness)
    requires Consistent(v.graph) && Follows(v.graph, key, intents, cl) && !k.thinned
    requires Proper(v.graph, key, k.leads, rows) && HonestFor(v, key, k, cl, rows, c)
    requires AsksForTests(intents) ==> Paired(v, key, rows)
    requires ComeFirst(Core(v.graph, key, k, cl), rows)
    ensures HonestFor(v, key, k.(thinned := true), cl, FirstRows(rows), c)
  {
    var core := Core(v.graph, key, k, cl);
    FirstAreKept(core, rows);
    assert HasAll(core, FirstRows(rows)) <==> HasAll(core, rows);
    if cl == TestClass && Within(v, key) && HasAll(core, rows) {
      forall x | x in TestRelations(v.graph, key) ensures x in rows {
        if IncomingTestCall(x) {
          PartnerIsRelation(v.graph, key, x);
        }
      }
    }
  }

  lemma DeduplicationRepresents(v: MapView, key: Key, intents: set<Intent>, rows: seq<MapEdge>)
    requires Contained(v, key, intents, rows)
    ensures Represented(v, key, intents, FirstRows(rows))
  {
    forall e | e in Relations(v.graph, key) && Rank(intents, e).Some? ensures HasSite(FirstRows(rows), SiteOf(e)) {
      FirstRowsRepresent(rows, e);
    }
  }

  /** What holds from here on. */
  ghost predicate Outcome(v: MapView, key: Key, intents: set<Intent>, k: Claim, rows: seq<MapEdge>, c: Completeness, cut: bool) {
    && Proper(v.graph, key, k.leads, rows) && GoodLeads(v.graph, key, k.leads) && k.thinned
    && OneASite(rows) && (forall e :: e in rows ==> Rank(intents, e).Some?)
    && AllHonest(v, key, intents, k, rows, c)
    && (!cut ==> Represented(v, key, intents, rows))
  }

  lemma DeduplicationKeeps(v: MapView, key: Key, intents: set<Intent>, k: Claim, rows: seq<MapEdge>, c: Completeness, cut: bool)
    requires Consistent(v.graph) && Arranged(v, key, intents, k, rows, c, cut)
    ensures Outcome(v, key, intents, k.(thinned := true), FirstRows(rows), c, cut)
  {
    FirstRowsAre(rows);
    FirstRowsAreOneASite(rows);
    forall cl | Follows(v.graph, key, intents, cl) ensures HonestFor(v, key, k.(thinned := true), cl, FirstRows(rows), c) {
      DeduplicationIsHonest(v, key, intents, k, cl, rows, c);
    }
    if !cut {
      DeduplicationRepresents(v, key, intents, rows);
    }
  }

  method CapAndDeduplicate(v: MapView, key: Key, intents: set<Intent>, sorted: seq<MapEdge>,
                           before: Completeness, cutBefore: bool, ghost k: Claim)
    returns (rows: seq<MapEdge>, c: Completeness, cut: bool)
    requires Ordered(v) && Arranged(v, key, intents, k, sorted, before, cutBefore)
    requires AsksForTests(intents) ==> LeadsLast(sorted)
    ensures rows == FirstRows(First(sorted, 512)) && c == MarkAll(before, Rest(sorted, 512)) && (cut <==> cutBefore || |sorted| > 512)
    ensures Outcome(v, key, intents, k.(thinned := true), rows, c, cut)
  {
    rows, c, cut := sorted, before, cutBefore;
    if |rows| > MAX_PROJECT_MAP_EDGE_CANDIDATES {
      cut := true;
      CapKeepsArranged(v, key, intents, k, rows, c, cutBefore);
      c := MarkRest(c, rows[MAX_PROJECT_MAP_EDGE_CANDIDATES..]);
      rows := rows[..MAX_PROJECT_MAP_EDGE_CANDIDATES];
    }
    DeduplicationKeeps(v, key, intents, k, rows, c, cut);
    rows := Deduplicate(rows);
  }

  // ----- Stage three: the first few, verified

  method Verify(v: MapView, key: Key, rows: seq<MapEdge>, before: Completeness, staleBefore: bool)
    returns (edges: seq<MapEdge>, c: Completeness, stale: bool)
    ensures Dropping(rows, Current(v), before, edges, c)
    ensures stale <==> staleBefore || edges != rows
  {
    edges, c, stale := [], before, staleBefore;
    for i := 0 to |rows|
      invariant Dropping(rows[..i], Current(v), before, edges, c)
      invariant |edges| <= i && (stale <==> staleBefore || |edges| < i)
    {
      assert rows[..i + 1] == rows[..i] + [rows[i]];
      var current := Current(v)(rows[i]);
      edges, c := KeepOrMark(rows[..i], Current(v), before, edges, c, rows[i], current);
      stale := stale || !current;
    }
    assert rows[..|rows|] == rows;
    FilterWhole(rows, Current(v));
  }

  /** With one row a site, a flag that is still up is only ever marked for a member. */
  lemma TouchedAreCore(g: View, key: Key, k: Claim, cl: Class, rows: seq<MapEdge>)
    requires Consistent(g) && Proper(g, key, k.leads, rows) && OneASite(rows) && k.thinned
    requires HasAll(Members(g, key, k, cl), rows)
    ensures forall e :: e in rows && Touches(cl, e) ==> e in Members(g, key, k, cl)
  {
    CallersAreRelations(g, key);
    forall e | e in rows && Touches(cl, e) ensures e in Members(g, key, k, cl) {
      if cl == TestClass && IncomingTestCall(e) {
        PartnerIsRelation(g, key, e);
        assert SiteOf(Partner(e)) == SiteOf(e);
      }
    }
  }

  lemma DropKeepsOutcome(v: MapView, key: Key, intents: set<Intent>, k: Claim, rows: seq<MapEdge>, after: seq<MapEdge>,
                         dropped: seq<MapEdge>, c: Completeness, cut: bool, cutNow: bool)
    requires Consistent(v.graph) && Outcome(v, key, intents, k, rows, c, cut) && Parts(rows, after, dropped) && NoDups(after)
    requires !cutNow ==> !cut && after == rows
    ensures Outcome(v, key, intents, k, after, MarkAll(c, dropped), cutNow)
  {
    forall cl | Follows(v.graph, key, intents, cl) ensures HonestFor(v, key, k, cl, after, MarkAll(c, dropped)) {
      MembersTouch(v.graph, key, k, cl);
      if Flag(cl, c) {
        TouchedAreCore(v.graph, key, k, cl, rows);
      }
      DropStaysHonest(cl, Members(v.graph, key, k, cl), rows, after, dropped, c, Base(v, key, k, cl));
    }
  }

  method TakeFirst(v: MapView, key: Key, intents: set<Intent>, all: seq<MapEdge>, before: Completeness, cutBefore: bool, ghost k: Claim)
    returns (rows: seq<MapEdge>, c: Completeness, cut: bool)
    requires Ordered(v) && Outcome(v, key, intents, k, all, before, cutBefore)
    ensures rows == First(all, 8) && c == MarkAll(before, Rest(all, 8)) && (cut <==> cutBefore || |all| > 8)
    ensures Outcome(v, key, intents, k, rows, c, cut)
  {
    rows, c := all, before;
    cut := cutBefore || |rows| > MAX_PROJECT_MAP_EDGES_PER_LEAD;
    if |rows| > MAX_PROJECT_MAP_EDGES_PER_LEAD {
      PrefixParts(rows, MAX_PROJECT_MAP_EDGES_PER_LEAD);
      DropKeepsOutcome(v, key, intents, k, rows, rows[..MAX_PROJECT_MAP_EDGES_PER_LEAD], rows[MAX_PROJECT_MAP_EDGES_PER_LEAD..],
                       c, cutBefore, cut);
      c := MarkRest(c, rows[MAX_PROJECT_MAP_EDGES_PER_LEAD..]);
      rows := rows[..MAX_PROJECT_MAP_EDGES_PER_LEAD];
    }
  }

  lemma VerificationKeepsOutcome(v: MapView, key: Key, intents: set<Intent>, k: Claim, rows: seq<MapEdge>, c: Completeness, cut: bool,
                                 edges: seq<MapEdge>, now: Completeness)
    requires Consistent(v.graph) && Outcome(v, key, intents, k, rows, c, cut) && Dropping(rows, Current(v), c, edges, now)
    ensures Outcome(v, key, intents, k, edges, now, cut || edges != rows)
    ensures forall e :: e in edges ==> Current(v)(e)
  {
    FilterKeeps(rows, Current(v));
    FilterKeeps(rows, Not(Current(v)));
    DropKeepsOutcome(v, key, intents, k, rows, edges, Filter(rows, Not(Current(v))), c, cut, cut || edges != rows);
  }

  /** A search that lost leads is not whole. */
  lemma LossKeepsOutcome(v: MapView, key: Key, intents: set<Intent>, k: Claim, rows: seq<MapEdge>, c: Completeness, cut: bool, lost: bool)
    requires Outcome(v, key, intents, k, rows, c, cut)
    ensures Outcome(v, key, intents, k.(whole := k.whole && !lost), rows, c.(behavioralTestLeads := c.behavioralTestLeads && !lost), cut)
  {
    forall cl | Follows(v.graph, key, intents, cl)
      ensures HonestFor(v, key, k.(whole := k.whole && !lost), cl, rows, c.(behavioralTestLeads := c.behavioralTestLeads && !lost))
    {
      assert HonestFor(v, key, k, cl, rows, c);
    }
  }

  // ----- The whole

  /** Every test that reaches the symbol through other functions is shown. */
  ghost predicate ShowsTests(g: View, key: Key, edges: seq<MapEdge>) {
    forall t :: ReachesTarget(g, key, t) ==> ShowsTest(edges, t)
  }

  ghost predicate ShowsTest(edges: seq<MapEdge>, t: Key) {
    exists e :: e in edges && e.kind == BehavioralTestLead && e.related == t
  }

  /** Only relations in the projection and real test leads, each once. */
  ghost predicate Genuine(g: View, key: Key, edges: seq<MapEdge>) {
    NoDups(edges) && forall e :: e in edges ==> if e.kind.Structural? then e in Relations(g, key) else IsLeadRow(g, key, e)
  }

  /** What the flags promise about the edges returned. */
  ghost predicate FlagsTell(v: MapView, key: Key, intents: set<Intent>, includeTestLeads: bool, edges: seq<MapEdge>, c: Completeness) {
    && (AsksForCallers(intents) ==> (c.directCallers <==> Within(v, key) && HasAll(CallerSites(v.graph, key), edges)))
    && (AsksForTests(intents) && !IsTest(v.graph, key) ==>
          (c.directTests <==> Within(v, key) && HasAll(TestedBySites(v.graph, key), edges)))
    && (AsksForTests(intents) ==> LeadsTell(v, key, includeTestLeads, edges, c))
  }

  /** The flag of the test leads is up only if every test is shown, and always if nothing came in between. */
  ghost predicate LeadsTell(v: MapView, key: Key, includeTestLeads: bool, edges: seq<MapEdge>, c: Completeness) {
    var whole := Within(v, key) && includeTestLeads && Unbounded(v.graph, key) && ShowsTests(v.graph, key, edges);
    (c.behavioralTestLeads ==> whole) && (whole && !SomeChanged(v.graph, key) ==> c.behavioralTestLeads)
  }

  lemma LeadsAreShown(g: View, key: Key, leads: set<MapEdge>, edges: seq<MapEdge>)
    requires GoodLeads(g, key, leads) && Proper(g, key, leads, edges)
    ensures LeadsShow(g, key, leads) && HasAll(leads, edges) ==> ShowsTests(g, key, edges)
    ensures ShowsTests(g, key, edges) ==> HasAll(leads, edges)
  {
    if LeadsShow(g, key, leads) && HasAll(leads, edges) {
      forall t | ReachesTarget(g, key, t) ensures ShowsTest(edges, t) {
        assert LeadFor(leads, t);
        var e :| e in leads && e.related == t;
        assert IsLeadRow(g, key, e) && e in edges;
      }
    }
    if ShowsTests(g, key, edges) {
      forall d | d in leads ensures d in edges {
        assert IsLeadRow(g, key, d);
        var l :| GoodLead(g, key, d.related, l) && d == LeadRow(d.related, l);
        LeadReaches(g, key, d.related, l);
        assert ReachesTarget(g, key, d.related);
        assert ShowsTest(edges, d.related);
        var e :| e in edges && e.kind == BehavioralTestLead && e.related == d.related;
        assert e in leads;
      }
    }
  }

  lemma OutcomeTells(v: MapView, key: Key, intents: set<Intent>, includeTestLeads: bool, k: Claim, lost: bool,
                     edges: seq<MapEdge>, c: Completeness, cut: bool)
    requires Outcome(v, key, intents, k.(whole := k.whole && !lost, thinned := true), edges, c, cut)
    requires Tests in intents ==> Searched(v.graph, key, includeTestLeads, k, lost)
    ensures FlagsTell(v, key, intents, includeTestLeads, edges, c) && Genuine(v.graph, key, edges)
  {
    var final := k.(whole := k.whole && !lost, thinned := true);
    LeadsAreShown(v.graph, key, k.leads, edges);
    assert AsksForCallers(intents) ==> HonestFor(v, key, final, CallerClass, edges, c);
    assert AsksForTests(intents) && !IsTest(v.graph, key) ==> HonestFor(v, key, final, TestClass, edges, c);
    assert AsksForTests(intents) ==> HonestFor(v, key, final, LeadClass, edges, c);
  }

  /** Leads are no relations. */
  lemma MoreAreNew(v: MapView, key: Key, k: Claim, o: Origin)
    requires GoodLeads(v.graph, key, k.leads) && k.leads == LeadSet(o.found)
    requires (forall e :: e in o.raw ==> e.kind.Structural?) && forall e :: e in o.more <==> e in LeadSet(o.found)
    ensures forall e :: e in o.more ==> e !in o.raw
  {
    forall e | e in o.more ensures e !in o.raw {
      assert IsLeadRow(v.graph, key, e);
    }
  }

  // ----- How it comes about

  /** A row that was left out: it does not fit, is beyond the cap, beyond the first eight, or stale. */
  ghost predicate LeftOut(v: MapView, key: Key, intents: set<Intent>, s: Steps, e: MapEdge) {
    || (e in s.raw && !CallFits(v, key, e))
    || (e in Wanted(v, key, intents, s.raw, s.more) && e !in s.rows)
    || (IsFirst(s.rows, e) && e !in s.taken)
    || (e in s.taken && !StillThere(v, e))
  }

  /** A flag stays up as long as no row it is about is left out. The one for test leads starts up only
      if the search is whole. */
  ghost predicate FlagsMarked(v: MapView, key: Key, intents: set<Intent>, s: Steps, whole: bool, c: Completeness) {
    forall cl :: Flag(cl, c) <==> Within(v, key) && (cl == LeadClass ==> whole)
                                  && forall e :: LeftOut(v, key, intents, s, e) ==> !Touches(cl, e)
  }

  /** The rows of each step follow from those of the step before. */
  ghost predicate Picks(v: MapView, key: Key, intents: set<Intent>, s: Steps, edges: seq<MapEdge>) {
    && Queried(v, key, s.raw) && Ranked(v, key, intents, s) && FirstEight(s.rows, s.taken)
    && edges == Filter(s.taken, Current(v)) && forall e :: e in edges <==> e in s.taken && StillThere(v, e)
  }

  lemma StepsAreChosen(v: MapView, key: Key, intents: set<Intent>, s: Steps)
    requires Ordered(v) && Stepped(v, key, intents, s) && forall e :: e in s.more ==> e !in s.raw
    ensures Picks(v, key, intents, s, Filter(s.taken, Current(v)))
  {
    QueryIsFirst(v, key);
    RowsAreRanked(v, key, intents, s);
    TakenAreFirst(s.rows);
    FilterKeeps(s.taken, Current(v));
  }

  /** The rows dropped at each step. */
  ghost predicate DroppedAre(v: MapView, key: Key, intents: set<Intent>, s: Steps, sorted: seq<MapEdge>) {
    && (forall e :: e in Filter(s.raw, Not(Fitting(v, key))) <==> e in s.raw && !CallFits(v, key, e))
    && (forall e :: e in Rest(sorted, 512) <==> e in Wanted(v, key, intents, s.raw, s.more) && e !in s.rows)
    && (forall e :: e in Rest(FirstRows(s.rows), 8) <==> IsFirst(s.rows, e) && e !in s.taken)
    && (forall e :: e in Filter(s.taken, Not(Current(v))) <==> e in s.taken && !StillThere(v, e))
  }

  lemma FirstRowsAreFirst(rows: seq<MapEdge>)
    requires NoDups(rows)
    ensures forall e :: e in FirstRows(rows) <==> IsFirst(rows, e)
  {
    FirstRowsAre(rows);
    forall e ensures e in FirstRows(rows) <==> IsFirst(rows, e) {
      if e in FirstRows(rows) {
        var i :| 0 <= i < |rows| && rows[i] == e;
        assert FirstOfSite(rows, i);
      }
    }
  }

  lemma RestIsUnranked(v: MapView, key: Key, intents: set<Intent>, s: Steps, sorted: seq<MapEdge>)
    requires Ordered(v) && Stepped(v, key, intents, s) && forall e :: e in s.more ==> e !in s.raw
    requires sorted == v.sort(intents, Filter(Kept(v, key, s.raw, s.more), Asked(intents)))
    ensures forall e :: e in Rest(sorted, 512) <==> e in Wanted(v, key, intents, s.raw, s.more) && e !in s.rows
    ensures NoDups(s.rows) && |sorted| == |Wanted(v, key, intents, s.raw, s.more)|
  {
    var asked := Filter(Kept(v, key, s.raw, s.more), Asked(intents));
    AskedAreWanted(v, key, intents, s.raw, s.more);
    assert Sorts(intents, asked, sorted);
    PermutationHasNoDups(asked, sorted);
    SameLength(asked, sorted);
    RestIsOthers(sorted, 512);
  }

  lemma StepsDrop(v: MapView, key: Key, intents: set<Intent>, s: Steps, sorted: seq<MapEdge>)
    requires Ordered(v) && Stepped(v, key, intents, s) && forall e :: e in s.more ==> e !in s.raw
    requires sorted == v.sort(intents, Filter(Kept(v, key, s.raw, s.more), Asked(intents)))
    ensures DroppedAre(v, key, intents, s, sorted) && |sorted| == |Wanted(v, key, intents, s.raw, s.more)|
  {
    RestIsUnranked(v, key, intents, s, sorted);
    NotFitting(v, key, s.raw);
    NotCurrent(v, s.taken);
    FirstRowsLeft(s.rows);
  }

  lemma NotFitting(v: MapView, key: Key, raw: seq<MapEdge>)
    ensures forall e :: e in Filter(raw, Not(Fitting(v, key))) <==> e in raw && !CallFits(v, key, e)
  {
    FilterKeeps(raw, Not(Fitting(v, key)));
    forall e ensures Fits(v, key, e) <==> CallFits(v, key, e) {
      FitsAndCurrent(v, key, e);
    }
  }

  lemma NotCurrent(v: MapView, taken: seq<MapEdge>)
    ensures forall e :: e in Filter(taken, Not(Current(v))) <==> e in taken && !StillThere(v, e)
  {
    FilterKeeps(taken, Not(Current(v)));
  }

  lemma FirstRowsLeft(rows: seq<MapEdge>)
    requires NoDups(rows)
    ensures forall e :: e in Rest(FirstRows(rows), 8) <==> IsFirst(rows, e) && e !in First(FirstRows(rows), 8)
  {
    FirstRowsAre(rows);
    FirstRowsAreFirst(rows);
    RestIsOthers(FirstRows(rows), 8);
  }

  /** The flags after each step. */
  ghost function FinalFlags(v: MapView, key: Key, s: Steps, sorted: seq<MapEdge>, whole: bool, lost: bool): Completeness {
    var fitted := Fitted(v, key, s.raw);
    var capped := MarkAll(fitted.(behavioralTestLeads := fitted.behavioralTestLeads && whole), Rest(sorted, 512));
    var kept := capped.(behavioralTestLeads := capped.behavioralTestLeads && !lost);
    MarkAll(MarkAll(kept, Rest(FirstRows(s.rows), 8)), Filter(s.taken, Not(Current(v))))
  }

  lemma FlagsAfterSteps(v: MapView, key: Key, s: Steps, sorted: seq<MapEdge>, whole: bool, lost: bool, cl: Class)
    ensures Flag(cl, FinalFlags(v, key, s, sorted, whole, lost)) <==>
            && Within(v, key) && (cl == LeadClass ==> whole && !lost)
            && (forall e :: e in Filter(s.raw, Not(Fitting(v, key))) ==> !Touches(cl, e))
            && (forall e :: e in Rest(sorted, 512) ==> !Touches(cl, e))
            && (forall e :: e in Rest(FirstRows(s.rows), 8) ==> !Touches(cl, e))
            && (forall e :: e in Filter(s.taken, Not(Current(v))) ==> !Touches(cl, e))
  {
    var fitted := Fitted(v, key, s.raw);
    MarkedFlag(cl, if Within(v, key) then ALL_COMPLETE else NONE_COMPLETE, Filter(s.raw, Not(Fitting(v, key))));
    var searched := fitted.(behavioralTestLeads := fitted.behavioralTestLeads && whole);
    MarkedFlag(cl, searched, Rest(sorted, 512));
    var capped := MarkAll(searched, Rest(sorted, 512));
    var kept := capped.(behavioralTestLeads := capped.behavioralTestLeads && !lost);
    MarkedFlag(cl, kept, Rest(FirstRows(s.rows), 8));
    MarkedFlag(cl, MarkAll(kept, Rest(FirstRows(s.rows), 8)), Filter(s.taken, Not(Current(v))));
  }

  lemma StepsMark(v: MapView, key: Key, intents: set<Intent>, s: Steps, sorted: seq<MapEdge>, whole: bool, lost: bool)
    requires DroppedAre(v, key, intents, s, sorted)
    ensures FlagsMarked(v, key, intents, s, whole && !lost, FinalFlags(v, key, s, sorted, whole, lost))
  {
    forall cl ensures Flag(cl, FinalFlags(v, key, s, sorted, whole, lost)) <==>
                      Within(v, key) && (cl == LeadClass ==> whole && !lost)
                      && forall e :: LeftOut(v, key, intents, s, e) ==> !Touches(cl, e)
    {
      FlagsAfterSteps(v, key, s, sorted, whole, lost, cl);
      LeftOutAre(v, key, intents, s, sorted, cl);
    }
  }

  lemma LeftOutAre(v: MapView, key: Key, intents: set<Intent>, s: Steps, sorted: seq<MapEdge>, cl: Class)
    requires DroppedAre(v, key, intents, s, sorted)
    ensures (forall e :: LeftOut(v, key, intents, s, e) ==> !Touches(cl, e)) <==>
            && (forall e :: e in Filter(s.raw, Not(Fitting(v, key))) ==> !Touches(cl, e))
            && (forall e :: e in Rest(sorted, 512) ==> !Touches(cl, e))
            && (forall e :: e in Rest(FirstRows(s.rows), 8) ==> !Touches(cl, e))
            && (forall e :: e in Filter(s.taken, Not(Current(v))) ==> !Touches(cl, e))
  {
    forall e ensures LeftOut(v, key, intents, s, e) <==>
                     e in Filter(s.raw, Not(Fitting(v, key))) || e in Rest(sorted, 512)
                     || e in Rest(FirstRows(s.rows), 8) || e in Filter(s.taken, Not(Current(v)))
    {
    }
  }

  lemma StepsTell(v: MapView, key: Key, intents: set<Intent>, s: Steps, sorted: seq<MapEdge>, whole: bool, lost: bool)
    requires Ordered(v) && Stepped(v, key, intents, s) && forall e :: e in s.more ==> e !in s.raw
    requires sorted == v.sort(intents, Filter(Kept(v, key, s.raw, s.more), Asked(intents)))
    ensures Picks(v, key, intents, s, Filter(s.taken, Current(v)))
    ensures FlagsMarked(v, key, intents, s, whole && !lost, FinalFlags(v, key, s, sorted, whole, lost))
    ensures |sorted| == |Wanted(v, key, intents, s.raw, s.more)| && |FirstRows(s.rows)| == |Sites(s.rows)|
  {
    StepsAreChosen(v, key, intents, s);
    StepsDrop(v, key, intents, s, sorted);
    StepsMark(v, key, intents, s, sorted, whole, lost);
    FirstRowsSize(s.rows);
  }

  /** One row a site, in order, and the flags so far. */
  method RankedRows(v: MapView, key: Key, intents: set<Intent>, includeTestLeads: bool)
    returns (rows: seq<MapEdge>, c: Completeness, cut: bool, testLeadsTruncated: bool, lost: bool, ghost k: Claim, ghost o: Origin,
             ghost s: Steps)
    requires Ordered(v)
    ensures s.raw == o.raw && s.more == o.more && s.taken == First(rows, 8) && |rows| == |Sites(s.rows)|
    ensures (forall e :: e in o.more <==> e in LeadSet(o.found)) && k.leads == LeadSet(o.found)
    ensures Sought(v.graph, key, Searches(intents, includeTestLeads), o)
    ensures Picks(v, key, intents, s, Filter(s.taken, Current(v)))
    ensures FlagsMarked(v, key, intents, s, k.whole && !lost, MarkAll(MarkAll(c, Rest(rows, 8)), Filter(s.taken, Not(Current(v)))))
    ensures cut <==> CutEarly(v, key, Searches(intents, includeTestLeads), k.whole, o.raw)
                     || |Wanted(v, key, intents, s.raw, s.more)| > 512
    ensures testLeadsTruncated <==> Tests in intents && (!AllFit(v, key, o.raw) || !k.whole)
    ensures Outcome(v, key, intents, k.(whole := k.whole && !lost, thinned := true), rows, c, cut)
    ensures Tests in intents ==> Searched(v.graph, key, includeTestLeads, k, lost)
    ensures SearchTells(v.graph, key, intents, includeTestLeads, k.whole, lost)
  {
    var gathered;
    gathered, c, cut, testLeadsTruncated, lost, k, o := Gather(v, key, intents, includeTestLeads);
    rows := Arrange(v, key, intents, gathered, k, c, cut);
    ghost var sorted := rows;
    rows, c, cut := CapAndDeduplicate(v, key, intents, rows, c, cut, k);
    LossKeepsOutcome(v, key, intents, k.(thinned := true), rows, c, cut, lost);
    if lost {
      c := c.(behavioralTestLeads := false);
    }
    MoreAreNew(v, key, k, o);
    SearchedTells(v.graph, key, intents, includeTestLeads, k, lost);
    s := Steps(o.raw, o.more, First(sorted, 512), First(rows, 8));
    StepsTell(v, key, intents, s, sorted, k.whole, lost);
  }

  /** The first eight rows, as far as they are current. */
  method VerifiedRows(v: MapView, key: Key, intents: set<Intent>, rows: seq<MapEdge>, before: Completeness, cut: bool, lost: bool,
                      ghost k: Claim)
    returns (edges: seq<MapEdge>, c: Completeness, edgesTruncated: bool, stale: bool, ghost taken: seq<MapEdge>)
    requires Ordered(v) && Outcome(v, key, intents, k, rows, before, cut)
    ensures taken == First(rows, 8) && edges == Filter(taken, Current(v))
    ensures c == MarkAll(MarkAll(before, Rest(rows, 8)), Filter(taken, Not(Current(v))))
    ensures (edgesTruncated <==> cut || |rows| > 8) && (stale <==> lost || edges != taken)
    ensures Outcome(v, key, intents, k, edges, c, edgesTruncated || edges != taken) && forall e :: e in edges ==> Current(v)(e)
  {
    var first, marked;
    first, marked, edgesTruncated := TakeFirst(v, key, intents, rows, before, cut, k);
    taken := first;
    edges, c, stale := Verify(v, key, first, marked, lost);
    VerificationKeepsOutcome(v, key, intents, k, first, marked, edgesTruncated, edges, c);
  }

  /** The search is whole unless it was not wanted or met a bound, and loses leads only to changed files. */
  ghost predicate SearchTells(g: View, key: Key, intents: set<Intent>, includeTestLeads: bool, whole: bool, lost: bool) {
    && (whole <==> (Tests in intents ==> includeTestLeads && Unbounded(g, key)))
    && (lost ==> Searches(intents, includeTestLeads) && SomeChanged(g, key))
  }

  lemma SearchedTells(g: View, key: Key, intents: set<Intent>, includeTestLeads: bool, k: Claim, lost: bool)
    requires Tests in intents ==> Searched(g, key, includeTestLeads, k, lost)
    requires (lost ==> Searches(intents, includeTestLeads)) && (Tests !in intents ==> k.whole)
    ensures SearchTells(g, key, intents, includeTestLeads, k.whole, lost)
  {
  }

  /** What is returned, and what the flags say about the rest. */
  ghost predicate Told(v: MapView, key: Key, intents: set<Intent>, includeTestLeads: bool, edges: seq<MapEdge>, edgesTruncated: bool,
                       testLeadsTruncated: bool, c: Completeness, s: Steps, o: Origin) {
    // The rows are those of the query and of the search; the edges are chosen from them.
    && s.raw == o.raw && s.more == o.more && (forall e :: e in s.more <==> e in LeadSet(o.found))
    && Sought(v.graph, key, Searches(intents, includeTestLeads), o)
    && SearchTells(v.graph, key, intents, includeTestLeads, o.whole, o.lost)
    && Picks(v, key, intents, s, edges)
    // A flag is up as long as no row it is about was left out.
    && FlagsMarked(v, key, intents, s, o.whole && !o.lost, c)
    && (edgesTruncated <==> CutEarly(v, key, Searches(intents, includeTestLeads), o.whole, s.raw)
                            || |Wanted(v, key, intents, s.raw, s.more)| > 512 || |Sites(s.rows)| > 8)
    && (testLeadsTruncated <==> Tests in intents && (edgesTruncated || !includeTestLeads))
  }

  /** Something is no longer current: a row, or the file of a test lead's chain. */
  ghost predicate Lost(edges: seq<MapEdge>, s: Steps, o: Origin) {
    o.lost || edges != s.taken
  }

  /** `verified_symbol_edges`. */
  method SymbolEdges(v: MapView, key: Key, intents: set<Intent>, includeTestLeads: bool)
    returns (edges: seq<MapEdge>, edgesTruncated: bool, testLeadsTruncated: bool, c: Completeness, stale: bool,
             ghost s: Steps, ghost o: Origin)
    requires Ordered(v)
    // What is returned is real, asked for, and verified against the working tree.
    ensures Genuine(v.graph, key, edges)
    ensures forall e :: e in edges ==> Rank(intents, e).Some? && Current(v)(e)
    // It is what is still current of the first eight rows, and the flags tell what was left out.
    ensures Told(v, key, intents, includeTestLeads, edges, edgesTruncated, testLeadsTruncated, c, s, o)
    ensures stale <==> Lost(edges, s, o)
    // The flags of the facets that are followed tell exactly whether everything is returned, and
    // whatever is asked for, with neither flag up every site of every relation asked for is.
    ensures FlagsTell(v, key, intents, includeTestLeads, edges, c)
    ensures !edgesTruncated && !stale ==> Represented(v, key, intents, edges)
  {
    var rows, cut, lost;
    ghost var k, from;
    rows, c, cut, testLeadsTruncated, lost, k, from, s := RankedRows(v, key, intents, includeTestLeads);
    ghost var taken;
    edges, c, edgesTruncated, stale, taken := VerifiedRows(v, key, intents, rows, c, cut, lost, k.(whole := k.whole && !lost, thinned := true));
    if Tests in intents && edgesTruncated {
      testLeadsTruncated := true;
    }
    OutcomeTells(v, key, intents, includeTestLeads, k, lost, edges, c, edgesTruncated || edges != taken);
    o := from.(whole := k.whole, lost := lost);
  }

  // ----- What the facets claim

  function Chosen(edges: seq<MapEdge>, p: MapEdge -> bool): set<MapEdge> {
    set e | e in edges && p(e)
  }

  lemma {:induction false} CountIsSize(edges: seq<MapEdge>, p: MapEdge -> bool)
    requires NoDups(edges)
    ensures Count(edges, p) == |Chosen(edges, p)|
  {
    if edges != [] {
      var init, last := edges[..|edges| - 1], edges[|edges| - 1];
      assert edges == init + [last] && last !in init;
      CountIsSize(init, p);
      assert Chosen(edges, p) == Chosen(init, p) + if p(last) then {last} else {};
    }
  }

  function FacetFor(cl: Class, f: Facets): Facet {
    match cl
    case CallerClass => f.directCallers
    case CalleeClass => f.directCallees
    case TestClass => f.directTests
    case LeadClass => f.behavioralTestLeads
  }

  function Shown(cl: Class): MapEdge -> bool {
    match cl
    case CallerClass => IsCaller
    case CalleeClass => IsCallee
    case TestClass => IsDirectTest
    case LeadClass => IsTestLead
  }

  /** The edges a facet is about. */
  predicate Shows(cl: Class, e: MapEdge) {
    match cl
    case CallerClass => e.kind == Structural(Calls) && e.direction == Incoming && !e.relatedIsTest
    case CalleeClass => e.kind == Structural(Calls) && e.direction == Outgoing && !e.relatedIsTest
    case TestClass => e.kind == Structural(TestedBy)
    case LeadClass => e.kind == BehavioralTestLead
  }

  /** The facet counts the edges shown, ... */
  ghost predicate Counts(cl: Class, f: Facets, edges: seq<MapEdge>) {
    FacetFor(cl, f).returned == |set e | e in edges && Shows(cl, e)|
  }

  /** ... and they are all there are. */
  ghost predicate ShowsAll(g: View, key: Key, cl: Class, edges: seq<MapEdge>) {
    match cl
    case CallerClass => Chosen(edges, IsCaller) == CallerSites(g, key)
    case CalleeClass => Chosen(edges, IsCallee) <= CalleeSites(g, key)
    case TestClass => Chosen(edges, IsDirectTest) == TestedBySites(g, key)
    case LeadClass => ShowsTests(g, key, edges)
  }

  /** What `complete_in_projection` means: everything is shown, the query was not cut off, and for
      test leads the search was wanted and met no bound. Conversely the facet says so whenever that is
      the case, but for test leads in files that changed. */
  ghost predicate Says(v: MapView, key: Key, cl: Class, includeTestLeads: bool, f: Facets, edges: seq<MapEdge>) {
    var whole := Within(v, key) && ShowsAll(v.graph, key, cl, edges)
                 && (cl == LeadClass ==> includeTestLeads && Unbounded(v.graph, key));
    && (FacetFor(cl, f).state == CompleteInProjection ==> whole)
    && (whole && (cl == LeadClass ==> !SomeChanged(v.graph, key)) ==> FacetFor(cl, f).state == CompleteInProjection)
  }

  /** A facet that says `complete_in_projection` shows everything. */
  ghost predicate Truthful(g: View, key: Key, cl: Class, f: Facets, edges: seq<MapEdge>) {
    FacetFor(cl, f).state == CompleteInProjection ==> ShowsAll(g, key, cl, edges)
  }

  lemma ChosenAreAll(g: View, key: Key, edges: seq<MapEdge>)
    requires Genuine(g, key, edges)
    ensures HasAll(CallerSites(g, key), edges) <==> Chosen(edges, IsCaller) == CallerSites(g, key)
    ensures HasAll(TestedBySites(g, key), edges) <==> Chosen(edges, IsDirectTest) == TestedBySites(g, key)
  {
    CallersAreRelations(g, key);
    assert Chosen(edges, IsCaller) <= CallerSites(g, key);
    assert Chosen(edges, IsDirectTest) <= TestedBySites(g, key);
    assert HasAll(CallerSites(g, key), edges) ==> CallerSites(g, key) <= Chosen(edges, IsCaller);
    assert HasAll(TestedBySites(g, key), edges) ==> TestedBySites(g, key) <= Chosen(edges, IsDirectTest);
  }

  lemma CountsAreSizes(intents: set<Intent>, edges: seq<MapEdge>, c: Completeness, cl: Class)
    requires NoDups(edges)
    ensures Counts(cl, FacetsOf(intents, edges, c), edges)
  {
    CountIsShown(edges, cl);
  }

  lemma CountIsShown(edges: seq<MapEdge>, cl: Class)
    requires NoDups(edges)
    ensures Count(edges, Shown(cl)) == |set e | e in edges && Shows(cl, e)|
  {
    CountIsSize(edges, Shown(cl));
    assert Chosen(edges, Shown(cl)) == set e | e in edges && Shows(cl, e);
  }

  /** A facet is followed by its flag, unless nothing the query asks for is about it. */
  lemma FacetsAsRequested(intents: set<Intent>, edges: seq<MapEdge>, c: Completeness, cl: Class)
    ensures var asked := match cl
                         case CallerClass => Callers in intents || AnyCalls in intents || Mixed in intents
                         case CalleeClass => Callees in intents || AnyCalls in intents || Mixed in intents
                         case _ => Tests in intents || Mixed in intents;
            FacetFor(cl, FacetsOf(intents, edges, c)).state ==
              if !asked then NotRequested else if Flag(cl, c) then CompleteInProjection else Incomplete
  {
  }

  lemma StateIsFlag(intents: set<Intent>, edges: seq<MapEdge>, c: Completeness, cl: Class)
    requires cl != CalleeClass && if cl == CallerClass then AsksForCallers(intents) else AsksForTests(intents)
    ensures FacetFor(cl, FacetsOf(intents, edges, c)).state == CompleteInProjection <==> Flag(cl, c)
  {
  }

  /** Each facet counts what is returned. The caller facet, and for a symbol that is not a test the
      facet of direct tests, say `complete_in_projection` exactly when the query was not cut off and
      everything is returned; the facet of test leads says so only if the search met no bound. */
  lemma FacetsAreHonest(v: MapView, key: Key, intents: set<Intent>, includeTestLeads: bool, edges: seq<MapEdge>, c: Completeness,
                        cl: Class)
    requires Genuine(v.graph, key, edges) && FlagsTell(v, key, intents, includeTestLeads, edges, c)
    ensures Counts(cl, FacetsOf(intents, edges, c), edges)
    ensures Follows(v.graph, key, intents, cl) ==> Says(v, key, cl, includeTestLeads, FacetsOf(intents, edges, c), edges)
  {
    CountsAreSizes(intents, edges, c, cl);
    if Follows(v.graph, key, intents, cl) {
      StateIsFlag(intents, edges, c, cl);
      ChosenAreAll(v.graph, key, edges);
    }
  }
}
