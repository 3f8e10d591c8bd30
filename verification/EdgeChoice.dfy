/** Which of its edges a map returns for a symbol: the steps from the query to the first few rows, one
    a site, and what that choice amounts to (src/project_index.rs). */
module EdgeChoice {
  import opened Wrappers
  import opened Projection
  import opened CallGraph
  import opened TraversalTrace
  import opened MapEdges
  import opened EdgeSites
  import opened Sequences
  import opened Sets

  const MAX_PROJECT_MAP_EDGE_CANDIDATES := 512
  const MAX_PROJECT_MAP_EDGES_PER_LEAD := 8

  // ----- What the pipeline reads

  /** Besides the call graph: whether a call site fits the symbol it resolved to, the order of the
      query, the order of `sort_by`, and whether the file of a site is still the one indexed. */
  datatype MapView = MapView(
    graph: View, fits: (Site, Key) -> bool, rows: set<MapEdge> -> seq<MapEdge>,
    sort: (set<Intent>, seq<MapEdge>) -> seq<MapEdge>, siteVerified: Site -> bool)

  /** The query lists its rows in its own order. */
  ghost predicate Selects(s: set<MapEdge>, q: seq<MapEdge>) {
    && |q| == |s| && (forall x :: x in q <==> x in s) && NoDups(q)
    && (forall a, b :: a in s && b in s && SelectedBefore(a, b) ==> Precedes(q, a, b))
  }

  /** `sort_by` is stable. */
  ghost predicate Sorts(intents: set<Intent>, s: seq<MapEdge>, q: seq<MapEdge>) {
    && multiset(q) == multiset(s)
    && (forall a, b :: a in s && b in s && RankedBefore(intents, a, b) ==> Precedes(q, a, b))
    && (forall a, b :: Precedes(s, a, b) && Tied(intents, a, b) ==> Precedes(q, a, b))
  }

  ghost predicate Ordered(v: MapView) {
    && Consistent(v.graph)
    && (forall s :: Selects(s, v.rows(s)))
    && (forall i, s :: NoDups(s) ==> Sorts(i, s, v.sort(i, s)))
  }

  // ----- Rows that fit, are asked for, and are current

  /** The symbol a call site has to fit. */
  function CallTarget(key: Key, e: MapEdge): Option<Key> {
    if e.kind == Structural(TestedBy) || IsCall(e, Incoming) then Some(key)
    else if IsCall(e, Outgoing) then Some(e.related)
    else None
  }

  predicate Fits(v: MapView, key: Key, e: MapEdge) {
    CallTarget(key, e).Some? ==> v.fits(SiteOf(e), CallTarget(key, e).value)
  }

  function Fitting(v: MapView, key: Key): MapEdge -> bool {
    e => Fits(v, key, e)
  }

  function Not(p: MapEdge -> bool): MapEdge -> bool {
    (e: MapEdge) => !p(e)
  }

  predicate AllFit(v: MapView, key: Key, rows: seq<MapEdge>) {
    forall i :: 0 <= i < |rows| ==> Fits(v, key, rows[i])
  }

  function Asked(intents: set<Intent>): MapEdge -> bool {
    (e: MapEdge) => Rank(intents, e).Some?
  }

  function Current(v: MapView): MapEdge -> bool {
    (e: MapEdge) => v.graph.verified(e.related) && v.siteVerified(SiteOf(e))
  }

  function LeadSet(leads: map<Key, Lead>): set<MapEdge> {
    set t | t in leads :: LeadRow(t, leads[t])
  }

  // ----- One row a site

  ghost predicate HasSite(rows: seq<MapEdge>, site: Site) {
    exists r :: r in rows && SiteOf(r) == site
  }

  predicate FirstOfSite(s: seq<MapEdge>, i: nat)
    requires i < |s|
  {
    forall j :: 0 <= j < i ==> SiteOf(s[j]) != SiteOf(s[i])
  }

  /** The first row of each site. */
  function FirstRows(s: seq<MapEdge>): (r: seq<MapEdge>)
    ensures |r| <= |s|
  {
    if s == [] then [] else FirstRows(s[..|s| - 1]) + if FirstOfSite(s, |s| - 1) then [s[|s| - 1]] else []
  }

  lemma FirstRowsMore(s: seq<MapEdge>, e: MapEdge)
    ensures FirstRows(s + [e]) == FirstRows(s) + if exists x :: x in s && SiteOf(x) == SiteOf(e) then [] else [e]
  {
  }

  lemma {:induction false} FirstRowsAre(s: seq<MapEdge>)
    requires NoDups(s)
    ensures NoDups(FirstRows(s)) && forall e :: e in FirstRows(s) ==> e in s
    ensures forall i :: 0 <= i < |s| ==> (s[i] in FirstRows(s) <==> FirstOfSite(s, i))
  {
    if s != [] {
      var init, last := s[..|s| - 1], s[|s| - 1];
      FirstRowsAre(init);
      assert last !in init;
      forall i | 0 <= i < |s| ensures s[i] in FirstRows(s) <==> FirstOfSite(s, i) {
        if i < |s| - 1 {
          assert s[i] == init[i];
          assert FirstOfSite(s, i) <==> FirstOfSite(init, i);
        }
      }
    }
  }

  lemma {:induction false} FirstRowsRepresent(s: seq<MapEdge>, e: MapEdge)
    requires e in s
    ensures HasSite(FirstRows(s), SiteOf(e))
  {
    var init, last := s[..|s| - 1], s[|s| - 1];
    assert s == init + [last];
    FirstRowsMore(init, last);
    var x := if exists x :: x in init && SiteOf(x) == SiteOf(e) then (var x :| x in init && SiteOf(x) == SiteOf(e); x) else e;
    if x in init {
      FirstRowsRepresent(init, x);
      var r :| r in FirstRows(init) && SiteOf(r) == SiteOf(x);
      assert r in FirstRows(s);
    } else {
      assert e == last && last in FirstRows(s);
    }
  }

  method Deduplicate(s: seq<MapEdge>) returns (rows: seq<MapEdge>)
    ensures rows == FirstRows(s)
  {
    rows := [];
    var seen: set<Site> := {};
    for i := 0 to |s|
      invariant rows == FirstRows(s[..i])
      invariant seen == set e | e in s[..i] :: SiteOf(e)
    {
      assert s[..i + 1] == s[..i] + [s[i]];
      FirstRowsMore(s[..i], s[i]);
      if SiteOf(s[i]) !in seen {
        rows := rows + [s[i]];
      }
      seen := seen + {SiteOf(s[i])};
    }
    assert s[..|s|] == s;
  }

  ghost predicate OneASite(rows: seq<MapEdge>) {
    forall a, b :: a in rows && b in rows && SiteOf(a) == SiteOf(b) ==> a == b
  }

  lemma FirstRowsAreOneASite(s: seq<MapEdge>)
    requires NoDups(s)
    ensures OneASite(FirstRows(s))
  {
    FirstRowsAre(s);
    forall a, b | a in FirstRows(s) && b in FirstRows(s) && SiteOf(a) == SiteOf(b) ensures a == b {
      var i :| 0 <= i < |s| && s[i] == a;
      var j :| 0 <= j < |s| && s[j] == b;
      assert FirstOfSite(s, i) && FirstOfSite(s, j);
    }
  }

  // ----- The steps

  /** The rows of the query, those of the test leads, the rows asked for in order, and the first of them. */
  datatype Steps = Steps(raw: seq<MapEdge>, more: seq<MapEdge>, rows: seq<MapEdge>, taken: seq<MapEdge>)

  function Kept(v: MapView, key: Key, raw: seq<MapEdge>, more: seq<MapEdge>): seq<MapEdge> {
    Filter(raw, Fitting(v, key)) + more
  }

  ghost predicate Stepped(v: MapView, key: Key, intents: set<Intent>, s: Steps) {
    && s.raw == First(v.rows(Relations(v.graph, key)), 513)
    && NoDups(Kept(v, key, s.raw, s.more))
    && s.rows == First(v.sort(intents, Filter(Kept(v, key, s.raw, s.more), Asked(intents))), 512)
    && s.taken == First(FirstRows(s.rows), 8)
  }

  // ----- What they come to

  /** The query returns all relations of the symbol, or else 513 of them, none after one it leaves out. */
  ghost predicate Queried(v: MapView, key: Key, raw: seq<MapEdge>) {
    var all := Relations(v.graph, key);
    && NoDups(raw) && (forall e :: e in raw ==> e in all)
    && |raw| == (if |all| <= 513 then |all| else 513)
    && forall x, y :: x in all && x !in raw && y in raw ==> !SelectedBefore(x, y)
  }

  lemma QueryIsFirst(v: MapView, key: Key)
    requires Ordered(v)
    ensures Queried(v, key, First(v.rows(Relations(v.graph, key)), 513))
  {
    var all, raw := v.rows(Relations(v.graph, key)), First(v.rows(Relations(v.graph, key)), 513);
    assert Selects(Relations(v.graph, key), all);
    forall x, y | x in Relations(v.graph, key) && x !in raw && y in raw ensures !SelectedBefore(x, y) {
      if SelectedBefore(x, y) {
        PrecededInFirst(all, 513, x, y);
      }
    }
  }

  /** A call, or a `tested_by` edge, fits the symbol that is called. */
  predicate CallFits(v: MapView, key: Key, e: MapEdge) {
    var site := Site(e.related, e.path, e.start, e.end);
    && (e.kind == Structural(TestedBy) || (e.kind == Structural(Calls) && e.direction == Incoming) ==> v.fits(site, key))
    && (e.kind == Structural(Calls) && e.direction == Outgoing ==> v.fits(site, e.related))
  }

  /** The related symbol and the site are in files that are still the ones indexed. */
  predicate StillThere(v: MapView, e: MapEdge) {
    v.graph.verified(e.related) && v.siteVerified(Site(e.related, e.path, e.start, e.end))
  }

  lemma FitsAndCurrent(v: MapView, key: Key, e: MapEdge)
    ensures Fits(v, key, e) <==> CallFits(v, key, e)
    ensures Current(v)(e) <==> StillThere(v, e)
  {
  }

  /** What the query asks for: relations that fit, and test leads. */
  function Wanted(v: MapView, key: Key, intents: set<Intent>, raw: seq<MapEdge>, more: seq<MapEdge>): set<MapEdge> {
    set e | e in raw + more && Rank(intents, e).Some? && (e in raw ==> CallFits(v, key, e))
  }

  /** All that is wanted is there in order, or else 512 of it, none after one that is left out. */
  ghost predicate Ranked(v: MapView, key: Key, intents: set<Intent>, s: Steps) {
    var wanted := Wanted(v, key, intents, s.raw, s.more);
    && NoDups(s.rows) && (forall e :: e in s.rows ==> e in wanted)
    && |s.rows| == (if |wanted| <= 512 then |wanted| else 512)
    && (forall x, y :: x in wanted && x !in s.rows && y in s.rows ==> !RankedBefore(intents, x, y))
    && (forall i, j :: 0 <= i < j < |s.rows| ==> !RankedBefore(intents, s.rows[j], s.rows[i]))
  }

  function Sites(rows: seq<MapEdge>): set<Site> {
    set e | e in rows :: SiteOf(e)
  }

  /** Of the rows, the first of each site is taken, eight at most, and none that comes after a site left out. */
  ghost predicate FirstEight(rows: seq<MapEdge>, taken: seq<MapEdge>) {
    && NoDups(taken) && OneASite(taken)
    && |taken| == (if |Sites(rows)| <= 8 then |Sites(rows)| else 8)
    && (forall y :: y in taken ==> IsFirst(rows, y))
    && (forall x, y :: x in rows && !HasSite(taken, SiteOf(x)) && y in taken ==> Precedes(rows, y, x))
  }

  ghost predicate IsFirst(rows: seq<MapEdge>, y: MapEdge) {
    exists i :: 0 <= i < |rows| && rows[i] == y && FirstOfSite(rows, i)
  }

  // ----- The steps do that

  lemma AskedAreWanted(v: MapView, key: Key, intents: set<Intent>, raw: seq<MapEdge>, more: seq<MapEdge>)
    requires NoDups(Kept(v, key, raw, more)) && forall e :: e in more ==> e !in raw
    ensures var asked := Filter(Kept(v, key, raw, more), Asked(intents)); var wanted := Wanted(v, key, intents, raw, more);
            && NoDups(asked) && |asked| == |wanted| && forall e :: e in asked <==> e in wanted
  {
    var asked, wanted := Filter(Kept(v, key, raw, more), Asked(intents)), Wanted(v, key, intents, raw, more);
    FilterKeeps(raw, Fitting(v, key));
    FilterKeeps(Kept(v, key, raw, more), Asked(intents));
    forall e ensures Fits(v, key, e) <==> CallFits(v, key, e) {
      FitsAndCurrent(v, key, e);
    }
    SizeOfNoDups(asked);
    assert (set e | e in asked) == wanted;
  }

  lemma FirstOfSorted(intents: set<Intent>, asked: seq<MapEdge>, sorted: seq<MapEdge>, n: nat)
    requires NoDups(asked) && Sorts(intents, asked, sorted)
    ensures var rows := First(sorted, n);
            && NoDups(rows) && (forall e :: e in rows ==> e in asked) && |rows| == (if |asked| <= n then |asked| else n)
            && (forall x, y :: x in asked && x !in rows && y in rows ==> !RankedBefore(intents, x, y))
            && (forall i, j :: 0 <= i < j < |rows| ==> !RankedBefore(intents, rows[j], rows[i]))
  {
    var rows := First(sorted, n);
    PermutationHasNoDups(asked, sorted);
    SameLength(asked, sorted);
    assert forall e :: e in rows ==> e in sorted;
    forall x, y | x in asked && x !in rows && y in rows ensures !RankedBefore(intents, x, y) {
      if RankedBefore(intents, x, y) {
        PrecededInFirst(sorted, n, x, y);
      }
    }
    forall i, j | 0 <= i < j < |rows| ensures !RankedBefore(intents, rows[j], rows[i]) {
      assert rows[i] == sorted[i] && rows[j] == sorted[j];
      if RankedBefore(intents, rows[j], rows[i]) {
        PrecedesMeansBefore(sorted, j, i);
      }
    }
  }

  /** The rows are the first of what is wanted. */
  lemma RowsAreRanked(v: MapView, key: Key, intents: set<Intent>, s: Steps)
    requires Ordered(v) && Stepped(v, key, intents, s) && forall e :: e in s.more ==> e !in s.raw
    ensures Ranked(v, key, intents, s)
  {
    var asked := Filter(Kept(v, key, s.raw, s.more), Asked(intents));
    AskedAreWanted(v, key, intents, s.raw, s.more);
    assert Sorts(intents, asked, v.sort(intents, asked));
    FirstOfSorted(intents, asked, v.sort(intents, asked), 512);
  }

  lemma {:induction false} FirstRowsSize(s: seq<MapEdge>)
    ensures |FirstRows(s)| == |Sites(s)|
  {
    if s != [] {
      var init, last := s[..|s| - 1], s[|s| - 1];
      assert s == init + [last];
      FirstRowsSize(init);
      FirstRowsMore(init, last);
      assert Sites(s) == Sites(init) + {SiteOf(last)};
      assert SiteOf(last) in Sites(init) <==> exists x :: x in init && SiteOf(x) == SiteOf(last);
    }
  }

  lemma {:induction false} FirstRowsInOrder(s: seq<MapEdge>, i: nat, j: nat)
    requires NoDups(s) && i < j < |FirstRows(s)|
    ensures Precedes(s, FirstRows(s)[i], FirstRows(s)[j])
  {
    var init, last := s[..|s| - 1], s[|s| - 1];
    assert s == init + [last];
    FirstRowsAre(init);
    FirstRowsMore(init, last);
    if j < |FirstRows(init)| {
      FirstRowsInOrder(init, i, j);
      PrecedesInSum(init, [last], FirstRows(init)[i], FirstRows(init)[j]);
    } else {
      assert FirstRows(init)[i] in FirstRows(init);
      var k :| 0 <= k < |init| && init[k] == FirstRows(init)[i];
      assert s[k] == FirstRows(s)[i] && s[|s| - 1] == FirstRows(s)[j];
    }
  }

  lemma TakenComeFirst(rows: seq<MapEdge>, x: MapEdge, y: MapEdge)
    requires NoDups(rows) && x in rows && y in First(FirstRows(rows), 8) && !HasSite(First(FirstRows(rows), 8), SiteOf(x))
    ensures Precedes(rows, y, x)
  {
    var all, taken := FirstRows(rows), First(FirstRows(rows), 8);
    FirstRowsAre(rows);
    FirstRowsRepresent(rows, x);
    var f :| f in all && SiteOf(f) == SiteOf(x);
    var i :| 0 <= i < |taken| && taken[i] == y;
    var j :| 0 <= j < |all| && all[j] == f;
    BeyondFirst(all, 8, j);
    FirstRowsInOrder(rows, i, j);
    var a, b :| 0 <= a < b < |rows| && rows[a] == y && rows[b] == f;
    var c :| 0 <= c < |rows| && rows[c] == x;
    assert FirstOfSite(rows, b);
    assert b <= c;
  }

  lemma TakenAreFirst(rows: seq<MapEdge>)
    requires NoDups(rows)
    ensures FirstEight(rows, First(FirstRows(rows), 8))
  {
    var all, taken := FirstRows(rows), First(FirstRows(rows), 8);
    FirstRowsAre(rows);
    FirstRowsSize(rows);
    FirstRowsAreOneASite(rows);
    forall y | y in taken ensures IsFirst(rows, y) {
      assert y in all;
      var i :| 0 <= i < |rows| && rows[i] == y;
      assert FirstOfSite(rows, i);
    }
    forall x, y | x in rows && !HasSite(taken, SiteOf(x)) && y in taken ensures Precedes(rows, y, x) {
      TakenComeFirst(rows, x, y);
    }
  }
}
