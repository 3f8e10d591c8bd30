/** The call graph in the edge table, and the bounded list of one symbol's callers (src/project_index.rs). */
module CallGraph {
  import opened Utf8
  import opened Sets
  import opened Sequences
  import opened Projection

  const MAX_PROJECT_MAP_TEST_CALLERS_PER_NODE := 16
  const MAX_PROJECT_MAP_NON_TEST_CALLERS_PER_NODE := 8

  /** One caller of a symbol: the edge that stands for it. */
  datatype Call = Call(edge: EdgeRow, isTest: bool)

  /** A symbol still to be expanded, and the symbols between it and the target, nearest the target first. */
  datatype State = State(current: Key, chain: seq<Key>)

  /** What the search reads: the tables, whether a call site in the working tree fits the symbol it was
      resolved to, whether a symbol's file is still the one indexed, and the orders rows are taken in. */
  datatype View = View(
    symbols: set<SymbolRow>, edges: set<EdgeRow>, files: set<Path>,
    compatible: (EdgeRow, Key) -> bool, verified: Key -> bool,
    rows: set<Call> -> seq<Call>, sortCalls: seq<Call> -> seq<Call>, sortStates: seq<State> -> seq<State>)

  ghost predicate WellFormed(g: View) {
    && PrimaryKeys(g.symbols)
    && (forall e :: e in g.edges && e.kind == Calls ==> e.confidence != Extracted)
    && (forall a, b :: a in g.edges && b in g.edges && a.kind == b.kind == Calls && a.source == b.source ==> a.path == b.path)
    && (forall s :: Enumerates(g.rows(s), s))
    && (forall s :: multiset(g.sortCalls(s)) == multiset(s))
    && (forall s :: multiset(g.sortStates(s)) == multiset(s))
  }

  ghost predicate Enumerates(q: seq<Call>, s: set<Call>) {
    |q| == |s| && forall x :: x in q <==> x in s
  }

  /** What the rebuilt edge table brings to that. */
  lemma RebuiltEdgesFit(symbols: set<SymbolRow>, references: set<ReferenceRow>)
    requires SourcesOwnPaths(references) && ReferenceKinds(references)
    ensures forall e :: e in Rebuild(symbols, references) && e.kind == Calls ==> e.confidence != Extracted
    ensures forall a, b | a in Rebuild(symbols, references) && b in Rebuild(symbols, references)
              :: a.kind == b.kind == Calls && a.source == b.source ==> a.path == b.path
  {
  }

  // ----- The call graph

  predicate IsTest(g: View, k: Key) {
    exists s :: s in g.symbols && s.symbol.key == k && s.symbol.isTest
  }

  predicate Known(g: View, k: Key) {
    exists s :: s in g.symbols && s.symbol.key == k && s.path in g.files
  }

  /** A `calls` edge, of any confidence. */
  predicate CallEdge(g: View, e: EdgeRow, a: Key, b: Key) {
    e in g.edges && e.kind == Calls && e.source == a && e.target == b && Known(g, a) && e.path in g.files
  }

  ghost predicate CallsTo(g: View, a: Key, b: Key) {
    exists e :: CallEdge(g, e, a, b)
  }

  predicate InferredCall(g: View, e: EdgeRow, a: Key, b: Key) {
    CallEdge(g, e, a, b) && e.confidence == Inferred && g.compatible(e, b)
  }

  ghost predicate InferredTo(g: View, a: Key, b: Key) {
    exists e :: InferredCall(g, e, a, b)
  }

  /** A symbol a chain may pass through. */
  predicate Passable(g: View, target: Key, m: Key) {
    m != target && !IsTest(g, m)
  }

  ghost predicate Link(g: View, target: Key, n: Key, m: Key) {
    Passable(g, target, m) && CallsTo(g, n, m)
  }

  /** A chain of `d` calls leads from `n` to the target, through symbols that are neither tests nor the target. */
  ghost predicate Reaches(g: View, target: Key, n: Key, d: nat)
    decreases d
  {
    if d == 0 then false
    else if d == 1 then CallsTo(g, n, target)
    else exists m :: Link(g, target, n, m) && Reaches(g, target, m, d - 1)
  }

  lemma ReachesThrough(g: View, target: Key, n: Key, m: Key, d: nat)
    requires Link(g, target, n, m) && Reaches(g, target, m, d)
    ensures Reaches(g, target, n, d + 1)
  {
  }

  // ----- The callers of one symbol

  predicate NotAfter(a: EdgeRow, b: EdgeRow) {
    a.start < b.start || (a.start == b.start && a.end <= b.end)
  }

  predicate SameCall(a: EdgeRow, b: EdgeRow) {
    a.source == b.source && a.target == b.target && a.kind == b.kind && a.confidence == b.confidence
  }

  /** The first of several edges for the same call. (They have one source, so one path.) */
  predicate Representative(g: View, e: EdgeRow) {
    e in g.edges && forall x :: x in g.edges && SameCall(x, e) ==> NotAfter(e, x)
  }

  /** It stands for the call because no other edge for it begins or ends before. */
  lemma StandsFor(g: View, e: EdgeRow, x: EdgeRow)
    requires Representative(g, e) && x in g.edges && x.source == e.source && x.target == e.target && x.kind == e.kind
    requires x.confidence == e.confidence
    ensures e.start < x.start || (e.start == x.start && e.end <= x.end)
  {
  }

  predicate IsRow(g: View, target: Key, isTest: bool, e: EdgeRow, s: SymbolRow) {
    && e.target == target && e.kind == Calls && e.confidence == Inferred && Representative(g, e)
    && s.symbol.key == e.source && s.symbol.isTest == isTest && s.path in g.files && e.path in g.files
  }

  /** The rows the query for one class of callers ranges over. */
  function Rows(g: View, target: Key, isTest: bool): set<Call> {
    set e, s | e in g.edges && s in g.symbols && IsRow(g, target, isTest, e, s) :: Call(e, isTest)
  }

  predicate Compatible(g: View, target: Key, rows: set<Call>) {
    forall c :: c in rows ==> g.compatible(c.edge, target)
  }

  predicate Ambiguity(g: View, target: Key) {
    exists e :: e in g.edges && e.target == target && e.kind == Calls && e.confidence == Ambiguous
  }

  /** Nothing keeps the callers of this symbol from being listed in full. */
  predicate Listable(g: View, target: Key) {
    && !Ambiguity(g, target)
    && Compatible(g, target, Rows(g, target, true)) && |Rows(g, target, true)| <= MAX_PROJECT_MAP_TEST_CALLERS_PER_NODE
    && Compatible(g, target, Rows(g, target, false)) && |Rows(g, target, false)| <= MAX_PROJECT_MAP_NON_TEST_CALLERS_PER_NODE
  }

  function Callers(g: View, target: Key): nat {
    |Rows(g, target, true)| + |Rows(g, target, false)|
  }

  function FitFor(g: View, target: Key): Call -> bool {
    (c: Call) => g.compatible(c.edge, target)
  }

  /** The rows of one class the query returns: no more than four times the cap and one. */
  function Scanned(g: View, target: Key, isTest: bool, cap: nat): seq<Call> {
    First(g.rows(Rows(g, target, isTest)), 4 * cap + 1)
  }

  /** The callers of one class that are listed: the first that fit, up to the cap. */
  function ListedIn(g: View, target: Key, isTest: bool, cap: nat): seq<Call> {
    First(Filter(Scanned(g, target, isTest, cap), FitFor(g, target)), cap)
  }

  lemma ScannedAreRows(g: View, target: Key, isTest: bool, cap: nat)
    requires WellFormed(g)
    ensures var (rows, raw) := (Rows(g, target, isTest), Scanned(g, target, isTest, cap));
            && (forall c :: c in raw ==> c in rows)
            && (|raw| <= 4 * cap ==> Enumerates(raw, rows))
            && (|raw| == 4 * cap + 1 ==> |rows| > cap)
  {
    var rows := Rows(g, target, isTest);
    assert Enumerates(g.rows(rows), rows);
  }

  method KeepFitting(g: View, target: Key, raw: seq<Call>) returns (calls: seq<Call>, pruned: bool)
    ensures calls == Filter(raw, FitFor(g, target))
    ensures !pruned <==> forall i :: 0 <= i < |raw| ==> g.compatible(raw[i].edge, target)
  {
    calls, pruned := [], false;
    for i := 0 to |raw|
      invariant calls == Filter(raw[..i], FitFor(g, target))
      invariant !pruned <==> forall j :: 0 <= j < i ==> g.compatible(raw[j].edge, target)
    {
      FilterNext(raw, i, FitFor(g, target));
      if g.compatible(raw[i].edge, target) {
        calls := calls + [raw[i]];
      } else {
        pruned := true;
      }
    }
    assert raw[..|raw|] == raw;
  }

  lemma ListedFit(g: View, target: Key, isTest: bool, cap: nat)
    requires WellFormed(g)
    ensures forall c :: c in ListedIn(g, target, isTest, cap) ==> c in Rows(g, target, isTest) && g.compatible(c.edge, target)
  {
    var raw := Scanned(g, target, isTest, cap);
    ScannedAreRows(g, target, isTest, cap);
    FilterKeeps(raw, FitFor(g, target));
    forall c | c in ListedIn(g, target, isTest, cap) ensures c in Rows(g, target, isTest) && g.compatible(c.edge, target) {
      assert c in Filter(raw, FitFor(g, target)) && FitFor(g, target)(c);
    }
  }

  lemma ListedWhole(g: View, target: Key, isTest: bool, cap: nat)
    requires WellFormed(g) && var raw := Scanned(g, target, isTest, cap);
             |raw| != 4 * cap + 1 && forall i :: 0 <= i < |raw| ==> g.compatible(raw[i].edge, target)
    ensures Filter(Scanned(g, target, isTest, cap), FitFor(g, target)) == Scanned(g, target, isTest, cap)
    ensures Enumerates(Scanned(g, target, isTest, cap), Rows(g, target, isTest)) && Compatible(g, target, Rows(g, target, isTest))
  {
    var raw := Scanned(g, target, isTest, cap);
    ScannedAreRows(g, target, isTest, cap);
    FilterAll(raw, FitFor(g, target));
    forall c | c in Rows(g, target, isTest) ensures g.compatible(c.edge, target) {
      assert c in raw;
    }
  }

  lemma CutForReason(g: View, target: Key, isTest: bool, cap: nat, i: nat)
    requires WellFormed(g) && i < |Scanned(g, target, isTest, cap)| && !g.compatible(Scanned(g, target, isTest, cap)[i].edge, target)
    ensures !Compatible(g, target, Rows(g, target, isTest))
  {
    ScannedAreRows(g, target, isTest, cap);
    assert Scanned(g, target, isTest, cap)[i] in Scanned(g, target, isTest, cap);
  }

  method CallersInClass(g: View, target: Key, isTest: bool, cap: nat) returns (calls: seq<Call>, truncated: bool, pruned: bool)
    requires WellFormed(g)
    // Whatever the flags say, the first fitting callers are listed, up to the cap; ...
    ensures calls == ListedIn(g, target, isTest, cap)
    ensures forall c :: c in calls ==> c in Rows(g, target, isTest) && g.compatible(c.edge, target)
    // ... with neither up, all callers are, and that is so exactly when all fit and the cap allows it.
    ensures !truncated && !pruned <==> Compatible(g, target, Rows(g, target, isTest)) && |Rows(g, target, isTest)| <= cap
    ensures !truncated && !pruned ==> Enumerates(calls, Rows(g, target, isTest))
  {
    ghost var rows := Rows(g, target, isTest);
    var raw := Scanned(g, target, isTest, cap);
    ScannedAreRows(g, target, isTest, cap);
    truncated := |raw| == 4 * cap + 1;
    calls, pruned := KeepFitting(g, target, raw);
    if pruned {
      ghost var i :| 0 <= i < |raw| && !g.compatible(raw[i].edge, target);
      CutForReason(g, target, isTest, cap, i);
    } else if !truncated {
      ListedWhole(g, target, isTest, cap);
    }
    ListedFit(g, target, isTest, cap);
    if |calls| > cap {
      truncated := true;
      calls := calls[..cap];
    }
  }

  /** A caller the search looks at: one of the first 16 tests or 8 others. */
  predicate IsListed(g: View, target: Key, c: Call) {
    c in ListedIn(g, target, true, 16) || c in ListedIn(g, target, false, 8)
  }

  /** `unique_incoming_callers`. */
  method IncomingCallers(g: View, target: Key) returns (calls: seq<Call>, truncated: bool, testLeadsTruncated: bool)
    requires WellFormed(g)
    ensures forall c :: c in calls ==> InferredCall(g, c.edge, c.edge.source, target) && (c.isTest <==> IsTest(g, c.edge.source))
    ensures !truncated <==> Listable(g, target)
    ensures !truncated ==> |calls| == Callers(g, target) && forall a :: CallsTo(g, a, target) ==> Lists(calls, a)
    ensures |calls| == |ListedIn(g, target, true, 16)| + |ListedIn(g, target, false, 8)|
    ensures forall c :: c in calls <==> IsListed(g, target, c)
    ensures testLeadsTruncated == truncated
  {
    var ambiguityPruned := Ambiguity(g, target);
    var tests, testsTruncated, testsPruned := CallersInClass(g, target, true, MAX_PROJECT_MAP_TEST_CALLERS_PER_NODE);
    var others, othersTruncated, othersPruned := CallersInClass(g, target, false, MAX_PROJECT_MAP_NON_TEST_CALLERS_PER_NODE);
    var callersTruncated := testsTruncated || othersTruncated;
    var resolutionPruned := testsPruned || othersPruned;
    calls := g.sortCalls(tests + others);
    truncated := ambiguityPruned || callersTruncated || resolutionPruned;
    testLeadsTruncated := ambiguityPruned || callersTruncated || testsTruncated || resolutionPruned;
    Permuted(g, tests + others);
    forall c | c in calls
      ensures InferredCall(g, c.edge, c.edge.source, target) && (c.isTest <==> IsTest(g, c.edge.source))
    {
      assert c in tests || c in others;
      RowIsCall(g, target, c);
    }
    if !truncated {
      forall a | CallsTo(g, a, target) ensures Lists(calls, a) {
        var c := CallHasRow(g, a, target);
        assert c in tests || c in others;
        assert c in tests + others;
      }
    }
  }

  ghost predicate Lists(calls: seq<Call>, a: Key) {
    exists c :: c in calls && c.edge.source == a
  }

  lemma Permuted(g: View, calls: seq<Call>)
    requires WellFormed(g)
    ensures forall c :: c in g.sortCalls(calls) <==> c in calls
    ensures |g.sortCalls(calls)| == |calls|
  {
    assert |multiset(g.sortCalls(calls))| == |multiset(calls)|;
    forall c ensures c in g.sortCalls(calls) <==> c in calls {
      assert c in g.sortCalls(calls) <==> c in multiset(g.sortCalls(calls));
      assert c in calls <==> c in multiset(calls);
    }
  }

  lemma RowIsCall(g: View, target: Key, c: Call)
    requires WellFormed(g) && c in Rows(g, target, c.isTest) && g.compatible(c.edge, target)
    ensures InferredCall(g, c.edge, c.edge.source, target) && (c.isTest <==> IsTest(g, c.edge.source))
  {
  }

  lemma {:induction false} FirstOf(edges: set<EdgeRow>) returns (e: EdgeRow)
    requires edges != {}
    ensures e in edges && forall x :: x in edges ==> NotAfter(e, x)
    decreases |edges|
  {
    e :| e in edges;
    if edges != {e} {
      var f := FirstOf(edges - {e});
      assert forall x :: x in edges ==> x == e || x in edges - {e};
      if !NotAfter(e, f) {
        e := f;
      }
    }
  }

  /** Unless some call of the target is ambiguous, the query has a row for each of its callers. */
  lemma CallHasRow(g: View, a: Key, target: Key) returns (c: Call)
    requires WellFormed(g) && CallsTo(g, a, target) && !Ambiguity(g, target)
    ensures c in Rows(g, target, true) || c in Rows(g, target, false)
    ensures c.edge.source == a
  {
    var e :| CallEdge(g, e, a, target);
    var s :| s in g.symbols && s.symbol.key == a && s.path in g.files;
    var all := set x | x in g.edges && SameCall(x, e);
    assert e in all;
    var f := FirstOf(all);
    assert Representative(g, f);
    c := Call(f, s.symbol.isTest);
    assert IsRow(g, target, s.symbol.isTest, f, s);
  }

  // ----- All callers of several symbols

  function RowsInto(g: View, targets: set<Key>): set<Call> {
    set e, s | e in g.edges && s in g.symbols && e.target in targets && IsRow(g, e.target, s.symbol.isTest, e, s) :: Call(e, s.symbol.isTest)
  }

  lemma InRowsInto(g: View, targets: set<Key>, c: Call)
    ensures c in RowsInto(g, targets) <==> c.edge.target in targets && c in Rows(g, c.edge.target, c.isTest)
  {
  }

  lemma RowsIntoOneMore(g: View, targets: set<Key>, m: Key)
    requires m !in targets
    ensures |RowsInto(g, targets + {m})| == |RowsInto(g, targets)| + Callers(g, m)
  {
    var before, after, tests, others := RowsInto(g, targets), RowsInto(g, targets + {m}), Rows(g, m, true), Rows(g, m, false);
    forall c ensures c in after <==> c in before || c in tests || c in others {
      InRowsInto(g, targets, c);
      InRowsInto(g, targets + {m}, c);
      InEither(g, m, c);
    }
    forall c | c in before ensures c !in tests && c !in others {
      InRowsInto(g, targets, c);
      InEither(g, m, c);
    }
    forall c | c in tests ensures c !in others {
      InEither(g, m, c);
    }
    SizeOfThree(before, tests, others, after);
  }

  lemma InEither(g: View, m: Key, c: Call)
    ensures c in Rows(g, m, true) || c in Rows(g, m, false) <==> c.edge.target == m && c in Rows(g, m, c.isTest)
    ensures !(c in Rows(g, m, true) && c in Rows(g, m, false))
  {
  }

  lemma SizeOfThree<T>(a: set<T>, b: set<T>, c: set<T>, all: set<T>)
    requires forall x :: x in all <==> x in a || x in b || x in c
    requires a !! b !! c
    ensures |all| == |a| + |b| + |c|
  {
    assert all == a + b + c;
  }

  lemma RowsIntoMore(g: View, some: set<Key>, all: set<Key>)
    requires some <= all
    ensures |RowsInto(g, some)| <= |RowsInto(g, all)|
  {
    SubsetSize(RowsInto(g, some), RowsInto(g, all));
  }
}
