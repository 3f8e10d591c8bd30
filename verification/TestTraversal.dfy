/** Tests that reach a symbol through other functions: a search of the call graph that is bounded in
    depth, in callers per symbol and in symbols looked at, and says when a bound was met
    (src/project_index.rs). */
module TestTraversal {
  import opened Projection
  import opened CallGraph
  import opened TraversalTrace
  import opened Sequences

  const MAX_PROJECT_MAP_TEST_TRAVERSAL_NODES := 256
  const MAX_PROJECT_MAP_TEST_HOPS := 3

  // ----- What the search says

  /** The test calls the first symbol of `via`, each of those the next, and the last one the target. */
  ghost predicate RealChain(g: View, target: Key, t: Key, l: Lead) {
    && l.via != []
    && InferredCall(g, l.edge, t, l.via[0])
    && (forall i :: 0 <= i < |l.via| - 1 ==> InferredTo(g, l.via[i], l.via[i + 1]))
    && InferredTo(g, l.via[|l.via| - 1], target)
    && (forall i :: 0 <= i < |l.via| ==> Passable(g, target, l.via[i]) && g.verified(l.via[i]))
    && (forall i, j :: 0 <= i < j < |l.via| ==> l.via[i] != l.via[j])
  }

  ghost predicate GoodLead(g: View, target: Key, t: Key, l: Lead) {
    && IsTest(g, t)
    && RealChain(g, target, t, l)
    && l.hops == |l.via| + 1 <= MAX_PROJECT_MAP_TEST_HOPS
  }

  ghost predicate ReachesTarget(g: View, target: Key, t: Key) {
    IsTest(g, t) && exists d: nat :: d >= 2 && Reaches(g, target, t, d)
  }

  // ----- What it keeps

  ghost predicate VisitedSound(g: View, target: Key, visited: map<Key, nat>, k: nat) {
    && target in visited && visited[target] == 0
    && forall v :: v in visited && v != target ==> 1 <= visited[v] <= k && Passable(g, target, v) && Reaches(g, target, v, visited[v])
  }

  ghost predicate GoodState(g: View, target: Key, visited: map<Key, nat>, st: State, d: nat) {
    && |st.chain| == d
    && st.current == (if d == 0 then target else st.chain[d - 1])
    && (forall i :: 0 <= i < d ==> st.chain[i] in visited && visited[st.chain[i]] == i + 1)
    && (forall i :: 0 <= i < d ==> Passable(g, target, st.chain[i]))
    && (d > 0 ==> InferredTo(g, st.chain[0], target))
    && (forall i :: 0 < i < d ==> InferredTo(g, st.chain[i], st.chain[i - 1]))
  }

  ghost predicate StatesGood(g: View, target: Key, visited: map<Key, nat>, states: seq<State>, d: nat) {
    forall st :: st in states ==> GoodState(g, target, visited, st, d)
  }

  ghost predicate HasState(states: seq<State>, v: Key) {
    exists st :: st in states && st.current == v
  }

  ghost predicate StatesCover(visited: map<Key, nat>, states: seq<State>, d: nat) {
    forall v :: v in visited && visited[v] == d ==> HasState(states, v)
  }

  ghost predicate ResultsGood(g: View, target: Key, results: map<Key, Lead>, k: nat) {
    forall t :: t in results ==> GoodLead(g, target, t, results[t]) && results[t].hops <= k
  }

  predicate DistinctStates(states: seq<State>) {
    forall i, j :: 0 <= i < j < |states| ==> states[i].current != states[j].current
  }

  /** The states in `next` are exactly those of the symbols first reached at distance `k`. */
  ghost predicate Inv(g: View, target: Key, k: nat, p: Progress) {
    && VisitedSound(g, target, p.visited, k)
    && ResultsGood(g, target, p.results, k)
    && StatesGood(g, target, p.visited, p.next, k)
    && StatesCover(p.visited, p.next, k)
    && DistinctStates(p.next)
  }

  ghost predicate Grows(p: Progress, q: Progress, k: nat) {
    && (forall v :: v in p.visited ==> v in q.visited && q.visited[v] == p.visited[v])
    && (forall v :: v in q.visited && v !in p.visited ==> q.visited[v] == k)
    && (forall t :: t in p.results ==> t in q.results && q.results[t] == p.results[t])
  }

  /** What expanding a symbol at depth `k` achieves for one of its callers, when no lead was lost. */
  ghost predicate Met(g: View, target: Key, k: nat, p: Progress, lost: bool, a: Key) {
    && (Passable(g, target, a) ==> a in p.visited)
    && (IsTest(g, a) && k >= 2 && !lost ==> a in p.results)
  }

  ghost predicate MetFirst(g: View, target: Key, k: nat, p: Progress, lost: bool, calls: seq<Call>, n: nat)
    requires n <= |calls|
  {
    forall j :: 0 <= j < n ==> Met(g, target, k, p, lost, calls[j].edge.source)
  }

  ghost predicate Expanded(g: View, target: Key, k: nat, p: Progress, lost: bool, m: Key) {
    forall a :: CallsTo(g, a, m) ==> Met(g, target, k, p, lost, a)
  }

  /** A symbol on the way to the target whose file is no longer the one indexed. */
  ghost predicate Changed(g: View, target: Key, visited: map<Key, nat>, d: nat) {
    exists v :: v in visited && v != target && visited[v] <= d && !g.verified(v)
  }

  // ----- The search

  lemma CallerReaches(g: View, target: Key, visited: map<Key, nat>, st: State, k: nat, a: Key)
    requires k >= 1 && VisitedSound(g, target, visited, k) && GoodState(g, target, visited, st, k - 1) && InferredTo(g, a, st.current)
    ensures Reaches(g, target, a, k)
  {
    var e :| InferredCall(g, e, a, st.current);
    assert CallsTo(g, a, st.current);
    if k > 1 {
      assert Reaches(g, target, st.current, k - 1);
      ReachesThrough(g, target, a, st.current, k - 1);
    }
  }

  /** The chain back from a caller at depth `k`, every symbol's file checked again. */
  method Via(g: View, chain: seq<Key>) returns (via: seq<Key>, ok: bool)
    ensures ok <==> AllVerified(g, chain)
    ensures ok ==> via == Backwards(chain)
  {
    via := [];
    var i := |chain|;
    while i > 0
      invariant 0 <= i <= |chain| && |via| == |chain| - i
      invariant forall j :: 0 <= j < |via| ==> via[j] == chain[|chain| - 1 - j]
      invariant forall j :: i <= j < |chain| ==> g.verified(chain[j])
    {
      i := i - 1;
      if !g.verified(chain[i]) {
        return via, false;
      }
      via := via + [chain[i]];
    }
    return via, true;
  }

  lemma ViaIsReal(g: View, target: Key, visited: map<Key, nat>, st: State, d: nat, t: Key, l: Lead)
    requires d >= 1 && GoodState(g, target, visited, st, d) && InferredCall(g, l.edge, t, st.current)
    requires |l.via| == d && forall i :: 0 <= i < d ==> l.via[i] == st.chain[d - 1 - i]
    requires forall i :: 0 <= i < d ==> g.verified(st.chain[i])
    ensures RealChain(g, target, t, l)
  {
  }

  lemma RecordIsGood(g: View, target: Key, k: nat, st: State, c: Call, p: Progress)
    requires 1 <= k <= MAX_PROJECT_MAP_TEST_HOPS && ResultsGood(g, target, p.results, k) && GoodState(g, target, p.visited, st, k - 1)
    requires InferredCall(g, c.edge, c.edge.source, st.current) && IsTest(g, c.edge.source)
    ensures ResultsGood(g, target, Record(g, p.results, Look(st, c)), k)
  {
    if MakesLead(g, Look(st, c)) {
      ViaIsReal(g, target, p.visited, st, k - 1, c.edge.source, LeadOf(Look(st, c)));
    }
  }

  /** A test that calls the symbol: a lead, unless it calls the target itself or is one already. */
  method MeetTest(g: View, target: Key, k: nat, st: State, c: Call, p: Progress) returns (results: map<Key, Lead>, stale: bool)
    requires 1 <= k <= MAX_PROJECT_MAP_TEST_HOPS && ResultsGood(g, target, p.results, k) && GoodState(g, target, p.visited, st, k - 1)
    requires InferredCall(g, c.edge, c.edge.source, st.current) && IsTest(g, c.edge.source) && c.isTest
    ensures results == Record(g, p.results, Look(st, c))
    ensures ResultsGood(g, target, results, k) && (forall t :: t in p.results ==> t in results && results[t] == p.results[t])
    ensures k >= 2 && !stale ==> c.edge.source in results
    ensures stale ==> Changed(g, target, p.visited, k - 1)
  {
    RecordIsGood(g, target, k, st, c, p);
    results, stale := p.results, false;
    var a := c.edge.source;
    if k >= 2 && a !in p.results {
      var via, verified := Via(g, st.chain);
      stale := !verified;
      if verified {
        results := p.results[a := Lead(c.edge, k, via)];
      }
    }
  }

  /** One caller of one symbol. */
  method Meet(g: View, target: Key, k: nat, st: State, c: Call, p: Progress) returns (q: Progress, stale: bool)
    requires 1 <= k <= MAX_PROJECT_MAP_TEST_HOPS && Inv(g, target, k, p) && GoodState(g, target, p.visited, st, k - 1)
    requires InferredCall(g, c.edge, c.edge.source, st.current) && (c.isTest <==> IsTest(g, c.edge.source))
    ensures q == After(g, k, p, Look(st, c))
    ensures Inv(g, target, k, q) && Grows(p, q, k)
    ensures Met(g, target, k, q, stale, c.edge.source)
    ensures stale ==> Changed(g, target, q.visited, k - 1)
  {
    q, stale := p, false;
    var a := c.edge.source;
    if c.isTest {
      var results;
      results, stale := MeetTest(g, target, k, st, c, p);
      q := p.(results := results);
      return;
    }
    if a in p.visited && p.visited[a] <= k {
      return;
    }
    CallerReaches(g, target, p.visited, st, k, a);
    VisitStates(g, target, k, st, a, p);
    VisitCovers(k, st, a, p);
    VisitDistinct(g, target, k, st, a, p);
    q := Visit(p, k, st, a);
  }

  lemma VisitStates(g: View, target: Key, k: nat, st: State, a: Key, p: Progress)
    requires k >= 1 && StatesGood(g, target, p.visited, p.next, k) && GoodState(g, target, p.visited, st, k - 1)
    requires InferredTo(g, a, st.current) && Passable(g, target, a) && a !in p.visited
    ensures StatesGood(g, target, Visit(p, k, st, a).visited, Visit(p, k, st, a).next, k)
  {
    var q := Visit(p, k, st, a);
    assert GoodState(g, target, q.visited, State(a, st.chain + [a]), k);
    forall s | s in q.next ensures GoodState(g, target, q.visited, s, k) {
      if s in p.next {
        assert GoodState(g, target, p.visited, s, k);
      }
    }
  }

  lemma VisitCovers(k: nat, st: State, a: Key, p: Progress)
    requires StatesCover(p.visited, p.next, k)
    ensures StatesCover(Visit(p, k, st, a).visited, Visit(p, k, st, a).next, k)
  {
  }

  lemma VisitDistinct(g: View, target: Key, k: nat, st: State, a: Key, p: Progress)
    requires k >= 1 && StatesGood(g, target, p.visited, p.next, k) && DistinctStates(p.next) && a !in p.visited
    ensures DistinctStates(Visit(p, k, st, a).next)
  {
    forall s | s in p.next ensures s.current != a {
      assert GoodState(g, target, p.visited, s, k);
    }
  }

  lemma GrownState(g: View, target: Key, p: Progress, q: Progress, st: State, k: nat)
    requires k >= 1 && GoodState(g, target, p.visited, st, k - 1) && Grows(p, q, k)
    ensures GoodState(g, target, q.visited, st, k - 1)
  {
  }

  ghost predicate CallsInto(g: View, m: Key, calls: seq<Call>) {
    forall c :: c in calls ==> InferredCall(g, c.edge, c.edge.source, m) && (c.isTest <==> IsTest(g, c.edge.source))
  }

  /** What the first `n` callers have achieved. */
  ghost predicate MetSoFar(g: View, target: Key, k: nat, p: Progress, q: Progress, lost: bool, calls: seq<Call>, n: nat)
    requires 1 <= k && n <= |calls|
  {
    && Inv(g, target, k, q) && Grows(p, q, k)
    && MetFirst(g, target, k, q, lost, calls, n)
    && (lost ==> Changed(g, target, q.visited, k - 1))
  }

  /** One turn of the loop below. */
  method MeetNext(g: View, target: Key, k: nat, st: State, calls: seq<Call>, n: nat, ghost p: Progress, q: Progress, lost: bool,
                  ghost walked: seq<Look>)
    returns (r: Progress, stale: bool)
    requires 1 <= k <= MAX_PROJECT_MAP_TEST_HOPS && n < |calls|
    requires GoodState(g, target, p.visited, st, k - 1) && CallsInto(g, st.current, calls)
    requires MetSoFar(g, target, k, p, q, lost, calls, n)
    requires Looked(g, target, k, q, walked, st, calls, n) && IsListed(g, st.current, calls[n])
    ensures MetSoFar(g, target, k, p, r, stale, calls, n + 1)
    ensures Looked(g, target, k, r, walked, st, calls, n + 1)
  {
    assert calls[n] in calls;
    GrownState(g, target, p, q, st, k);
    var missed;
    r, missed := Meet(g, target, k, st, calls[n], q);
    stale := lost || missed;
    MetStays(g, target, k, q, lost, r, stale, calls, n);
    ChangedStays(g, target, q, r, k);
    GrowsOn(p, q, r, k);
    LookedMore(g, target, k, q, walked, st, calls, n);
  }

  /** The loop over the callers of one symbol, until the limit on callers looked at is met. */
  method MeetInTurn(g: View, target: Key, k: nat, st: State, calls: seq<Call>, p: Progress, nodes: nat, ghost walked: seq<Look>)
    returns (q: Progress, looked: nat, stale: bool, ghost n: nat)
    requires 1 <= k <= MAX_PROJECT_MAP_TEST_HOPS && nodes <= MAX_PROJECT_MAP_TEST_TRAVERSAL_NODES
    requires Inv(g, target, k, p) && GoodState(g, target, p.visited, st, k - 1) && CallsInto(g, st.current, calls)
    requires Looked(g, target, k, p, walked, st, calls, 0) && forall c :: c in calls <==> IsListed(g, st.current, c)
    ensures n <= |calls| && MetSoFar(g, target, k, p, q, stale, calls, n) && Looked(g, target, k, q, walked, st, calls, n)
    ensures if nodes + |calls| <= MAX_PROJECT_MAP_TEST_TRAVERSAL_NODES then n == |calls| && looked == nodes + n
            else nodes + n == MAX_PROJECT_MAP_TEST_TRAVERSAL_NODES && looked == nodes + n + 1
  {
    q, looked, stale, n := p, nodes, false, 0;
    for i := 0 to |calls|
      invariant n == i && looked == nodes + i <= MAX_PROJECT_MAP_TEST_TRAVERSAL_NODES
      invariant MetSoFar(g, target, k, p, q, stale, calls, i) && Looked(g, target, k, q, walked, st, calls, i)
    {
      looked := looked + 1;
      if looked > MAX_PROJECT_MAP_TEST_TRAVERSAL_NODES {
        break;
      }
      assert calls[i] in calls;
      q, stale := MeetNext(g, target, k, st, calls, i, p, q, stale, walked);
      n := i + 1;
    }
  }

  /** What that comes to. */
  method MeetAll(g: View, target: Key, k: nat, st: State, calls: seq<Call>, p: Progress, nodes: nat, ghost walked: seq<Look>)
    returns (q: Progress, looked: nat, stale: bool, ghost seen: seq<Look>)
    requires 1 <= k <= MAX_PROJECT_MAP_TEST_HOPS && nodes <= MAX_PROJECT_MAP_TEST_TRAVERSAL_NODES
    requires Inv(g, target, k, p) && GoodState(g, target, p.visited, st, k - 1) && CallsInto(g, st.current, calls)
    requires Tracks(g, target, k, p, walked, walked, nodes) && Reached(target, walked, st)
    requires forall c :: c in calls <==> IsListed(g, st.current, c)
    ensures Tracks(g, target, k, q, walked, seen, looked)
    ensures looked <= MAX_PROJECT_MAP_TEST_TRAVERSAL_NODES ==> AllLooked(g, seen, st)
    ensures Inv(g, target, k, q) && Grows(p, q, k)
    ensures looked > MAX_PROJECT_MAP_TEST_TRAVERSAL_NODES <==> nodes + |calls| > MAX_PROJECT_MAP_TEST_TRAVERSAL_NODES
    ensures looked <= MAX_PROJECT_MAP_TEST_TRAVERSAL_NODES ==> looked == nodes + |calls| && MetFirst(g, target, k, q, stale, calls, |calls|)
    ensures stale ==> Changed(g, target, q.visited, k - 1)
  {
    LookedStarts(g, target, k, p, walked, st, calls);
    ghost var n;
    q, looked, stale, n := MeetInTurn(g, target, k, st, calls, p, nodes, walked);
    seen := walked + Looks(st, calls, n);
    LookedTracks(g, target, k, q, walked, st, calls, n, looked);
    if n == |calls| {
      AllAreLooked(g, walked, st, calls);
    }
  }

  /** All callers of one symbol. */
  method Expand(g: View, target: Key, k: nat, st: State, p: Progress, nodes: nat, ghost walked: seq<Look>)
    returns (q: Progress, looked: nat, truncated: bool, testLeadsTruncated: bool, stale: bool, ghost seen: seq<Look>)
    requires WellFormed(g) && 1 <= k <= MAX_PROJECT_MAP_TEST_HOPS && nodes <= MAX_PROJECT_MAP_TEST_TRAVERSAL_NODES
    requires Inv(g, target, k, p) && GoodState(g, target, p.visited, st, k - 1)
    requires Tracks(g, target, k, p, walked, walked, nodes) && Reached(target, walked, st)
    ensures Tracks(g, target, k, q, walked, seen, looked)
    ensures looked <= MAX_PROJECT_MAP_TEST_TRAVERSAL_NODES ==> AllLooked(g, seen, st)
    ensures Inv(g, target, k, q) && Grows(p, q, k)
    ensures testLeadsTruncated == truncated
    ensures truncated <==> !Listable(g, st.current) || nodes + Callers(g, st.current) > MAX_PROJECT_MAP_TEST_TRAVERSAL_NODES
    ensures !truncated ==> looked == nodes + Callers(g, st.current)
    ensures looked > MAX_PROJECT_MAP_TEST_TRAVERSAL_NODES ==> truncated
    ensures !truncated ==> Expanded(g, target, k, q, stale, st.current)
    ensures stale ==> Changed(g, target, q.visited, k - 1)
  {
    var calls;
    calls, truncated, testLeadsTruncated := IncomingCallers(g, st.current);
    q, looked, stale, seen := MeetAll(g, target, k, st, calls, p, nodes, walked);
    if looked > MAX_PROJECT_MAP_TEST_TRAVERSAL_NODES {
      truncated := true;
      testLeadsTruncated := true;
    } else if !truncated {
      CallersAreMet(g, target, k, q, stale, calls, st.current);
    }
  }

  lemma ChangedStays(g: View, target: Key, p: Progress, q: Progress, k: nat)
    requires k >= 1 && Grows(p, q, k)
    ensures Changed(g, target, p.visited, k - 1) ==> Changed(g, target, q.visited, k - 1)
  {
  }

  lemma MetStays(g: View, target: Key, k: nat, p: Progress, lost: bool, q: Progress, nowLost: bool, calls: seq<Call>, n: nat)
    requires n <= |calls| && MetFirst(g, target, k, p, lost, calls, n) && Grows(p, q, k) && (lost ==> nowLost)
    ensures MetFirst(g, target, k, q, nowLost, calls, n)
  {
  }

  lemma GrowsOn(p: Progress, q: Progress, r: Progress, k: nat)
    requires Grows(p, q, k) && Grows(q, r, k)
    ensures Grows(p, r, k)
  {
  }

  lemma CallersAreMet(g: View, target: Key, k: nat, p: Progress, lost: bool, calls: seq<Call>, m: Key)
    requires MetFirst(g, target, k, p, lost, calls, |calls|) && forall a :: CallsTo(g, a, m) ==> Lists(calls, a)
    ensures Expanded(g, target, k, p, lost, m)
  {
  }

  function Currents(states: seq<State>): set<Key> {
    set st | st in states :: st.current
  }

  ghost predicate AllListable(g: View, states: seq<State>) {
    forall st :: st in states ==> Listable(g, st.current)
  }

  ghost predicate OverLimit(g: View, targets: set<Key>) {
    |RowsInto(g, targets)| > MAX_PROJECT_MAP_TEST_TRAVERSAL_NODES
  }

  /** `sort_by` only reorders. */
  method SortedStates(g: View, states: seq<State>) returns (sorted: seq<State>)
    requires WellFormed(g) && DistinctStates(states)
    ensures (forall st :: st in sorted <==> st in states) && DistinctStates(sorted)
  {
    sorted := g.sortStates(states);
    PermutationHasNoDups(states, sorted);
    forall i, j | 0 <= i < j < |sorted| ensures sorted[i].current != sorted[j].current {
      assert sorted[i] in states && sorted[j] in states;
      var k :| 0 <= k < |states| && states[k] == sorted[i];
      var l :| 0 <= l < |states| && states[l] == sorted[j];
    }
  }

  lemma EmptyNext(g: View, target: Key, k: nat, p: Progress)
    requires k >= 1 && Inv(g, target, k - 1, p)
    ensures Inv(g, target, k, p.(next := []))
  {
  }

  ghost predicate ExpandedFirst(g: View, target: Key, k: nat, p: Progress, lost: bool, cut: bool, states: seq<State>, n: nat)
    requires n <= |states|
  {
    !cut ==> forall j :: 0 <= j < n ==> Expanded(g, target, k, p, lost, states[j].current)
  }

  ghost predicate ExpandedAll(g: View, target: Key, k: nat, p: Progress, lost: bool, states: seq<State>) {
    forall st :: st in states ==> Expanded(g, target, k, p, lost, st.current)
  }

  /** As long as nothing was cut, the callers looked at are all the callers of the symbols expanded. */
  ghost predicate Account(g: View, done: set<Key>, states: seq<State>, n: nat, nodes: nat, looked: nat, cut: bool)
    requires n <= |states|
  {
    nodes == |RowsInto(g, done)| ==>
      (cut ==> !AllListable(g, states) || OverLimit(g, done + Currents(states)))
      && (!cut ==> AllListable(g, states[..n]) && looked == |RowsInto(g, done + Currents(states[..n]))|)
  }

  lemma ExpandedMore(g: View, target: Key, k: nat, p: Progress, lost: bool, q: Progress, nowLost: bool,
                     cut: bool, nowCut: bool, states: seq<State>, n: nat)
    requires n < |states| && Grows(p, q, k) && (lost ==> nowLost) && (cut ==> nowCut)
    requires ExpandedFirst(g, target, k, p, lost, cut, states, n)
    requires !nowCut ==> Expanded(g, target, k, q, nowLost, states[n].current)
    ensures ExpandedFirst(g, target, k, q, nowLost, nowCut, states, n + 1)
  {
  }

  lemma AccountMore(g: View, done: set<Key>, states: seq<State>, n: nat, nodes: nat, looked: nat, cut: bool,
                    now: nat, nowCut: bool)
    requires n < |states| && DistinctStates(states) && done !! Currents(states)
    requires Account(g, done, states, n, nodes, looked, cut)
    requires nowCut <==> cut || !Listable(g, states[n].current) || looked + Callers(g, states[n].current) > MAX_PROJECT_MAP_TEST_TRAVERSAL_NODES
    requires !nowCut ==> now == looked + Callers(g, states[n].current)
    ensures Account(g, done, states, n + 1, nodes, now, nowCut)
  {
    var m := states[n].current;
    var before := done + Currents(states[..n]);
    assert states[..n + 1] == states[..n] + [states[n]];
    assert done + Currents(states[..n + 1]) == before + {m};
    assert states[n] in states && m in Currents(states);
    RowsIntoOneMore(g, before, m);
    RowsIntoMore(g, before + {m}, done + Currents(states));
  }

  /** What expanding the first `n` symbols of a distance has achieved. */
  ghost predicate ExpandedSoFar(g: View, target: Key, k: nat, p: Progress, q: Progress, lost: bool, cut: bool,
                                frontier: seq<State>, n: nat)
    requires 1 <= k && n <= |frontier|
  {
    && Inv(g, target, k, q) && Grows(p, q, k)
    && ExpandedFirst(g, target, k, q, lost, cut, frontier, n)
    && (lost ==> Changed(g, target, q.visited, k - 1))
  }

  /** One turn of the loop below. */
  method ExpandNext(g: View, target: Key, k: nat, frontier: seq<State>, n: nat, ghost p: Progress, q: Progress,
                    nodes: nat, cut: bool, lost: bool, ghost walked: seq<Look>)
    returns (r: Progress, looked: nat, truncated: bool, testLeadsTruncated: bool, stale: bool, ghost seen: seq<Look>)
    requires WellFormed(g) && 1 <= k <= MAX_PROJECT_MAP_TEST_HOPS && nodes <= MAX_PROJECT_MAP_TEST_TRAVERSAL_NODES && n < |frontier|
    requires GoodState(g, target, p.visited, frontier[n], k - 1)
    requires ExpandedSoFar(g, target, k, p, q, lost, cut, frontier, n)
    requires Tracks(g, target, k, q, walked, walked, nodes) && Reached(target, walked, frontier[n])
    ensures Tracks(g, target, k, r, walked, seen, looked)
    ensures looked <= MAX_PROJECT_MAP_TEST_TRAVERSAL_NODES ==> AllLooked(g, seen, frontier[n])
    ensures ExpandedSoFar(g, target, k, p, r, stale, truncated, frontier, n + 1)
    ensures testLeadsTruncated == truncated
    ensures truncated <==> cut || !Listable(g, frontier[n].current)
                           || nodes + Callers(g, frontier[n].current) > MAX_PROJECT_MAP_TEST_TRAVERSAL_NODES
    ensures !truncated ==> looked == nodes + Callers(g, frontier[n].current)
    ensures looked > MAX_PROJECT_MAP_TEST_TRAVERSAL_NODES ==> truncated
  {
    GrownState(g, target, p, q, frontier[n], k);
    var cutNow, testsCut, missed;
    r, looked, cutNow, testsCut, missed, seen := Expand(g, target, k, frontier[n], q, nodes, walked);
    truncated, testLeadsTruncated, stale := cut || cutNow, cut || testsCut, lost || missed;
    ExpandedMore(g, target, k, q, lost, r, stale, cut, truncated, frontier, n);
    ChangedStays(g, target, q, r, k);
    GrowsOn(p, q, r, k);
  }

  /** What expanding all of `p.next` comes to. */
  ghost predicate Expansion(g: View, target: Key, k: nat, p: Progress, done: set<Key>, nodes: nat, q: Progress,
                            looked: nat, cut: bool, lost: bool)
    requires k >= 1
  {
    && (nodes == |RowsInto(g, done)| ==>
          (cut ==> !AllListable(g, p.next) || OverLimit(g, done + Currents(p.next)))
          && (!cut ==> AllListable(g, p.next) && looked == |RowsInto(g, done + Currents(p.next))|))
    && (!cut ==> ExpandedAll(g, target, k, q, lost, p.next))
    && (lost ==> Changed(g, target, q.visited, k - 1))
  }

  lemma FrontierIsGood(g: View, target: Key, k: nat, p: Progress, frontier: seq<State>, i: nat)
    requires k >= 1 && StatesGood(g, target, p.visited, p.next, k - 1) && i < |frontier|
    requires forall st :: st in frontier <==> st in p.next
    ensures GoodState(g, target, p.visited, frontier[i], k - 1)
  {
    assert frontier[i] in frontier;
  }

  lemma ExpansionStarts(g: View, target: Key, k: nat, p: Progress, done: set<Key>, frontier: seq<State>, nodes: nat)
    requires k >= 1 && Inv(g, target, k - 1, p)
    ensures ExpandedSoFar(g, target, k, p, p.(next := []), false, false, frontier, 0)
    ensures Account(g, done, frontier, 0, nodes, nodes, false)
  {
    EmptyNext(g, target, k, p);
    assert Currents(frontier[..0]) == {} && done + {} == done;
  }

  lemma ExpansionEnds(g: View, target: Key, k: nat, p: Progress, done: set<Key>, frontier: seq<State>, n: nat, nodes: nat,
                      q: Progress, looked: nat, cut: bool, lost: bool)
    requires k >= 1 && n <= |frontier| && (cut || n == |frontier|)
    requires forall st :: st in frontier <==> st in p.next
    requires ExpandedSoFar(g, target, k, p, q, lost, cut, frontier, n)
    requires Account(g, done, frontier, n, nodes, looked, cut)
    ensures Expansion(g, target, k, p, done, nodes, q, looked, cut, lost)
  {
    assert Currents(frontier) == Currents(p.next);
    assert frontier[..|frontier|] == frontier;
    assert AllListable(g, frontier) <==> AllListable(g, p.next);
  }

  /** The first `n` symbols have been expanded, unless the limit was met. */
  ghost predicate LevelSoFar(g: View, target: Key, k: nat, q: Progress, walked: seq<Look>, seen: seq<Look>, looked: nat,
                             frontier: seq<State>, n: nat)
    requires n <= |frontier|
  {
    && Tracks(g, target, k, q, walked, seen, looked)
    && (looked <= 256 ==> forall j :: 0 <= j < n ==> AllLooked(g, seen, frontier[j]))
  }

  lemma LevelStarts(g: View, target: Key, k: nat, p: Progress, walked: seq<Look>, nodes: nat, frontier: seq<State>)
    requires k >= 1 && Tracks(g, target, k - 1, p, walked, walked, nodes)
    ensures LevelSoFar(g, target, k, p.(next := []), walked, walked, nodes, frontier, 0)
  {
  }

  lemma LevelMore(g: View, target: Key, k: nat, q: Progress, walked: seq<Look>, seen: seq<Look>, looked: nat, frontier: seq<State>,
                  n: nat, r: Progress, now: seq<Look>, lookedNow: nat)
    requires n < |frontier| && looked <= 256 && LevelSoFar(g, target, k, q, walked, seen, looked, frontier, n)
    requires Tracks(g, target, k, r, seen, now, lookedNow) && (lookedNow <= 256 ==> AllLooked(g, now, frontier[n]))
    ensures LevelSoFar(g, target, k, r, walked, now, lookedNow, frontier, n + 1)
  {
    if lookedNow <= 256 {
      forall j | 0 <= j < n + 1 ensures AllLooked(g, now, frontier[j]) {
        if j < n {
          AllLookedLater(g, seen, now, frontier[j]);
        }
      }
    }
  }

  lemma WalkedLevel(g: View, target: Key, k: nat, p: Progress, q: Progress, walked: seq<Look>, seen: seq<Look>, looked: nat,
                    frontier: seq<State>, n: nat)
    requires k >= 1 && Inv(g, target, k - 1, p) && Grows(p, q, k) && walked <= seen && Walked(g, p.visited, walked, k - 2)
    requires n <= |frontier| && LevelSoFar(g, target, k, q, walked, seen, looked, frontier, n)
    requires (forall st :: st in frontier <==> st in p.next) && (looked > 256 || n == |frontier|)
    ensures Trail(g, target, k, q, seen, looked)
  {
    WalkedStays(g, p.visited, walked, seen, k - 2);
    forall v | v in q.visited && q.visited[v] <= (if looked <= 256 then k - 1 else k - 2) ensures Expands(g, seen, v, q.visited[v]) {
      assert v in p.visited && p.visited[v] == q.visited[v];
      if p.visited[v] == k - 1 {
        assert HasState(p.next, v);
        var st :| st in p.next && st.current == v;
        assert GoodState(g, target, p.visited, st, k - 1) && st in frontier;
        var j :| 0 <= j < |frontier| && frontier[j] == st;
        assert AllLooked(g, seen, frontier[j]);
      }
    }
  }

  lemma FrontierIsReached(g: View, target: Key, k: nat, p: Progress, walked: seq<Look>, seen: seq<Look>, frontier: seq<State>, i: nat)
    requires Traced(g, target, p, walked, k) && walked <= seen && i < |frontier| && forall st :: st in frontier <==> st in p.next
    ensures Reached(target, seen, frontier[i])
  {
    assert frontier[i] in frontier;
    ReachedLater(target, walked, seen, frontier[i]);
  }

  /** The callers of every symbol first reached at distance `k - 1`; `done` are the symbols before those. */
  method ExpandAll(g: View, target: Key, k: nat, p: Progress, nodes: nat, ghost done: set<Key>, ghost walked: seq<Look>)
    returns (q: Progress, looked: nat, truncated: bool, testLeadsTruncated: bool, stale: bool, ghost seen: seq<Look>)
    requires WellFormed(g) && 1 <= k <= MAX_PROJECT_MAP_TEST_HOPS && nodes <= MAX_PROJECT_MAP_TEST_TRAVERSAL_NODES
    requires Inv(g, target, k - 1, p) && done !! Currents(p.next)
    requires Trail(g, target, k - 1, p, walked, nodes)
    ensures Trail(g, target, k, q, seen, looked)
    ensures Inv(g, target, k, q) && Grows(p, q, k)
    ensures testLeadsTruncated == truncated
    ensures looked > MAX_PROJECT_MAP_TEST_TRAVERSAL_NODES ==> truncated
    ensures Expansion(g, target, k, p, done, nodes, q, looked, truncated, stale)
  {
    var frontier := SortedStates(g, p.next);
    q, looked, truncated, testLeadsTruncated, stale := p.(next := []), nodes, false, false, false;
    ExpansionStarts(g, target, k, p, done, frontier, nodes);
    LevelStarts(g, target, k, p, walked, nodes, frontier);
    seen := walked;
    ghost var expanded := 0;
    for i := 0 to |frontier|
      invariant testLeadsTruncated == truncated && looked <= MAX_PROJECT_MAP_TEST_TRAVERSAL_NODES && expanded == i
      invariant ExpandedSoFar(g, target, k, p, q, stale, truncated, frontier, i)
      invariant Account(g, done, frontier, i, nodes, looked, truncated)
      invariant LevelSoFar(g, target, k, q, walked, seen, looked, frontier, i)
    {
      FrontierIsGood(g, target, k, p, frontier, i);
      FrontierIsReached(g, target, k - 1, p, walked, seen, frontier, i);
      ghost var cutBefore, lookedBefore, before, seenBefore := truncated, looked, q, seen;
      q, looked, truncated, testLeadsTruncated, stale, seen := ExpandNext(g, target, k, frontier, i, p, q, looked, truncated, stale, seen);
      LevelMore(g, target, k, before, walked, seenBefore, lookedBefore, frontier, i, q, seen, looked);
      AccountMore(g, done, frontier, i, nodes, lookedBefore, cutBefore, looked, truncated);
      expanded := i + 1;
      if looked > MAX_PROJECT_MAP_TEST_TRAVERSAL_NODES {
        break;
      }
    }
    ExpansionEnds(g, target, k, p, done, frontier, expanded, nodes, q, looked, truncated, stale);
    WalkedLevel(g, target, k, p, q, walked, seen, looked, frontier, expanded);
  }

  // ----- Nothing is missed unless a flag says so

  ghost predicate Covered(g: View, target: Key, visited: map<Key, nat>, k: nat) {
    forall n, j: nat :: j <= k && Passable(g, target, n) && Reaches(g, target, n, j) ==> n in visited && visited[n] <= j
  }

  ghost predicate Found(g: View, target: Key, results: map<Key, Lead>, k: nat) {
    forall t, j: nat :: 2 <= j <= k && IsTest(g, t) && Reaches(g, target, t, j) ==> t in results && results[t].hops <= j
  }

  /** A chain of length `j` from `n` goes straight to the target, or on to a symbol visited at `i < j`. */
  lemma LastStep(g: View, target: Key, visited: map<Key, nat>, k: nat, n: Key, j: nat) returns (m: Key)
    requires 1 <= j <= k + 1 && VisitedSound(g, target, visited, k) && Covered(g, target, visited, k) && Reaches(g, target, n, j)
    ensures CallsTo(g, n, m) && m in visited && visited[m] < j
    ensures j >= 2 ==> visited[m] >= 1
    ensures Reaches(g, target, n, visited[m] + 1)
  {
    m := target;
    if j >= 2 {
      m :| Link(g, target, n, m) && Reaches(g, target, m, j - 1);
      ReachesThrough(g, target, n, m, visited[m]);
    }
  }

  lemma LevelCovers(g: View, target: Key, k: nat, p: Progress, q: Progress, lost: bool)
    requires k >= 1 && Inv(g, target, k - 1, p) && Inv(g, target, k, q) && Grows(p, q, k)
    requires ExpandedAll(g, target, k, q, lost, p.next)
    requires Covered(g, target, p.visited, k - 1)
    ensures Covered(g, target, q.visited, k)
  {
    forall n, j: nat | j <= k && Passable(g, target, n) && Reaches(g, target, n, j)
      ensures n in q.visited && q.visited[n] <= j
    {
      if j == k {
        var m := LastStep(g, target, p.visited, k - 1, n, j);
        if p.visited[m] == k - 1 {
          assert HasState(p.next, m);
          assert Met(g, target, k, q, lost, n);
        } else {
          assert Reaches(g, target, n, p.visited[m] + 1);
        }
      }
    }
  }

  lemma LevelFinds(g: View, target: Key, k: nat, p: Progress, q: Progress)
    requires k >= 1 && Inv(g, target, k - 1, p) && Inv(g, target, k, q) && Grows(p, q, k)
    requires ExpandedAll(g, target, k, q, false, p.next)
    requires Covered(g, target, p.visited, k - 1) && Found(g, target, p.results, k - 1)
    ensures Found(g, target, q.results, k)
  {
    forall t, j: nat | 2 <= j <= k && IsTest(g, t) && Reaches(g, target, t, j)
      ensures t in q.results && q.results[t].hops <= j
    {
      if j == k {
        var m := LastStep(g, target, p.visited, k - 1, t, j);
        if p.visited[m] == k - 1 {
          assert HasState(p.next, m);
          assert Met(g, target, k, q, false, t);
        } else {
          assert Reaches(g, target, t, p.visited[m] + 1);
        }
      }
    }
  }

  lemma VisitedSoundLater(g: View, target: Key, visited: map<Key, nat>, k: nat, j: nat)
    requires VisitedSound(g, target, visited, k) && k <= j
    ensures VisitedSound(g, target, visited, j)
  {
  }

  /** Once no symbol is first reached at distance `k`, longer chains pass through nothing new, ... */
  lemma {:induction false} ClosedCovers(g: View, target: Key, visited: map<Key, nat>, k: nat, j: nat)
    requires 1 <= k <= j && VisitedSound(g, target, visited, k) && Covered(g, target, visited, k)
    requires forall v :: v in visited ==> visited[v] < k
    ensures Covered(g, target, visited, j)
    decreases j
  {
    if j > k {
      ClosedCovers(g, target, visited, k, j - 1);
      VisitedSoundLater(g, target, visited, k, j - 1);
      forall n, i: nat | i <= j && Passable(g, target, n) && Reaches(g, target, n, i)
        ensures n in visited && visited[n] <= i
      {
        if i == j {
          var m := LastStep(g, target, visited, j - 1, n, i);
          assert visited[m] + 1 <= k;
        }
      }
    }
  }

  ghost predicate AllFound(g: View, target: Key, results: map<Key, Lead>) {
    forall t, j: nat :: j >= 2 && IsTest(g, t) && Reaches(g, target, t, j) ==> t in results && results[t].hops <= j
  }

  /** ... so no test is missed. */
  lemma ClosedFinds(g: View, target: Key, p: Progress, k: nat)
    requires 1 <= k && VisitedSound(g, target, p.visited, k) && Covered(g, target, p.visited, k) && Found(g, target, p.results, k)
    requires forall v :: v in p.visited ==> p.visited[v] < k
    ensures AllFound(g, target, p.results)
  {
    forall t, j: nat | j >= 2 && IsTest(g, t) && Reaches(g, target, t, j) ensures t in p.results && p.results[t].hops <= j {
      if j > k {
        ClosedCovers(g, target, p.visited, k, j - 1);
        VisitedSoundLater(g, target, p.visited, k, j - 1);
        var m := LastStep(g, target, p.visited, j - 1, t, j);
        assert 2 <= p.visited[m] + 1 <= k;
      }
    }
  }

  /** A lead's own chain is one of the chains it is counted for. */
  lemma {:induction false} ViaReaches(g: View, target: Key, t: Key, l: Lead, i: nat)
    requires RealChain(g, target, t, l) && i < |l.via|
    ensures Reaches(g, target, l.via[i], |l.via| - i)
    decreases |l.via| - i
  {
    if i == |l.via| - 1 {
      var e :| InferredCall(g, e, l.via[i], target);
      assert CallsTo(g, l.via[i], target);
    } else {
      ViaReaches(g, target, t, l, i + 1);
      assert InferredTo(g, l.via[i], l.via[i + 1]);
      var e :| InferredCall(g, e, l.via[i], l.via[i + 1]);
      assert CallsTo(g, l.via[i], l.via[i + 1]);
      ReachesThrough(g, target, l.via[i], l.via[i + 1], |l.via| - i - 1);
    }
  }

  lemma LeadReaches(g: View, target: Key, t: Key, l: Lead)
    requires GoodLead(g, target, t, l)
    ensures Reaches(g, target, t, l.hops) && l.hops >= 2
  {
    ViaReaches(g, target, t, l, 0);
    assert CallsTo(g, t, l.via[0]);
    ReachesThrough(g, target, t, l.via[0], |l.via|);
  }

  // ----- ... and the flags are up only for a reason

  ghost predicate Close(g: View, target: Key, n: Key, d: nat) {
    Passable(g, target, n) && exists j: nat :: j <= d && Reaches(g, target, n, j)
  }

  /** The target, and the symbols a chain may pass through at most `d` calls away from it. */
  ghost function Near(g: View, target: Key, d: nat): set<Key> {
    {target} + set s | s in g.symbols && Close(g, target, s.symbol.key, d) :: s.symbol.key
  }

  /** The callers of every symbol within this distance can be listed in full, and together they are
      within the limit. */
  ghost predicate WithinBounds(g: View, target: Key, d: nat) {
    AllAreListable(g, Near(g, target, d)) && !OverLimit(g, Near(g, target, d))
  }

  ghost predicate AllAreListable(g: View, keys: set<Key>) {
    forall m :: m in keys ==> Listable(g, m)
  }

  lemma NearerIsWithin(g: View, target: Key, d: nat, e: nat)
    requires d <= e
    ensures WithinBounds(g, target, e) ==> WithinBounds(g, target, d)
  {
    assert Near(g, target, d) <= Near(g, target, e);
    RowsIntoMore(g, Near(g, target, d), Near(g, target, e));
  }

  /** Nothing makes the search stop short: it stays within bounds, and no symbol is new at distance three. */
  ghost predicate Unbounded(g: View, target: Key) {
    && WithinBounds(g, target, MAX_PROJECT_MAP_TEST_HOPS - 1)
    && Near(g, target, MAX_PROJECT_MAP_TEST_HOPS) == Near(g, target, MAX_PROJECT_MAP_TEST_HOPS - 1)
  }

  ghost predicate SomeChanged(g: View, target: Key) {
    exists v :: v in Near(g, target, MAX_PROJECT_MAP_TEST_HOPS - 1) && v != target && !g.verified(v)
  }

  /** Visited symbols are near, at the distance noted, ... */
  lemma VisitedIsNear(g: View, target: Key, visited: map<Key, nat>, k: nat, v: Key)
    requires VisitedSound(g, target, visited, k) && v in visited
    ensures forall d: nat :: visited[v] <= d ==> v in Near(g, target, d)
  {
  }

  /** ... and near ones are visited. */
  lemma NearIsVisited(g: View, target: Key, visited: map<Key, nat>, k: nat, d: nat, v: Key)
    requires VisitedSound(g, target, visited, k) && Covered(g, target, visited, d) && v in Near(g, target, d)
    ensures v in visited && visited[v] <= d
  {
  }

  function Before(visited: map<Key, nat>, k: nat): set<Key> {
    set v | v in visited && visited[v] < k
  }

  lemma Layers(g: View, target: Key, k: nat, p: Progress)
    requires Inv(g, target, k, p)
    ensures Before(p.visited, k) !! Currents(p.next) && Before(p.visited, k) + Currents(p.next) == p.visited.Keys
  {
  }

  /** Up to distance `d` no bound is met, and no file has changed. */
  ghost predicate Clear(g: View, target: Key, d: nat) {
    WithinBounds(g, target, d) && NoneChanged(g, target)
  }

  ghost predicate NoneChanged(g: View, target: Key) {
    !SomeChanged(g, target)
  }

  // The search is followed with `clear` for what that says of each distance.

  ghost predicate SaysClear(g: View, target: Key, clear: nat -> bool) {
    && (forall d: nat :: clear(d) ==> Clear(g, target, d))
    && (forall d: nat, e: nat :: d <= e && clear(e) ==> clear(d))
  }

  ghost function ClearOf(g: View, target: Key): nat -> bool {
    (d: nat) => Clear(g, target, d)
  }

  lemma NearerIsClear(g: View, target: Key, d: nat, e: nat)
    requires d <= e
    ensures ClearOf(g, target)(e) ==> ClearOf(g, target)(d)
  {
    NearerIsWithin(g, target, d, e);
  }

  lemma ClearIsSaid(g: View, target: Key)
    ensures SaysClear(g, target, ClearOf(g, target))
  {
    forall d: nat, e: nat | d <= e && ClearOf(g, target)(e) ensures ClearOf(g, target)(d) {
      NearerIsClear(g, target, d, e);
    }
  }

  /** As far as the way is clear every test is found, whatever happens farther away. */
  ghost predicate FoundWithin(g: View, target: Key, results: map<Key, Lead>, k: nat, clear: nat -> bool) {
    forall d: nat :: d < k && clear(d) ==> Found(g, target, results, d + 1)
  }

  lemma FoundWithinMore(g: View, target: Key, k: nat, p: Progress, q: Progress, clear: nat -> bool)
    requires k >= 1 && Grows(p, q, k) && FoundWithin(g, target, p.results, k - 1, clear)
    requires clear(k - 1) ==> Found(g, target, q.results, k)
    ensures FoundWithin(g, target, q.results, k, clear)
  {
    forall d: nat | d < k - 1 && clear(d) ensures Found(g, target, q.results, d + 1) {
      FoundLater(g, target, p, q, k, d + 1);
    }
  }

  lemma FoundLater(g: View, target: Key, p: Progress, q: Progress, k: nat, d: nat)
    requires Grows(p, q, k) && Found(g, target, p.results, d)
    ensures Found(g, target, q.results, d)
  {
  }

  lemma AllAreFound(g: View, target: Key, results: map<Key, Lead>, d: nat)
    requires AllFound(g, target, results)
    ensures Found(g, target, results, d)
  {
  }

  /** When the search has stopped, either nothing farther away is clear, or everything was found. */
  lemma FoundToTheEnd(g: View, target: Key, k: nat, results: map<Key, Lead>, clear: nat -> bool)
    requires 1 <= k && FoundWithin(g, target, results, k, clear)
    requires (forall d: nat, e: nat :: d <= e && clear(e) ==> clear(d)) && (clear(k - 1) ==> AllFound(g, target, results))
    ensures FoundWithin(g, target, results, 3, clear)
  {
    forall d: nat | k <= d && clear(d) ensures Found(g, target, results, d + 1) {
      assert clear(k - 1);
      AllAreFound(g, target, results, d + 1);
    }
  }

  /** What is known after the symbols at distances below `k` have been expanded. */
  ghost predicate Ledger(g: View, target: Key, k: nat, p: Progress, nodes: nat, truncated: bool, stale: bool, clear: nat -> bool) {
    && (!truncated ==> Covered(g, target, p.visited, k) && AllExpanded(g, p.visited, k, nodes))
    && (!truncated && !stale ==> Found(g, target, p.results, k))
    && (truncated ==> !Unbounded(g, target))
    && (stale ==> SomeChanged(g, target))
    && (truncated || stale ==> k >= 1 && !clear(k - 1))
    && FoundWithin(g, target, p.results, k, clear)
  }

  ghost predicate AllExpanded(g: View, visited: map<Key, nat>, k: nat, nodes: nat) {
    nodes == |RowsInto(g, Before(visited, k))| && forall m :: m in Before(visited, k) ==> Listable(g, m)
  }

  lemma LevelSymbols(g: View, target: Key, k: nat, p: Progress, q: Progress)
    requires k >= 1 && Inv(g, target, k - 1, p) && Grows(p, q, k)
    ensures Before(q.visited, k) == p.visited.Keys == Before(p.visited, k - 1) + Currents(p.next)
  {
  }

  lemma LevelExpands(g: View, target: Key, k: nat, p: Progress, nodes: nat, q: Progress, looked: nat)
    requires k >= 1 && Before(q.visited, k) == Before(p.visited, k - 1) + Currents(p.next)
    requires AllExpanded(g, p.visited, k - 1, nodes) && AllListable(g, p.next)
    requires looked == |RowsInto(g, Before(p.visited, k - 1) + Currents(p.next))|
    ensures AllExpanded(g, q.visited, k, looked)
  {
  }

  lemma CutIsBounded(g: View, target: Key, k: nat, p: Progress)
    requires k < MAX_PROJECT_MAP_TEST_HOPS && Inv(g, target, k, p)
    requires !AllListable(g, p.next) || OverLimit(g, Before(p.visited, k) + Currents(p.next))
    ensures !WithinBounds(g, target, k)
  {
    Layers(g, target, k, p);
    forall v | v in p.visited ensures v in Near(g, target, k) {
      VisitedIsNear(g, target, p.visited, k, v);
    }
    RowsIntoMore(g, p.visited.Keys, Near(g, target, k));
    if st :| st in p.next && !Listable(g, st.current) {
      assert st.current in Currents(p.next);
    }
  }

  lemma ChangedIsNear(g: View, target: Key, k: nat, p: Progress)
    requires 1 <= k <= MAX_PROJECT_MAP_TEST_HOPS && Inv(g, target, k, p) && Changed(g, target, p.visited, k - 1)
    ensures SomeChanged(g, target)
  {
  }

  lemma FrontierIsBounded(g: View, target: Key, p: Progress)
    requires Inv(g, target, MAX_PROJECT_MAP_TEST_HOPS, p) && Covered(g, target, p.visited, MAX_PROJECT_MAP_TEST_HOPS) && p.next != []
    ensures !Unbounded(g, target)
  {
    var st := p.next[0];
    assert GoodState(g, target, p.visited, st, MAX_PROJECT_MAP_TEST_HOPS);
    var v := st.current;
    VisitedIsNear(g, target, p.visited, MAX_PROJECT_MAP_TEST_HOPS, v);
    if v in Near(g, target, MAX_PROJECT_MAP_TEST_HOPS - 1) {
      CoveredEarlier(g, target, p.visited, MAX_PROJECT_MAP_TEST_HOPS - 1);
      NearIsVisited(g, target, p.visited, MAX_PROJECT_MAP_TEST_HOPS, MAX_PROJECT_MAP_TEST_HOPS - 1, v);
    }
  }

  lemma CoveredEarlier(g: View, target: Key, visited: map<Key, nat>, k: nat)
    requires Covered(g, target, visited, k + 1)
    ensures Covered(g, target, visited, k)
  {
  }

  lemma ClosedIsUnbounded(g: View, target: Key, k: nat, p: Progress, nodes: nat)
    requires 1 <= k <= MAX_PROJECT_MAP_TEST_HOPS && nodes <= MAX_PROJECT_MAP_TEST_TRAVERSAL_NODES
    requires VisitedSound(g, target, p.visited, k) && Covered(g, target, p.visited, k) && AllExpanded(g, p.visited, k, nodes)
    requires forall v :: v in p.visited ==> p.visited[v] < k
    ensures Unbounded(g, target)
  {
    ClosedCovers(g, target, p.visited, k, MAX_PROJECT_MAP_TEST_HOPS);
    CoveredEarlier(g, target, p.visited, MAX_PROJECT_MAP_TEST_HOPS - 1);
    forall v ensures v in p.visited <==> v in Near(g, target, MAX_PROJECT_MAP_TEST_HOPS - 1)
             ensures v in p.visited <==> v in Near(g, target, MAX_PROJECT_MAP_TEST_HOPS)
    {
      if v in p.visited {
        VisitedIsNear(g, target, p.visited, k, v);
      }
      if v in Near(g, target, MAX_PROJECT_MAP_TEST_HOPS - 1) {
        NearIsVisited(g, target, p.visited, k, MAX_PROJECT_MAP_TEST_HOPS - 1, v);
      }
      if v in Near(g, target, MAX_PROJECT_MAP_TEST_HOPS) {
        NearIsVisited(g, target, p.visited, k, MAX_PROJECT_MAP_TEST_HOPS, v);
      }
    }
    assert Before(p.visited, k) == Near(g, target, MAX_PROJECT_MAP_TEST_HOPS - 1);
  }

  lemma LevelIsWhole(g: View, target: Key, k: nat, p: Progress, nodes: nat, q: Progress, looked: nat, lost: bool)
    requires k >= 1 && Inv(g, target, k - 1, p) && Inv(g, target, k, q) && Grows(p, q, k)
    requires Covered(g, target, p.visited, k - 1) && AllExpanded(g, p.visited, k - 1, nodes)
    requires AllListable(g, p.next) && looked == |RowsInto(g, Before(p.visited, k - 1) + Currents(p.next))|
    requires ExpandedAll(g, target, k, q, lost, p.next)
    ensures Covered(g, target, q.visited, k) && AllExpanded(g, q.visited, k, looked)
  {
    LevelCovers(g, target, k, p, q, lost);
    LevelSymbols(g, target, k, p, q);
    LevelExpands(g, target, k, p, nodes, q, looked);
  }

  lemma LevelFlags(g: View, target: Key, k: nat, p: Progress, nodes: nat, q: Progress, looked: nat, cut: bool, lost: bool)
    requires 1 <= k <= MAX_PROJECT_MAP_TEST_HOPS && Inv(g, target, k - 1, p) && Inv(g, target, k, q)
    requires nodes == |RowsInto(g, Before(p.visited, k - 1))|
    requires Expansion(g, target, k, p, Before(p.visited, k - 1), nodes, q, looked, cut, lost)
    ensures cut ==> !WithinBounds(g, target, k - 1)
  {
    if cut {
      CutIsBounded(g, target, k - 1, p);
    }
  }

  lemma LevelLost(g: View, target: Key, k: nat, p: Progress, nodes: nat, q: Progress, looked: nat, cut: bool, lost: bool)
    requires 1 <= k <= MAX_PROJECT_MAP_TEST_HOPS && Inv(g, target, k, q)
    requires Expansion(g, target, k, p, Before(p.visited, k - 1), nodes, q, looked, cut, lost)
    ensures lost ==> SomeChanged(g, target)
  {
    if lost {
      ChangedIsNear(g, target, k, q);
    }
  }

  /** A level is cut, or loses a lead, only where the way is not clear. */
  lemma LevelReasons(g: View, target: Key, k: nat, p: Progress, nodes: nat, q: Progress, looked: nat, cut: bool, lost: bool,
                     clear: nat -> bool)
    requires 1 <= k <= MAX_PROJECT_MAP_TEST_HOPS && Inv(g, target, k - 1, p) && Inv(g, target, k, q)
    requires nodes == |RowsInto(g, Before(p.visited, k - 1))|
    requires Expansion(g, target, k, p, Before(p.visited, k - 1), nodes, q, looked, cut, lost)
    requires clear(k - 1) ==> Clear(g, target, k - 1)
    ensures cut ==> !clear(k - 1) && !Unbounded(g, target)
  {
    LevelFlags(g, target, k, p, nodes, q, looked, cut, lost);
    if cut && Unbounded(g, target) {
      NearerIsWithin(g, target, k - 1, MAX_PROJECT_MAP_TEST_HOPS - 1);
    }
  }

  lemma LossReasons(g: View, target: Key, k: nat, p: Progress, nodes: nat, q: Progress, looked: nat, cut: bool, lost: bool,
                    clear: nat -> bool)
    requires 1 <= k <= MAX_PROJECT_MAP_TEST_HOPS && Inv(g, target, k, q)
    requires Expansion(g, target, k, p, Before(p.visited, k - 1), nodes, q, looked, cut, lost)
    requires clear(k - 1) ==> Clear(g, target, k - 1)
    ensures lost ==> !clear(k - 1) && SomeChanged(g, target)
  {
    LevelLost(g, target, k, p, nodes, q, looked, cut, lost);
  }

  lemma LevelLedger(g: View, target: Key, k: nat, p: Progress, nodes: nat, cutBefore: bool, lostBefore: bool,
                    q: Progress, looked: nat, cut: bool, lost: bool, clear: nat -> bool)
    requires 1 <= k <= MAX_PROJECT_MAP_TEST_HOPS && Inv(g, target, k - 1, p) && Inv(g, target, k, q) && Grows(p, q, k)
    requires Ledger(g, target, k - 1, p, nodes, cutBefore, lostBefore, clear)
    requires Expansion(g, target, k, p, Before(p.visited, k - 1), nodes, q, looked, cut, lost)
    requires !cutBefore && cut ==> !clear(k - 1) && !Unbounded(g, target)
    requires (lost ==> !clear(k - 1) && SomeChanged(g, target)) && (k >= 2 && clear(k - 1) ==> clear(k - 2))
    ensures Ledger(g, target, k, q, looked, cutBefore || cut, lostBefore || lost, clear)
  {
    if !cutBefore && !cut {
      LevelIsWhole(g, target, k, p, nodes, q, looked, lost);
      if !lostBefore && !lost {
        LevelFinds(g, target, k, p, q);
      }
    }
    FoundWithinMore(g, target, k, p, q, clear);
  }

  /** What holds after `k` levels. */
  ghost predicate Underway(g: View, target: Key, k: nat, p: Progress, nodes: nat, truncated: bool, stale: bool, walked: seq<Look>,
                          clear: nat -> bool) {
    Inv(g, target, k, p) && Ledger(g, target, k, p, nodes, truncated, stale, clear) && Trail(g, target, k, p, walked, nodes)
  }

  /** One turn of the loop over distances. */
  method Level(g: View, target: Key, k: nat, p: Progress, nodes: nat, truncatedBefore: bool, staleBefore: bool, ghost walked: seq<Look>,
               ghost clear: nat -> bool)
    returns (q: Progress, looked: nat, truncated: bool, testLeadsTruncated: bool, stale: bool, ghost seen: seq<Look>)
    requires WellFormed(g) && 1 <= k <= MAX_PROJECT_MAP_TEST_HOPS && nodes <= MAX_PROJECT_MAP_TEST_TRAVERSAL_NODES
    requires SaysClear(g, target, clear) && Underway(g, target, k - 1, p, nodes, truncatedBefore, staleBefore, walked, clear)
    ensures Underway(g, target, k, q, looked, truncated, stale, seen, clear)
    ensures testLeadsTruncated == truncated
    ensures looked > MAX_PROJECT_MAP_TEST_TRAVERSAL_NODES ==> truncated
  {
    Layers(g, target, k - 1, p);
    var cut, testsCut, lost;
    q, looked, cut, testsCut, lost, seen := ExpandAll(g, target, k, p, nodes, Before(p.visited, k - 1), walked);
    truncated, stale := truncatedBefore || cut, staleBefore || lost;
    testLeadsTruncated := truncatedBefore || testsCut;
    if !truncatedBefore {
      LevelReasons(g, target, k, p, nodes, q, looked, cut, lost, clear);
    }
    LossReasons(g, target, k, p, nodes, q, looked, cut, lost, clear);
    LevelLedger(g, target, k, p, nodes, truncatedBefore, staleBefore, q, looked, cut, lost, clear);
  }

  lemma Start(g: View, target: Key, clear: nat -> bool)
    ensures var p := Progress(map[target := 0], map[], [State(target, [])]);
            Underway(g, target, 0, p, 0, false, false, [], clear)
  {
  }

  /** What the loop establishes. */
  ghost predicate Done(g: View, target: Key, results: map<Key, Lead>, truncated: bool, stale: bool) {
    && ResultsGood(g, target, results, MAX_PROJECT_MAP_TEST_HOPS)
    && (!truncated && !stale ==> AllFound(g, target, results))
    && (truncated <==> !Unbounded(g, target))
    && (stale ==> SomeChanged(g, target))
  }

  lemma Exhausted(g: View, target: Key, k: nat, p: Progress, nodes: nat, truncated: bool, stale: bool, clear: nat -> bool)
    requires 1 <= k <= MAX_PROJECT_MAP_TEST_HOPS && (truncated || nodes <= MAX_PROJECT_MAP_TEST_TRAVERSAL_NODES)
    requires Inv(g, target, k, p) && Ledger(g, target, k, p, nodes, truncated, stale, clear) && (truncated || p.next == [])
    ensures Done(g, target, p.results, truncated, stale)
  {
    if !truncated {
      Layers(g, target, k, p);
      ClosedIsUnbounded(g, target, k, p, nodes);
      if !stale {
        ClosedFinds(g, target, p, k);
      }
    }
  }

  /** What the search has established when it stops. */
  ghost predicate Stopped(g: View, target: Key, results: map<Key, Lead>, truncated: bool, stale: bool, walked: seq<Look>,
                         clear: nat -> bool) {
    && Done(g, target, results, truncated, stale) && FoundWithin(g, target, results, 3, clear)
    && Walk(g, target, walked) && LeadsOf(g, results, walked) && FarEnough(g, target, walked)
  }

  lemma StopsEarly(g: View, target: Key, k: nat, p: Progress, nodes: nat, truncated: bool, stale: bool, walked: seq<Look>,
                   clear: nat -> bool)
    requires 1 <= k <= MAX_PROJECT_MAP_TEST_HOPS && (nodes > MAX_PROJECT_MAP_TEST_TRAVERSAL_NODES ==> truncated)
    requires SaysClear(g, target, clear) && Underway(g, target, k, p, nodes, truncated, stale, walked, clear)
    requires nodes > MAX_PROJECT_MAP_TEST_TRAVERSAL_NODES || p.next == []
    ensures Stopped(g, target, p.results, truncated, stale, walked, clear)
  {
    Exhausted(g, target, k, p, nodes, truncated, stale, clear);
    FoundToTheEnd(g, target, k, p.results, clear);
    Layers(g, target, k, p);
    TrailIsFar(g, target, k, p, walked, nodes);
  }

  lemma FrontierLeft(g: View, target: Key, p: Progress, nodes: nat, truncated: bool, stale: bool, clear: nat -> bool)
    requires Inv(g, target, MAX_PROJECT_MAP_TEST_HOPS, p) && Ledger(g, target, MAX_PROJECT_MAP_TEST_HOPS, p, nodes, truncated, stale, clear)
    requires p.next != []
    ensures Done(g, target, p.results, true, stale)
  {
    if !truncated {
      FrontierIsBounded(g, target, p);
    }
  }

  lemma StopsAtDepth(g: View, target: Key, p: Progress, nodes: nat, truncated: bool, stale: bool, walked: seq<Look>,
                     clear: nat -> bool)
    requires Underway(g, target, 3, p, nodes, truncated, stale, walked, clear)
    requires p.next != []
    ensures Stopped(g, target, p.results, true, stale, walked, clear)
  {
    FrontierLeft(g, target, p, nodes, truncated, stale, clear);
    TrailIsFar(g, target, 3, p, walked, nodes);
  }

  /** The loop over distances. */
  method Search(g: View, target: Key, ghost clear: nat -> bool)
    returns (results: map<Key, Lead>, truncated: bool, testLeadsTruncated: bool, stale: bool, ghost walked: seq<Look>)
    requires WellFormed(g) && SaysClear(g, target, clear)
    ensures Stopped(g, target, results, truncated, stale, walked, clear)
    ensures testLeadsTruncated == truncated
  {
    var p := Progress(map[target := 0], map[], [State(target, [])]);
    var nodes: nat := 0;
    truncated, testLeadsTruncated, stale := false, false, false;
    walked := [];
    Start(g, target, clear);
    var depth: nat := 0;
    while depth < MAX_PROJECT_MAP_TEST_HOPS
      invariant depth <= MAX_PROJECT_MAP_TEST_HOPS && p.next != []
      invariant nodes <= MAX_PROJECT_MAP_TEST_TRAVERSAL_NODES && testLeadsTruncated == truncated
      invariant Underway(g, target, depth, p, nodes, truncated, stale, walked, clear)
    {
      depth := depth + 1;
      p, nodes, truncated, testLeadsTruncated, stale, walked := Level(g, target, depth, p, nodes, truncated, stale, walked, clear);
      if nodes > MAX_PROJECT_MAP_TEST_TRAVERSAL_NODES || p.next == [] {
        StopsEarly(g, target, depth, p, nodes, truncated, stale, walked, clear);
        return p.results, truncated, testLeadsTruncated, stale, walked;
      }
    }
    // Symbols are left over.
    StopsAtDepth(g, target, p, nodes, truncated, stale, walked, clear);
    return p.results, true, true, stale, walked;
  }

  /** `transitive_test_leads`: the leads by test, before they are sorted. */
  method TransitiveTestLeads(g: View, target: Key)
    returns (results: map<Key, Lead>, truncated: bool, testLeadsTruncated: bool, stale: bool, ghost walked: seq<Look>)
    requires WellFormed(g)
    // At most 256 listed callers are looked at, as far as three calls away, whole levels as far as that
    // goes; the leads are exactly the tests met on the way, each by the first way to it.
    ensures Walk(g, target, walked) && FarEnough(g, target, walked) && LeadsOf(g, results, walked)
    // Whatever the flags say, every lead carries a real chain of two or three calls.
    ensures forall t :: t in results ==> GoodLead(g, target, t, results[t])
    // When neither flag is up, the leads are exactly the tests that reach the target by a chain of
    // two calls or more, of any length, and each is listed with the shortest such chain.
    ensures !truncated && !stale ==> forall t :: t in results <==> ReachesTarget(g, target, t)
    ensures !truncated && !stale ==> AllFound(g, target, results)
    // As far as the way is clear, none is missed, whatever happens farther away.
    ensures forall d: nat :: d < 3 && Clear(g, target, d) ==> Found(g, target, results, d + 1)
    // The flags are not raised for nothing: the first exactly when a bound cuts something off.
    ensures testLeadsTruncated == truncated
    ensures truncated <==> !Unbounded(g, target)
    ensures stale ==> SomeChanged(g, target)
  {
    ClearIsSaid(g, target);
    results, truncated, testLeadsTruncated, stale, walked := Search(g, target, ClearOf(g, target));
    forall d: nat | d < 3 && Clear(g, target, d) ensures Found(g, target, results, d + 1) {
      assert ClearOf(g, target)(d);
    }
    forall t | t in results ensures ReachesTarget(g, target, t) {
      LeadReaches(g, target, t, results[t]);
    }
    if !truncated && !stale {
      forall t | ReachesTarget(g, target, t) ensures t in results {
        var d: nat :| d >= 2 && Reaches(g, target, t, d);
      }
    }
  }
}
