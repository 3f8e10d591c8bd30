/** What the search for tests looks at, caller by caller: how its leads come from that, and how far it
    gets when a bound stops it (src/project_index.rs). */
module TraversalTrace {
  import opened Projection
  import opened CallGraph

  /** A test, the call it makes, and the symbols from there to the target. */
  datatype Lead = Lead(edge: EdgeRow, hops: nat, via: seq<Key>)

  datatype Progress = Progress(visited: map<Key, nat>, results: map<Key, Lead>, next: seq<State>)

  /** A caller looked at, and the symbol it was looked at for. */
  datatype Look = Look(st: State, call: Call)

  function Backwards(chain: seq<Key>): (r: seq<Key>)
    ensures |r| == |chain| && forall i :: 0 <= i < |r| ==> r[i] == chain[|chain| - 1 - i]
  {
    seq(|chain|, i requires 0 <= i < |chain| => chain[|chain| - 1 - i])
  }

  predicate AllVerified(g: View, chain: seq<Key>) {
    forall i :: 0 <= i < |chain| ==> g.verified(chain[i])
  }

  /** A test that calls one of the symbols on a way to the target, none of whose files has changed. */
  predicate MakesLead(g: View, w: Look) {
    w.call.isTest && w.st.chain != [] && AllVerified(g, w.st.chain)
  }

  function LeadOf(w: Look): Lead {
    Lead(w.call.edge, |w.st.chain| + 1, Backwards(w.st.chain))
  }

  // ----- What one look does

  function Record(g: View, results: map<Key, Lead>, w: Look): map<Key, Lead> {
    var t := w.call.edge.source;
    if MakesLead(g, w) && t !in results then results[t := LeadOf(w)] else results
  }

  function Visit(p: Progress, k: nat, st: State, a: Key): Progress {
    p.(visited := p.visited[a := k], next := p.next + [State(a, st.chain + [a])])
  }

  function After(g: View, k: nat, p: Progress, w: Look): Progress {
    var a := w.call.edge.source;
    if w.call.isTest then p.(results := Record(g, p.results, w))
    else if a in p.visited && p.visited[a] <= k then p
    else Visit(p, k, w.st, a)
  }

  // ----- What all of them come to

  /** The leads are exactly the tests that made one, each by its first look. */
  ghost predicate LeadsOf(g: View, results: map<Key, Lead>, walked: seq<Look>) {
    && (forall w :: w in walked && MakesLead(g, w) ==> w.call.edge.source in results)
    && (forall t :: t in results ==> exists i :: 0 <= i < |walked| && FirstFor(g, walked, i, t) && results[t] == LeadOf(walked[i]))
  }

  ghost predicate FirstFor(g: View, walked: seq<Look>, i: nat, t: Key)
    requires i < |walked|
  {
    && MakesLead(g, walked[i]) && walked[i].call.edge.source == t
    && forall j :: 0 <= j < i ==> !(MakesLead(g, walked[j]) && walked[j].call.edge.source == t)
  }

  /** The state was reached by looking at a caller that is not a test. */
  ghost predicate MadeBy(walked: seq<Look>, st: State) {
    exists w :: w in walked && !w.call.isTest && st == State(w.call.edge.source, w.st.chain + [w.call.edge.source])
  }

  ghost predicate Reached(target: Key, walked: seq<Look>, st: State) {
    st == State(target, []) || MadeBy(walked, st)
  }

  /** Only callers that are listed are looked at, and only for symbols reached by earlier looks. */
  ghost predicate Walk(g: View, target: Key, walked: seq<Look>) {
    && (forall i :: 0 <= i < |walked| ==> IsListed(g, walked[i].st.current, walked[i].call))
    && (forall i :: 0 <= i < |walked| ==> Reached(target, walked[..i], walked[i].st))
  }

  ghost predicate AllLooked(g: View, walked: seq<Look>, st: State) {
    forall c :: IsListed(g, st.current, c) ==> Look(st, c) in walked
  }

  /** Everyone listed as a caller of this symbol was looked at, from a chain of at most this length. */
  ghost predicate Expands(g: View, walked: seq<Look>, m: Key, d: nat) {
    exists st: State :: st.current == m && |st.chain| <= d && AllLooked(g, walked, st)
  }

  /** The search is whole up to distance `d`: it has expanded the target and every caller it met on the way. */
  ghost predicate Whole(g: View, target: Key, walked: seq<Look>, d: nat) {
    && Expands(g, walked, target, 0)
    && forall w :: w in walked && !w.call.isTest && |w.st.chain| < d ==> Expands(g, walked, w.call.edge.source, |w.st.chain| + 1)
  }

  // ----- What the search keeps of it

  ghost predicate Seen(visited: map<Key, nat>, w: Look) {
    w.call.edge.source in visited && visited[w.call.edge.source] <= |w.st.chain| + 1
  }

  ghost predicate Traced(g: View, target: Key, p: Progress, walked: seq<Look>, k: nat) {
    && LeadsOf(g, p.results, walked)
    && Walk(g, target, walked)
    && (forall w :: w in walked ==> |w.st.chain| < k && (!w.call.isTest ==> Seen(p.visited, w)))
    && (forall st :: st in p.next ==> Reached(target, walked, st))
  }

  lemma ReachedStays(target: Key, walked: seq<Look>, w: Look, st: State)
    requires Reached(target, walked, st)
    ensures Reached(target, walked + [w], st)
  {
    if st != State(target, []) {
      var v :| v in walked && !v.call.isTest && st == State(v.call.edge.source, v.st.chain + [v.call.edge.source]);
      assert v in walked + [w];
    }
  }

  lemma LeadsMore(g: View, results: map<Key, Lead>, walked: seq<Look>, w: Look)
    requires LeadsOf(g, results, walked)
    ensures LeadsOf(g, Record(g, results, w), walked + [w])
  {
    var now, after := walked + [w], Record(g, results, w);
    forall t | t in after ensures exists i :: 0 <= i < |now| && FirstFor(g, now, i, t) && after[t] == LeadOf(now[i]) {
      if t in results {
        var i :| 0 <= i < |walked| && FirstFor(g, walked, i, t) && results[t] == LeadOf(walked[i]);
        assert now[i] == walked[i] && FirstFor(g, now, i, t);
      } else {
        assert now[|walked|] == w && FirstFor(g, now, |walked|, t);
      }
    }
  }

  lemma WalkMore(g: View, target: Key, walked: seq<Look>, w: Look)
    requires Walk(g, target, walked) && IsListed(g, w.st.current, w.call) && Reached(target, walked, w.st)
    ensures Walk(g, target, walked + [w])
  {
    var now := walked + [w];
    forall i | 0 <= i < |now| ensures IsListed(g, now[i].st.current, now[i].call) && Reached(target, now[..i], now[i].st) {
      if i < |walked| {
        assert now[..i] == walked[..i] && now[i] == walked[i];
      } else {
        assert now[..i] == walked;
      }
    }
  }

  lemma NextMore(g: View, target: Key, k: nat, p: Progress, walked: seq<Look>, w: Look)
    requires forall st :: st in p.next ==> Reached(target, walked, st)
    ensures forall st :: st in After(g, k, p, w).next ==> Reached(target, walked + [w], st)
  {
    assert w in walked + [w];
    forall st | st in After(g, k, p, w).next ensures Reached(target, walked + [w], st) {
      if st in p.next {
        ReachedStays(target, walked, w, st);
      } else {
        assert MadeBy(walked + [w], st);
      }
    }
  }

  lemma SeenMore(g: View, k: nat, p: Progress, walked: seq<Look>, w: Look)
    requires |w.st.chain| + 1 == k && forall v :: v in p.visited ==> p.visited[v] <= k
    requires forall v :: v in walked ==> |v.st.chain| < k && (!v.call.isTest ==> Seen(p.visited, v))
    ensures forall v :: v in walked + [w] ==> |v.st.chain| < k && (!v.call.isTest ==> Seen(After(g, k, p, w).visited, v))
  {
  }

  /** One more look. */
  lemma TraceMore(g: View, target: Key, k: nat, p: Progress, walked: seq<Look>, w: Look)
    requires Traced(g, target, p, walked, k) && |w.st.chain| + 1 == k && forall v :: v in p.visited ==> p.visited[v] <= k
    requires IsListed(g, w.st.current, w.call) && Reached(target, walked, w.st)
    ensures Traced(g, target, After(g, k, p, w), walked + [w], k)
  {
    LeadsMore(g, p.results, walked, w);
    WalkMore(g, target, walked, w);
    NextMore(g, target, k, p, walked, w);
    SeenMore(g, k, p, walked, w);
    AfterRecords(g, k, p, w);
  }

  lemma AfterRecords(g: View, k: nat, p: Progress, w: Look)
    ensures After(g, k, p, w).results == Record(g, p.results, w)
  {
  }

  // ----- All callers of one symbol

  /** The first `n` callers, one after the other. */
  function Looks(st: State, calls: seq<Call>, n: nat): seq<Look>
    requires n <= |calls|
  {
    seq(n, j requires 0 <= j < n => Look(st, calls[j]))
  }

  /** What they have led to, from `walked` on. */
  ghost predicate Looked(g: View, target: Key, k: nat, p: Progress, walked: seq<Look>, st: State, calls: seq<Call>, n: nat) {
    && n <= |calls|
    && Traced(g, target, p, walked + Looks(st, calls, n), k) && Reached(target, walked + Looks(st, calls, n), st)
  }

  lemma LooksMore(walked: seq<Look>, st: State, calls: seq<Call>, n: nat)
    requires n < |calls|
    ensures walked + Looks(st, calls, n + 1) == walked + Looks(st, calls, n) + [Look(st, calls[n])]
  {
  }

  lemma LookedMore(g: View, target: Key, k: nat, p: Progress, walked: seq<Look>, st: State, calls: seq<Call>, n: nat)
    requires n < |calls| && Looked(g, target, k, p, walked, st, calls, n) && IsListed(g, st.current, calls[n])
    requires |st.chain| + 1 == k && forall v :: v in p.visited ==> p.visited[v] <= k
    ensures Looked(g, target, k, After(g, k, p, Look(st, calls[n])), walked, st, calls, n + 1)
  {
    var seen := walked + Looks(st, calls, n);
    LooksMore(walked, st, calls, n);
    TraceMore(g, target, k, p, seen, Look(st, calls[n]));
    ReachedStays(target, seen, Look(st, calls[n]), st);
  }

  lemma LookedStarts(g: View, target: Key, k: nat, p: Progress, walked: seq<Look>, st: State, calls: seq<Call>)
    requires Traced(g, target, p, walked, k) && Reached(target, walked, st)
    ensures Looked(g, target, k, p, walked, st, calls, 0)
  {
    assert walked + Looks(st, calls, 0) == walked;
  }

  lemma AllAreLooked(g: View, walked: seq<Look>, st: State, calls: seq<Call>)
    requires forall c :: c in calls <==> IsListed(g, st.current, c)
    ensures AllLooked(g, walked + Looks(st, calls, |calls|), st)
  {
    forall c | IsListed(g, st.current, c) ensures Look(st, c) in walked + Looks(st, calls, |calls|) {
      var i :| 0 <= i < |calls| && calls[i] == c;
      assert Looks(st, calls, |calls|)[i] == Look(st, c);
    }
  }

  /** After expanding a symbol: nothing is forgotten, and unless the limit was met, every caller listed for it was looked at. */
  ghost predicate Tracks(g: View, target: Key, k: nat, p: Progress, walked: seq<Look>, seen: seq<Look>, looked: nat) {
    && walked <= seen && Traced(g, target, p, seen, k)
    && |seen| == (if looked <= 256 then looked else 256)
  }

  lemma LookedTracks(g: View, target: Key, k: nat, q: Progress, walked: seq<Look>, st: State, calls: seq<Call>, n: nat, looked: nat)
    requires Looked(g, target, k, q, walked, st, calls, n)
    requires |walked| + n == if looked <= 256 then looked else 256
    ensures Tracks(g, target, k, q, walked, walked + Looks(st, calls, n), looked)
  {
  }

  lemma ReachedLater(target: Key, walked: seq<Look>, seen: seq<Look>, st: State)
    requires Reached(target, walked, st) && walked <= seen
    ensures Reached(target, seen, st)
  {
    if st != State(target, []) {
      var v :| v in walked && !v.call.isTest && st == State(v.call.edge.source, v.st.chain + [v.call.edge.source]);
      assert v in seen;
    }
  }

  lemma AllLookedLater(g: View, walked: seq<Look>, seen: seq<Look>, st: State)
    requires AllLooked(g, walked, st) && walked <= seen
    ensures AllLooked(g, seen, st)
  {
  }

  // ----- Whole levels

  /** Every symbol visited at distance `d` or less has been expanded. */
  ghost predicate Walked(g: View, visited: map<Key, nat>, walked: seq<Look>, d: int) {
    forall v :: v in visited && visited[v] <= d ==> Expands(g, walked, v, visited[v])
  }

  lemma WalkedStays(g: View, visited: map<Key, nat>, before: seq<Look>, after: seq<Look>, d: int)
    requires Walked(g, visited, before, d) && before <= after
    ensures Walked(g, visited, after, d)
  {
    forall v | v in visited && visited[v] <= d ensures Expands(g, after, v, visited[v]) {
      var st: State :| st.current == v && |st.chain| <= visited[v] && AllLooked(g, before, st);
      assert AllLooked(g, after, st);
    }
  }

  lemma WalkedIsWhole(g: View, target: Key, p: Progress, walked: seq<Look>, k: nat, d: nat)
    requires Traced(g, target, p, walked, k) && Walked(g, p.visited, walked, d) && target in p.visited && p.visited[target] == 0
    ensures Whole(g, target, walked, d)
  {
    forall w | w in walked && !w.call.isTest && |w.st.chain| < d ensures Expands(g, walked, w.call.edge.source, |w.st.chain| + 1) {
      assert Seen(p.visited, w);
      var st: State :| st.current == w.call.edge.source && |st.chain| <= p.visited[st.current] && AllLooked(g, walked, st);
    }
  }

  /** What is known of the looks after `k` levels, the last of them cut short if there were too many. */
  ghost predicate Trail(g: View, target: Key, k: nat, p: Progress, walked: seq<Look>, looked: nat) {
    && Tracks(g, target, k, p, walked, walked, looked)
    && Walked(g, p.visited, walked, if looked <= 256 then k - 1 else k - 2)
  }

  /** No more than 256 callers are looked at, and unless it is as many, or up to any distance a look
      has gone beyond, the search is whole. */
  ghost predicate FarEnough(g: View, target: Key, walked: seq<Look>) {
    && |walked| <= 256
    && forall d: nat :: d <= 2 && (|walked| < 256 || exists w :: w in walked && |w.st.chain| > d) ==> Whole(g, target, walked, d)
  }

  lemma TrailIsFar(g: View, target: Key, k: nat, p: Progress, walked: seq<Look>, looked: nat)
    requires Trail(g, target, k, p, walked, looked) && target in p.visited && p.visited[target] == 0
    requires looked > 256 || k == 3 || forall v :: v in p.visited ==> p.visited[v] < k
    ensures FarEnough(g, target, walked)
  {
    forall d: nat | d <= 2 && (|walked| < 256 || exists w :: w in walked && |w.st.chain| > d) ensures Whole(g, target, walked, d) {
      assert looked > 256 ==> d <= k - 2;
      assert Walked(g, p.visited, walked, d);
      WalkedIsWhole(g, target, p, walked, k, d);
    }
  }
}
