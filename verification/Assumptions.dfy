/** What the other modules take for granted can be had: there are digests, parsers and orders of rows
    that meet all of it at once. */
module Assumptions {
  import opened Utf8
  import opened Wrappers
  import opened Sequences
  import opened Projection
  import opened CallGraph
  import opened MapEdges
  import opened EdgeSites
  import Base64Url
  import IndexRun
  import IndexHistory
  import Excerpts
  import MapHistory
  import F = Facets
  import C = EdgeChoice

  // ----- A digest and a parser

  /** One symbol a file, which calls itself. */
  function ParseOne(p: Path): Parsed {
    var key := Base64Url.Encode(p);
    Parsed(None, "ready", [ParsedSymbol(key, "f", "function", "f", None, 0, 1, 1, 1, false)],
           [ParsedReference(Some(key), "f", Calls, 0, 1)])
  }

  function OwnerOf(key: Key): Path {
    match Base64Url.Decode(key)
    case None => []
    case Some(p) => p
  }

  const SOME_ENV := IndexRun.Env(Base64Url.Encode, (c, p, b) => ParseOne(p), OwnerOf)

  lemma EnvironmentExists()
    ensures IndexRun.Sound(SOME_ENV) && Excerpts.PrintableDigests(SOME_ENV) && MapHistory.ParserIsRegular(SOME_ENV)
  {
    forall a, b | SOME_ENV.hash(a) == SOME_ENV.hash(b) ensures a == b {
      Base64Url.DecodeEncode(a);
      Base64Url.DecodeEncode(b);
    }
    forall c, p, b ensures IndexRun.Owned(SOME_ENV, p, SOME_ENV.parse(c, p, b)) {
      Base64Url.DecodeEncode(p);
    }
    forall b ensures '@' !in SOME_ENV.hash(b) && '#' !in SOME_ENV.hash(b) {
      Base64Url.EncodeUsesAlphabet(b);
    }
  }

  // ----- An order for every set

  ghost predicate IsLeast<T(!new)>(s: set<T>, key: T -> int, x: T) {
    x in s && forall y :: y in s ==> key(x) <= key(y)
  }

  lemma LeastExists<T(!new)>(s: set<T>, key: T -> int) returns (x: T)
    requires s != {}
    ensures IsLeast(s, key, x)
    decreases |s|
  {
    x :| x in s;
    var rest := s - {x};
    assert forall z :: z in s ==> z == x || z in rest;
    if rest != {} {
      var y := LeastExists(rest, key);
      if key(y) < key(x) {
        x := y;
      }
    }
  }

  /** The members of a set by their keys. */
  ghost function Listed<T(!new)>(s: set<T>, key: T -> int): seq<T>
    decreases |s|
  {
    if s == {} then []
    else
      assert exists x :: IsLeast(s, key, x) by { var x := LeastExists(s, key); }
      var x :| IsLeast(s, key, x);
      [x] + Listed(s - {x}, key)
  }

  lemma {:induction false} ListedAll<T(!new)>(s: set<T>, key: T -> int)
    ensures |Listed(s, key)| == |s| && NoDups(Listed(s, key)) && forall x :: x in Listed(s, key) <==> x in s
    ensures forall a, b :: a in s && b in s && key(a) < key(b) ==> Precedes(Listed(s, key), a, b)
    decreases |s|
  {
    if s != {} {
      var q := Listed(s, key);
      var x, rest := q[0], q[1..];
      assert IsLeast(s, key, x) && rest == Listed(s - {x}, key);
      ListedAll(s - {x}, key);
      assert q == [x] + rest;
      forall a, b | a in s && b in s && key(a) < key(b) ensures Precedes(q, a, b) {
        if a == x {
          assert b in rest;
          var j :| 0 <= j < |rest| && rest[j] == b;
          assert q[0] == a && q[j + 1] == b;
        } else {
          assert Precedes(rest, a, b);
          var i, j :| 0 <= i < j < |rest| && rest[i] == a && rest[j] == b;
          assert q[i + 1] == a && q[j + 1] == b;
        }
      }
    }
  }

  // ----- A stable sort

  ghost predicate Sorted<T>(q: seq<T>, key: T -> int) {
    forall i, j :: 0 <= i < j < |q| ==> key(q[i]) <= key(q[j])
  }

  /** `e` after everything that is not above it. */
  function Insert<T>(q: seq<T>, e: T, key: T -> int): seq<T> {
    if q == [] || key(q[|q| - 1]) <= key(e) then q + [e] else Insert(q[..|q| - 1], e, key) + [q[|q| - 1]]
  }

  function Stable<T>(s: seq<T>, key: T -> int): seq<T> {
    if s == [] then [] else Insert(Stable(s[..|s| - 1], key), s[|s| - 1], key)
  }

  lemma {:induction false} InsertAdds<T>(q: seq<T>, e: T, key: T -> int)
    ensures multiset(Insert(q, e, key)) == multiset(q) + multiset{e}
  {
    if q != [] && key(q[|q| - 1]) > key(e) {
      assert q == q[..|q| - 1] + [q[|q| - 1]];
      InsertAdds(q[..|q| - 1], e, key);
    }
  }

  lemma Inserted<T>(q: seq<T>, e: T, key: T -> int, x: T)
    ensures x in Insert(q, e, key) <==> x in q || x == e
  {
    InsertAdds(q, e, key);
    assert x in Insert(q, e, key) <==> x in multiset(Insert(q, e, key));
    assert x in q <==> x in multiset(q);
  }

  lemma BelowLast<T>(init: seq<T>, last: T, key: T -> int, x: T)
    requires Sorted(init + [last], key) && x in init
    ensures key(x) <= key(last)
  {
    var k :| 0 <= k < |init| && init[k] == x;
    assert (init + [last])[k] == x && (init + [last])[|init|] == last;
  }

  lemma SortedMore<T>(q: seq<T>, e: T, key: T -> int)
    requires Sorted(q, key) && forall x :: x in q ==> key(x) <= key(e)
    ensures Sorted(q + [e], key)
  {
  }

  lemma {:induction false} InsertKeepsSorted<T>(q: seq<T>, e: T, key: T -> int)
    requires Sorted(q, key)
    ensures Sorted(Insert(q, e, key), key)
  {
    if q != [] && key(q[|q| - 1]) > key(e) {
      var init, last := q[..|q| - 1], q[|q| - 1];
      assert q == init + [last];
      InsertKeepsSorted(init, e, key);
      forall x | x in Insert(init, e, key) ensures key(x) <= key(last) {
        Inserted(init, e, key, x);
        if x in init {
          BelowLast(init, last, key, x);
        }
      }
      SortedMore(Insert(init, e, key), last, key);
    }
  }

  lemma {:induction false} InsertKeepsOrder<T>(q: seq<T>, e: T, key: T -> int, a: T, b: T)
    ensures Precedes(q, a, b) ==> Precedes(Insert(q, e, key), a, b)
    ensures Sorted(q, key) && a in q && b == e && key(a) <= key(e) ==> Precedes(Insert(q, e, key), a, b)
  {
    if q == [] || key(q[|q| - 1]) <= key(e) {
      if Precedes(q, a, b) {
        PrecedesInSum(q, [e], a, b);
      }
      if a in q && b == e {
        LastIsPreceded(q, a, e);
      }
    } else {
      var init, last := q[..|q| - 1], q[|q| - 1];
      assert q == init + [last];
      InsertKeepsOrder(init, e, key, a, b);
      Inserted(init, e, key, a);
      Inserted(init, e, key, e);
      if Precedes(Insert(init, e, key), a, b) {
        PrecedesInSum(Insert(init, e, key), [last], a, b);
      } else if Precedes(q, a, b) {
        PrecedesFromInit(init, last, a, b);
        LastIsPreceded(Insert(init, e, key), a, last);
      }
    }
  }

  /** The order within a longer list is that of a shorter one, or ends in the last element. */
  lemma PrecedesFromInit<T>(init: seq<T>, last: T, a: T, b: T)
    requires Precedes(init + [last], a, b)
    ensures Precedes(init, a, b) || (a in init && b == last)
  {
    var q := init + [last];
    var i, j :| 0 <= i < j < |q| && q[i] == a && q[j] == b;
    assert init[i] == a;
    assert j < |init| ==> init[j] == b;
  }

  lemma {:induction false} StableSorts<T>(s: seq<T>, key: T -> int)
    ensures multiset(Stable(s, key)) == multiset(s) && Sorted(Stable(s, key), key)
    ensures forall a, b :: Precedes(s, a, b) && key(a) <= key(b) ==> Precedes(Stable(s, key), a, b)
  {
    if s != [] {
      var init, last := s[..|s| - 1], s[|s| - 1];
      assert s == init + [last];
      StableSorts(init, key);
      InsertAdds(Stable(init, key), last, key);
      InsertKeepsSorted(Stable(init, key), last, key);
      forall a, b | Precedes(s, a, b) && key(a) <= key(b) ensures Precedes(Stable(s, key), a, b) {
        PrecedesFromInit(init, last, a, b);
        if !Precedes(init, a, b) {
          SameMembers(init, Stable(init, key));
        }
        InsertKeepsOrder(Stable(init, key), last, key, a, b);
      }
    }
  }

  lemma SortedPrecedes<T>(s: seq<T>, key: T -> int, a: T, b: T)
    requires a in s && b in s && key(a) < key(b)
    ensures Precedes(Stable(s, key), a, b)
  {
    StableSorts(s, key);
    var q := Stable(s, key);
    SameMembers(s, q);
    var i :| 0 <= i < |q| && q[i] == a;
    var j :| 0 <= j < |q| && q[j] == b;
    if j <= i {
      NotAbove(q, key, j, i);
    }
  }

  lemma NotAbove<T>(q: seq<T>, key: T -> int, i: nat, j: nat)
    requires Sorted(q, key) && i <= j < |q|
    ensures key(q[i]) <= key(q[j])
  {
  }

  // ----- The orders a map takes its rows in

  function SelectionKey(e: MapEdge): int {
    match e.kind
    case BehavioralTestLead => 0
    case Structural(k) => ConfidenceRank(e.confidence) * 10 + KindRank(k) * 2 + if e.direction == Incoming then 0 else 1
  }

  function RankKey(intents: set<Intent>): MapEdge -> int {
    (e: MapEdge) => (if Rank(intents, e).Some? then Rank(intents, e).value * 3 else 0) + ConfidenceRank(e.confidence)
  }

  lemma SelectionExists(s: set<MapEdge>)
    ensures C.Selects(s, Listed(s, SelectionKey))
  {
    ListedAll(s, SelectionKey);
  }

  lemma SortExists(intents: set<Intent>, s: seq<MapEdge>)
    ensures C.Sorts(intents, s, Stable(s, RankKey(intents)))
  {
    StableSorts(s, RankKey(intents));
    forall a, b | a in s && b in s && RankedBefore(intents, a, b) ensures Precedes(Stable(s, RankKey(intents)), a, b) {
      SortedPrecedes(s, RankKey(intents), a, b);
    }
  }

  /** Any consistent tables can be viewed as the maps need it, ... */
  ghost function ViewWith(symbols: set<SymbolRow>, edges: set<EdgeRow>, files: set<Path>, compatible: (EdgeRow, Key) -> bool,
                          verified: Key -> bool, fits: (Site, Key) -> bool, siteVerified: Site -> bool): C.MapView
  {
    C.MapView(View(symbols, edges, files, compatible, verified, s => Listed(s, (c: Call) => 0), q => q, q => q), fits,
              s => Listed(s, SelectionKey), (i, q) => Stable(q, RankKey(i)), siteVerified)
  }

  /** ... whatever the working tree says about files and call sites: so every database that a history of
      index runs leads to has maps, and what is proved of them is about something. */
  lemma OrderedViewExists(env: IndexRun.Env, h: seq<IndexHistory.Event>, c: IndexRun.Constants, compatible: (EdgeRow, Key) -> bool,
                          verified: Key -> bool, fits: (Site, Key) -> bool, siteVerified: Site -> bool)
    requires IndexRun.Sound(env) && MapHistory.ParserIsRegular(env) && forall e :: e in h ==> IndexHistory.WellFormed(e)
    ensures var db := IndexHistory.Opened(c, IndexHistory.Run(env, h)).db;
            var v := ViewWith(db.base.symbols, db.edges, db.base.files.Keys, compatible, verified, fits, siteVerified);
            MapHistory.ViewOf(db, v.graph) && C.Ordered(v)
  {
    var db := IndexHistory.Opened(c, IndexHistory.Run(env, h)).db;
    var v := ViewWith(db.base.symbols, db.edges, db.base.files.Keys, compatible, verified, fits, siteVerified);
    forall s ensures Enumerates(v.graph.rows(s), s) {
      ListedAll(s, (c: Call) => 0);
    }
    MapHistory.ViewsAreConsistent(env, h, c, v.graph);
    forall s ensures C.Selects(s, v.rows(s)) {
      SelectionExists(s);
    }
    forall i, s | NoDups(s) ensures C.Sorts(i, s, v.sort(i, s)) {
      SortExists(i, s);
    }
  }
}
