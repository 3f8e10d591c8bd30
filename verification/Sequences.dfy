/** Order and repetition in sequences. */
module Sequences {
  predicate NoDups<T(==)>(s: seq<T>) {
    forall i, j :: 0 <= i < j < |s| ==> s[i] != s[j]
  }

  ghost predicate Precedes<T>(s: seq<T>, a: T, b: T) {
    exists i, j :: 0 <= i < j < |s| && s[i] == a && s[j] == b
  }

  /** As many as there are, up to `n`. */
  function First<T>(s: seq<T>, n: nat): (r: seq<T>)
    ensures r <= s && |r| == if |s| <= n then |s| else n
  {
    if |s| <= n then s else s[..n]
  }

  /** What comes after those. */
  function Rest<T>(s: seq<T>, n: nat): (r: seq<T>)
    ensures First(s, n) + r == s
  {
    if |s| <= n then [] else s[n..]
  }

  function Filter<T>(s: seq<T>, p: T -> bool): (r: seq<T>)
    ensures |r| <= |s|
  {
    if s == [] then []
    else Filter(s[..|s| - 1], p) + if p(s[|s| - 1]) then [s[|s| - 1]] else []
  }

  lemma {:induction false} FilterKeeps<T>(s: seq<T>, p: T -> bool)
    ensures forall x :: x in Filter(s, p) <==> x in s && p(x)
    ensures NoDups(s) ==> NoDups(Filter(s, p))
  {
    if s != [] {
      var init, last := s[..|s| - 1], s[|s| - 1];
      assert s == init + [last];
      FilterKeeps(init, p);
    }
  }

  lemma {:induction false} FilterKeepsOrder<T>(s: seq<T>, p: T -> bool, a: T, b: T)
    requires Precedes(s, a, b) && p(a) && p(b)
    ensures Precedes(Filter(s, p), a, b)
  {
    var i, j :| 0 <= i < j < |s| && s[i] == a && s[j] == b;
    var init, last := s[..|s| - 1], s[|s| - 1];
    if j < |s| - 1 {
      assert init[i] == a && init[j] == b;
      FilterKeepsOrder(init, p, a, b);
      var k, l :| 0 <= k < l < |Filter(init, p)| && Filter(init, p)[k] == a && Filter(init, p)[l] == b;
      assert Filter(s, p)[k] == a && Filter(s, p)[l] == b;
    } else {
      FilterKeeps(init, p);
      assert a == init[i] && a in Filter(init, p);
      var k :| 0 <= k < |Filter(init, p)| && Filter(init, p)[k] == a;
      assert Filter(s, p)[k] == a && Filter(s, p)[|Filter(init, p)|] == b;
    }
  }

  lemma {:induction false} FilterPrecedes<T>(s: seq<T>, p: T -> bool, a: T, b: T)
    requires Precedes(Filter(s, p), a, b)
    ensures Precedes(s, a, b)
  {
    var init, last := s[..|s| - 1], s[|s| - 1];
    assert s == init + [last];
    FilterKeeps(init, p);
    var r, more := Filter(init, p), if p(last) then [last] else [];
    var i, j :| 0 <= i < j < |r + more| && (r + more)[i] == a && (r + more)[j] == b;
    if j < |r| {
      assert r[i] == a && r[j] == b;
      FilterPrecedes(init, p, a, b);
      PrecedesInSum(init, [last], a, b);
    } else {
      assert r[i] == a && a in r && b == last;
      LastIsPreceded(init, a, last);
    }
  }

  lemma LastIsPreceded<T>(q: seq<T>, a: T, e: T)
    requires a in q
    ensures Precedes(q + [e], a, e)
  {
    var i :| 0 <= i < |q| && q[i] == a;
    assert (q + [e])[i] == a && (q + [e])[|q|] == e;
  }

  lemma {:induction false} FilterAll<T>(s: seq<T>, p: T -> bool)
    requires forall x :: x in s ==> p(x)
    ensures Filter(s, p) == s
  {
    if s != [] {
      var init, last := s[..|s| - 1], s[|s| - 1];
      assert s == init + [last] && p(last);
      FilterAll(init, p);
      assert Filter(s, p) == Filter(init, p) + [last];
    }
  }

  lemma {:induction false} FilterWhole<T>(s: seq<T>, p: T -> bool)
    ensures |Filter(s, p)| == |s| <==> Filter(s, p) == s
  {
    if s != [] {
      var init, last := s[..|s| - 1], s[|s| - 1];
      assert s == init + [last];
      FilterWhole(init, p);
    }
  }

  lemma {:induction false} FilterOfPrefix<T>(s: seq<T>, n: nat, p: T -> bool)
    requires n <= |s|
    ensures Filter(s[..n], p) <= Filter(s, p)
    decreases |s|
  {
    if n < |s| {
      assert s[..|s| - 1][..n] == s[..n];
      FilterOfPrefix(s[..|s| - 1], n, p);
    } else {
      assert s[..n] == s;
    }
  }

  lemma FilterNext<T>(s: seq<T>, i: nat, p: T -> bool)
    requires i < |s|
    ensures Filter(s[..i + 1], p) == if p(s[i]) then Filter(s[..i], p) + [s[i]] else Filter(s[..i], p)
  {
    assert s[..i + 1][..i] == s[..i];
  }

  /** With no repeats, positions tell the order. */
  lemma PrecedesMeansBefore<T>(s: seq<T>, i: nat, j: nat)
    requires NoDups(s) && i < |s| && j < |s| && Precedes(s, s[i], s[j])
    ensures i < j
  {
  }

  lemma PrecedesInPrefix<T>(s: seq<T>, n: nat, a: T, b: T)
    requires NoDups(s) && n <= |s| && Precedes(s, a, b) && b in s[..n]
    ensures Precedes(s[..n], a, b)
  {
  }

  /** Whatever precedes one of the first is itself one of them. */
  lemma PrecededInFirst<T>(s: seq<T>, n: nat, a: T, b: T)
    requires NoDups(s) && Precedes(s, a, b) && b in First(s, n)
    ensures a in First(s, n)
  {
    var i, j :| 0 <= i < j < |s| && s[i] == a && s[j] == b;
    var k :| 0 <= k < |First(s, n)| && First(s, n)[k] == b;
    assert s[k] == b && k == j;
    assert First(s, n)[i] == a;
  }

  lemma BeyondFirst<T>(s: seq<T>, n: nat, j: nat)
    requires j < |s| && s[j] !in First(s, n)
    ensures j >= n
  {
    assert forall i :: 0 <= i < |First(s, n)| ==> First(s, n)[i] == s[i];
  }

  lemma PrecedesInSum<T>(s: seq<T>, t: seq<T>, a: T, b: T)
    requires Precedes(s, a, b)
    ensures Precedes(s + t, a, b)
  {
    var i, j :| 0 <= i < j < |s| && s[i] == a && s[j] == b;
    assert (s + t)[i] == a && (s + t)[j] == b;
  }

  lemma {:induction false} SizeOfNoDups<T>(s: seq<T>)
    requires NoDups(s)
    ensures |set x | x in s| == |s|
  {
    if s != [] {
      var init, last := s[..|s| - 1], s[|s| - 1];
      SizeOfNoDups(init);
      assert s == init + [last] && last !in init;
      assert (set x | x in s) == (set x | x in init) + {last};
    }
  }

  lemma NoDupsOfSum<T>(s: seq<T>, t: seq<T>)
    requires NoDups(s) && NoDups(t) && forall x :: x in s ==> x !in t
    ensures NoDups(s + t)
  {
    forall i, j | 0 <= i < j < |s + t| ensures (s + t)[i] != (s + t)[j] {
      if i < |s| <= j {
        assert s[i] in s && t[j - |s|] in t;
      }
    }
  }

  lemma SlicePrefix<T>(s: seq<T>, lo: nat, hi: nat, n: nat)
    requires lo + n <= hi <= |s|
    ensures s[lo..lo + n] == s[lo..hi][..n]
  {
  }

  lemma PartsAreDisjoint<T>(s: seq<T>, n: nat)
    requires NoDups(s) && n <= |s|
    ensures forall x :: x in s ==> (x in s[..n] <==> x !in s[n..])
  {
  }

  lemma RestIsOthers<T>(s: seq<T>, n: nat)
    requires NoDups(s)
    ensures forall x :: x in Rest(s, n) <==> x in s && x !in First(s, n)
  {
    if n <= |s| {
      PartsAreDisjoint(s, n);
    }
    assert s == First(s, n) + Rest(s, n);
  }

  lemma CountedOnce<T>(s: seq<T>, x: T)
    requires NoDups(s) && x in s
    ensures multiset(s)[x] == 1
  {
    var i :| 0 <= i < |s| && s[i] == x;
    assert s == s[..i] + [x] + s[i + 1..];
    assert x !in s[..i] && x !in s[i + 1..];
  }

  lemma CountedTwice<T>(s: seq<T>, i: nat, j: nat)
    requires i < j < |s| && s[i] == s[j]
    ensures multiset(s)[s[i]] >= 2
  {
    assert s == s[..j] + s[j..];
    assert s[..j][i] in s[..j] && s[j..][0] in s[j..];
  }

  lemma SameMembers<T>(s: seq<T>, q: seq<T>)
    requires multiset(q) == multiset(s)
    ensures forall x :: x in q <==> x in s
  {
    forall x ensures x in q <==> x in s {
      assert x in q <==> x in multiset(q);
      assert x in s <==> x in multiset(s);
    }
  }

  lemma SameLength<T>(s: seq<T>, q: seq<T>)
    requires multiset(q) == multiset(s)
    ensures |q| == |s|
  {
    assert |multiset(q)| == |multiset(s)|;
  }

  /** Reordering repeats nothing. */
  lemma PermutationHasNoDups<T>(s: seq<T>, q: seq<T>)
    requires NoDups(s) && multiset(q) == multiset(s)
    ensures NoDups(q) && forall x :: x in q <==> x in s
  {
    SameMembers(s, q);
    forall i, j | 0 <= i < j < |q| ensures q[i] != q[j] {
      if q[i] == q[j] {
        CountedOnce(s, q[i]);
        CountedTwice(q, i, j);
      }
    }
  }
}
