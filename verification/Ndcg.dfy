/** Ranking quality of a retrieval evaluation (src/eval.rs): the labels of what was returned, and
    their normalised discounted cumulative gain, in exact arithmetic over an abstract discount. */
module Ndcg {
  import opened Sets
  import opened Sequences
  import opened Wrappers

  /** The weight of each rank; the program's is 1 / log2(rank + 2). */
  type Weights = nat -> real

  ghost predicate Discount(d: Weights) {
    && (forall i: nat :: d(i) > 0.0)
    && (forall i: nat, j: nat :: i < j ==> d(j) < d(i))
  }

  function ToSet(s: seq<string>): set<string> {
    set x | x in s
  }

  // ----- The definition

  function Gain(direct: set<string>, helpful: set<string>, item: string): nat {
    if item in direct then 2 else if item in helpful then 1 else 0
  }

  function Gains(direct: set<string>, helpful: set<string>, returned: seq<string>): (g: seq<nat>) {
    seq(|returned|, i requires 0 <= i < |returned| => Gain(direct, helpful, returned[i]))
  }

  function Weigh(g: seq<nat>, d: Weights): real {
    if g == [] then 0.0
    else Weigh(g[..|g| - 1], d) + g[|g| - 1] as real * d(|g| - 1)
  }

  /** A two for every direct label, then a one for every helpful one, cut to the ranks returned (at least one). */
  function Ideal(directs: nat, helpfuls: nat, ranks: nat): seq<nat> {
    var all := seq(directs, _ => 2) + seq(helpfuls, _ => 1);
    if |all| <= ranks then all else all[..ranks]
  }

  function Ranks(returned: seq<string>): nat {
    if |returned| >= 1 then |returned| else 1
  }

  function Compute(direct: seq<string>, helpful: seq<string>, returned: seq<string>, d: Weights): Option<real> {
    if direct == [] && helpful == [] then None
    else
      var directs, helpfuls := ToSet(direct), ToSet(helpful);
      var dcg := Weigh(Gains(directs, helpfuls, returned), d);
      var idcg := Weigh(Ideal(|directs|, |helpfuls|, Ranks(returned)), d);
      Some(if idcg == 0.0 then 0.0 else dcg / idcg)
  }

  // ----- One level of gain: which ranks reach it, and the most their weights can add up to

  function Reaches(g: seq<nat>, level: nat): seq<bool> {
    seq(|g|, i requires 0 <= i < |g| => g[i] >= level)
  }

  function Count(b: seq<bool>): (c: nat)
    ensures c <= |b|
  {
    if b == [] then 0 else Count(b[..|b| - 1]) + if b[|b| - 1] then 1 else 0
  }

  function WeightOf(b: seq<bool>, d: Weights): real {
    if b == [] then 0.0
    else WeightOf(b[..|b| - 1], d) + if b[|b| - 1] then d(|b| - 1) else 0.0
  }

  function TopWeight(m: nat, d: Weights): real {
    if m == 0 then 0.0 else TopWeight(m - 1, d) + d(m - 1)
  }

  /** The ranks that reach the level come first. */
  predicate Leading(b: seq<bool>, m: nat) {
    forall i :: 0 <= i < |b| ==> (b[i] <==> i < m)
  }

  lemma {:induction false} TopWeightGrows(m: nat, n: nat, d: Weights)
    requires Discount(d) && m <= n
    ensures 0.0 <= TopWeight(m, d) <= TopWeight(n, d)
    ensures m < n ==> TopWeight(m, d) < TopWeight(n, d)
    decreases n
  {
    if m < n {
      TopWeightGrows(m, n - 1, d);
    } else if n > 0 {
      TopWeightGrows(m - 1, n - 1, d);
    }
  }

  lemma LeadingLast(b: seq<bool>, c: nat)
    requires b != [] && c < |b|
    ensures var init := b[..|b| - 1];
            && (!b[|b| - 1] ==> (Leading(b, c) <==> Leading(init, c)))
            && (b[|b| - 1] ==> (Leading(b, c + 1) <==> Leading(init, c) && c == |b| - 1))
  {
  }

  /** Rearrangement: a level reached c times weighs most when the first c ranks reach it. */
  lemma {:induction false} LeadingWeighsMost(b: seq<bool>, d: Weights)
    requires Discount(d)
    ensures 0.0 <= WeightOf(b, d) <= TopWeight(Count(b), d)
    ensures WeightOf(b, d) == TopWeight(Count(b), d) <==> Leading(b, Count(b))
    decreases |b|
  {
    if b != [] {
      var last := |b| - 1;
      var c := Count(b[..last]);
      LeadingWeighsMost(b[..last], d);
      LeadingLast(b, c);
      assert d(last) > 0.0 && (c < last ==> d(last) < d(c));
      assert TopWeight(c + 1, d) == TopWeight(c, d) + d(c);
    }
  }

  /** A level reached at most `most` times weighs no more than the first ranks that could reach it. */
  lemma LevelBound(b: seq<bool>, most: nat, d: Weights)
    requires Discount(d) && Count(b) <= most
    ensures var m := if most <= |b| then most else |b|;
            && 0.0 <= WeightOf(b, d) <= TopWeight(m, d)
            && (WeightOf(b, d) == TopWeight(m, d) <==> Leading(b, m))
  {
    var m := if most <= |b| then most else |b|;
    LeadingWeighsMost(b, d);
    TopWeightGrows(Count(b), m, d);
    LeadingCount(b, m);
  }

  lemma {:induction false} LeadingCount(b: seq<bool>, m: nat)
    requires m <= |b|
    ensures Leading(b, m) ==> Count(b) == m
    decreases |b|
  {
    if b != [] && Leading(b, m) {
      var last := |b| - 1;
      LeadingCount(b[..last], if m <= last then m else last);
    }
  }

  // ----- Gains as two levels

  lemma {:induction false} WeighByLevels(g: seq<nat>, d: Weights)
    requires forall i :: 0 <= i < |g| ==> g[i] <= 2
    ensures Weigh(g, d) == WeightOf(Reaches(g, 1), d) + WeightOf(Reaches(g, 2), d)
    decreases |g|
  {
    if g != [] {
      var last := |g| - 1;
      WeighByLevels(g[..last], d);
      assert Reaches(g, 1)[..last] == Reaches(g[..last], 1);
      assert Reaches(g, 2)[..last] == Reaches(g[..last], 2);
      var w := d(last);
      assert g[last] == 0 || g[last] == 1 || g[last] == 2;
      assert g[last] as real * w == (if g[last] >= 1 then w else 0.0) + (if g[last] >= 2 then w else 0.0);
    }
  }

  lemma {:induction false} LeadingWeight(b: seq<bool>, m: nat, d: Weights)
    requires m <= |b| && Leading(b, m)
    ensures WeightOf(b, d) == TopWeight(m, d)
    decreases |b|
  {
    if b != [] {
      var last := |b| - 1;
      LeadingWeight(b[..last], if m <= last then m else last, d);
    }
  }

  function Least(a: nat, b: nat): nat {
    if a <= b then a else b
  }

  lemma IdealWeight(directs: nat, helpfuls: nat, ranks: nat, d: Weights)
    ensures Weigh(Ideal(directs, helpfuls, ranks), d)
            == TopWeight(Least(directs + helpfuls, ranks), d) + TopWeight(Least(directs, ranks), d)
  {
    var ideal := Ideal(directs, helpfuls, ranks);
    WeighByLevels(ideal, d);
    LeadingWeight(Reaches(ideal, 1), Least(directs + helpfuls, ranks), d);
    LeadingWeight(Reaches(ideal, 2), Least(directs, ranks), d);
  }

  // ----- A list without duplicates reaches a level at most once per label that deserves it

  function Members(s: seq<string>, labels: set<string>): seq<bool> {
    seq(|s|, i requires 0 <= i < |s| => s[i] in labels)
  }

  lemma {:induction false} DistinctMembers(s: seq<string>, labels: set<string>)
    requires NoDups(s)
    ensures Count(Members(s, labels)) <= |labels|
    decreases |s|
  {
    if s != [] {
      var last := |s| - 1;
      var init := s[..last];
      assert Members(s, labels)[..last] == Members(init, labels);
      if s[last] in labels {
        assert Members(init, labels) == Members(init, labels - {s[last]});
        DistinctMembers(init, labels - {s[last]});
      } else {
        DistinctMembers(init, labels);
      }
    }
  }

  lemma LevelCounts(direct: set<string>, helpful: set<string>, returned: seq<string>)
    requires NoDups(returned)
    ensures Count(Reaches(Gains(direct, helpful, returned), 2)) <= |direct|
    ensures Count(Reaches(Gains(direct, helpful, returned), 1)) <= |direct| + |helpful|
  {
    var g := Gains(direct, helpful, returned);
    assert Reaches(g, 2) == Members(returned, direct);
    assert Reaches(g, 1) == Members(returned, direct + helpful);
    DistinctMembers(returned, direct);
    DistinctMembers(returned, direct + helpful);
    UnionSize(direct, helpful);
  }

  // ----- The result

  /** The gain at a rank, nothing beyond the end. */
  function At(g: seq<nat>, i: nat): nat {
    if i < |g| then g[i] else 0
  }

  /** Every rank has the gain of the ideal list. */
  ghost predicate IsIdeal(direct: set<string>, helpful: set<string>, returned: seq<string>) {
    forall i: nat | i < Ranks(returned) ::
      At(Gains(direct, helpful, returned), i) == At(Ideal(|direct|, |helpful|, Ranks(returned)), i)
  }

  lemma IsIdealByLevels(direct: set<string>, helpful: set<string>, returned: seq<string>)
    requires returned != []
    ensures var g := Gains(direct, helpful, returned);
            IsIdeal(direct, helpful, returned) <==>
              && Leading(Reaches(g, 1), Least(|direct| + |helpful|, |returned|))
              && Leading(Reaches(g, 2), Least(|direct|, |returned|))
  {
    var g := Gains(direct, helpful, returned);
    var ideal := Ideal(|direct|, |helpful|, Ranks(returned));
    var m1, m2 := Least(|direct| + |helpful|, |returned|), Least(|direct|, |returned|);
    forall i: nat | i < |returned|
      ensures At(g, i) == At(ideal, i) <==> (Reaches(g, 1)[i] <==> i < m1) && (Reaches(g, 2)[i] <==> i < m2)
    {
      assert At(ideal, i) == (if i < |direct| then 2 else if i < |direct| + |helpful| then 1 else 0);
      assert At(g, i) == g[i] <= 2;
    }
  }

  /** Each level of the list weighs at most what the ideal list has there. */
  lemma LevelsAgainstIdeal(direct: set<string>, helpful: set<string>, returned: seq<string>, d: Weights)
    requires Discount(d) && NoDups(returned)
    ensures var g := Gains(direct, helpful, returned);
            var m1, m2 := Least(|direct| + |helpful|, |returned|), Least(|direct|, |returned|);
            && 0.0 <= WeightOf(Reaches(g, 1), d) <= TopWeight(m1, d)
            && (WeightOf(Reaches(g, 1), d) == TopWeight(m1, d) <==> Leading(Reaches(g, 1), m1))
            && 0.0 <= WeightOf(Reaches(g, 2), d) <= TopWeight(m2, d)
            && (WeightOf(Reaches(g, 2), d) == TopWeight(m2, d) <==> Leading(Reaches(g, 2), m2))
  {
    var g := Gains(direct, helpful, returned);
    LevelCounts(direct, helpful, returned);
    LevelBound(Reaches(g, 1), |direct| + |helpful|, d);
    LevelBound(Reaches(g, 2), |direct|, d);
  }

  lemma GainsAreSmall(direct: set<string>, helpful: set<string>, returned: seq<string>, d: Weights)
    ensures var g := Gains(direct, helpful, returned);
            Weigh(g, d) == WeightOf(Reaches(g, 1), d) + WeightOf(Reaches(g, 2), d)
  {
    WeighByLevels(Gains(direct, helpful, returned), d);
  }

  lemma WeightAgainstIdeal(direct: set<string>, helpful: set<string>, returned: seq<string>, d: Weights)
    requires Discount(d) && NoDups(returned) && returned != []
    ensures var g, idcg := Gains(direct, helpful, returned), Weigh(Ideal(|direct|, |helpful|, |returned|), d);
            && 0.0 <= Weigh(g, d) <= idcg
            && (Weigh(g, d) == idcg <==>
                  && Leading(Reaches(g, 1), Least(|direct| + |helpful|, |returned|))
                  && Leading(Reaches(g, 2), Least(|direct|, |returned|)))
  {
    GainsAreSmall(direct, helpful, returned, d);
    LevelsAgainstIdeal(direct, helpful, returned, d);
    IdealWeight(|direct|, |helpful|, |returned|, d);
  }

  /** For a nonempty list: the gain never beats the ideal, and equals it exactly when it is ideal rank by rank. */
  lemma GainAgainstIdeal(direct: set<string>, helpful: set<string>, returned: seq<string>, d: Weights)
    requires Discount(d) && NoDups(returned) && returned != []
    ensures var dcg, idcg := Weigh(Gains(direct, helpful, returned), d), Weigh(Ideal(|direct|, |helpful|, Ranks(returned)), d);
            0.0 <= dcg <= idcg && (dcg == idcg <==> IsIdeal(direct, helpful, returned))
  {
    WeightAgainstIdeal(direct, helpful, returned, d);
    IsIdealByLevels(direct, helpful, returned);
  }

  lemma IdealIsPositive(directs: nat, helpfuls: nat, ranks: nat, d: Weights)
    requires Discount(d) && directs + helpfuls > 0 && ranks > 0
    ensures Weigh(Ideal(directs, helpfuls, ranks), d) > 0.0
  {
    IdealWeight(directs, helpfuls, ranks, d);
    TopWeightGrows(0, Least(directs + helpfuls, ranks), d);
    TopWeightGrows(0, Least(directs, ranks), d);
  }

  /** The score of a list without duplicates lies in [0, 1] for any positive, strictly decreasing
      weights, is 1 exactly when the list is ideal rank by rank, and never takes the branch for a
      zero ideal. */
  lemma Bounds(direct: seq<string>, helpful: seq<string>, returned: seq<string>, d: Weights)
    requires Discount(d) && NoDups(returned)
    ensures var r := Compute(direct, helpful, returned, d);
            && (r.None? <==> direct == [] && helpful == [])
            && (r.Some? ==>
                  && Weigh(Ideal(|ToSet(direct)|, |ToSet(helpful)|, Ranks(returned)), d) > 0.0
                  && 0.0 <= r.value <= 1.0
                  && (r.value == 1.0 <==> IsIdeal(ToSet(direct), ToSet(helpful), returned)))
  {
    if direct != [] || helpful != [] {
      var directs, helpfuls := ToSet(direct), ToSet(helpful);
      SomeLabel(direct, helpful);
      IdealIsPositive(|directs|, |helpfuls|, Ranks(returned), d);
      if returned == [] {
        assert Gains(directs, helpfuls, returned) == [];
        assert At(Ideal(|directs|, |helpfuls|, 1), 0) > 0;
      } else {
        GainAgainstIdeal(directs, helpfuls, returned, d);
      }
      Quotient(Weigh(Gains(directs, helpfuls, returned), d), Weigh(Ideal(|directs|, |helpfuls|, Ranks(returned)), d));
    }
  }

  lemma SomeLabel(direct: seq<string>, helpful: seq<string>)
    requires direct != [] || helpful != []
    ensures |ToSet(direct)| + |ToSet(helpful)| > 0
  {
    if direct != [] {
      assert direct[0] in ToSet(direct);
    } else {
      assert helpful[0] in ToSet(helpful);
    }
  }

  lemma Quotient(a: real, b: real)
    requires b > 0.0
    ensures 0.0 <= a ==> 0.0 <= a / b
    ensures a <= b ==> a / b <= 1.0
    ensures a / b == 1.0 <==> a == b
  {
  }

  // ----- Where the duplicate-free list comes from

  /** The labels of the known ids, each at its first occurrence. */
  function RankedLabels(ids: seq<string>, labelsById: map<string, string>): (labels: seq<string>)
    ensures NoDups(labels)
    ensures forall l :: l in labels <==> exists i :: 0 <= i < |ids| && ids[i] in labelsById && labelsById[ids[i]] == l
  {
    if ids == [] then []
    else
      var last := ids[|ids| - 1];
      var before := RankedLabels(ids[..|ids| - 1], labelsById);
      if last in labelsById && labelsById[last] !in before then before + [labelsById[last]] else before
  }

  function Unseeded(ids: seq<string>, labelsById: map<string, string>): seq<string> {
    if ids == [] then []
    else
      var last := ids[|ids| - 1];
      Unseeded(ids[..|ids| - 1], labelsById) + if last in labelsById then [] else ["returned unseeded entity " + last]
  }

  /** `ranked_labels_for_ids`. */
  method RankLabels(ids: seq<string>, labelsById: map<string, string>, failures: seq<string>)
    returns (labels: seq<string>, failures': seq<string>)
    ensures labels == RankedLabels(ids, labelsById)
    ensures failures' == failures + Unseeded(ids, labelsById)
  {
    labels, failures' := [], failures;
    var seen: set<string> := {};
    for i := 0 to |ids|
      invariant labels == RankedLabels(ids[..i], labelsById)
      invariant failures' == failures + Unseeded(ids[..i], labelsById)
      invariant forall l :: l in seen <==> l in labels
    {
      assert ids[..i + 1][..i] == ids[..i];
      if ids[i] in labelsById {
        var name := labelsById[ids[i]];
        if name !in seen {
          seen := seen + {name};
          labels := labels + [name];
        }
      } else {
        failures' := failures' + ["returned unseeded entity " + ids[i]];
      }
    }
    assert ids[..|ids|] == ids;
  }

  /** So the score of a ranking that went through `RankLabels` is always within bounds. */
  lemma RankedBounds(direct: seq<string>, helpful: seq<string>, ids: seq<string>, labelsById: map<string, string>, d: Weights)
    requires Discount(d)
    ensures var r := Compute(direct, helpful, RankedLabels(ids, labelsById), d);
            r.Some? ==> 0.0 <= r.value <= 1.0
  {
    Bounds(direct, helpful, RankedLabels(ids, labelsById), d);
  }
}
