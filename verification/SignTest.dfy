/** The two-sided sign test over paired experiments (src/metrics.rs, `sign_test`), in exact arithmetic. */
module SignTest {
  import opened Sets
  import opened Wrappers

  // ----- Runs: every way a series of decided pairs can go

  /** A run is the pairs so far, then one more, won by the memory arm or not. */
  datatype Run = Start | Then(before: Run, won: bool)

  function Length(r: Run): nat {
    match r
    case Start => 0
    case Then(before, _) => Length(before) + 1
  }

  function Wins(r: Run): (w: nat)
    ensures w <= Length(r)
  {
    match r
    case Start => 0
    case Then(before, won) => Wins(before) + if won then 1 else 0
  }

  /** The smaller of the two win counts. */
  function Tail(r: Run): nat {
    if Wins(r) <= Length(r) - Wins(r) then Wins(r) else Length(r) - Wins(r)
  }

  ghost function Extended(runs: set<Run>, won: bool): set<Run> {
    set r | r in runs :: Then(r, won)
  }

  ghost function Outcomes(n: nat): set<Run> {
    if n == 0 then {Start}
    else Extended(Outcomes(n - 1), true) + Extended(Outcomes(n - 1), false)
  }

  /** All runs of n pairs. */
  ghost function Runs(n: nat): set<Run> {
    set r | r in Outcomes(n)
  }

  /** Those at least as lopsided as a run whose smaller win count is `tail`. */
  ghost function AsLopsided(n: nat, tail: nat): set<Run> {
    set r | r in Runs(n) && Tail(r) <= tail
  }

  lemma {:induction false} RunsAreAllRuns(n: nat, r: Run)
    ensures r in Runs(n) <==> Length(r) == n
  {
    if n > 0 && r.Then? {
      RunsAreAllRuns(n - 1, r.before);
      assert r.before in Outcomes(n - 1) <==> r in Extended(Outcomes(n - 1), r.won);
    }
  }

  lemma {:induction false} ExtendedSize(runs: set<Run>, won: bool)
    ensures |Extended(runs, won)| == |runs|
    decreases |runs|
  {
    if runs == {} {
      assert Extended(runs, won) == {};
    } else {
      var r :| r in runs;
      ExtendedSize(runs - {r}, won);
      assert Extended(runs, won) == Extended(runs - {r}, won) + {Then(r, won)};
    }
  }

  lemma TwoExtendedSize(won: set<Run>, lost: set<Run>)
    ensures |Extended(won, true) + Extended(lost, false)| == |won| + |lost|
  {
    ExtendedSize(won, true);
    ExtendedSize(lost, false);
    assert Extended(won, true) !! Extended(lost, false);
  }

  function Pow2(n: nat): (p: nat)
    ensures p > 0
  {
    if n == 0 then 1 else 2 * Pow2(n - 1)
  }

  lemma RunsSizeStep(n: nat)
    requires n > 0
    ensures |Runs(n)| == 2 * |Runs(n - 1)|
  {
    assert Runs(n) == Extended(Runs(n - 1), true) + Extended(Runs(n - 1), false);
    TwoExtendedSize(Runs(n - 1), Runs(n - 1));
  }

  lemma {:induction false} RunsSize(n: nat)
    ensures |Runs(n)| == Pow2(n)
  {
    if n == 0 {
      assert Runs(0) == {Start};
    } else {
      RunsSizeStep(n);
      RunsSize(n - 1);
    }
  }

  // ----- Binomial coefficients count the runs with a given number of wins

  function Choose(n: nat, k: nat): nat {
    if k == 0 then 1
    else if n == 0 then 0
    else Choose(n - 1, k - 1) + Choose(n - 1, k)
  }

  ghost function WithWins(n: nat, k: nat): set<Run> {
    set r | r in Runs(n) && Wins(r) == k
  }

  lemma NoWinsStep(n: nat)
    requires n > 0
    ensures WithWins(n, 0) == Extended(WithWins(n - 1, 0), false)
  {
  }

  lemma WithWinsStep(n: nat, k: nat)
    requires n > 0 && k > 0
    ensures WithWins(n, k) == Extended(WithWins(n - 1, k - 1), true) + Extended(WithWins(n - 1, k), false)
  {
  }

  lemma WithWinsSizeStep(n: nat, k: nat)
    requires n > 0
    ensures |WithWins(n, k)| == (if k == 0 then 0 else |WithWins(n - 1, k - 1)|) + |WithWins(n - 1, k)|
  {
    if k == 0 {
      NoWinsStep(n);
      ExtendedSize(WithWins(n - 1, 0), false);
    } else {
      WithWinsStep(n, k);
      TwoExtendedSize(WithWins(n - 1, k - 1), WithWins(n - 1, k));
    }
  }

  lemma WithWinsOfEmptyRun(k: nat)
    ensures |WithWins(0, k)| == if k == 0 then 1 else 0
  {
    assert WithWins(0, k) == if k == 0 then {Start} else {};
  }

  lemma {:induction false} WithWinsSize(n: nat, k: nat)
    ensures |WithWins(n, k)| == Choose(n, k)
  {
    if n == 0 {
      WithWinsOfEmptyRun(k);
    } else {
      WithWinsSizeStep(n, k);
      WithWinsSize(n - 1, k);
      if k > 0 {
        WithWinsSize(n - 1, k - 1);
      }
    }
  }

  /** The recurrence the loop multiplies by. */
  lemma {:induction false} ProductStep(n: nat, k: nat)
    requires 1 <= k <= n + 1
    ensures Choose(n, k) * k == Choose(n, k - 1) * (n + 1 - k)
  {
    if k == n + 1 {
      AboveIsZero(n, k);
    } else if k == 1 {
      ChooseOne(n);
    } else {
      ProductStep(n - 1, k);
      ProductStep(n - 1, k - 1);
      ProductAlgebra(Choose(n - 1, k - 2), Choose(n - 1, k - 1), Choose(n - 1, k), n, k);
    }
  }

  lemma ProductAlgebra(a: int, b: int, c: int, n: int, k: int)
    requires b * (k - 1) == a * (n + 1 - k) && c * k == b * (n - k)
    ensures (b + c) * k == (a + b) * (n + 1 - k)
  {
  }

  lemma {:induction false} AboveIsZero(n: nat, k: nat)
    requires n < k
    ensures Choose(n, k) == 0
  {
    if n > 0 {
      AboveIsZero(n - 1, k - 1);
      AboveIsZero(n - 1, k);
    }
  }

  lemma {:induction false} ChooseOne(n: nat)
    ensures Choose(n, 1) == n
  {
    if n > 0 {
      ChooseOne(n - 1);
    }
  }

  // ----- Tails

  ghost function Low(n: nat, t: nat): set<Run> {
    set r | r in Runs(n) && Wins(r) <= t
  }

  ghost function High(n: nat, t: nat): set<Run> {
    set r | r in Runs(n) && n - Wins(r) <= t
  }

  /** The binomial coefficients up to the shorter side. */
  function ChooseUpTo(n: nat, t: nat): nat {
    if t == 0 then 1 else ChooseUpTo(n, t - 1) + Choose(n, t)
  }

  lemma {:induction false} LowSize(n: nat, t: nat)
    ensures |Low(n, t)| == ChooseUpTo(n, t)
  {
    WithWinsSize(n, t);
    if t == 0 {
      assert Low(n, 0) == WithWins(n, 0);
    } else {
      LowSize(n, t - 1);
      assert Low(n, t) == Low(n, t - 1) + WithWins(n, t);
    }
  }

  /** The same run with the two arms exchanged. */
  function Flip(r: Run): Run {
    match r
    case Start => Start
    case Then(before, won) => Then(Flip(before), !won)
  }

  lemma {:induction false} FlipWins(r: Run)
    ensures Length(Flip(r)) == Length(r) && Wins(Flip(r)) == Length(r) - Wins(r) && Flip(Flip(r)) == r
  {
    if r.Then? {
      FlipWins(r.before);
    }
  }

  ghost function Flipped(runs: set<Run>): set<Run> {
    set r | r in runs :: Flip(r)
  }

  lemma {:induction false} FlippedSize(runs: set<Run>)
    ensures |Flipped(runs)| == |runs|
    decreases |runs|
  {
    if runs == {} {
      assert Flipped(runs) == {};
    } else {
      var r :| r in runs;
      FlippedSize(runs - {r});
      assert Flipped(runs) == Flipped(runs - {r}) + {Flip(r)};
      forall s | s in runs - {r} ensures Flip(s) != Flip(r) {
        FlipWins(s);
        FlipWins(r);
      }
    }
  }

  lemma HighSize(n: nat, t: nat)
    ensures |High(n, t)| == ChooseUpTo(n, t)
  {
    forall r ensures r in High(n, t) <==> Flip(r) in Low(n, t) {
      RunsAreAllRuns(n, r);
      RunsAreAllRuns(n, Flip(r));
      FlipWins(r);
    }
    forall r ensures Flip(Flip(r)) == r {
      FlipWins(r);
    }
    assert High(n, t) == Flipped(Low(n, t));
    FlippedSize(Low(n, t));
    LowSize(n, t);
  }

  lemma AsLopsidedIsTails(n: nat, t: nat)
    requires 2 * t <= n
    ensures AsLopsided(n, t) == Low(n, t) + High(n, t)
  {
    forall r | r in Runs(n) ensures Length(r) == n {
      RunsAreAllRuns(n, r);
    }
  }

  /** Twice the cumulative sum counts the runs at least as lopsided, unless the two tails meet. */
  lemma AsLopsidedSize(n: nat, t: nat)
    requires 2 * t <= n
    ensures 2 * t < n ==> |AsLopsided(n, t)| == 2 * ChooseUpTo(n, t)
    ensures 2 * t == n ==> AsLopsided(n, t) == Runs(n) && 2 * ChooseUpTo(n, t) >= Pow2(n)
    ensures |AsLopsided(n, t)| <= Pow2(n)
  {
    LowSize(n, t);
    HighSize(n, t);
    RunsSize(n);
    AsLopsidedIsTails(n, t);
    SubsetSize(AsLopsided(n, t), Runs(n));
    forall r | r in Runs(n) ensures Length(r) == n {
      RunsAreAllRuns(n, r);
    }
    if 2 * t < n {
      assert Low(n, t) !! High(n, t);
    } else {
      assert AsLopsided(n, t) == Runs(n);
      UnionSize(Low(n, t), High(n, t));
    }
  }

  // ----- The test

  ghost function Share(some: set<Run>, all: set<Run>): real {
    if |all| == 0 then 0.0 else |some| as real / |all| as real
  }

  function Min(a: nat, b: nat): nat {
    if a <= b then a else b
  }

  /** The p-value: the share of all runs of this length that are at least as lopsided. */
  ghost function PValue(wins: nat, losses: nat): real {
    Share(AsLopsided(wins + losses, Min(wins, losses)), Runs(wins + losses))
  }

  function Clamp(share: real): real {
    if share <= 1.0 then share else 1.0
  }

  /** The running product and sum, as left by the loop. */
  method TailSum(n: nat, tail: nat) returns (cumulative: real)
    requires tail <= n
    ensures cumulative == ChooseUpTo(n, tail) as real
  {
    var coefficient := 1.0;
    cumulative := 1.0;
    for index := 1 to tail + 1
      invariant coefficient == Choose(n, index - 1) as real
      invariant cumulative == ChooseUpTo(n, index - 1) as real
    {
      ProductStepReal(n, index);
      coefficient := coefficient * ((n + 1 - index) as real / index as real);
      cumulative := cumulative + coefficient;
    }
  }

  /** `sign_test`. */
  method Compute(memoryWins: nat, baselineWins: nat) returns (p: Option<real>)
    ensures p.None? <==> memoryWins + baselineWins == 0
    ensures p.Some? ==> p.value == PValue(memoryWins, baselineWins)
  {
    var n := memoryWins + baselineWins;
    if n == 0 {
      return None;
    }
    var tail := Min(memoryWins, baselineWins);
    var cumulative := TailSum(n, tail);
    ClampedShareIsPValue(memoryWins, baselineWins);
    p := Some(Clamp(2.0 * cumulative / Pow2(n) as real));
  }

  lemma ProductStepReal(n: nat, k: nat)
    requires 1 <= k <= n
    ensures Choose(n, k - 1) as real * ((n + 1 - k) as real / k as real) == Choose(n, k) as real
  {
    ProductStep(n, k);
    StepReal(Choose(n, k - 1), n + 1 - k, Choose(n, k), k);
  }

  lemma StepReal(a: int, b: int, c: int, k: int)
    requires k > 0 && a * b == c * k
    ensures a as real * (b as real / k as real) == c as real
  {
  }

  lemma CastProduct(a: int, b: int)
    ensures (a * b) as real == a as real * b as real
  {
  }

  lemma Ratio(a: nat, b: nat)
    requires b > 0
    ensures a <= b <==> a as real / b as real <= 1.0
    ensures a == b <==> a as real / b as real == 1.0
    ensures a > 0 ==> a as real / b as real > 0.0
  {
  }

  lemma ClampedShare(n: nat, tail: nat)
    requires 2 * tail <= n
    ensures Clamp(2.0 * ChooseUpTo(n, tail) as real / Pow2(n) as real) == Share(AsLopsided(n, tail), Runs(n))
  {
    RunsSize(n);
    AsLopsidedSize(n, tail);
    CastProduct(2, ChooseUpTo(n, tail));
    Ratio(2 * ChooseUpTo(n, tail), Pow2(n));
    Ratio(|AsLopsided(n, tail)|, Pow2(n));
  }

  lemma ClampedShareIsPValue(wins: nat, losses: nat)
    ensures Clamp(2.0 * ChooseUpTo(wins + losses, Min(wins, losses)) as real / Pow2(wins + losses) as real)
            == PValue(wins, losses)
  {
    ClampedShare(wins + losses, Min(wins, losses));
  }

  /** The p-value does not depend on which arm is called the first. */
  lemma PValueIsSymmetric(wins: nat, losses: nat)
    ensures PValue(wins, losses) == PValue(losses, wins)
  {
  }

  /** It lies in (0, 1], and is 1 exactly when the win counts differ by at most one. */
  lemma PValueIsOneWhenBalanced(wins: nat, losses: nat)
    requires wins + losses > 0
    ensures 0.0 < PValue(wins, losses) <= 1.0
    ensures PValue(wins, losses) == 1.0 <==> -1 <= wins - losses <= 1
  {
    var n, t := wins + losses, Min(wins, losses);
    AsLopsidedShare(n, t);
    Ratio(|AsLopsided(n, t)|, |Runs(n)|);
  }

  lemma AsLopsidedShare(n: nat, t: nat)
    requires 2 * t <= n
    ensures 0 < |AsLopsided(n, t)| <= |Runs(n)|
    ensures |AsLopsided(n, t)| == |Runs(n)| <==> n - 2 * t <= 1
  {
    SubsetSize(AsLopsided(n, t), Runs(n));
    ATypicalRun(n, t, t);
    if n - 2 * t <= 1 {
      AllAreAsLopsided(n, t);
    } else {
      ATypicalRun(n, t, t + 1);
    }
  }

  lemma AllAreAsLopsided(n: nat, t: nat)
    requires n - 2 * t <= 1
    ensures AsLopsided(n, t) == Runs(n)
  {
    forall r | r in Runs(n) ensures Length(r) == n {
      RunsAreAllRuns(n, r);
    }
  }

  /** Some run has exactly k wins. */
  lemma ATypicalRun(n: nat, t: nat, k: nat)
    requires 2 * k <= n
    ensures RunWith(k, n) in Runs(n)
    ensures RunWith(k, n) in AsLopsided(n, t) <==> k <= t
  {
    RunOf(k, n);
    RunsAreAllRuns(n, RunWith(k, n));
  }

  function RunWith(k: nat, n: nat): Run
    requires k <= n
    decreases n
  {
    if n == 0 then Start else if k > 0 then Then(RunWith(k - 1, n - 1), true) else Then(RunWith(0, n - 1), false)
  }

  lemma {:induction false} RunOf(k: nat, n: nat)
    requires k <= n
    ensures Length(RunWith(k, n)) == n && Wins(RunWith(k, n)) == k
    decreases n
  {
    if n > 0 {
      var fewer := if k > 0 then k - 1 else 0;
      var before := RunWith(fewer, n - 1);
      RunOf(fewer, n - 1);
      assert RunWith(k, n) == Then(before, k > 0);
    }
  }
}
