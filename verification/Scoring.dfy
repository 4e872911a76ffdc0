/** The scoring engine, internal/match/scoring/engine.go.

    Times and durations are integers (nanoseconds); float64 is modelled by exact reals and the
    conversion int(x) by truncation toward zero. The clock is an argument. */
module Scoring {
  import opened Common

  datatype Config = Config(
    baseScore: int,
    maxTimeBonus: int,
    streakBonusPercent: real,
    maxStreakBonus: real)

  const DEFAULT_CONFIG: Config := Config(100, 50, 0.05, 0.50)

  datatype Answer = Answer(
    order: int,
    token: string,
    answer: string,
    submittedAt: int,
    isCorrect: bool,
    scoreEarned: int)

  /** Go's conversion of a float to an int. */
  function Trunc(x: real): int {
    if x >= 0.0 then x.Floor else -((-x).Floor)
  }

  /** int(float64(k) * x) */
  function Scaled(k: int, x: real): int {
    Trunc(k as real * x)
  }

  lemma TruncMonotone(x: real, y: real)
    requires x <= y
    ensures Trunc(x) <= Trunc(y)
  {
  }

  // ---------------------------------------------------------------------------------------------
  // What one answer is worth
  // ---------------------------------------------------------------------------------------------

  function Ratio(remaining: int, timeout: int): real
    requires timeout > 0
  {
    var r := remaining as real / timeout as real;
    if r > 1.0 then 1.0 else if r < 0.0 then 0.0 else r
  }

  function TimeBonus(c: Config, remaining: int, timeout: int): int {
    if timeout > 0 then Scaled(c.maxTimeBonus, Ratio(remaining, timeout)) else 0
  }

  function StreakPct(c: Config, streak: int): real {
    var m := streak as real * c.streakBonusPercent;
    if streak <= 0 then 0.0 else if m > c.maxStreakBonus then c.maxStreakBonus else m
  }

  function StreakBonus(c: Config, streak: int): int {
    if streak > 0 then Scaled(c.baseScore, StreakPct(c, streak)) else 0
  }

  function Score(c: Config, isCorrect: bool, remaining: int, timeout: int, streak: int): int {
    if !isCorrect then 0
    else c.baseScore + TimeBonus(c, remaining, timeout) + StreakBonus(c, streak)
  }

  /** Time left for an answer submitted at `at`, read off a clock showing `now`. */
  function Remaining(timeout: int, now: int, at: int): int {
    Max(0, timeout - (now - at))
  }

  lemma RatioMonotone(r1: int, r2: int, timeout: int)
    requires timeout > 0 && r1 <= r2
    ensures Ratio(r1, timeout) <= Ratio(r2, timeout)
  {
    assert (r2 - r1) as real / timeout as real >= 0.0;
    assert r2 as real / timeout as real == r1 as real / timeout as real + (r2 - r1) as real / timeout as real;
  }

  lemma ScaledMonotone(k: int, x: real, y: real)
    requires k >= 0 && x <= y
    ensures Scaled(k, x) <= Scaled(k, y)
  {
    assert k as real * x <= k as real * y;
    TruncMonotone(k as real * x, k as real * y);
  }

  /** More time left never lowers the bonus, and none left gives none. */
  lemma TimeBonusMonotone(c: Config, r1: int, r2: int, timeout: int)
    requires c.maxTimeBonus >= 0 && r1 <= r2
    ensures TimeBonus(c, r1, timeout) <= TimeBonus(c, r2, timeout)
  {
    if timeout > 0 {
      RatioMonotone(r1, r2, timeout);
      ScaledMonotone(c.maxTimeBonus, Ratio(r1, timeout), Ratio(r2, timeout));
    }
  }

  lemma NoTimeNoBonus(c: Config, timeout: int)
    ensures TimeBonus(c, 0, timeout) == 0
  {
    if timeout > 0 {
      assert 0 as real / timeout as real == 0.0;
    }
  }

  // ---------------------------------------------------------------------------------------------
  // The worth of an answer, in integers
  // ---------------------------------------------------------------------------------------------

  /** A quotient rounded down, in integers. */
  lemma Floored(x: real, product: nat, total: nat)
    requires total > 0 && x * total as real == product as real
    ensures x >= 0.0 && total * x.Floor <= product < total * x.Floor + total
  {
    NotNegative(x, total as real);
    var f := x.Floor;
    ScaledInt(f, x, total);
    ScaledInt(f + 1, x, total);
    assert f as real <= x < (f + 1) as real;
    var below, above := f * total, (f + 1) * total;
    assert below as real <= product as real < above as real;
    assert above == below + total;
  }

  lemma ScaledInt(f: int, x: real, t: nat)
    requires t > 0
    ensures f as real <= x ==> (f * t) as real <= x * t as real
    ensures x < f as real ==> x * t as real < (f * t) as real
  {
    RealProduct(f, t);
    if f as real <= x {
      Scaling(f as real, x, t as real);
    } else {
      Scaling(x, f as real, t as real);
    }
  }

  lemma NotNegative(x: real, t: real)
    requires t > 0.0 && x * t >= 0.0
    ensures x >= 0.0
  {
  }

  lemma RealProduct(f: int, total: int)
    ensures f as real * total as real == (f * total) as real
  {
  }

  lemma Scaling(a: real, b: real, t: real)
    requires t > 0.0 && a <= b
    ensures a * t <= b * t && (a < b ==> a * t < b * t)
  {
  }

  lemma TruncScaled(k: nat, r: nat, t: nat)
    requires 0 < t && r <= t
    ensures var b := Scaled(k, Ratio(r, t)); t * b <= k * r < t * b + t
  {
    ShareOfWhole(r, t);
    ScaledFloored(k, Ratio(r, t), r, t);
  }

  lemma ScaledFloored(k: nat, q: real, r: nat, t: nat)
    requires 0 < t && q * t as real == r as real
    ensures t * Scaled(k, q) <= k * r < t * Scaled(k, q) + t
  {
    ProductOver(k, q, r, t);
    Floored(k as real * q, k * r, t);
  }

  lemma ShareOfWhole(r: nat, t: nat)
    requires 0 < t && r <= t
    ensures Ratio(r, t) * t as real == r as real
  {
    var q := r as real / t as real;
    assert q * t as real == r as real;
    NotNegative(q, t as real);
    if q > 1.0 {
      Scaling(1.0, q, t as real);
      assert false;
    }
  }

  lemma ProductOver(k: nat, q: real, r: nat, t: nat)
    requires q * t as real == r as real
    ensures (k as real * q) * t as real == (k * r) as real
  {
    assert (k as real * q) * t as real == k as real * (q * t as real);
    assert k as real * r as real == (k * r) as real;
  }

  /** The time bonus falls linearly from the whole maximum to nothing: it is the share of the time left, rounded
      down, and beyond either end it is what it is there. */
  lemma TimeBonusLinear(c: Config, r: int, t: int)
    requires c.maxTimeBonus >= 0
    ensures var b := Score(c, true, r, t, 0) - c.baseScore;
            && (0 < t && 0 <= r <= t ==> t * b <= c.maxTimeBonus * r < t * b + t)
            && (0 < t <= r ==> b == c.maxTimeBonus)
            && (t <= 0 || r <= 0 ==> b == 0)
  {
    if 0 < t && 0 <= r <= t {
      TruncScaled(c.maxTimeBonus, r, t);
    }
    if 0 < t <= r {
      FullRatio(r, t);
      WholeBonus(c.maxTimeBonus);
    } else if t <= 0 || r <= 0 {
      NoRatio(c, r, t);
    }
  }

  lemma NoRatio(c: Config, r: int, t: int)
    requires t <= 0 || r <= 0
    ensures TimeBonus(c, r, t) == 0
  {
    if t > 0 {
      RatioMonotone(r, 0, t);
      NoTimeNoBonus(c, t);
      assert Ratio(0, t) == 0.0 by { assert 0 as real / t as real == 0.0; }
      assert Ratio(r, t) == 0.0;
    }
  }

  /** The same by the clock: what counts is how long before the reading the answer was given. */
  lemma ScoreByClock(c: Config, now: int, at: int, timeout: int)
    requires c.maxTimeBonus >= 0 && timeout > 0
    ensures var b := Score(c, true, Remaining(timeout, now, at), timeout, 0) - c.baseScore;
            if now <= at then b == c.maxTimeBonus
            else if now - at >= timeout then b == 0
            else timeout * b <= c.maxTimeBonus * (timeout - (now - at)) < timeout * b + timeout
  {
    TimeBonusLinear(c, Remaining(timeout, now, at), timeout);
  }

  /** The streak bonus is the capped percentage of the base score, rounded down; without a streak there is none. */
  lemma StreakBonusIs(c: Config, streak: int)
    requires c.baseScore >= 0 && c.streakBonusPercent >= 0.0 && c.maxStreakBonus >= 0.0
    ensures var b, uncapped := StreakBonus(c, streak), streak as real * c.streakBonusPercent;
            var pct := if uncapped <= c.maxStreakBonus then uncapped else c.maxStreakBonus;
            if streak <= 0 then b == 0
            else b as real <= c.baseScore as real * pct < b as real + 1.0
  {
    if streak > 0 {
      assert streak as real * c.streakBonusPercent >= 0.0;
      assert c.baseScore as real * StreakPct(c, streak) >= 0.0;
    }
  }

  /** Under the default constants a correct answer with r of t left, after k correct ones, is worth this. */
  lemma DefaultScoreIs(r: nat, t: nat, k: nat)
    requires 0 < t && r <= t
    ensures Score(DEFAULT_CONFIG, true, r, t, k) == 100 + 50 * r / t + Min(5 * k, 50)
    ensures Score(DEFAULT_CONFIG, false, r, t, k) == 0
  {
    TimeBonusLinear(DEFAULT_CONFIG, r, t);
    DefaultStreakBonus(k);
    QuotientIs(50 * r, t, TimeBonus(DEFAULT_CONFIG, r, t));
  }

  lemma QuotientIs(n: nat, t: nat, b: int)
    requires t > 0 && t * b <= n < t * b + t
    ensures b == n / t
  {
    var q := n / t;
    assert n == t * q + n % t;
    if b < q {
      AtLeastOneMore(t, b, q);
    } else if q < b {
      AtLeastOneMore(t, q, b);
    }
  }

  lemma AtLeastOneMore(t: nat, lo: int, hi: int)
    requires lo < hi
    ensures t * hi >= t * lo + t
  {
    assert t * hi == t * lo + t * (hi - lo);
    NoLess(t, hi - lo);
  }

  lemma NoLess(t: nat, d: nat)
    requires d > 0
    ensures t * d >= t
  {
  }

  // ---------------------------------------------------------------------------------------------
  // Streaks in a list of answers
  // ---------------------------------------------------------------------------------------------

  /** Length of the run of correct answers that ends the list. */
  function TrailingRun(a: seq<Answer>): (k: nat)
    ensures k <= |a|
  {
    if a == [] || !a[|a| - 1].isCorrect then 0 else 1 + TrailingRun(a[..|a| - 1])
  }

  /** Length of the run of correct answers that starts the list. */
  function LeadingRun(a: seq<Answer>): (k: nat)
    ensures k <= |a|
  {
    if a == [] || !a[0].isCorrect then 0 else 1 + LeadingRun(a[1..])
  }

  /** The lengths of the maximal runs of correct answers, in order. */
  function MaximalRuns(a: seq<Answer>): seq<nat>
    decreases |a|
  {
    if a == [] then []
    else if !a[0].isCorrect then MaximalRuns(a[1..])
    else [LeadingRun(a)] + MaximalRuns(a[LeadingRun(a)..])
  }

  function LongestRun(a: seq<Answer>): nat {
    if a == [] then 0 else Max(LongestRun(a[..|a| - 1]), TrailingRun(a))
  }

  function CorrectCount(a: seq<Answer>): (n: nat)
    ensures n <= |a|
  {
    if a == [] then 0
    else CorrectCount(a[..|a| - 1]) + if a[|a| - 1].isCorrect then 1 else 0
  }

  /** A backward scan that stops at `k` answers has found the trailing run. */
  lemma {:induction false} TrailingRunIs(a: seq<Answer>, k: nat)
    requires k <= |a|
    requires forall j :: |a| - k <= j < |a| ==> a[j].isCorrect
    requires k == |a| || !a[|a| - k - 1].isCorrect
    ensures TrailingRun(a) == k
    decreases k
  {
    if k > 0 {
      TrailingRunIs(a[..|a| - 1], k - 1);
    }
  }

  /** The positions of the correct answers. */
  ghost function CorrectAt(a: seq<Answer>): set<int> {
    set i | 0 <= i < |a| && a[i].isCorrect
  }

  lemma {:induction false} CorrectCountIs(a: seq<Answer>)
    ensures CorrectCount(a) == |CorrectAt(a)|
  {
    if a != [] {
      var n := |a| - 1;
      CorrectCountIs(a[..n]);
      assert CorrectAt(a) == CorrectAt(a[..n]) + if a[n].isCorrect then {n} else {};
    } else {
      assert CorrectAt(a) == {};
    }
  }

  /** The n answers from i on are all correct. */
  ghost predicate IsStreak(a: seq<Answer>, i: int, n: int) {
    0 <= i <= i + n <= |a| && forall k :: i <= k < i + n ==> a[k].isCorrect
  }

  /** The longest run is a run of correct answers and no other is longer. */
  lemma {:induction false} LongestRunIs(a: seq<Answer>) returns (i: nat)
    ensures IsStreak(a, i, LongestRun(a))
    ensures forall j, n :: IsStreak(a, j, n) ==> n <= LongestRun(a)
  {
    if a == [] {
      i := 0;
    } else {
      var m := |a| - 1;
      i := LongestRunIs(a[..m]);
      TrailingRunEnds(a);
      if LongestRun(a[..m]) < TrailingRun(a) {
        i := |a| - TrailingRun(a);
      }
      forall j, n | IsStreak(a, j, n) ensures n <= LongestRun(a) {
        if j + n <= m {
          assert IsStreak(a[..m], j, n);
        } else {
          StreakAtEnd(a, j, n);
        }
      }
    }
  }

  lemma {:induction false} TrailingRunEnds(a: seq<Answer>)
    ensures IsStreak(a, |a| - TrailingRun(a), TrailingRun(a))
    decreases |a|
  {
    if a != [] && a[|a| - 1].isCorrect {
      TrailingRunEnds(a[..|a| - 1]);
    }
  }

  lemma {:induction false} StreakAtEnd(a: seq<Answer>, j: int, n: int)
    requires IsStreak(a, j, n) && j + n == |a|
    ensures n <= TrailingRun(a)
    decreases |a|
  {
    if n > 0 {
      StreakAtEnd(a[..|a| - 1], j, n - 1);
    }
  }

  // ---------------------------------------------------------------------------------------------
  // Totals
  // ---------------------------------------------------------------------------------------------

  /** The final total computed in one forward pass with a running streak. */
  function OnePassTotal(c: Config, a: seq<Answer>, now: int, timeout: int, run: nat): int {
    if a == [] then 0
    else
      var r := if a[0].isCorrect then run + 1 else 0;
      Score(c, a[0].isCorrect, Remaining(timeout, now, a[0].submittedAt), timeout, r)
      + OnePassTotal(c, a[1..], now, timeout, r)
  }

  function Accuracy(a: seq<Answer>): real {
    if a == [] then 0.0 else CorrectCount(a) as real / |a| as real
  }

  datatype FinalScore = FinalScore(total: int, accuracy: real, streakPct: real)

  function Final(c: Config, a: seq<Answer>, now: int, timeout: int): FinalScore {
    FinalScore(OnePassTotal(c, a, now, timeout, 0), Accuracy(a), StreakPct(c, LongestRun(a)))
  }

  class Engine {
    const config: Config

    constructor (config: Config)
      ensures this.config == if config.baseScore == 0 then DEFAULT_CONFIG else config
    {
      this.config := if config.baseScore == 0 then DEFAULT_CONFIG else config;
    }

    method TimeRatio(timeRemaining: int, perQuestionTimeout: int) returns (timeRatio: real)
      requires perQuestionTimeout > 0
      ensures timeRatio == Ratio(timeRemaining, perQuestionTimeout)
    {
      timeRatio := timeRemaining as real / perQuestionTimeout as real;
      if timeRatio > 1.0 {
        timeRatio := 1.0;
      }
      if timeRatio < 0.0 {
        timeRatio := 0.0;
      }
    }

    method StreakMultiplier(streak: int) returns (streakMultiplier: real)
      ensures streakMultiplier == StreakPct(config, streak)
    {
      streakMultiplier := 0.0;
      if streak > 0 {
        streakMultiplier := streak as real * config.streakBonusPercent;
        if streakMultiplier > config.maxStreakBonus {
          streakMultiplier := config.maxStreakBonus;
        }
      }
    }

    method CalculateScore(isCorrect: bool, timeRemaining: int, perQuestionTimeout: int, currentStreak: int)
      returns (score: int)
      ensures score == Score(config, isCorrect, timeRemaining, perQuestionTimeout, currentStreak)
    {
      if !isCorrect {
        return 0;
      }
      score := config.baseScore;
      if perQuestionTimeout > 0 {
        var timeRatio := TimeRatio(timeRemaining, perQuestionTimeout);
        score := score + Scaled(config.maxTimeBonus, timeRatio);
      }
      if currentStreak > 0 {
        var streakMultiplier := StreakMultiplier(currentStreak);
        score := score + Scaled(config.baseScore, streakMultiplier);
      }
    }

    /** The backward inner loop. */
    method StreakBefore(answers: seq<Answer>, i: nat) returns (streak: nat)
      requires i <= |answers|
      ensures streak == TrailingRun(answers[..i])
    {
      streak := 0;
      var j := i - 1;
      while j >= 0 && answers[j].isCorrect
        invariant -1 <= j < i && streak == i - 1 - j
        invariant forall k :: j < k < i ==> answers[k].isCorrect
      {
        streak := streak + 1;
        j := j - 1;
      }
      TrailingRunIs(answers[..i], streak);
    }

    /** The quadratic loop of the source: it recounts the streak backward from every answer. */
    method ComputeFinalScore(answers: seq<Answer>, perQuestionTimeout: int, now: int)
      returns (totalScore: int, accuracy: real, streakBonusPct: real)
      ensures FinalScore(totalScore, accuracy, streakBonusPct) == Final(config, answers, now, perQuestionTimeout)
    {
      if |answers| == 0 {
        return 0, 0.0, 0.0;
      }
      totalScore := 0;
      var correctCount, currentStreak, maxStreak := 0, 0, 0;
      for i := 0 to |answers|
        invariant correctCount == CorrectCount(answers[..i])
        invariant currentStreak == TrailingRun(answers[..i])
        invariant maxStreak == LongestRun(answers[..i])
        invariant totalScore + OnePassTotal(config, answers[i..], now, perQuestionTimeout, currentStreak)
               == OnePassTotal(config, answers, now, perQuestionTimeout, 0)
      {
        var ans := answers[i];
        assert answers[..i + 1][..i] == answers[..i];
        assert answers[i..][1..] == answers[i + 1..];
        if ans.isCorrect {
          correctCount := correctCount + 1;
          currentStreak := currentStreak + 1;
          if currentStreak > maxStreak {
            maxStreak := currentStreak;
          }
        } else {
          currentStreak := 0;
        }
        var streakAtAnswer := StreakBefore(answers, i);
        if ans.isCorrect {
          streakAtAnswer := streakAtAnswer + 1;
        }
        var timeRemaining := perQuestionTimeout - (now - ans.submittedAt);
        if timeRemaining < 0 {
          timeRemaining := 0;
        }
        var score := CalculateScore(ans.isCorrect, timeRemaining, perQuestionTimeout, streakAtAnswer);
        totalScore := totalScore + score;
      }
      assert answers[..|answers|] == answers;
      accuracy := correctCount as real / |answers| as real;
      streakBonusPct := StreakMultiplier(maxStreak);
    }
  }

  // ---------------------------------------------------------------------------------------------
  // The two streak conventions telescope
  // ---------------------------------------------------------------------------------------------

  /** The clock and the time limit that one scoring works with: every call looks the limit up anew and may
      fall back to the default. */
  datatype Reading = Reading(now: int, timeout: int)

  function BonusAt(c: Config, x: Answer, r: Reading): int {
    TimeBonus(c, Remaining(r.timeout, r.now, x.submittedAt), r.timeout)
  }

  lemma RatioFalls(e: int, t1: int, t2: int)
    requires 0 < t1 <= t2
    ensures Ratio(Max(0, t1 - e), t1) <= Ratio(Max(0, t2 - e), t2)
  {
    if e <= 0 {
      FullRatio(t2 - e, t2);
    } else if e < t1 {
      LeftOver(e, t1);
      LeftOver(e, t2);
      Quotients(e as real, t1 as real, t2 as real);
    } else {
      assert 0 as real / t1 as real == 0.0;
    }
  }

  lemma FullRatio(r: int, t: int)
    requires 0 < t <= r
    ensures Ratio(r, t) == 1.0
  {
    RatioMonotone(t, r, t);
  }

  lemma LeftOver(e: int, t: int)
    requires t > 0
    ensures (t - e) as real / t as real == 1.0 - e as real / t as real
  {
    assert (t - e) as real / t as real + e as real / t as real == t as real / t as real;
  }

  lemma Quotients(x: real, a: real, b: real)
    requires x >= 0.0 && 0.0 < a <= b
    ensures x / b <= x / a
  {
    assert x / b * b == x && x / a * a == x;
    assert x / a * b >= x / a * a;
  }

  /** A later clock and a shorter limit never raise a time bonus. */
  lemma BonusFalls(c: Config, x: Answer, early: Reading, late: Reading)
    requires c.maxTimeBonus >= 0 && early.now <= late.now && late.timeout <= early.timeout
    ensures BonusAt(c, x, late) <= BonusAt(c, x, early)
  {
    var left := Remaining(late.timeout, early.now, x.submittedAt);
    TimeBonusMonotone(c, Remaining(late.timeout, late.now, x.submittedAt), left, late.timeout);
    TimeBonusMonotone(c, 0, Remaining(early.timeout, early.now, x.submittedAt), early.timeout);
    NoTimeNoBonus(c, early.timeout);
    if late.timeout > 0 {
      RatioFalls(early.now - x.submittedAt, late.timeout, early.timeout);
      ScaledMonotone(c.maxTimeBonus, Ratio(left, late.timeout),
                     Ratio(Remaining(early.timeout, early.now, x.submittedAt), early.timeout));
    }
  }

  /** Base and time part of the answers' worth, answer i scored at `readings[i]`. */
  function BaseAndTime(c: Config, a: seq<Answer>, readings: seq<Reading>): int
    requires |readings| == |a|
  {
    if a == [] then 0
    else (if a[0].isCorrect
          then c.baseScore + BonusAt(c, a[0], readings[0])
          else 0)
         + BaseAndTime(c, a[1..], readings[1..])
  }

  function SumEarned(a: seq<Answer>): int {
    if a == [] then 0 else a[0].scoreEarned + SumEarned(a[1..])
  }

  function SumBonus(c: Config, runs: seq<nat>): int {
    if runs == [] then 0 else StreakBonus(c, runs[0]) + SumBonus(c, runs[1..])
  }

  /** The score that submission gives answer `x`: the streak counts only the answers `before` it. */
  ghost predicate EarnedAt(c: Config, before: seq<Answer>, x: Answer, read: Reading) {
    x.scoreEarned == Score(c, x.isCorrect, Remaining(read.timeout, read.now, x.submittedAt), read.timeout,
                           TrailingRun(before))
  }

  /** Every answer carries the score that submission gave it. */
  ghost predicate ScoredAtSubmission(c: Config, a: seq<Answer>, readings: seq<Reading>) {
    |readings| == |a| && forall i :: 0 <= i < |a| ==> EarnedAt(c, a[..i], a[i], readings[i])
  }

  /** Bonus of every maximal run of `a`, the first one lengthened by `run` answers before it. */
  function RunSum(c: Config, a: seq<Answer>, run: nat): int {
    if a == [] then StreakBonus(c, run)
    else if a[0].isCorrect then RunSum(c, a[1..], run + 1)
    else StreakBonus(c, run) + RunSum(c, a[1..], 0)
  }

  lemma {:induction false} RunSumIsMaximalRuns(c: Config, a: seq<Answer>, run: nat)
    ensures RunSum(c, a, run) == StreakBonus(c, run + LeadingRun(a)) + SumBonus(c, MaximalRuns(a[LeadingRun(a)..]))
    decreases |a|
  {
    if a == [] {
    } else if a[0].isCorrect {
      RunSumIsMaximalRuns(c, a[1..], run + 1);
      assert a[1..][LeadingRun(a[1..])..] == a[LeadingRun(a)..];
    } else {
      RunSumIsMaximalRuns(c, a[1..], 0);
      var k := LeadingRun(a[1..]);
      if k > 0 {
        assert MaximalRuns(a[1..]) == [k] + MaximalRuns(a[1..][k..]);
      } else {
        assert a[1..][0..] == a[1..];
      }
      assert a[0..] == a;
    }
  }

  /** Streak part of the final total: the answer itself counts. */
  function FinalStreakPart(c: Config, a: seq<Answer>, run: nat): int {
    if a == [] then 0
    else if a[0].isCorrect then StreakBonus(c, run + 1) + FinalStreakPart(c, a[1..], run + 1)
    else FinalStreakPart(c, a[1..], 0)
  }

  /** Streak part of what submission paid: only the answers before it count. */
  function EarnedStreakPart(c: Config, a: seq<Answer>, run: nat): int {
    if a == [] then 0
    else if a[0].isCorrect then StreakBonus(c, run) + EarnedStreakPart(c, a[1..], run + 1)
    else EarnedStreakPart(c, a[1..], 0)
  }

  lemma {:induction false} FinalParts(c: Config, a: seq<Answer>, r: Reading, nows: seq<Reading>, run: nat)
    requires |nows| == |a| && forall i :: 0 <= i < |a| ==> nows[i] == r
    ensures OnePassTotal(c, a, r.now, r.timeout, run) == BaseAndTime(c, a, nows) + FinalStreakPart(c, a, run)
  {
    if a != [] {
      FinalParts(c, a[1..], r, nows[1..], if a[0].isCorrect then run + 1 else 0);
    }
  }

  lemma {:induction false} EarnedParts(c: Config, pre: seq<Answer>, a: seq<Answer>, readings: seq<Reading>)
    requires |readings| == |a|
    requires forall i :: 0 <= i < |a| ==> EarnedAt(c, pre + a[..i], a[i], readings[i])
    ensures SumEarned(a) == BaseAndTime(c, a, readings) + EarnedStreakPart(c, a, TrailingRun(pre))
    decreases |a|
  {
    if a != [] {
      EarnedHead(c, pre, a, readings);
      EarnedTail(c, pre, a, readings);
      EarnedParts(c, pre + [a[0]], a[1..], readings[1..]);
      var run := TrailingRun(pre);
      assert EarnedStreakPart(c, a, run) == (if a[0].isCorrect then StreakBonus(c, run) else 0)
                                            + EarnedStreakPart(c, a[1..], if a[0].isCorrect then run + 1 else 0);
    }
  }

  lemma EarnedHead(c: Config, pre: seq<Answer>, a: seq<Answer>, readings: seq<Reading>)
    requires |readings| == |a| && a != [] && EarnedAt(c, pre + a[..0], a[0], readings[0])
    ensures a[0].scoreEarned + BaseAndTime(c, a[1..], readings[1..])
            == BaseAndTime(c, a, readings) + if a[0].isCorrect then StreakBonus(c, TrailingRun(pre)) else 0
    ensures TrailingRun(pre + [a[0]]) == if a[0].isCorrect then TrailingRun(pre) + 1 else 0
  {
    assert pre + a[..0] == pre;
    assert (pre + [a[0]])[..|pre|] == pre;
  }

  lemma EarnedTail(c: Config, pre: seq<Answer>, a: seq<Answer>, readings: seq<Reading>)
    requires |readings| == |a| && a != []
    requires forall i :: 0 <= i < |a| ==> EarnedAt(c, pre + a[..i], a[i], readings[i])
    ensures forall i :: 0 <= i < |a| - 1 ==> EarnedAt(c, pre + [a[0]] + a[1..][..i], a[1..][i], readings[1..][i])
  {
    forall i | 0 <= i < |a| - 1 ensures EarnedAt(c, pre + [a[0]] + a[1..][..i], a[1..][i], readings[1..][i]) {
      assert pre + [a[0]] + a[1..][..i] == pre + a[..i + 1];
    }
  }

  lemma {:induction false} StreakPartsTelescope(c: Config, a: seq<Answer>, run: nat)
    ensures FinalStreakPart(c, a, run) - EarnedStreakPart(c, a, run) == RunSum(c, a, run) - StreakBonus(c, run)
  {
    if a != [] {
      StreakPartsTelescope(c, a[1..], if a[0].isCorrect then run + 1 else 0);
    }
  }

  lemma {:induction false} RunSumFromStart(c: Config, a: seq<Answer>)
    ensures RunSum(c, a, 0) == SumBonus(c, MaximalRuns(a))
  {
    RunSumIsMaximalRuns(c, a, 0);
    var k := LeadingRun(a);
    if k > 0 {
      assert MaximalRuns(a) == [k] + MaximalRuns(a[k..]);
    } else {
      assert a[0..] == a;
    }
  }

  /** The streak part of the final total exceeds that of the summed submission scores by exactly one
      bonus per maximal run of correct answers. */
  lemma StreakConventionsDiffer(c: Config, a: seq<Answer>)
    ensures FinalStreakPart(c, a, 0) - EarnedStreakPart(c, a, 0) == SumBonus(c, MaximalRuns(a))
  {
    StreakPartsTelescope(c, a, 0);
    RunSumFromStart(c, a);
  }

  /** Submission leaves the answered question out of its streak and finalization counts it. The two
      totals differ by exactly one bonus per maximal run of correct answers, besides what the time bonuses
      have changed by: the clock has gone on, and each scoring looked its limit up anew. */
  lemma FinalTotalTelescopes(c: Config, a: seq<Answer>, readings: seq<Reading>, now: int, timeout: int)
    requires ScoredAtSubmission(c, a, readings)
    ensures var nows := seq(|a|, i => Reading(now, timeout));
            OnePassTotal(c, a, now, timeout, 0)
            == SumEarned(a) + SumBonus(c, MaximalRuns(a))
               + (BaseAndTime(c, a, nows) - BaseAndTime(c, a, readings))
  {
    FinalParts(c, a, Reading(now, timeout), seq(|a|, i => Reading(now, timeout)), 0);
    forall i | 0 <= i < |a| ensures EarnedAt(c, [] + a[..i], a[i], readings[i]) {
      assert [] + a[..i] == a[..i];
    }
    EarnedParts(c, [], a, readings);
    StreakConventionsDiffer(c, a);
  }

  /** Each second reading has a clock no earlier and a limit no longer than the first. */
  ghost predicate Stricter(readings: seq<Reading>, nows: seq<Reading>) {
    && |readings| == |nows|
    && forall i :: 0 <= i < |readings| ==> readings[i].now <= nows[i].now && nows[i].timeout <= readings[i].timeout
  }

  lemma {:induction false} BaseAndTimeDecays(c: Config, a: seq<Answer>, readings: seq<Reading>, nows: seq<Reading>)
    requires c.maxTimeBonus >= 0 && |readings| == |a| && Stricter(readings, nows)
    ensures BaseAndTime(c, a, nows) <= BaseAndTime(c, a, readings)
  {
    if a != [] {
      BonusFalls(c, a[0], readings[0], nows[0]);
      BaseAndTimeDecays(c, a[1..], readings[1..], nows[1..]);
    }
  }

  lemma {:induction false} SameTimeBonuses(c: Config, a: seq<Answer>, readings: seq<Reading>, nows: seq<Reading>)
    requires c.maxTimeBonus >= 0 && |readings| == |a| && Stricter(readings, nows)
    ensures BaseAndTime(c, a, nows) == BaseAndTime(c, a, readings) <==>
            forall i :: 0 <= i < |a| && a[i].isCorrect ==> BonusAt(c, a[i], nows[i]) == BonusAt(c, a[i], readings[i])
  {
    if a != [] {
      BonusFalls(c, a[0], readings[0], nows[0]);
      BaseAndTimeDecays(c, a[1..], readings[1..], nows[1..]);
      SameTimeBonuses(c, a[1..], readings[1..], nows[1..]);
      var b, cl, nw := a[1..], readings[1..], nows[1..];
      assert forall i :: 1 <= i < |a| ==> a[i] == b[i - 1] && readings[i] == cl[i - 1] && nows[i] == nw[i - 1];
    }
  }

  /** Finalization with a limit no longer than those of the submissions never pays more than what they paid
      plus one bonus per maximal run, and pays exactly that when and only when every correct answer kept its
      time bonus. */
  lemma FinalTotalAgainstEarned(c: Config, a: seq<Answer>, readings: seq<Reading>, now: int, timeout: int)
    requires c.maxTimeBonus >= 0
    requires ScoredAtSubmission(c, a, readings)
    requires forall i :: 0 <= i < |a| ==> readings[i].now <= now && timeout <= readings[i].timeout
    ensures OnePassTotal(c, a, now, timeout, 0) <= SumEarned(a) + SumBonus(c, MaximalRuns(a))
    ensures OnePassTotal(c, a, now, timeout, 0) == SumEarned(a) + SumBonus(c, MaximalRuns(a)) <==>
            forall i :: 0 <= i < |a| && a[i].isCorrect ==>
              BonusAt(c, a[i], Reading(now, timeout)) == BonusAt(c, a[i], readings[i])
  {
    var nows := seq(|a|, i => Reading(now, timeout));
    FinalTotalTelescopes(c, a, readings, now, timeout);
    BaseAndTimeDecays(c, a, readings, nows);
    SameTimeBonuses(c, a, readings, nows);
    assert forall i :: 0 <= i < |a| ==> nows[i] == Reading(now, timeout);
  }

  /** The condition on the limits is needed: an answer that has used up the limit its submission worked with,
      because the lookup failed and the default was shorter, and that is finalized at that same moment under
      twice the limit, ends with more than it was paid and its run's bonus. */
  lemma LongerLimitRaises(c: Config, limit: int) returns (a: seq<Answer>, readings: seq<Reading>, now: int)
    requires c.maxTimeBonus >= 2 && limit > 0
    ensures |a| == 1 && ScoredAtSubmission(c, a, readings) && readings[0] == Reading(now, limit)
    ensures OnePassTotal(c, a, now, 2 * limit, 0) > SumEarned(a) + SumBonus(c, MaximalRuns(a))
  {
    now := limit;
    readings := [Reading(limit, limit)];
    a := [Answer(1, "", "", 0, true, Score(c, true, 0, limit, 0))];
    assert a[..0] == [] && a[1..] == [];
    FinalTotalTelescopes(c, a, readings, now, 2 * limit);
    HalfBonus(c.maxTimeBonus);
    NoTimeNoBonus(c, limit);
    HalfRatio(limit);
    assert seq(1, i => Reading(now, 2 * limit))[0] == Reading(now, 2 * limit);
  }

  lemma HalfRatio(limit: int)
    requires limit > 0
    ensures Ratio(limit, 2 * limit) == 0.5
  {
    assert limit as real / (2 * limit) as real == 0.5;
  }

  lemma HalfBonus(k: int)
    requires k >= 2
    ensures Scaled(k, 0.5) >= 1
  {
    assert k as real * 0.5 >= 1.0;
  }

  // ---------------------------------------------------------------------------------------------
  // The greatest total under the default constants
  // ---------------------------------------------------------------------------------------------

  /** Sum of min(5k, 50) for k in run+1 .. run+n. */
  function StreakCeiling(run: nat, n: nat): nat
    decreases n
  {
    if n == 0 then 0 else Min(5 * (run + 1), 50) + StreakCeiling(run + 1, n - 1)
  }

  lemma DefaultStreakBonus(streak: nat)
    ensures StreakBonus(DEFAULT_CONFIG, streak) == Min(5 * streak, 50)
  {
    if streak > 0 {
      var m := streak as real * 0.05;
      assert 100.0 * m == (5 * streak) as real;
      assert m > 0.5 <==> streak > 10;
    }
  }

  lemma DefaultTimeBonus(remaining: int, timeout: int)
    ensures 0 <= TimeBonus(DEFAULT_CONFIG, remaining, timeout) <= 50
    ensures TimeBonus(DEFAULT_CONFIG, remaining, timeout) == 50 <==> timeout > 0 && remaining >= timeout
  {
    if timeout > 0 {
      var r := remaining as real / timeout as real;
      assert r * timeout as real == remaining as real;
      if remaining >= timeout {
        assert r >= 1.0;
      } else {
        assert r < 1.0;
      }
    }
  }

  lemma {:induction false} StreakCeilingMonotone(r1: nat, r2: nat, n: nat)
    requires r1 <= r2
    ensures StreakCeiling(r1, n) <= StreakCeiling(r2, n)
    decreases n
  {
    if n > 0 {
      StreakCeilingMonotone(r1 + 1, r2 + 1, n - 1);
    }
  }

  lemma {:induction false} StreakCeilingSplit(run: nat, n: nat, m: nat)
    ensures StreakCeiling(run, n + m) == StreakCeiling(run, n) + StreakCeiling(run + n, m)
    decreases n
  {
    if n > 0 {
      StreakCeilingSplit(run + 1, n - 1, m);
    }
  }

  lemma {:induction false} StreakCeilingFlat(run: nat, n: nat)
    requires run >= 9
    ensures StreakCeiling(run, n) == 50 * n
    decreases n
  {
    if n > 0 {
      StreakCeilingFlat(run + 1, n - 1);
    }
  }

  lemma NextTriangle(n: nat)
    requires n > 0
    ensures 5 * n * (n + 1) == 5 * (n - 1) * n + 10 * n
  {
  }

  lemma {:induction false} StreakCeilingRising(n: nat)
    requires n <= 10
    ensures 2 * StreakCeiling(0, n) == 5 * n * (n + 1)
  {
    if n > 0 {
      StreakCeilingRising(n - 1);
      StreakCeilingSplit(0, n - 1, 1);
      assert StreakCeiling(n - 1, 1) == 5 * n;
      NextTriangle(n);
    }
  }

  /** Closed form of the streak part of the ceiling. */
  lemma StreakCeilingClosedForm(n: nat)
    ensures StreakCeiling(0, n) == if n <= 10 then 5 * n * (n + 1) / 2 else 275 + 50 * (n - 10)
  {
    if n <= 10 {
      StreakCeilingRising(n);
    } else {
      StreakCeilingSplit(0, 10, n - 10);
      StreakCeilingRising(10);
      StreakCeilingFlat(10, n - 10);
    }
  }

  ghost predicate Flawless(a: seq<Answer>, now: int, timeout: int) {
    forall i :: 0 <= i < |a| ==> a[i].isCorrect && timeout > 0 && now <= a[i].submittedAt
  }

  lemma {:induction false} CeilingFrom(a: seq<Answer>, now: int, timeout: int, run: nat)
    ensures OnePassTotal(DEFAULT_CONFIG, a, now, timeout, run) <= 150 * |a| + StreakCeiling(run, |a|)
    ensures OnePassTotal(DEFAULT_CONFIG, a, now, timeout, run) == 150 * |a| + StreakCeiling(run, |a|)
            <==> Flawless(a, now, timeout)
  {
    if a != [] {
      var r := if a[0].isCorrect then run + 1 else 0;
      CeilingFrom(a[1..], now, timeout, r);
      DefaultStreakBonus(run + 1);
      DefaultTimeBonus(Remaining(timeout, now, a[0].submittedAt), timeout);
      StreakCeilingMonotone(r, run + 1, |a| - 1);
      var b := a[1..];
      assert forall i :: 1 <= i < |a| ==> a[i] == b[i - 1];
      assert Flawless(a, now, timeout) <==>
        (a[0].isCorrect && timeout > 0 && now <= a[0].submittedAt) && Flawless(b, now, timeout);
    }
  }

  /** n answers score at most 150n plus the capped streak sum, and reach it exactly when all are
      correct and read with the whole time left. */
  lemma FinalTotalCeiling(a: seq<Answer>, now: int, timeout: int)
    ensures var n := |a|;
            var ceiling := 150 * n + if n <= 10 then 5 * n * (n + 1) / 2 else 275 + 50 * (n - 10);
            && Final(DEFAULT_CONFIG, a, now, timeout).total <= ceiling
            && (Final(DEFAULT_CONFIG, a, now, timeout).total == ceiling <==> Flawless(a, now, timeout))
  {
    CeilingFrom(a, now, timeout, 0);
    StreakCeilingClosedForm(|a|);
  }

  // ---------------------------------------------------------------------------------------------
  // Padding and the passing of time
  // ---------------------------------------------------------------------------------------------

  ghost predicate AllWrong(pad: seq<Answer>) {
    forall i :: 0 <= i < |pad| ==> !pad[i].isCorrect
  }

  lemma {:induction false} WrongAnswersScoreNothing(c: Config, pad: seq<Answer>, now: int, timeout: int, run: nat)
    requires AllWrong(pad)
    ensures OnePassTotal(c, pad, now, timeout, run) == 0
  {
    if pad != [] {
      WrongAnswersScoreNothing(c, pad[1..], now, timeout, 0);
    }
  }

  /** A configuration in which a correct answer is worth something and no bonus takes anything away. */
  predicate Rewarding(c: Config) {
    c.baseScore > 0 && c.maxTimeBonus >= 0 && c.streakBonusPercent >= 0.0 && c.maxStreakBonus >= 0.0
  }

  lemma BonusesNotNegative(c: Config, remaining: int, timeout: int, streak: int)
    requires Rewarding(c) && remaining >= 0
    ensures TimeBonus(c, remaining, timeout) >= 0 && StreakBonus(c, streak) >= 0
  {
    TimeBonusMonotone(c, 0, remaining, timeout);
    NoTimeNoBonus(c, timeout);
    if streak > 0 {
      assert streak as real * c.streakBonusPercent >= 0.0;
      ScaledMonotone(c.baseScore, 0.0, StreakPct(c, streak));
    }
  }

  /** In such a configuration, as the default one, a total is zero only when nothing was answered
      correctly. */
  lemma {:induction false} ScoresNothingIff(c: Config, a: seq<Answer>, now: int, timeout: int, run: nat)
    requires Rewarding(c)
    ensures OnePassTotal(c, a, now, timeout, run) >= 0
    ensures OnePassTotal(c, a, now, timeout, run) == 0 <==> AllWrong(a)
  {
    if a != [] {
      ScoresNothingIff(c, a[1..], now, timeout, if a[0].isCorrect then run + 1 else 0);
      BonusesNotNegative(c, Remaining(timeout, now, a[0].submittedAt), timeout, run + 1);
      var b := a[1..];
      assert forall i :: 1 <= i < |a| ==> a[i] == b[i - 1];
      assert AllWrong(a) <==> !a[0].isCorrect && AllWrong(b);
    }
  }

  lemma {:induction false} NoneCorrect(a: seq<Answer>)
    ensures CorrectCount(a) == 0 <==> AllWrong(a)
  {
    if a != [] {
      NoneCorrect(a[..|a| - 1]);
    }
  }

  lemma {:induction false} PaddingKeepsTotal(c: Config, a: seq<Answer>, pad: seq<Answer>, now: int, timeout: int,
                                             run: nat)
    requires AllWrong(pad)
    ensures OnePassTotal(c, a + pad, now, timeout, run) == OnePassTotal(c, a, now, timeout, run)
  {
    if a == [] {
      assert a + pad == pad;
      WrongAnswersScoreNothing(c, pad, now, timeout, run);
    } else {
      assert (a + pad)[1..] == a[1..] + pad;
      PaddingKeepsTotal(c, a[1..], pad, now, timeout, if a[0].isCorrect then run + 1 else 0);
    }
  }

  lemma {:induction false} PaddingKeepsCounts(a: seq<Answer>, pad: seq<Answer>)
    requires AllWrong(pad)
    ensures CorrectCount(a + pad) == CorrectCount(a)
    ensures LongestRun(a + pad) == LongestRun(a)
    decreases |pad|
  {
    if pad == [] {
      assert a + pad == a;
    } else {
      var n := |pad| - 1;
      assert (a + pad)[..|a + pad| - 1] == a + pad[..n];
      PaddingKeepsCounts(a, pad[..n]);
    }
  }

  /** Appending wrong answers changes neither the total, the correct count nor the longest streak;
      it divides the accuracy by the new length. */
  lemma PaddingKeepsFinal(c: Config, a: seq<Answer>, pad: seq<Answer>, now: int, timeout: int)
    requires AllWrong(pad)
    ensures Final(c, a + pad, now, timeout).total == Final(c, a, now, timeout).total
    ensures Final(c, a + pad, now, timeout).streakPct == Final(c, a, now, timeout).streakPct
    ensures a + pad != [] ==>
            Final(c, a + pad, now, timeout).accuracy == CorrectCount(a) as real / |a + pad| as real
  {
    PaddingKeepsTotal(c, a, pad, now, timeout, 0);
    PaddingKeepsCounts(a, pad);
  }

  lemma {:induction false} TotalDecays(c: Config, a: seq<Answer>, now: int, later: int, timeout: int, run: nat)
    requires c.maxTimeBonus >= 0 && now <= later
    ensures OnePassTotal(c, a, later, timeout, run) <= OnePassTotal(c, a, now, timeout, run)
  {
    if a != [] {
      TimeBonusMonotone(c, Remaining(timeout, later, a[0].submittedAt),
                        Remaining(timeout, now, a[0].submittedAt), timeout);
      TotalDecays(c, a[1..], now, later, timeout, if a[0].isCorrect then run + 1 else 0);
    }
  }

  /** Finalizing later never raises the total and leaves accuracy and streak percentage alone. */
  lemma FinalizingLater(c: Config, a: seq<Answer>, now: int, later: int, timeout: int)
    requires c.maxTimeBonus >= 0 && now <= later
    ensures Final(c, a, later, timeout).total <= Final(c, a, now, timeout).total
    ensures Final(c, a, later, timeout).accuracy == Final(c, a, now, timeout).accuracy
    ensures Final(c, a, later, timeout).streakPct == Final(c, a, now, timeout).streakPct
  {
    TotalDecays(c, a, now, later, timeout, 0);
  }

  /** The condition on the bonus is needed: with a negative one, waiting raises a total. */
  lemma NegativeBonusRises(c: Config) returns (a: seq<Answer>, timeout: int)
    requires c.maxTimeBonus < 0
    ensures Final(c, a, 0, timeout).total < Final(c, a, 1, timeout).total
  {
    var x := Answer(1, "", "", 0, true, 0);
    a, timeout := [x], 1;
    SingleTotal(c, x, 0);
    SingleTotal(c, x, 1);
    WholeBonus(c.maxTimeBonus);
  }

  lemma SingleTotal(c: Config, x: Answer, now: int)
    requires x.isCorrect && x.submittedAt == 0
    ensures Final(c, [x], now, 1).total == c.baseScore + TimeBonus(c, Max(0, 1 - now), 1) + StreakBonus(c, 1)
  {
    var a := [x];
    assert a[1..] == [] && OnePassTotal(c, a[1..], now, 1, 1) == 0;
  }

  lemma WholeBonus(k: int)
    ensures Scaled(k, 1.0) == k && Scaled(k, 0.0) == 0
  {
    assert k as real * 1.0 == k as real;
  }

  /** The total of a list all of whose time bonuses have run out. */
  function SettledTotal(c: Config, a: seq<Answer>, run: nat): int {
    if a == [] then 0
    else if a[0].isCorrect then c.baseScore + StreakBonus(c, run + 1) + SettledTotal(c, a[1..], run + 1)
    else SettledTotal(c, a[1..], 0)
  }

  /** Once every answer is older than the timeout, the clock no longer matters. */
  lemma {:induction false} TotalSettles(c: Config, a: seq<Answer>, now: int, timeout: int, run: nat)
    requires forall i :: 0 <= i < |a| ==> now - a[i].submittedAt >= timeout
    ensures OnePassTotal(c, a, now, timeout, run) == SettledTotal(c, a, run)
  {
    if a != [] {
      NoTimeNoBonus(c, timeout);
      TotalSettles(c, a[1..], now, timeout, if a[0].isCorrect then run + 1 else 0);
    }
  }
}
