/** How many questions of each difficulty a pack asks for again when it falls short,
    internal/question/service.go:127-143 and 211-224, and the fixed difficulty distributions of
    internal/match/service.go. */
module Regeneration {
  import opened Common
  import Scoring

  function Share(count: int, total: nat, needed: nat): int
    requires total > 0
  {
    Scoring.Trunc(needed as real * (count as real / total as real))
  }

  function Need(count: int, total: nat, needed: nat): int
    requires total > 0
  {
    var share := Share(count, total, needed);
    if count > 0 && share == 0 then 1 else share
  }

  ghost function Needs(counts: map<string, int>, total: nat, needed: nat): map<string, int>
    requires total > 0
  {
    map d | d in counts :: Need(counts[d], total, needed)
  }

  ghost function Shares(counts: map<string, int>, total: nat, needed: nat): map<string, int>
    requires total > 0
  {
    map d | d in counts :: Share(counts[d], total, needed)
  }

  /** The two loops over the difficulty counts, each in an arbitrary order. */
  method ProportionalNeeds(counts: map<string, int>, total: nat, needed: nat) returns (needs: map<string, int>)
    requires total > 0
    ensures needs == Needs(counts, total, needed)
  {
    needs := FlooredNeeds(counts, total, needed);
    var left := counts.Keys;
    while left != {}
      invariant left <= counts.Keys == needs.Keys
      invariant forall d :: d in counts ==>
                  needs[d] == if d in left then Share(counts[d], total, needed) else Need(counts[d], total, needed)
      decreases left
    {
      var d :| d in left;
      if counts[d] > 0 && needs[d] == 0 {
        needs := needs[d := 1];
      }
      left := left - {d};
    }
  }

  /** The first loop alone, which is all the single-user branch does. */
  method FlooredNeeds(counts: map<string, int>, total: nat, needed: nat) returns (needs: map<string, int>)
    requires total > 0
    ensures needs == Shares(counts, total, needed)
  {
    needs := map[];
    var left := counts.Keys;
    while left != {}
      invariant left <= counts.Keys && needs.Keys == counts.Keys - left
      invariant forall d :: d in needs ==> needs[d] == Share(counts[d], total, needed)
      decreases left
    {
      var d :| d in left;
      needs := needs[d := Share(counts[d], total, needed)];
      left := left - {d};
    }
  }

  ghost function MapSum(m: map<string, int>): int {
    if m == map[] then 0 else
      var d :| d in m;
      m[d] + MapSum(m - {d})
  }

  /** The sum does not depend on which entry is taken first. */
  lemma {:induction false} MapSumPick(m: map<string, int>, d: string)
    requires d in m
    ensures MapSum(m) == m[d] + MapSum(m - {d})
    decreases |m|
  {
    var e :| e in m && MapSum(m) == m[e] + MapSum(m - {e});
    if e != d {
      MapSumPick(m - {e}, d);
      MapSumPick(m - {d}, e);
      assert m - {e} - {d} == m - {d} - {e};
    }
  }

  method SumOf(m: map<string, int>) returns (sum: int)
    ensures sum == MapSum(m)
  {
    sum := 0;
    var left := m;
    while left != map[]
      invariant sum + MapSum(left) == MapSum(m) && left.Keys <= m.Keys
      decreases left.Keys
    {
      var d :| d in left.Keys;
      MapSumPick(left, d);
      sum := sum + left[d];
      left := left - {d};
    }
  }

  /** Each share is the exact proportion rounded down. */
  lemma ShareRounds(count: nat, total: nat, needed: nat)
    requires total > 0
    ensures var s := Share(count, total, needed); total * s <= needed * count < total * s + total && s >= 0
  {
    var x := needed as real * (count as real / total as real);
    assert x * total as real == (needed * count) as real;
    Scoring.Floored(x, needed * count, total);
  }

  lemma NeedRounds(count: nat, total: nat, needed: nat)
    requires total > 0 && needed > 0
    ensures var n := Need(count, total, needed);
            if count == 0 then n == 0 else needed * count - total < total * n < needed * count + total
  {
    ShareRounds(count, total, needed);
    var s := Share(count, total, needed);
    if count == 0 {
      Zero(total, s);
    } else {
      Positive(needed, count);
    }
  }

  lemma Zero(total: nat, s: int)
    requires total > 0 && 0 <= total * s < total
    ensures s <= 0
  {
    Cancel(total, s, 1);
  }

  lemma Positive(m: nat, n: nat)
    requires m > 0 && n > 0
    ensures m * n > 0
  {
  }

  ghost function PositiveCount(m: map<string, int>): nat {
    |set d | d in m && m[d] > 0|
  }

  /** Within k times `slack` of the goal. */
  ghost predicate Near(slack: nat, sum: int, goal: int, k: nat) {
    if k == 0 then sum == 0 && goal == 0 else goal - k * slack < sum < goal + k * slack
  }

  lemma NearAdds(slack: nat, s1: int, g1: int, k1: nat, s2: int, g2: int, k2: nat)
    requires Near(slack, s1, g1, k1) && Near(slack, s2, g2, k2)
    ensures Near(slack, s1 + s2, g1 + g2, k1 + k2)
  {
    assert (k1 + k2) * slack == k1 * slack + k2 * slack;
  }

  ghost function Mapped(m: map<string, int>, f: int -> int): map<string, int> {
    map d | d in m :: f(m[d])
  }

  ghost function Times(m: map<string, int>, factor: int): map<string, int> {
    Mapped(m, x => factor * x)
  }

  ghost predicate Additive(f: int -> int) {
    f(0) == 0 && forall x, y :: AddsUp(f, x, y)
  }

  ghost predicate AddsUp(f: int -> int, x: int, y: int) {
    f(x + y) == f(x) + f(y)
  }

  lemma MappedRest(m: map<string, int>, d: string, f: int -> int)
    requires d in m
    ensures Mapped(m, f) - {d} == Mapped(m - {d}, f) && d in Mapped(m, f) && Mapped(m, f)[d] == f(m[d])
  {
  }

  lemma {:induction false} MapSumAdditive(m: map<string, int>, f: int -> int)
    requires Additive(f)
    ensures MapSum(Mapped(m, f)) == f(MapSum(m))
    decreases |m|
  {
    if m == map[] {
      assert Mapped(m, f) == map[];
    } else {
      var d :| d in m;
      MapSumAdditive(m - {d}, f);
      MapSumPick(m, d);
      MapSumPick(Mapped(m, f), d);
      MappedRest(m, d, f);
      assert AddsUp(f, m[d], MapSum(m - {d}));
    }
  }

  lemma MapSumTimes(m: map<string, int>, factor: int)
    ensures MapSum(Times(m, factor)) == factor * MapSum(m)
  {
    var f := x => factor * x;
    forall x, y ensures AddsUp(f, x, y) {
      Distribute(factor, x, y);
    }
    MapSumAdditive(m, f);
  }

  lemma {:induction false} SumsNear(counts: map<string, int>, exact: map<string, int>, rounded: map<string, int>,
                                    slack: nat)
    requires counts.Keys == exact.Keys == rounded.Keys
    requires forall d :: d in counts ==> Near(slack, rounded[d], exact[d], if counts[d] > 0 then 1 else 0)
    ensures Near(slack, MapSum(rounded), MapSum(exact), PositiveCount(counts))
    decreases |counts|
  {
    if counts == map[] {
      assert exact == map[] && rounded == map[];
      PositiveCountWithin(counts);
    } else {
      var d :| d in counts;
      SumsNear(counts - {d}, exact - {d}, rounded - {d}, slack);
      MapSumPick(exact, d);
      MapSumPick(rounded, d);
      PositiveCountPick(counts, d);
      NearAdds(slack, rounded[d], exact[d], if counts[d] > 0 then 1 else 0,
               MapSum(rounded - {d}), MapSum(exact - {d}), PositiveCount(counts - {d}));
    }
  }

  lemma PositiveCountWithin(m: map<string, int>)
    ensures PositiveCount(m) <= |m.Keys|
  {
    var positive := set d | d in m && m[d] > 0;
    SubsetCount(positive, m.Keys);
  }

  lemma PositiveCountPick(m: map<string, int>, d: string)
    requires d in m
    ensures PositiveCount(m) == PositiveCount(m - {d}) + if m[d] > 0 then 1 else 0
  {
    var whole, rest := set e | e in m && m[e] > 0, set e | e in m - {d} && (m - {d})[e] > 0;
    assert whole == rest + if m[d] > 0 then {d} else {};
  }

  lemma NeedsNear(counts: map<string, int>, total: nat, needed: nat)
    requires total > 0 && needed > 0 && forall d :: d in counts ==> counts[d] >= 0
    ensures forall d :: d in counts ==>
              Near(total, Times(Needs(counts, total, needed), total)[d], Times(counts, needed)[d],
                   if counts[d] > 0 then 1 else 0)
  {
    forall d | d in counts
      ensures Near(total, total * Need(counts[d], total, needed), needed * counts[d], if counts[d] > 0 then 1 else 0)
    {
      NeedRounds(counts[d], total, needed);
    }
  }

  /** With k positive difficulty counts that sum to the pack size, a shortfall is asked for again up to
      k - 1 questions too few or too many. */
  lemma RegenerationBounds(counts: map<string, int>, total: nat, needed: nat)
    requires total > 0 && needed > 0 && MapSum(counts) == total
    requires forall d :: d in counts ==> counts[d] >= 0
    ensures var k, sum := PositiveCount(counts), MapSum(Needs(counts, total, needed));
            k >= 1 && needed - (k - 1) <= sum <= needed + (k - 1)
  {
    var needs := Needs(counts, total, needed);
    NeedsNear(counts, total, needed);
    SumsNear(counts, Times(counts, needed), Times(needs, total), total);
    MapSumTimes(counts, needed);
    MapSumTimes(needs, total);
    Between(total, needed, PositiveCount(counts), MapSum(needs));
  }

  lemma Between(total: nat, needed: nat, k: nat, sum: int)
    requires total > 0 && needed > 0 && Near(total, total * sum, needed * total, k)
    ensures k >= 1 && needed - k < sum < needed + k
  {
    Positive(needed, total);
    Distribute(total, needed - k, k);
    Distribute(total, needed, k);
    Cancel(total, needed - k, sum);
    Cancel(total, sum, needed + k);
  }

  lemma Cancel(t: nat, a: int, b: int)
    requires t > 0 && t * a < t * b
    ensures a < b
  {
    Factor(t, a, b);
  }

  lemma Factor(t: nat, a: int, b: int)
    ensures a >= b ==> t * a >= t * b
  {
    if a >= b {
      assert t * (a - b) >= 0;
      assert t * a == t * b + t * (a - b);
    }
  }

  lemma Distribute(f: int, a: int, b: int)
    ensures f * (a + b) == f * a + f * b
  {
  }

  /** getFixedDifficultyDistribution of internal/match/service.go */
  function FixedDistribution(questionCount: int): map<string, int> {
    if questionCount == 5 then map["easy" := 2, "medium" := 2, "hard" := 1]
    else if questionCount == 15 then map["easy" := 7, "medium" := 5, "hard" := 3]
    else map["easy" := 4, "medium" := 3, "hard" := 3]
  }

  lemma SumOfThree(e: int, m: int, h: int)
    ensures MapSum(map["easy" := e, "medium" := m, "hard" := h]) == e + m + h
  {
    var three := map["easy" := e, "medium" := m, "hard" := h];
    MapSumPick(three, "easy");
    assert three - {"easy"} == map["medium" := m, "hard" := h];
    MapSumPick(three - {"easy"}, "medium");
    assert three - {"easy"} - {"medium"} == map["hard" := h];
    MapSumPick(three - {"easy"} - {"medium"}, "hard");
    assert three - {"easy"} - {"medium"} - {"hard"} == map[];
  }

  /** The fixed distributions meet the regeneration bound's condition for the three counts the callers
      let through, and for no other. */
  lemma FixedDistributionSum(n: int)
    ensures MapSum(FixedDistribution(n)) == n <==> n == 5 || n == 10 || n == 15
    ensures PositiveCount(FixedDistribution(n)) == 3
  {
    SumOfThree(2, 2, 1);
    SumOfThree(4, 3, 3);
    SumOfThree(7, 5, 3);
    var m := FixedDistribution(n);
    assert (set d | d in m && m[d] > 0) == {"easy", "medium", "hard"};
  }

  /** Both ends of the bound are reached. */
  lemma RegenerationBoundsReached()
    ensures MapSum(Needs(FixedDistribution(5), 5, 1)) == 1 + 2
    ensures MapSum(Needs(FixedDistribution(15), 15, 14)) == 14 - 2
  {
    AsksTooMany();
    SumOfThree(1, 1, 1);
    AsksTooFew();
    SumOfThree(6, 4, 2);
  }

  lemma AsksTooMany()
    ensures Needs(FixedDistribution(5), 5, 1) == map["easy" := 1, "medium" := 1, "hard" := 1]
  {
    NeedIs(2, 5, 1, 0);
    NeedIs(1, 5, 1, 0);
    var m := FixedDistribution(5);
    assert m.Keys == {"easy", "medium", "hard"};
  }

  lemma AsksTooFew()
    ensures Needs(FixedDistribution(15), 15, 14) == map["easy" := 6, "medium" := 4, "hard" := 2]
  {
    NeedIs(7, 15, 14, 6);
    NeedIs(5, 15, 14, 4);
    NeedIs(3, 15, 14, 2);
    var m := FixedDistribution(15);
    assert m.Keys == {"easy", "medium", "hard"};
  }

  lemma NeedIs(count: nat, total: nat, needed: nat, share: nat)
    requires total > 0 && total * share <= needed * count < total * share + total
    ensures Need(count, total, needed) == if count > 0 && share == 0 then 1 else share
  {
    ShareRounds(count, total, needed);
    var s := Share(count, total, needed);
    Distribute(total, s, 1);
    Distribute(total, share, 1);
    Cancel(total, s, share + 1);
    Cancel(total, share, s + 1);
  }
}
