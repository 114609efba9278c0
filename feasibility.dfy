/**
 * The look-ahead feasibility test of the squad builder (recommendations.py):
 * how many players each position still needs, the cheapest way to buy them,
 * and whether the remaining budget can possibly complete the squad.
 */
module Feasibility {
  import opened Wrappers
  import opened Ordering
  import opened Candidates

  /** `d.get(k, 0)` on a counter dict. */
  function Get<K>(m: map<K, int>, k: K): int
  {
    if k in m then m[k] else 0
  }

  /** _remaining_needed: the least non-negative count that tops `have` up to `required`. */
  function RemainingNeeded(required: Quota, have: map<Position, int>): (r: Quota)
    ensures forall p: Position :: r.Get(p) >= 0 && Get(have, p) + r.Get(p) >= required.Get(p)
    ensures forall p: Position :: r.Get(p) == 0 || Get(have, p) + r.Get(p) == required.Get(p)
  {
    PerPosition(
      Max(0, required.gkp - Get(have, GKP)),
      Max(0, required.def - Get(have, DEF)),
      Max(0, required.mid - Get(have, MID)),
      Max(0, required.fwd - Get(have, FWD)))
  }

  /** A row the look-ahead may still buy: not selected, and its team is under the cap. */
  predicate IsEligible(r: Candidate, selected: set<int>, teamCounts: map<int, int>, maxPerTeam: int)
  {
    r.playerId !in selected && Get(teamCounts, r.teamId) < maxPerTeam
  }

  function Eligible(bucket: seq<Candidate>, selected: set<int>, teamCounts: map<int, int>, maxPerTeam: int): (e: seq<Candidate>)
    ensures |e| <= |bucket|
  {
    if bucket == [] then []
    else
      var last := bucket[|bucket| - 1];
      assert bucket == bucket[..|bucket| - 1] + [last];
      Eligible(bucket[..|bucket| - 1], selected, teamCounts, maxPerTeam)
        + (if IsEligible(last, selected, teamCounts, maxPerTeam) then [last] else [])
  }

  /** The `now_cost` of each row, in order. */
  function Costs(rows: seq<Candidate>): (c: seq<int>)
    ensures |c| == |rows|
  {
    if rows == [] then [] else Costs(rows[..|rows| - 1]) + [rows[|rows| - 1].nowCost]
  }

  /** Eligible keeps exactly the eligible rows of the bucket. */
  lemma {:induction false} EligibleMembers(bucket: seq<Candidate>, selected: set<int>, teamCounts: map<int, int>, maxPerTeam: int)
    ensures forall r :: (r in Eligible(bucket, selected, teamCounts, maxPerTeam)
                         <==> r in bucket && IsEligible(r, selected, teamCounts, maxPerTeam))
  {
    if bucket != [] {
      var init := bucket[..|bucket| - 1];
      EligibleMembers(init, selected, teamCounts, maxPerTeam);
      assert bucket == init + [bucket[|bucket| - 1]];
    }
  }

  /** One more row of the bucket: Eligible grows by that row exactly when it is eligible. */
  lemma EligibleStep(bucket: seq<Candidate>, i: int, selected: set<int>, teamCounts: map<int, int>, maxPerTeam: int)
    requires 0 <= i < |bucket|
    ensures Eligible(bucket[..i + 1], selected, teamCounts, maxPerTeam)
      == Eligible(bucket[..i], selected, teamCounts, maxPerTeam)
         + (if IsEligible(bucket[i], selected, teamCounts, maxPerTeam) then [bucket[i]] else [])
  {
    assert bucket[..i + 1][..i] == bucket[..i];
  }

  lemma CostsStep(rows: seq<Candidate>, r: Candidate)
    ensures Costs(rows + [r]) == Costs(rows) + [r.nowCost]
  {
    assert (rows + [r])[..|rows|] == rows;
  }

  lemma {:induction false} CostsConcat(a: seq<Candidate>, b: seq<Candidate>)
    ensures Costs(a + b) == Costs(a) + Costs(b)
  {
    if b != [] {
      var init := b[..|b| - 1];
      CostsConcat(a, init);
      assert a + b == (a + init) + [b[|b| - 1]];
      CostsStep(a + init, b[|b| - 1]);
      CostsStep(init, b[|b| - 1]);
      assert b == init + [b[|b| - 1]];
    } else {
      assert a + b == a;
    }
  }

  /** The sum of the `k` smallest costs; nothing when there are fewer than `k`. */
  function CheapestSum(costs: seq<int>, k: int): (r: Option<int>)
    ensures k <= 0 ==> r == Some(0)
    ensures k > 0 ==> (r.None? <==> |costs| < k)
  {
    if k <= 0 then Some(0)
    else if |costs| < k then None
    else Some(Sum(SortAsc(costs)[..k]))
  }

  /** No choice of `|picks|` of the costs is cheaper than CheapestSum. */
  lemma CheapestSumIsLowerBound(costs: seq<int>, picks: seq<int>)
    requires multiset(picks) <= multiset(costs)
    ensures CheapestSum(costs, |picks|).Some?
    ensures CheapestSum(costs, |picks|).value <= Sum(picks)
  {
    MultisetSubsetCard(multiset(picks), multiset(costs));
    assert |multiset(picks)| == |picks|;
    if |picks| > 0 {
      PrefixSumIsMinimal(SortAsc(costs), picks);
    }
  }

  /** CheapestSum is the cost of an actual choice of `k` of the costs. */
  lemma CheapestSumAttained(costs: seq<int>, k: int)
    requires 0 < k <= |costs|
    ensures exists c :: |c| == k && multiset(c) <= multiset(costs) && Sum(c) == CheapestSum(costs, k).value
  {
    var s := SortAsc(costs);
    assert s == s[..k] + s[k..];
    assert multiset(s) == multiset(s[..k]) + multiset(s[k..]);
    assert |s[..k]| == k && multiset(s[..k]) <= multiset(costs) && Sum(s[..k]) == CheapestSum(costs, k).value;
  }

  /** What one position adds to the cheapest completion: nothing when it needs nobody. */
  function PositionCost(p: Position, need: Quota, buckets: PerPosition<seq<Candidate>>,
                        selected: set<int>, teamCounts: map<int, int>, maxPerTeam: int): Option<int>
  {
    if need.Get(p) <= 0 then Some(0)
    else CheapestSum(Costs(Eligible(buckets.Get(p), selected, teamCounts, maxPerTeam)), need.Get(p))
  }

  /** The minimum possible cost over `ps`, as the second loop of _can_complete_squad sums it. */
  function MinCostOver(ps: seq<Position>, need: Quota, buckets: PerPosition<seq<Candidate>>,
                       selected: set<int>, teamCounts: map<int, int>, maxPerTeam: int): Option<int>
  {
    if ps == [] then Some(0)
    else
      var acc := MinCostOver(ps[..|ps| - 1], need, buckets, selected, teamCounts, maxPerTeam);
      var c := PositionCost(ps[|ps| - 1], need, buckets, selected, teamCounts, maxPerTeam);
      if acc.Some? && c.Some? then Some(acc.value + c.value) else None
  }

  lemma MinCostStep(ps: seq<Position>, n: int, need: Quota, buckets: PerPosition<seq<Candidate>>,
                    selected: set<int>, teamCounts: map<int, int>, maxPerTeam: int)
    requires 0 <= n < |ps|
    ensures var acc := MinCostOver(ps[..n], need, buckets, selected, teamCounts, maxPerTeam);
            var c := PositionCost(ps[n], need, buckets, selected, teamCounts, maxPerTeam);
            MinCostOver(ps[..n + 1], need, buckets, selected, teamCounts, maxPerTeam)
              == if acc.Some? && c.Some? then Some(acc.value + c.value) else None
  {
    assert ps[..n + 1][..n] == ps[..n];
  }

  /** The quantity test: each position that still needs players has enough eligible ones. */
  ghost predicate EnoughEligible(need: Quota, buckets: PerPosition<seq<Candidate>>,
                                 selected: set<int>, teamCounts: map<int, int>, maxPerTeam: int)
  {
    forall p: Position :: need.Get(p) > 0 ==> |Eligible(buckets.Get(p), selected, teamCounts, maxPerTeam)| >= need.Get(p)
  }

  /** _can_complete_squad: enough eligible players, and their cheapest choice fits the budget. */
  ghost predicate CanComplete(budget: int, need: Quota, buckets: PerPosition<seq<Candidate>>,
                              selected: set<int>, teamCounts: map<int, int>, maxPerTeam: int)
  {
    && EnoughEligible(need, buckets, selected, teamCounts, maxPerTeam)
    && var m := MinCostOver(BucketOrder, need, buckets, selected, teamCounts, maxPerTeam);
       m.Some? && m.value <= budget
  }

  /** Once the quantity test passes, the cheapest-completion cost always exists. */
  lemma {:induction false} MinCostDefined(ps: seq<Position>, need: Quota, buckets: PerPosition<seq<Candidate>>,
                                          selected: set<int>, teamCounts: map<int, int>, maxPerTeam: int)
    requires EnoughEligible(need, buckets, selected, teamCounts, maxPerTeam)
    ensures MinCostOver(ps, need, buckets, selected, teamCounts, maxPerTeam).Some?
  {
    if ps != [] {
      MinCostDefined(ps[..|ps| - 1], need, buckets, selected, teamCounts, maxPerTeam);
    }
  }

  /** Once a prefix has no cheapest cost, neither has any longer prefix. */
  lemma {:induction false} MinCostNoneSticks(ps: seq<Position>, n: int, need: Quota, buckets: PerPosition<seq<Candidate>>,
                                             selected: set<int>, teamCounts: map<int, int>, maxPerTeam: int)
    requires 0 <= n <= |ps|
    requires MinCostOver(ps[..n], need, buckets, selected, teamCounts, maxPerTeam).None?
    ensures MinCostOver(ps, need, buckets, selected, teamCounts, maxPerTeam).None?
    decreases |ps| - n
  {
    if n < |ps| {
      MinCostStep(ps, n, need, buckets, selected, teamCounts, maxPerTeam);
      MinCostNoneSticks(ps, n + 1, need, buckets, selected, teamCounts, maxPerTeam);
    } else {
      assert ps[..n] == ps;
    }
  }

  /** The collecting loop of _sum_cheapest_cost_m: the costs of the bucket's eligible rows, in bucket order. */
  method EligibleCosts(bucket: seq<Candidate>, selected: set<int>, teamCounts: map<int, int>, maxPerTeam: int)
    returns (costs: seq<int>)
    ensures costs == Costs(Eligible(bucket, selected, teamCounts, maxPerTeam))
  {
    costs := [];
    var i := 0;
    while i < |bucket|
      invariant 0 <= i <= |bucket|
      invariant costs == Costs(Eligible(bucket[..i], selected, teamCounts, maxPerTeam))
    {
      var row := bucket[i];
      EligibleStep(bucket, i, selected, teamCounts, maxPerTeam);
      if IsEligible(row, selected, teamCounts, maxPerTeam) {
        CostsStep(Eligible(bucket[..i], selected, teamCounts, maxPerTeam), row);
        costs := costs + [row.nowCost];
      } else {
        assert Eligible(bucket[..i + 1], selected, teamCounts, maxPerTeam) == Eligible(bucket[..i], selected, teamCounts, maxPerTeam);
      }
      i := i + 1;
    }
    assert bucket[..|bucket|] == bucket;
  }

  /** _sum_cheapest_cost_m: collects the eligible costs of one bucket, sorts them, sums the first k. */
  method SumCheapestCostM(pos: Position, k: int, buckets: PerPosition<seq<Candidate>>,
                          selected: set<int>, teamCounts: map<int, int>, maxPerTeam: int) returns (r: Option<int>)
    ensures r == CheapestSum(Costs(Eligible(buckets.Get(pos), selected, teamCounts, maxPerTeam)), k)
  {
    if k <= 0 {
      return Some(0);
    }
    var costs := EligibleCosts(buckets.Get(pos), selected, teamCounts, maxPerTeam);
    if |costs| < k {
      return None;
    }
    var sorted := SortAsc(costs);
    r := Some(Sum(sorted[..k]));
  }

  /** Phase 1 of _can_complete_squad: the quantity check, with the team cap applied. */
  method QuantityCheck(need: Quota, buckets: PerPosition<seq<Candidate>>,
                       selected: set<int>, teamCounts: map<int, int>, maxPerTeam: int) returns (ok: bool)
    ensures ok == EnoughEligible(need, buckets, selected, teamCounts, maxPerTeam)
  {
    for n := 0 to |BucketOrder|
      invariant forall q :: q in BucketOrder[..n] && need.Get(q) > 0 ==>
        |Eligible(buckets.Get(q), selected, teamCounts, maxPerTeam)| >= need.Get(q)
    {
      var pos := BucketOrder[n];
      assert BucketOrder[..n + 1] == BucketOrder[..n] + [pos];
      var k := need.Get(pos);
      if k <= 0 {
        continue;
      }
      var bucket := buckets.Get(pos);
      var available := 0;
      for j := 0 to |bucket|
        invariant available == |Eligible(bucket[..j], selected, teamCounts, maxPerTeam)|
      {
        EligibleStep(bucket, j, selected, teamCounts, maxPerTeam);
        var row := bucket[j];
        if IsEligible(row, selected, teamCounts, maxPerTeam) {
          available := available + 1;
        }
      }
      assert bucket[..|bucket|] == bucket;
      if available < k {
        return false;
      }
    }
    forall p: Position | need.Get(p) > 0
      ensures |Eligible(buckets.Get(p), selected, teamCounts, maxPerTeam)| >= need.Get(p)
    {
      assert BucketOrder[..|BucketOrder|] == BucketOrder;
      BucketOrderComplete(p);
    }
    return true;
  }

  /** Phase 2 of _can_complete_squad: the cheapest possible completion against the budget. */
  method LowerBoundCheck(budget: int, need: Quota, buckets: PerPosition<seq<Candidate>>,
                         selected: set<int>, teamCounts: map<int, int>, maxPerTeam: int) returns (ok: bool)
    ensures ok <==> (var m := MinCostOver(BucketOrder, need, buckets, selected, teamCounts, maxPerTeam);
                     m.Some? && m.value <= budget)
  {
    var minPossible := 0;
    for n := 0 to |BucketOrder|
      invariant MinCostOver(BucketOrder[..n], need, buckets, selected, teamCounts, maxPerTeam) == Some(minPossible)
    {
      var pos := BucketOrder[n];
      MinCostStep(BucketOrder, n, need, buckets, selected, teamCounts, maxPerTeam);
      var k := need.Get(pos);
      if k <= 0 {
        continue;
      }
      var s := SumCheapestCostM(pos, k, buckets, selected, teamCounts, maxPerTeam);
      if s.None? {
        MinCostNoneSticks(BucketOrder, n + 1, need, buckets, selected, teamCounts, maxPerTeam);
        return false;
      }
      minPossible := minPossible + s.value;
    }
    assert BucketOrder[..|BucketOrder|] == BucketOrder;
    ok := minPossible <= budget;
  }

  /** _can_complete_squad: both checks, in the source's order. */
  method CanCompleteSquad(budget: int, need: Quota, buckets: PerPosition<seq<Candidate>>,
                          selected: set<int>, teamCounts: map<int, int>, maxPerTeam: int) returns (ok: bool)
    ensures ok == CanComplete(budget, need, buckets, selected, teamCounts, maxPerTeam)
  {
    ok := QuantityCheck(need, buckets, selected, teamCounts, maxPerTeam);
    if ok {
      ok := LowerBoundCheck(budget, need, buckets, selected, teamCounts, maxPerTeam);
    }
  }
}
