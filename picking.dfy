/**
 * The picking logic of the squad builder (recommendations.py): one pick with
 * hypothetical add and rollback, the alternating starting-XI cycles, and the
 * bench fill.  The counters the Python code shares by reference between these
 * helpers are the fields of one Picker object.
 */
module Picking {
  import opened Wrappers
  import opened Ordering
  import opened Candidates
  import opened Feasibility

  // ---------------------------------------------------------------------------
  // The picker's state as a value
  // ---------------------------------------------------------------------------

  /** selected_player_ids, team_counts, total_have and starting_have, taken together. */
  datatype Tally = Tally(selected: set<int>, teamCounts: map<int, int>,
                         totalHave: map<Position, int>, startingHave: map<Position, int>)

  /** A counter dict holds only positive counts (zeros are deleted). */
  ghost predicate Positive<K>(m: map<K, int>)
  {
    forall k :: k in m ==> m[k] > 0
  }

  /** `m[k] = m.get(k, 0) + 1` */
  function Inc<K(!new)>(m: map<K, int>, k: K): (r: map<K, int>)
    ensures Get(r, k) == Get(m, k) + 1
    ensures Positive(m) ==> Positive(r)
  {
    m[k := Get(m, k) + 1]
  }

  /** Inc touches no other key. */
  lemma IncOthers<K(!new)>(m: map<K, int>, k: K, j: K)
    requires j != k
    ensures Get(Inc(m, k), j) == Get(m, j)
  {
  }

  /** `m[k] -= 1`, then `del m[k]` once the count is no longer positive. */
  function Dec<K(!new)>(m: map<K, int>, k: K): (r: map<K, int>)
    requires k in m
    ensures Get(r, k) == Max(0, m[k] - 1)
    ensures k in r <==> m[k] > 1
    ensures r.Keys <= m.Keys && forall j :: j in r && j != k ==> r[j] == m[j]
    ensures Positive(m) ==> Positive(r)
  {
    if m[k] - 1 <= 0 then m - {k} else m[k := m[k] - 1]
  }

  /** Decrementing a count just incremented gives the counter back. */
  lemma IncDec<K(!new)>(m: map<K, int>, k: K)
    requires Positive(m)
    ensures Dec(Inc(m, k), k) == m
  {
    if k in m {
      assert Dec(Inc(m, k), k) == m[k := m[k]];
    } else {
      assert Dec(Inc(m, k), k) == m[k := 1] - {k};
    }
  }

  /** The hypothetical add of _try_pick_one. */
  function AddPick(t: Tally, r: Candidate, pos: Position, starting: bool): Tally
  {
    Tally(t.selected + {r.playerId},
          Inc(t.teamCounts, r.teamId),
          Inc(t.totalHave, pos),
          if starting then Inc(t.startingHave, pos) else t.startingHave)
  }

  /** The rollback of _try_pick_one. */
  function RemovePick(t: Tally, r: Candidate, pos: Position, starting: bool): Tally
    requires r.teamId in t.teamCounts && pos in t.totalHave
    requires starting ==> pos in t.startingHave
  {
    Tally(t.selected - {r.playerId},
          Dec(t.teamCounts, r.teamId),
          Dec(t.totalHave, pos),
          if starting then Dec(t.startingHave, pos) else t.startingHave)
  }

  /** A rolled-back candidate leaves no trace in the shared state. */
  lemma RollbackRestores(t: Tally, r: Candidate, pos: Position, starting: bool)
    requires r.playerId !in t.selected
    requires Positive(t.teamCounts) && Positive(t.totalHave) && Positive(t.startingHave)
    ensures RemovePick(AddPick(t, r, pos, starting), r, pos, starting) == t
  {
    IncDec(t.teamCounts, r.teamId);
    IncDec(t.totalHave, pos);
    if starting {
      IncDec(t.startingHave, pos);
    }
    assert t.selected + {r.playerId} - {r.playerId} == t.selected;
  }

  // ---------------------------------------------------------------------------
  // _try_pick_one, as a specification
  // ---------------------------------------------------------------------------

  /** The error strings _try_pick_one returns instead of a row. */
  datatype PickError = SquadFull(pos: Position) | StartingFull(pos: Position) | NoFeasible(pos: Position)
  {
    function Message(): string
    {
      match this
      case SquadFull(p) => "Position=" + PositionName(p) + " already full for total squad."
      case StartingFull(p) => "Position=" + PositionName(p) + " already full for starting XI."
      case NoFeasible(p) => "No feasible candidate for position=" + PositionName(p) + " under current constraints."
    }
  }

  /**
   * What stays fixed across the picks of one phase: the team cap, the squad
   * quota, the starting formation (None in the bench phase) and the unsorted
   * buckets the feasibility check uses.
   */
  datatype Limits = Limits(maxPerTeam: int, totalRequired: Quota, startingRequired: Option<Quota>,
                           bucketsAll: PerPosition<seq<Candidate>>)

  /** After adding `r`, the rest of the squad can still be bought with what is left. */
  ghost predicate FeasibleAfter(t: Tally, r: Candidate, pos: Position, budget: int, lim: Limits)
  {
    var t' := AddPick(t, r, pos, lim.startingRequired.Some?);
    CanComplete(budget - r.nowCost, RemainingNeeded(lim.totalRequired, t'.totalHave),
                lim.bucketsAll, t'.selected, t'.teamCounts, lim.maxPerTeam)
  }

  /** A row _try_pick_one keeps: unselected, team under the cap, affordable, and the squad still completable. */
  ghost predicate Acceptable(t: Tally, r: Candidate, pos: Position, budget: int, lim: Limits)
  {
    && r.playerId !in t.selected
    && Get(t.teamCounts, r.teamId) < lim.maxPerTeam
    && r.nowCost <= budget
    && FeasibleAfter(t, r, pos, budget, lim)
  }

  /** The index of the first acceptable row of the ordered bucket. */
  ghost function FirstAcceptable(s: seq<Candidate>, t: Tally, pos: Position, budget: int, lim: Limits): (r: Option<nat>)
    ensures r.Some? ==> r.value < |s| && Acceptable(t, s[r.value], pos, budget, lim)
    ensures r.Some? ==> forall j :: 0 <= j < r.value ==> !Acceptable(t, s[j], pos, budget, lim)
    ensures r.None? ==> forall j :: 0 <= j < |s| ==> !Acceptable(t, s[j], pos, budget, lim)
  {
    if s == [] then None
    else if Acceptable(t, s[0], pos, budget, lim) then Some(0)
    else
      match FirstAcceptable(s[1..], t, pos, budget, lim)
      case None => None
      case Some(i) => Some(i + 1)
  }

  /** The first acceptable index is determined by acceptability alone. */
  lemma FirstAcceptableIs(s: seq<Candidate>, i: nat, t: Tally, pos: Position, budget: int, lim: Limits)
    requires i < |s| && Acceptable(t, s[i], pos, budget, lim)
    requires forall j :: 0 <= j < i ==> !Acceptable(t, s[j], pos, budget, lim)
    ensures FirstAcceptable(s, t, pos, budget, lim) == Some(i)
  {
  }

  /** _try_pick_one: the quota guards, then the first acceptable row; the state changes only by a kept pick. */
  ghost function PickSpec(t: Tally, pos: Position, ordered: seq<Candidate>, budget: int, lim: Limits)
    : (Result<Candidate, PickError>, Tally)
  {
    if lim.totalRequired.Get(pos) - Get(t.totalHave, pos) <= 0 then (Err(SquadFull(pos)), t)
    else if lim.startingRequired.Some? && lim.startingRequired.value.Get(pos) - Get(t.startingHave, pos) <= 0 then
      (Err(StartingFull(pos)), t)
    else
      match FirstAcceptable(ordered, t, pos, budget, lim)
      case None => (Err(NoFeasible(pos)), t)
      case Some(i) => (Ok(ordered[i]), AddPick(t, ordered[i], pos, lim.startingRequired.Some?))
  }

  /** PickSpec when both quota guards pass and row `i` is the first acceptable one. */
  lemma PickSpecKeeps(t: Tally, pos: Position, s: seq<Candidate>, i: nat, budget: int, lim: Limits)
    requires lim.totalRequired.Get(pos) - Get(t.totalHave, pos) > 0
    requires lim.startingRequired.Some? ==> lim.startingRequired.value.Get(pos) - Get(t.startingHave, pos) > 0
    requires i < |s| && Acceptable(t, s[i], pos, budget, lim)
    requires forall j :: 0 <= j < i ==> !Acceptable(t, s[j], pos, budget, lim)
    ensures PickSpec(t, pos, s, budget, lim) == (Ok(s[i]), AddPick(t, s[i], pos, lim.startingRequired.Some?))
  {
    FirstAcceptableIs(s, i, t, pos, budget, lim);
  }

  /** PickSpec when both quota guards pass and no row is acceptable. */
  lemma PickSpecNoFeasible(t: Tally, pos: Position, s: seq<Candidate>, budget: int, lim: Limits)
    requires lim.totalRequired.Get(pos) - Get(t.totalHave, pos) > 0
    requires lim.startingRequired.Some? ==> lim.startingRequired.value.Get(pos) - Get(t.startingHave, pos) > 0
    requires forall j :: 0 <= j < |s| ==> !Acceptable(t, s[j], pos, budget, lim)
    ensures PickSpec(t, pos, s, budget, lim) == (Err(NoFeasible(pos)), t)
  {
  }

  // ---------------------------------------------------------------------------
  // Consistency of the shared state with the rows picked so far
  // ---------------------------------------------------------------------------

  /** `{pl.id for _, pl, _ in rows}` */
  function Ids(rows: seq<Candidate>): (r: set<int>)
    ensures forall i :: 0 <= i < |rows| ==> rows[i].playerId in r
    ensures forall x :: x in r ==> exists i :: 0 <= i < |rows| && rows[i].playerId == x
  {
    if rows == [] then {} else Ids(rows[..|rows| - 1]) + {rows[|rows| - 1].playerId}
  }

  /** How many rows are from `team`. */
  function TeamCount(rows: seq<Candidate>, team: int): nat
  {
    if rows == [] then 0
    else TeamCount(rows[..|rows| - 1], team) + (if rows[|rows| - 1].teamId == team then 1 else 0)
  }

  ghost predicate DistinctIds(rows: seq<Candidate>)
  {
    forall i, j :: 0 <= i < j < |rows| ==> rows[i].playerId != rows[j].playerId
  }

  /** Every row has one of the four positions. */
  ghost predicate Recognised(rows: seq<Candidate>)
  {
    forall i :: 0 <= i < |rows| ==> ParsePosition(rows[i].position).Some?
  }

  /**
   * The shared state describes `picked` exactly, and `picked` is within the
   * team cap, the squad quota and (in the starting phase) the formation.
   */
  ghost predicate Consistent(t: Tally, picked: seq<Candidate>, lim: Limits)
  {
    && Positive(t.teamCounts) && Positive(t.totalHave) && Positive(t.startingHave)
    && DistinctIds(picked)
    && Recognised(picked)
    && t.selected == Ids(picked)
    && (forall team :: Get(t.teamCounts, team) == TeamCount(picked, team) <= lim.maxPerTeam)
    && (forall p: Position :: Get(t.totalHave, p) == |Bucket(picked, p)| <= lim.totalRequired.Get(p))
    && (lim.startingRequired.Some? ==>
          forall p: Position :: Get(t.startingHave, p) == |Bucket(picked, p)| <= lim.startingRequired.value.Get(p))
  }

  lemma TeamCountSnoc(rows: seq<Candidate>, r: Candidate, team: int)
    ensures TeamCount(rows + [r], team) == TeamCount(rows, team) + (if r.teamId == team then 1 else 0)
  {
    assert (rows + [r])[..|rows|] == rows;
  }

  lemma BucketSnoc(rows: seq<Candidate>, r: Candidate, p: Position)
    ensures Bucket(rows + [r], p) == Bucket(rows, p) + (if r.position == PositionName(p) then [r] else [])
  {
    assert (rows + [r])[..|rows|] == rows;
  }

  lemma CostSumSnoc(rows: seq<Candidate>, r: Candidate)
    ensures Sum(Costs(rows + [r])) == Sum(Costs(rows)) + r.nowCost
  {
    CostsStep(rows, r);
    SumSnoc(Costs(rows), r.nowCost);
  }

  lemma DistinctSnoc(picked: seq<Candidate>, r: Candidate)
    requires DistinctIds(picked) && r.playerId !in Ids(picked)
    ensures DistinctIds(picked + [r])
  {
    var picked' := picked + [r];
    forall i, j | 0 <= i < j < |picked'| ensures picked'[i].playerId != picked'[j].playerId {
      if j == |picked| {
        assert picked[i].playerId in Ids(picked);
      }
    }
  }

  lemma IdsSnoc(picked: seq<Candidate>, r: Candidate)
    ensures Ids(picked + [r]) == Ids(picked) + {r.playerId}
  {
    assert (picked + [r])[..|picked|] == picked;
  }

  lemma RecognisedSnoc(picked: seq<Candidate>, r: Candidate, pos: Position)
    requires Recognised(picked) && r.position == PositionName(pos)
    ensures Recognised(picked + [r])
  {
    assert ParsePosition(r.position) == Some(pos) by {
      match pos
      case GKP => assert r.position == "GKP";
      case DEF => assert r.position == "DEF";
      case MID => assert r.position == "MID";
      case FWD => assert r.position == "FWD";
    }
  }

  lemma TeamCountsSnoc(teamCounts: map<int, int>, picked: seq<Candidate>, r: Candidate, cap: int)
    requires forall team :: Get(teamCounts, team) == TeamCount(picked, team) <= cap
    requires Get(teamCounts, r.teamId) < cap
    ensures forall team :: Get(Inc(teamCounts, r.teamId), team) == TeamCount(picked + [r], team) <= cap
  {
    forall team ensures Get(Inc(teamCounts, r.teamId), team) == TeamCount(picked + [r], team) <= cap {
      TeamCountSnoc(picked, r, team);
      if team != r.teamId {
        IncOthers(teamCounts, r.teamId, team);
      }
    }
  }

  lemma PositionCountsSnoc(have: map<Position, int>, picked: seq<Candidate>, r: Candidate, pos: Position, quota: Quota)
    requires forall p: Position :: Get(have, p) == |Bucket(picked, p)| <= quota.Get(p)
    requires r.position == PositionName(pos) && Get(have, pos) < quota.Get(pos)
    ensures forall p: Position :: Get(Inc(have, pos), p) == |Bucket(picked + [r], p)| <= quota.Get(p)
  {
    forall p: Position ensures Get(Inc(have, pos), p) == |Bucket(picked + [r], p)| <= quota.Get(p) {
      BucketSnoc(picked, r, p);
      if p != pos {
        IncOthers(have, pos, p);
      }
    }
  }

  /** Keeping an unselected row of position `pos`, under the team cap and the quotas, keeps the state consistent. */
  lemma AddKeepsConsistent(t: Tally, picked: seq<Candidate>, r: Candidate, pos: Position, lim: Limits)
    requires Consistent(t, picked, lim)
    requires r.position == PositionName(pos)
    requires r.playerId !in t.selected && Get(t.teamCounts, r.teamId) < lim.maxPerTeam
    requires Get(t.totalHave, pos) < lim.totalRequired.Get(pos)
    requires lim.startingRequired.Some? ==> Get(t.startingHave, pos) < lim.startingRequired.value.Get(pos)
    ensures Consistent(AddPick(t, r, pos, lim.startingRequired.Some?), picked + [r], lim)
  {
    DistinctSnoc(picked, r);
    IdsSnoc(picked, r);
    RecognisedSnoc(picked, r, pos);
    TeamCountsSnoc(t.teamCounts, picked, r, lim.maxPerTeam);
    PositionCountsSnoc(t.totalHave, picked, r, pos, lim.totalRequired);
    if lim.startingRequired.Some? {
      PositionCountsSnoc(t.startingHave, picked, r, pos, lim.startingRequired.value);
    }
  }

  /** A row kept by _try_pick_one comes from the ordered bucket, fits the budget and keeps the state consistent. */
  lemma PickPreservesConsistency(t: Tally, picked: seq<Candidate>, pos: Position, ordered: seq<Candidate>, budget: int, lim: Limits)
    requires Consistent(t, picked, lim)
    requires forall r :: r in ordered ==> r.position == PositionName(pos)
    ensures var (res, t') := PickSpec(t, pos, ordered, budget, lim);
            && (res.Ok? ==> res.value in ordered && res.value.nowCost <= budget)
            && Consistent(t', if res.Ok? then picked + [res.value] else picked, lim)
  {
    var (res, t') := PickSpec(t, pos, ordered, budget, lim);
    if res.Ok? {
      var i := FirstAcceptable(ordered, t, pos, budget, lim).value;
      AddKeepsConsistent(t, picked, ordered[i], pos, lim);
    }
  }

  /** After a kept pick the new state passes the look-ahead lower-bound check with the budget left. */
  lemma PickKeepsSquadCompletable(t: Tally, pos: Position, ordered: seq<Candidate>, budget: int, lim: Limits)
    requires PickSpec(t, pos, ordered, budget, lim).0.Ok?
    ensures var (res, t') := PickSpec(t, pos, ordered, budget, lim);
            CanComplete(budget - res.value.nowCost, RemainingNeeded(lim.totalRequired, t'.totalHave),
                        lim.bucketsAll, t'.selected, t'.teamCounts, lim.maxPerTeam)
  {
  }

  // ---------------------------------------------------------------------------
  // The picker object
  // ---------------------------------------------------------------------------

  class Picker {
    var selected: set<int>
    var teamCounts: map<int, int>
    var totalHave: map<Position, int>
    var startingHave: map<Position, int>

    constructor ()
      ensures Snapshot() == Tally({}, map[], map[], map[])
    {
      selected := {};
      teamCounts := map[];
      totalHave := map[];
      startingHave := map[];
    }

    function Snapshot(): Tally
      reads this
    {
      Tally(selected, teamCounts, totalHave, startingHave)
    }

    ghost predicate Valid()
      reads this
    {
      Positive(teamCounts) && Positive(totalHave) && Positive(startingHave)
    }

    /** The "hypothetical add" block of _try_pick_one. */
    method HypotheticalAdd(row: Candidate, pos: Position, starting: bool)
      requires Valid()
      modifies this
      ensures Valid()
      ensures Snapshot() == AddPick(old(Snapshot()), row, pos, starting)
    {
      selected := selected + {row.playerId};
      teamCounts := Inc(teamCounts, row.teamId);
      totalHave := Inc(totalHave, pos);
      if starting {
        startingHave := Inc(startingHave, pos);
      }
    }

    /** The "rollback" block of _try_pick_one. */
    method Rollback(row: Candidate, pos: Position, starting: bool)
      requires Valid()
      requires row.teamId in teamCounts && pos in totalHave && (starting ==> pos in startingHave)
      modifies this
      ensures Valid()
      ensures Snapshot() == RemovePick(old(Snapshot()), row, pos, starting)
    {
      selected := selected - {row.playerId};
      teamCounts := Dec(teamCounts, row.teamId);
      totalHave := Dec(totalHave, pos);
      if starting {
        startingHave := Dec(startingHave, pos);
      }
    }

    /**
     * One iteration of _try_pick_one's loop: the cheap guards, then the
     * hypothetical add, kept when the squad stays completable and rolled back
     * otherwise.
     */
    method TryRow(row: Candidate, pos: Position, remainingBudget: int, lim: Limits) returns (kept: bool)
      requires Valid()
      modifies this
      ensures Valid()
      ensures kept == Acceptable(old(Snapshot()), row, pos, remainingBudget, lim)
      ensures Snapshot() == if kept then AddPick(old(Snapshot()), row, pos, lim.startingRequired.Some?) else old(Snapshot())
    {
      var starting := lim.startingRequired.Some?;
      ghost var t0 := Snapshot();
      var cost := row.nowCost;
      if row.playerId in selected || Get(teamCounts, row.teamId) >= lim.maxPerTeam || cost > remainingBudget {
        return false;
      }

      HypotheticalAdd(row, pos, starting);

      var remainingAfter := remainingBudget - cost;
      var remainingNeeded := RemainingNeeded(lim.totalRequired, totalHave);
      kept := CanCompleteSquad(remainingAfter, remainingNeeded, lim.bucketsAll, selected, teamCounts, lim.maxPerTeam);
      assert kept == FeasibleAfter(t0, row, pos, remainingBudget, lim);
      if !kept {
        Rollback(row, pos, starting);
        RollbackRestores(t0, row, pos, starting);
      }
    }

    /** _try_pick_one: tries each row in order with a hypothetical add, keeping the first feasible one. */
    method TryPickOne(pos: Position, orderedBucket: seq<Candidate>, remainingBudget: int, lim: Limits)
      returns (res: Result<Candidate, PickError>)
      requires Valid()
      modifies this
      ensures Valid()
      ensures (res, Snapshot()) == PickSpec(old(Snapshot()), pos, orderedBucket, remainingBudget, lim)
    {
      var needTotal := lim.totalRequired.Get(pos) - Get(totalHave, pos);
      if needTotal <= 0 {
        return Err(SquadFull(pos));
      }
      if lim.startingRequired.Some? {
        var needStart := lim.startingRequired.value.Get(pos) - Get(startingHave, pos);
        if needStart <= 0 {
          return Err(StartingFull(pos));
        }
      }
      res := FirstKept(pos, orderedBucket, remainingBudget, lim);
    }

    /** The loop of _try_pick_one, once both quota guards have passed. */
    method FirstKept(pos: Position, orderedBucket: seq<Candidate>, remainingBudget: int, lim: Limits)
      returns (res: Result<Candidate, PickError>)
      requires Valid()
      requires lim.totalRequired.Get(pos) - Get(totalHave, pos) > 0
      requires lim.startingRequired.Some? ==> lim.startingRequired.value.Get(pos) - Get(startingHave, pos) > 0
      modifies this
      ensures Valid()
      ensures (res, Snapshot()) == PickSpec(old(Snapshot()), pos, orderedBucket, remainingBudget, lim)
    {
      ghost var t0 := Snapshot();
      for i := 0 to |orderedBucket|
        invariant Valid() && Snapshot() == t0
        invariant forall j :: 0 <= j < i ==> !Acceptable(t0, orderedBucket[j], pos, remainingBudget, lim)
      {
        var kept := TryRow(orderedBucket[i], pos, remainingBudget, lim);
        if kept {
          PickSpecKeeps(t0, pos, orderedBucket, i, remainingBudget, lim);
          return Ok(orderedBucket[i]);
        }
      }
      PickSpecNoFeasible(t0, pos, orderedBucket, remainingBudget, lim);
      return Err(NoFeasible(pos));
    }
  }
}
