/**
 * The two phases of the squad builder (recommendations.py): the starting XI,
 * built in alternating points/value cycles over FWD, MID, DEF, GKP, and the
 * bench, filled by value over GKP, DEF, MID, FWD.
 */
module Phases {
  import opened Wrappers
  import opened Ordering
  import opened Candidates
  import opened Feasibility
  import opened Picking

  /** The rows of all four buckets. */
  function Flatten(b: PerPosition<seq<Candidate>>): seq<Candidate>
  {
    b.gkp + b.def + b.mid + b.fwd
  }

  lemma InFlatten(b: PerPosition<seq<Candidate>>, p: Position, r: Candidate)
    requires r in b.Get(p)
    ensures r in Flatten(b)
  {
  }

  /** Every picked row is a row of the buckets. */
  ghost predicate FromBuckets(picked: seq<Candidate>, buckets: PerPosition<seq<Candidate>>)
  {
    forall r :: r in picked ==> r in Flatten(buckets)
  }

  function OrderName(o: OrderBy): string
  {
    match o
    case Points => "points"
    case Value => "value"
  }

  /** `all(have.get(p, 0) >= required[p] for p in required)` */
  predicate QuotaMet(have: map<Position, int>, required: Quota)
  {
    Get(have, GKP) >= required.gkp && Get(have, DEF) >= required.def
    && Get(have, MID) >= required.mid && Get(have, FWD) >= required.fwd
  }

  /** A row taken from a sorted bucket of position `pos` is a row of that position's bucket. */
  lemma SortedRowFromBucket(buckets: PerPosition<seq<Candidate>>, order: OrderBy, pos: Position, r: Candidate)
    requires WellBucketed(buckets)
    requires r in SortBuckets(buckets, order).Get(pos)
    ensures r in Flatten(buckets) && r.position == PositionName(pos)
  {
    SortBucketOrder(buckets.Get(pos), order);
    assert r in multiset(SortBucket(buckets.Get(pos), order));
    InFlatten(buckets, pos, r);
  }

  /** Rows of a sorted bucket of position `pos` all have that position. */
  lemma SortedBucketPositions(buckets: PerPosition<seq<Candidate>>, order: OrderBy, pos: Position)
    requires WellBucketed(buckets)
    ensures forall r :: r in SortBuckets(buckets, order).Get(pos) ==> r.position == PositionName(pos)
  {
    forall r | r in SortBuckets(buckets, order).Get(pos) ensures r.position == PositionName(pos) {
      SortedRowFromBucket(buckets, order, pos, r);
    }
  }

  /**
   * The state of a phase loop: the picker describes the rows picked before the
   * phase and in it, the phase's rows come from the buckets, and the budget
   * left is the phase's budget minus what its rows cost.
   */
  ghost predicate InPhase(t: Tally, prior: seq<Candidate>, picked: seq<Candidate>, remaining: int, budget: int, lim: Limits)
  {
    && Consistent(t, prior + picked, lim)
    && FromBuckets(picked, lim.bucketsAll)
    && remaining == budget - Sum(Costs(picked))
    && remaining >= 0
  }

  /** One call of _try_pick_one on a sorted bucket keeps the phase state. */
  lemma PhaseStep(t: Tally, t': Tally, res: Result<Candidate, PickError>, prior: seq<Candidate>, picked: seq<Candidate>,
                  pos: Position, order: OrderBy, remaining: int, budget: int, lim: Limits)
    requires WellBucketed(lim.bucketsAll)
    requires InPhase(t, prior, picked, remaining, budget, lim)
    requires (res, t') == PickSpec(t, pos, SortBuckets(lim.bucketsAll, order).Get(pos), remaining, lim)
    ensures res.Ok? ==> InPhase(t', prior, picked + [res.value], remaining - res.value.nowCost, budget, lim)
    ensures res.Err? ==> InPhase(t', prior, picked, remaining, budget, lim)
  {
    var ordered := SortBuckets(lim.bucketsAll, order).Get(pos);
    SortedBucketPositions(lim.bucketsAll, order, pos);
    PickPreservesConsistency(t, prior + picked, pos, ordered, remaining, lim);
    if res.Ok? {
      SortedRowFromBucket(lim.bucketsAll, order, pos, res.value);
      InPhaseSnoc(t', prior, picked, res.value, remaining, budget, lim);
    }
  }

  lemma InPhaseSnoc(t: Tally, prior: seq<Candidate>, picked: seq<Candidate>, r: Candidate, remaining: int, budget: int, lim: Limits)
    requires Consistent(t, (prior + picked) + [r], lim)
    requires FromBuckets(picked, lim.bucketsAll) && r in Flatten(lim.bucketsAll)
    requires remaining == budget - Sum(Costs(picked)) && r.nowCost <= remaining
    ensures InPhase(t, prior, picked + [r], remaining - r.nowCost, budget, lim)
  {
    CostSumSnoc(picked, r);
    AppendAssoc(prior, picked, [r]);
  }

  /** The picker's initial state is consistent with picking nothing. */
  lemma InPhaseInitially(t: Tally, prior: seq<Candidate>, budget: int, lim: Limits)
    requires Consistent(t, prior, lim) && budget >= 0
    ensures InPhase(t, prior, [], budget, budget, lim)
  {
    assert prior + [] == prior;
  }

  // ---------------------------------------------------------------------------
  // The phases as folds of PickSpec
  // ---------------------------------------------------------------------------

  /** What a phase carries from one pick to the next: the picker's counters, the phase's rows, the budget left and the reasons kept. */
  datatype PhaseState = PhaseState(t: Tally, picked: seq<Candidate>, remaining: int, reasons: seq<string>)

  /** A phase state after one pick or one cycle, and whether a row was kept in it. */
  datatype Stepped = Stepped(s: PhaseState, kept: bool)

  /** The `continue` test of both cycles: the formation is met at `pos` (starting XI), or the squad quota is (bench). */
  predicate Skip(t: Tally, pos: Position, lim: Limits)
  {
    if lim.startingRequired.Some? then Get(t.startingHave, pos) >= lim.startingRequired.value.Get(pos)
    else lim.totalRequired.Get(pos) - Get(t.totalHave, pos) <= 0
  }

  /**
   * What a cycle does with one _try_pick_one answer `res` and the picker's
   * new counters `t'`: a kept row joins the phase's rows and is paid for; a
   * refusal adds its message, after `prefix`, while fewer than six reasons
   * are kept. The flag says whether a row was kept.
   */
  function Absorb(s: PhaseState, res: Result<Candidate, PickError>, t': Tally, prefix: string): Stepped
  {
    match res
    case Ok(row) => Stepped(PhaseState(t', s.picked + [row], s.remaining - row.nowCost, s.reasons), true)
    case Err(e) => Stepped(PhaseState(t', s.picked, s.remaining, if |s.reasons| < 6 then s.reasons + [prefix + e.Message()] else s.reasons), false)
  }

  /** One _try_pick_one call inside a cycle, at position `pos` over the sorted bucket `ordered`. */
  ghost function PickAt(s: PhaseState, pos: Position, ordered: seq<Candidate>, prefix: string, lim: Limits): Stepped
  {
    var p := PickSpec(s.t, pos, ordered, s.remaining, lim);
    Absorb(s, p.0, p.1, prefix)
  }

  /**
   * One _try_pick_one call on a sorted bucket, once its answer `res` and the
   * picker's new counters `t'` are known: the cycle's next state is
   * Absorb's, and it keeps the phase invariant.
   */
  lemma AbsorbStep(s: PhaseState, res: Result<Candidate, PickError>, t': Tally, prior: seq<Candidate>,
                   pos: Position, order: OrderBy, prefix: string, budget: int, lim: Limits)
    requires WellBucketed(lim.bucketsAll) && InPhase(s.t, prior, s.picked, s.remaining, budget, lim) && |s.reasons| <= 6
    requires (res, t') == PickSpec(s.t, pos, SortBuckets(lim.bucketsAll, order).Get(pos), s.remaining, lim)
    ensures PickAt(s, pos, SortBuckets(lim.bucketsAll, order).Get(pos), prefix, lim) == Absorb(s, res, t', prefix)
    ensures var a := Absorb(s, res, t', prefix).s;
      a.t == t' && InPhase(t', prior, a.picked, a.remaining, budget, lim) && |a.reasons| <= 6
  {
    PhaseStep(s.t, t', res, prior, s.picked, pos, order, s.remaining, budget, lim);
  }

  /** The `for pos in ...` loop of one cycle over `positions`: the state after it and whether any pick was kept. */
  ghost function Cycle(s: PhaseState, positions: seq<Position>, ordered: PerPosition<seq<Candidate>>, prefix: string, lim: Limits): Stepped
    decreases |positions|
  {
    if positions == [] then Stepped(s, false)
    else
      var c := Cycle(s, positions[..|positions| - 1], ordered, prefix, lim);
      var pos := positions[|positions| - 1];
      if Skip(c.s.t, pos, lim) then c
      else
        var k := PickAt(c.s, pos, ordered.Get(pos), prefix, lim);
        Stepped(k.s, c.kept || k.kept)
  }

  const StartingGuardMessage := "Guard hit while building starting XI (unexpected loop)."
  const StartingStuckMessage := "Cannot progress while building starting XI. Try relaxing filters."
  const BenchGuardMessage := "Guard hit while building bench (unexpected loop)."
  const BenchStuckMessage := "Cannot progress while building bench. Try relaxing filters."
  const StartingGuardLimit := 2000
  const BenchGuardLimit := 3000

  /** Even cycles of the starting phase sort by points, odd ones by value. */
  function CycleMetric(cycle: nat): OrderBy
  {
    if cycle % 2 == 0 then Points else Value
  }

  function StartingPrefix(metric: OrderBy): string
  {
    "[starting:" + OrderName(metric) + "] "
  }

  const BenchPrefix := "[bench:value] "

  /**
   * The `while` loop of _pick_starting_xi from state `s`, at cycle `cycle`
   * with the guard counter at `guard`: it stops when the formation is met,
   * when the guard passes 2000, or after a cycle that kept nobody.
   */
  ghost function StartingLoop(s: PhaseState, cycle: nat, guard: nat, lim: Limits): PhaseState
    requires lim.startingRequired.Some? && guard <= StartingGuardLimit
    decreases StartingGuardLimit - guard
  {
    if QuotaMet(s.t.startingHave, lim.startingRequired.value) then s
    else if guard + 1 > StartingGuardLimit then s.(reasons := s.reasons + [StartingGuardMessage])
    else
      var metric := CycleMetric(cycle);
      var c := Cycle(s, PositionCycle, SortBuckets(lim.bucketsAll, metric), StartingPrefix(metric), lim);
      if !c.kept then c.s.(reasons := if |c.s.reasons| < 6 then c.s.reasons + [StartingStuckMessage] else c.s.reasons)
      else StartingLoop(c.s, cycle + 1, guard + 1, lim)
  }

  /** What _pick_starting_xi returns: its loop run from a fresh picker with the whole budget. */
  ghost function StartingSpec(buckets: PerPosition<seq<Candidate>>, budget: int, maxPerTeam: int,
                              totalRequired: Quota, startingRequired: Quota): PhaseState
  {
    StartingLoop(PhaseState(Tally({}, map[], map[], map[]), [], budget, []), 0, 0,
                 Limits(maxPerTeam, totalRequired, Some(startingRequired), buckets))
  }

  /** The `while` loop of _pick_bench from state `s` with the guard counter at `guard` (limit 3000). */
  ghost function BenchLoop(s: PhaseState, guard: nat, lim: Limits): PhaseState
    requires guard <= BenchGuardLimit
    decreases BenchGuardLimit - guard
  {
    if QuotaMet(s.t.totalHave, lim.totalRequired) then s
    else if guard + 1 > BenchGuardLimit then s.(reasons := s.reasons + [BenchGuardMessage])
    else
      var c := Cycle(s, BucketOrder, SortBuckets(lim.bucketsAll, Value), BenchPrefix, lim);
      if !c.kept then c.s.(reasons := if |c.s.reasons| < 6 then c.s.reasons + [BenchStuckMessage] else c.s.reasons)
      else BenchLoop(c.s, guard + 1, lim)
  }

  /**
   * What _pick_bench returns when the starting phase left the picker at `t`:
   * `selected` is rebuilt from the starting rows, `starting_have` is emptied,
   * and the loop runs with the budget the starting phase left.
   */
  ghost function BenchSpec(t: Tally, alreadySelected: seq<Candidate>, remainingBudget: int, totalRequired: Quota,
                           maxPerTeam: int, buckets: PerPosition<seq<Candidate>>): PhaseState
  {
    BenchLoop(PhaseState(t.(selected := Ids(alreadySelected), startingHave := map[]), [], remainingBudget, []), 0,
              Limits(maxPerTeam, totalRequired, None, buckets))
  }

  /** The reason a phase can stop short: the guard message or the no-progress message is last, or six reasons were already kept. */
  predicate StoppedWithReason(reasons: seq<string>, guardMessage: string, stuckMessage: string)
  {
    reasons != [] && (reasons[|reasons| - 1] == guardMessage || reasons[|reasons| - 1] == stuckMessage || |reasons| >= 6)
  }

  /** The starting loop ends with the formation met or with a stated reason for stopping. */
  lemma {:induction false} StartingLoopStops(s: PhaseState, cycle: nat, guard: nat, lim: Limits)
    requires lim.startingRequired.Some? && guard <= StartingGuardLimit
    ensures var r := StartingLoop(s, cycle, guard, lim);
      QuotaMet(r.t.startingHave, lim.startingRequired.value) || StoppedWithReason(r.reasons, StartingGuardMessage, StartingStuckMessage)
    decreases StartingGuardLimit - guard
  {
    if !QuotaMet(s.t.startingHave, lim.startingRequired.value) && guard + 1 <= StartingGuardLimit {
      var metric := CycleMetric(cycle);
      var c := Cycle(s, PositionCycle, SortBuckets(lim.bucketsAll, metric), StartingPrefix(metric), lim);
      if c.kept {
        StartingLoopStops(c.s, cycle + 1, guard + 1, lim);
      }
    }
  }

  /** The bench loop ends with the squad quota met or with a stated reason for stopping. */
  lemma {:induction false} BenchLoopStops(s: PhaseState, guard: nat, lim: Limits)
    requires guard <= BenchGuardLimit
    ensures var r := BenchLoop(s, guard, lim);
      QuotaMet(r.t.totalHave, lim.totalRequired) || StoppedWithReason(r.reasons, BenchGuardMessage, BenchStuckMessage)
    decreases BenchGuardLimit - guard
  {
    if !QuotaMet(s.t.totalHave, lim.totalRequired) && guard + 1 <= BenchGuardLimit {
      var c := Cycle(s, BucketOrder, SortBuckets(lim.bucketsAll, Value), BenchPrefix, lim);
      if c.kept {
        BenchLoopStops(c.s, guard + 1, lim);
      }
    }
  }

  // ---------------------------------------------------------------------------
  // The phase methods
  // ---------------------------------------------------------------------------

  /**
   * The `if row: ... else: ...` after a _try_pick_one call: a kept row joins
   * the phase's rows and is paid for; a refusal adds its message while fewer
   * than six reasons are kept. `t` is the picker's state after the call.
   */
  method TakeAnswer(res: Result<Candidate, PickError>, prefix: string, ghost t: Tally,
                    picked: seq<Candidate>, remaining: int, reasons: seq<string>)
    returns (picked': seq<Candidate>, remaining': int, reasons': seq<string>, kept: bool)
    ensures Stepped(PhaseState(t, picked', remaining', reasons'), kept) == Absorb(PhaseState(t, picked, remaining, reasons), res, t, prefix)
  {
    reasons' := reasons;
    match res
    case Ok(row) =>
      picked' := picked + [row];
      remaining' := remaining - row.nowCost;
      kept := true;
    case Err(err) =>
      picked', remaining', kept := picked, remaining, false;
      if |reasons| < 6 {
        reasons' := reasons + [prefix + err.Message()];
      }
  }

  /** One call of _try_pick_one inside a phase cycle, as PickAt describes it. */
  method PickInCycle(st: Picker, prior: seq<Candidate>, pos: Position, ordered: PerPosition<seq<Candidate>>,
                     order: OrderBy, prefix: string, budget: int, lim: Limits,
                     picked: seq<Candidate>, remaining: int, reasons: seq<string>)
    returns (picked': seq<Candidate>, remaining': int, reasons': seq<string>, kept: bool)
    requires WellBucketed(lim.bucketsAll) && ordered == SortBuckets(lim.bucketsAll, order)
    requires st.Valid() && InPhase(st.Snapshot(), prior, picked, remaining, budget, lim) && |reasons| <= 6
    modifies st
    ensures st.Valid() && InPhase(st.Snapshot(), prior, picked', remaining', budget, lim) && |reasons'| <= 6
    ensures Stepped(PhaseState(st.Snapshot(), picked', remaining', reasons'), kept)
            == PickAt(PhaseState(old(st.Snapshot()), picked, remaining, reasons), pos, ordered.Get(pos), prefix, lim)
  {
    ghost var before := st.Snapshot();
    var res := st.TryPickOne(pos, ordered.Get(pos), remaining, lim);
    AbsorbStep(PhaseState(before, picked, remaining, reasons), res, st.Snapshot(), prior, pos, order, prefix, budget, lim);
    picked', remaining', reasons', kept := TakeAnswer(res, prefix, st.Snapshot(), picked, remaining, reasons);
  }

  /** The `for pos in ...` loop of one cycle, as Cycle describes it. */
  method RunCycle(st: Picker, prior: seq<Candidate>, positions: seq<Position>, ordered: PerPosition<seq<Candidate>>,
                  order: OrderBy, prefix: string, budget: int, lim: Limits,
                  picked: seq<Candidate>, remaining: int, reasons: seq<string>)
    returns (picked': seq<Candidate>, remaining': int, reasons': seq<string>, progress: bool)
    requires WellBucketed(lim.bucketsAll) && ordered == SortBuckets(lim.bucketsAll, order)
    requires st.Valid() && InPhase(st.Snapshot(), prior, picked, remaining, budget, lim) && |reasons| <= 6
    modifies st
    ensures st.Valid() && InPhase(st.Snapshot(), prior, picked', remaining', budget, lim) && |reasons'| <= 6
    ensures Stepped(PhaseState(st.Snapshot(), picked', remaining', reasons'), progress)
            == Cycle(PhaseState(old(st.Snapshot()), picked, remaining, reasons), positions, ordered, prefix, lim)
  {
    ghost var s0 := PhaseState(st.Snapshot(), picked, remaining, reasons);
    picked', remaining', reasons', progress := picked, remaining, reasons, false;
    for n := 0 to |positions|
      invariant st.Valid() && InPhase(st.Snapshot(), prior, picked', remaining', budget, lim) && |reasons'| <= 6
      invariant Stepped(PhaseState(st.Snapshot(), picked', remaining', reasons'), progress) == Cycle(s0, positions[..n], ordered, prefix, lim)
    {
      assert positions[..n + 1][..n] == positions[..n];
      var pos := positions[n];
      if Skip(st.Snapshot(), pos, lim) {
        continue;
      }
      var kept;
      picked', remaining', reasons', kept := PickInCycle(st, prior, pos, ordered, order, prefix, budget, lim, picked', remaining', reasons');
      progress := progress || kept;
    }
    assert positions[..|positions|] == positions;
  }

  /** _pick_starting_xi: its rows, budget left, picker and reasons are those StartingSpec gives. */
  method PickStartingXi(buckets: PerPosition<seq<Candidate>>, budget: int, maxPerTeam: int,
                        totalRequired: Quota, startingRequired: Quota)
    returns (picked: seq<Candidate>, remaining: int, st: Picker, reasons: seq<string>)
    requires WellBucketed(buckets)
    requires budget >= 0 && maxPerTeam >= 0
    requires forall p: Position :: totalRequired.Get(p) >= 0 && startingRequired.Get(p) >= 0
    ensures fresh(st) && st.Valid()
    ensures InPhase(st.Snapshot(), [], picked, remaining, budget, Limits(maxPerTeam, totalRequired, Some(startingRequired), buckets))
    ensures PhaseState(st.Snapshot(), picked, remaining, reasons) == StartingSpec(buckets, budget, maxPerTeam, totalRequired, startingRequired)
    ensures |reasons| <= 7
  {
    var lim := Limits(maxPerTeam, totalRequired, Some(startingRequired), buckets);
    st := new Picker();
    picked := [];
    reasons := [];

    var orderedPoints := SortBuckets(buckets, Points);
    var orderedValue := SortBuckets(buckets, Value);

    remaining := budget;

    var cycle: nat := 0;
    var guard: nat := 0;
    InPhaseInitially(st.Snapshot(), [], budget, lim);
    ghost var spec := StartingSpec(buckets, budget, maxPerTeam, totalRequired, startingRequired);
    while !QuotaMet(st.startingHave, startingRequired)
      invariant fresh(st) && st.Valid()
      invariant guard <= StartingGuardLimit
      invariant InPhase(st.Snapshot(), [], picked, remaining, budget, lim)
      invariant |reasons| <= 6
      invariant StartingLoop(PhaseState(st.Snapshot(), picked, remaining, reasons), cycle, guard, lim) == spec
      decreases StartingGuardLimit - guard
    {
      guard := guard + 1;
      if guard > StartingGuardLimit {
        reasons := reasons + [StartingGuardMessage];
        break;
      }

      var metric := CycleMetric(cycle);
      var ordered := if metric == Points then orderedPoints else orderedValue;

      var progressThisCycle;
      picked, remaining, reasons, progressThisCycle :=
        RunCycle(st, [], PositionCycle, ordered, metric, StartingPrefix(metric), budget, lim, picked, remaining, reasons);

      if !progressThisCycle {
        if |reasons| < 6 {
          reasons := reasons + [StartingStuckMessage];
        }
        break;
      }

      cycle := cycle + 1;
    }
  }

  /** The bench phase starts from the starting phase's state; its limits only drop the formation. */
  lemma ConsistentForBench(t: Tally, picked: seq<Candidate>, lim: Limits)
    requires Consistent(t, picked, lim)
    ensures Consistent(t.(selected := Ids(picked), startingHave := map[]), picked, lim.(startingRequired := None))
  {
  }

  /**
   * _pick_bench: fills the squad quota by value; `team_counts` and
   * `total_have` are the starting phase's, updated in place. Its rows,
   * budget left, picker and reasons are those BenchSpec gives.
   */
  method PickBench(st: Picker, buckets: PerPosition<seq<Candidate>>, alreadySelected: seq<Candidate>,
                   remainingBudget: int, totalRequired: Quota, maxPerTeam: int)
    returns (picked: seq<Candidate>, remaining: int, reasons: seq<string>)
    requires WellBucketed(buckets)
    requires remainingBudget >= 0
    requires Consistent(st.Snapshot(), alreadySelected, Limits(maxPerTeam, totalRequired, None, buckets))
    modifies st
    ensures st.Valid()
    ensures InPhase(st.Snapshot(), alreadySelected, picked, remaining, remainingBudget, Limits(maxPerTeam, totalRequired, None, buckets))
    ensures PhaseState(st.Snapshot(), picked, remaining, reasons)
            == BenchSpec(old(st.Snapshot()), alreadySelected, remainingBudget, totalRequired, maxPerTeam, buckets)
    ensures |reasons| <= 7
  {
    var lim := Limits(maxPerTeam, totalRequired, None, buckets);
    ConsistentForBench(st.Snapshot(), alreadySelected, lim);
    st.selected := Ids(alreadySelected);
    st.startingHave := map[];
    InPhaseInitially(st.Snapshot(), alreadySelected, remainingBudget, lim);

    var orderedValue := SortBuckets(buckets, Value);
    picked, remaining, reasons := BenchCycles(st, alreadySelected, orderedValue, remainingBudget, lim);
  }

  /** The `while` loop of _pick_bench, from no bench rows, the whole remaining budget and no reasons. */
  method BenchCycles(st: Picker, alreadySelected: seq<Candidate>, orderedValue: PerPosition<seq<Candidate>>,
                     remainingBudget: int, lim: Limits)
    returns (picked: seq<Candidate>, remaining: int, reasons: seq<string>)
    requires WellBucketed(lim.bucketsAll) && orderedValue == SortBuckets(lim.bucketsAll, Value)
    requires st.Valid() && InPhase(st.Snapshot(), alreadySelected, [], remainingBudget, remainingBudget, lim)
    modifies st
    ensures st.Valid()
    ensures InPhase(st.Snapshot(), alreadySelected, picked, remaining, remainingBudget, lim)
    ensures PhaseState(st.Snapshot(), picked, remaining, reasons) == BenchLoop(PhaseState(old(st.Snapshot()), [], remainingBudget, []), 0, lim)
    ensures |reasons| <= 7
  {
    picked := [];
    reasons := [];
    remaining := remainingBudget;
    var guard: nat := 0;
    ghost var spec := BenchLoop(PhaseState(st.Snapshot(), [], remainingBudget, []), 0, lim);
    while !QuotaMet(st.totalHave, lim.totalRequired)
      invariant st.Valid()
      invariant guard <= BenchGuardLimit
      invariant InPhase(st.Snapshot(), alreadySelected, picked, remaining, remainingBudget, lim)
      invariant |reasons| <= 6
      invariant BenchLoop(PhaseState(st.Snapshot(), picked, remaining, reasons), guard, lim) == spec
      decreases BenchGuardLimit - guard
    {
      guard := guard + 1;
      if guard > BenchGuardLimit {
        reasons := reasons + [BenchGuardMessage];
        break;
      }

      var progress;
      picked, remaining, reasons, progress :=
        RunCycle(st, alreadySelected, BucketOrder, orderedValue, Value, BenchPrefix, remainingBudget, lim, picked, remaining, reasons);

      if !progress {
        if |reasons| < 6 {
          reasons := reasons + [BenchStuckMessage];
        }
        break;
      }
    }
  }
}
