/**
 * The /recommendations/squad endpoint (recommendations.py, recommend_squad):
 * the target gameweek, the candidate query, the quick fail on raw counts, the
 * starting-XI and bench phases, the final checks, and the grouped, flattened
 * and tagged output.
 */
module Squad {
  import opened Wrappers
  import opened Ordering
  import opened Candidates
  import opened Feasibility
  import opened Picking
  import opened Phases
  import opened Store

  // ---------------------------------------------------------------------------
  // Regrouping: what the output's per-position lists add up to does not
  // depend on the order of the rows
  // ---------------------------------------------------------------------------

  /** The sum of `f` over the rows. */
  function SumBy(rows: seq<Candidate>, f: Candidate -> int): int
  {
    if rows == [] then 0 else SumBy(rows[..|rows| - 1], f) + f(rows[|rows| - 1])
  }

  lemma {:induction false} SumByConcat(a: seq<Candidate>, b: seq<Candidate>, f: Candidate -> int)
    ensures SumBy(a + b, f) == SumBy(a, f) + SumBy(b, f)
    decreases |b|
  {
    if b == [] {
      assert a + b == a;
    } else {
      assert (a + b)[..|a + b| - 1] == a + b[..|b| - 1];
      SumByConcat(a, b[..|b| - 1], f);
    }
  }

  lemma {:induction false} SumByPermutation(a: seq<Candidate>, b: seq<Candidate>, f: Candidate -> int)
    requires multiset(a) == multiset(b)
    ensures SumBy(a, f) == SumBy(b, f)
    decreases |a|
  {
    if a == [] {
      assert |b| == |multiset(b)|;
    } else {
      var x := a[|a| - 1];
      var front := a[..|a| - 1];
      assert a == front + [x];
      assert multiset(a) == multiset(front) + multiset{x};
      assert x in multiset(b);
      var i :| 0 <= i < |b| && b[i] == x;
      MultisetRemoveAt(b, i);
      SumByRemoveAt(b, i, f);
      SumByPermutation(front, b[..i] + b[i + 1..], f);
    }
  }

  /** Dropping the entry at `i` drops one occurrence of it. */
  lemma MultisetRemoveAt(s: seq<Candidate>, i: int)
    requires 0 <= i < |s|
    ensures multiset(s[..i] + s[i + 1..]) == multiset(s) - multiset{s[i]}
  {
    assert s == s[..i] + [s[i]] + s[i + 1..];
  }

  /** Removing one entry takes its weight off the sum. */
  lemma SumByRemoveAt(s: seq<Candidate>, i: int, f: Candidate -> int)
    requires 0 <= i < |s|
    ensures SumBy(s, f) == SumBy(s[..i] + s[i + 1..], f) + f(s[i])
  {
    var left, right := s[..i], s[i + 1..];
    assert s == (left + [s[i]]) + right;
    SumByConcat(left + [s[i]], right, f);
    assert (left + [s[i]])[..|left|] == left;
    SumByConcat(left, right, f);
  }

  function OnTeam(team: int): Candidate -> int
  {
    (r: Candidate) => if r.teamId == team then 1 else 0
  }

  function AtPosition(p: Position): Candidate -> int
  {
    (r: Candidate) => if r.position == PositionName(p) then 1 else 0
  }

  function CostOf(r: Candidate): int
  {
    r.nowCost
  }

  lemma {:induction false} TeamCountBy(rows: seq<Candidate>, team: int)
    ensures TeamCount(rows, team) == SumBy(rows, OnTeam(team))
  {
    if rows != [] {
      TeamCountBy(rows[..|rows| - 1], team);
    }
  }

  lemma {:induction false} BucketSizeBy(rows: seq<Candidate>, p: Position)
    ensures |Bucket(rows, p)| == SumBy(rows, AtPosition(p))
  {
    if rows != [] {
      BucketSizeBy(rows[..|rows| - 1], p);
    }
  }

  lemma {:induction false} CostsBy(rows: seq<Candidate>)
    ensures Sum(Costs(rows)) == SumBy(rows, CostOf)
  {
    if rows != [] {
      CostsBy(rows[..|rows| - 1]);
    }
  }

  /** Two positions holding the same row make it count twice. */
  lemma CountedTwice(b: seq<Candidate>, i: int, j: int)
    requires 0 <= i < j < |b| && b[i] == b[j]
    ensures multiset(b)[b[i]] >= 2
  {
    assert b == b[..j] + b[j..];
    assert b[i] in b[..j];
    assert b[j] in b[j..];
  }

  /** A row counted twice sits at two positions. */
  lemma {:induction false} TwoPositions(a: seq<Candidate>, x: Candidate) returns (k: int, l: int)
    requires multiset(a)[x] >= 2
    ensures 0 <= k < l < |a| && a[k] == x && a[l] == x
  {
    var front := a[..|a| - 1];
    var z := a[|a| - 1];
    assert a == front + [z];
    if z == x {
      assert x in multiset(front);
      k :| 0 <= k < |front| && front[k] == x;
      l := |a| - 1;
    } else {
      k, l := TwoPositions(front, x);
    }
  }

  /** A reordering of rows with distinct player ids has distinct player ids. */
  lemma DistinctIdsPermutation(a: seq<Candidate>, b: seq<Candidate>)
    requires multiset(a) == multiset(b) && DistinctIds(a)
    ensures DistinctIds(b)
  {
    forall i, j | 0 <= i < j < |b| ensures b[i].playerId != b[j].playerId {
      var k, l;
      if b[i] == b[j] {
        CountedTwice(b, i, j);
        k, l := TwoPositions(a, b[i]);
      } else {
        assert b[i] in multiset(a) && b[j] in multiset(a);
        k :| 0 <= k < |a| && a[k] == b[i];
        l :| 0 <= l < |a| && a[l] == b[j];
      }
      if k < l {
        assert a[k].playerId != a[l].playerId;
      } else {
        assert a[l].playerId != a[k].playerId;
      }
    }
  }

  /** Team counts do not depend on the order of the rows. */
  lemma TeamCountPermutation(a: seq<Candidate>, b: seq<Candidate>)
    requires multiset(a) == multiset(b)
    ensures forall team :: TeamCount(a, team) == TeamCount(b, team)
  {
    forall team ensures TeamCount(a, team) == TeamCount(b, team) {
      TeamCountBy(a, team);
      TeamCountBy(b, team);
      SumByPermutation(a, b, OnTeam(team));
    }
  }

  /** The total cost does not depend on the order of the rows. */
  lemma CostPermutation(a: seq<Candidate>, b: seq<Candidate>)
    requires multiset(a) == multiset(b)
    ensures Sum(Costs(a)) == Sum(Costs(b))
  {
    CostsBy(a);
    CostsBy(b);
    SumByPermutation(a, b, CostOf);
  }

  /** The grouped lists, read in GKP, DEF, MID, FWD order, are a reordering of rows with recognised positions. */
  lemma RegroupPermutation(rows: seq<Candidate>)
    requires Recognised(rows)
    ensures multiset(Flatten(BuildCandidateBuckets(rows))) == multiset(rows)
  {
    var b := BuildCandidateBuckets(rows);
    forall x ensures multiset(Flatten(b))[x] == multiset(rows)[x] {
      BucketContents(rows, GKP, x);
      BucketContents(rows, DEF, x);
      BucketContents(rows, MID, x);
      BucketContents(rows, FWD, x);
      if x in rows {
        var i :| 0 <= i < |rows| && rows[i] == x;
        assert ParsePosition(x.position).Some?;
      }
    }
    assert multiset(Flatten(b)) == multiset(rows);
  }

  /** With every position recognised, the bucket sizes add up to the number of rows. */
  lemma {:induction false} RecognisedSizes(rows: seq<Candidate>)
    requires Recognised(rows)
    ensures |Bucket(rows, GKP)| + |Bucket(rows, DEF)| + |Bucket(rows, MID)| + |Bucket(rows, FWD)| == |rows|
  {
    BucketSizes(rows);
    NoneUnrecognised(rows);
  }

  lemma {:induction false} NoneUnrecognised(rows: seq<Candidate>)
    requires Recognised(rows)
    ensures Unrecognised(rows) == []
  {
    if rows != [] {
      NoneUnrecognised(rows[..|rows| - 1]);
    }
  }

  // ---------------------------------------------------------------------------
  // Diagnostics: candidate counts and the raw-count quick fail
  // ---------------------------------------------------------------------------

  /** `candidates_count = {p: len(buckets[p]) for p in buckets}` */
  function CandidatesCount(b: PerPosition<seq<Candidate>>): (r: Quota)
    ensures forall p: Position :: r.Get(p) == |b.Get(p)|
  {
    PerPosition(|b.gkp|, |b.def|, |b.mid|, |b.fwd|)
  }

  /** An entry of `missing_by_position`. */
  datatype Shortfall = Shortfall(pos: Position, need: int, have: int)

  /** A position's place in GKP, DEF, MID, FWD: the key order of SQUAD_RULES. */
  function Rank(p: Position): (r: nat)
    ensures r < |BucketOrder| && BucketOrder[r] == p
  {
    match p
    case GKP => 0
    case DEF => 1
    case MID => 2
    case FWD => 3
  }

  /**
   * The quick-fail loop over SQUAD_RULES: one entry for each position with
   * fewer candidates than the squad needs, in the rules' key order.
   */
  method MissingByPosition(counts: Quota) returns (missing: seq<Shortfall>)
    ensures forall m :: m in missing ==> m == Shortfall(m.pos, SquadRules.Get(m.pos), counts.Get(m.pos))
    ensures forall p: Position :: Shortfall(p, SquadRules.Get(p), counts.Get(p)) in missing <==> counts.Get(p) < SquadRules.Get(p)
    ensures forall i, j :: 0 <= i < j < |missing| ==> Rank(missing[i].pos) < Rank(missing[j].pos)
  {
    missing := [];
    for n := 0 to |BucketOrder|
      invariant forall i :: 0 <= i < |missing| ==>
                  missing[i] == Shortfall(missing[i].pos, SquadRules.Get(missing[i].pos), counts.Get(missing[i].pos))
                  && counts.Get(missing[i].pos) < SquadRules.Get(missing[i].pos) && Rank(missing[i].pos) < n
      invariant forall i, j :: 0 <= i < j < |missing| ==> Rank(missing[i].pos) < Rank(missing[j].pos)
      invariant forall k :: 0 <= k < n && counts.Get(BucketOrder[k]) < SquadRules.Get(BucketOrder[k]) ==>
                  Shortfall(BucketOrder[k], SquadRules.Get(BucketOrder[k]), counts.Get(BucketOrder[k])) in missing
    {
      var pos := BucketOrder[n];
      assert Rank(pos) == n;
      var need := SquadRules.Get(pos);
      var have := counts.Get(pos);
      if have < need {
        missing := missing + [Shortfall(pos, need, have)];
      }
    }
    forall p: Position ensures Shortfall(p, SquadRules.Get(p), counts.Get(p)) in missing <==> counts.Get(p) < SquadRules.Get(p) {
      assert BucketOrder[Rank(p)] == p;
    }
  }

  /** The per-position row counts of `rows`. */
  function PositionCounts(rows: seq<Candidate>): (q: Quota)
    ensures forall p: Position :: q.Get(p) == |Bucket(rows, p)|
  {
    PerPosition(|Bucket(rows, GKP)|, |Bucket(rows, DEF)|, |Bucket(rows, MID)|, |Bucket(rows, FWD)|)
  }

  /** The counting loops after each phase (`starting_have`, `final_have`). */
  method CountByPosition(rows: seq<Candidate>) returns (have: Quota)
    ensures forall p: Position :: have.Get(p) == |Bucket(rows, p)|
    ensures have == PositionCounts(rows)
  {
    have := PerPosition(0, 0, 0, 0);
    assert rows[..0] == [];
    for i := 0 to |rows|
      invariant forall p: Position :: have.Get(p) == |Bucket(rows[..i], p)|
    {
      var r := rows[i];
      assert rows[..i + 1][..i] == rows[..i];
      match ParsePosition(r.position)
      case Some(GKP) => have := have.(gkp := have.gkp + 1);
      case Some(DEF) => have := have.(def := have.def + 1);
      case Some(MID) => have := have.(mid := have.mid + 1);
      case Some(FWD) => have := have.(fwd := have.fwd + 1);
      case None =>
    }
    assert rows[..|rows|] == rows;
    assert have.Get(GKP) == PositionCounts(rows).Get(GKP) && have.Get(DEF) == PositionCounts(rows).Get(DEF);
    assert have.Get(MID) == PositionCounts(rows).Get(MID) && have.Get(FWD) == PositionCounts(rows).Get(FWD);
  }

  /** `all(have[p] >= required[p] for p in required)` on a dict with all four keys. */
  predicate AtLeast(have: Quota, required: Quota)
  {
    have.gkp >= required.gkp && have.def >= required.def && have.mid >= required.mid && have.fwd >= required.fwd
  }

  // ---------------------------------------------------------------------------
  // Output: flattening, the fixed bench list and the tagged squad list
  // ---------------------------------------------------------------------------

  /** The first `n` lists of `d` in GKP, DEF, MID, FWD order, concatenated. */
  function FlattenPrefix(d: PerPosition<seq<Candidate>>, n: nat): seq<Candidate>
    requires n <= |BucketOrder|
  {
    if n == 0 then [] else FlattenPrefix(d, n - 1) + d.Get(BucketOrder[n - 1])
  }

  /** _flatten_pos_dict */
  method FlattenPosDict(d: PerPosition<seq<Candidate>>) returns (out: seq<Candidate>)
    ensures out == Flatten(d)
    ensures |out| == |d.gkp| + |d.def| + |d.mid| + |d.fwd|
  {
    out := [];
    for n := 0 to |BucketOrder|
      invariant out == FlattenPrefix(d, n)
    {
      out := out + d.Get(BucketOrder[n]);
    }
    assert FlattenPrefix(d, 1) == d.gkp;
    assert FlattenPrefix(d, 2) == d.gkp + d.def;
    assert FlattenPrefix(d, 3) == d.gkp + d.def + d.mid;
  }

  /**
   * _build_bench_list: the first bench goalkeeper, if any, then the bench
   * outfielders in DEF, MID, FWD order, four players at most.
   */
  function BenchList(bench: PerPosition<seq<Candidate>>): (r: seq<Candidate>)
    ensures |r| == Min(4, Min(|bench.gkp|, 1) + |bench.def| + |bench.mid| + |bench.fwd|)
    ensures |bench.gkp| > 0 ==> r[0] == bench.gkp[0] && r[1..] == (bench.def + bench.mid + bench.fwd)[..|r| - 1]
    ensures |bench.gkp| == 0 ==> r == (bench.def + bench.mid + bench.fwd)[..|r|]
  {
    var gk := if |bench.gkp| > 0 then [bench.gkp[0]] else [];
    var outfield := bench.def + bench.mid + bench.fwd;
    var need := 4 - |gk|;
    gk + outfield[..Min(need, |outfield|)]
  }

  /** For a bench of one goalkeeper and three outfielders the bench list is the whole bench. */
  lemma BenchListWholeBench(bench: PerPosition<seq<Candidate>>)
    requires |bench.gkp| == 1 && |bench.def| + |bench.mid| + |bench.fwd| == 3
    ensures BenchList(bench) == Flatten(bench)
  {
    var outfield := bench.def + bench.mid + bench.fwd;
    assert outfield[..3] == outfield;
    assert [bench.gkp[0]] == bench.gkp;
  }

  datatype Role = Starting | Bench

  function RoleName(role: Role): string
  {
    match role
    case Starting => "starting"
    case Bench => "bench"
  }

  /** A row of `squad_list`: the player's entry with its role and its 1-based slot. */
  datatype Slot = Slot(role: Role, slot: int, row: Candidate)

  /** The rows of `items` numbered from 1 under `role`. */
  function Tagged(items: seq<Candidate>, role: Role): seq<Slot>
  {
    if items == [] then [] else Tagged(items[..|items| - 1], role) + [Slot(role, |items|, items[|items| - 1])]
  }

  /** Slot i of the tagged list holds row i under `role`, numbered i + 1. */
  lemma {:induction false} TaggedSlots(items: seq<Candidate>, role: Role)
    ensures |Tagged(items, role)| == |items|
    ensures forall i :: 0 <= i < |items| ==> Tagged(items, role)[i] == Slot(role, i + 1, items[i])
  {
    if items != [] {
      TaggedSlots(items[..|items| - 1], role);
    }
  }

  /** _tag */
  method Tag(items: seq<Candidate>, role: Role) returns (tagged: seq<Slot>)
    ensures |tagged| == |items|
    ensures forall i :: 0 <= i < |items| ==> tagged[i] == Slot(role, i + 1, items[i])
    ensures tagged == Tagged(items, role)
  {
    tagged := [];
    for i := 0 to |items|
      invariant |tagged| == i
      invariant forall k :: 0 <= k < i ==> tagged[k] == Slot(role, k + 1, items[k])
      invariant tagged == Tagged(items[..i], role)
    {
      assert items[..i + 1][..i] == items[..i];
      tagged := tagged + [Slot(role, i + 1, items[i])];
    }
    assert items[..|items|] == items;
  }

  // ---------------------------------------------------------------------------
  // The endpoint
  // ---------------------------------------------------------------------------

  /** `None if status == "all" else status` */
  function EffectiveStatus(status: string): (r: Option<string>)
    ensures r.None? <==> status == "all"
    ensures r.Some? ==> r.value == status
  {
    if status == "all" then None else Some(status)
  }

  const NotEnoughCandidatesError: string := "Not enough candidates to satisfy squad rules under current filters."
  const StartingFailedError: string := "Failed to build a valid starting XI with current constraints."
  const SquadFailedError: string := "Failed to build a valid squad with current constraints."
  const SquadFailedHint: string := "Try relaxing filters (e.g., max_cost, min_predicted_points, or status=all)."

  /** The response, without the echoed filters and the generation timestamp. */
  datatype SquadResult =
    | NoTargetGw(error: string)
    | NotEnoughCandidates(targetGw: int, missing: seq<Shortfall>, candidatesCount: Quota)
    | StartingFailed(targetGw: int, reasons: seq<string>, startingHave: Quota, spent: int, remaining: int,
                     teamCounts: map<int, int>, candidatesCount: Quota)
    | SquadFailed(targetGw: int, reasons: seq<string>, haveByPosition: Quota, spent: int, remaining: int,
                  teamCounts: map<int, int>, candidatesCount: Quota)
    | Squad(targetGw: int, startingXi: PerPosition<seq<Candidate>>, bench: PerPosition<seq<Candidate>>,
            benchList: seq<Candidate>, squadList: seq<Slot>, spent: int, remaining: int,
            teamCounts: map<int, int>, squadCounts: Quota)
  {
    /** The response's "error" field. */
    function ErrorMessage(): Option<string>
    {
      match this
      case NoTargetGw(e) => Some(e)
      case NotEnoughCandidates(_, _, _) => Some(NotEnoughCandidatesError)
      case StartingFailed(_, _, _, _, _, _, _) => Some(StartingFailedError)
      case SquadFailed(_, _, _, _, _, _, _) => Some(SquadFailedError)
      case Squad(_, _, _, _, _, _, _, _, _) => None
    }
  }

  /** The squad's layout: 11 starters in a 3-4-3, a bench of 1/2/1/0, and the bench and squad lists built from them. */
  ghost predicate SquadShape(res: SquadResult)
    requires res.Squad?
  {
    var xiRows := Flatten(res.startingXi);
    var benchRows := Flatten(res.bench);
    && |xiRows| == 11 && |benchRows| == 4
    && WellBucketed(res.startingXi) && WellBucketed(res.bench)
    && (forall p: Position :: |res.startingXi.Get(p)| == StartingFormation.Get(p))
    && (forall p: Position :: |res.startingXi.Get(p)| + |res.bench.Get(p)| == SquadRules.Get(p))
    && res.squadCounts == SquadRules
    && res.benchList == benchRows
    && |res.squadList| == 15
    && (forall i :: 0 <= i < 11 ==> res.squadList[i] == Slot(Starting, i + 1, xiRows[i]))
    && (forall i :: 0 <= i < 4 ==> res.squadList[11 + i] == Slot(Bench, i + 1, benchRows[i]))
  }

  /** The squad rules proper: distinct players, the team cap, the budget. */
  ghost predicate SquadWithinRules(res: SquadResult, budget: int, maxPerTeam: int)
    requires res.Squad?
  {
    var squad := Flatten(res.startingXi) + Flatten(res.bench);
    && DistinctIds(squad)
    && (forall team :: Get(res.teamCounts, team) == TeamCount(squad, team) <= maxPerTeam)
    && res.spent == Sum(Costs(squad)) && res.spent + res.remaining == budget && res.remaining >= 0
  }

  /** Every player of the squad is a row of the query for the target gameweek. */
  ghost predicate SquadFromQuery(res: SquadResult, joined: seq<Candidate>, gw: int, modelName: string,
                                 status: Option<string>, maxCost: Option<int>, minPoints: Option<real>)
    requires res.Squad?
  {
    && res.targetGw == gw
    && forall r :: r in Flatten(res.startingXi) + Flatten(res.bench) ==>
         r in joined && MatchesQuery(r, gw, modelName, status, maxCost, minPoints)
  }

  /**
   * What a returned squad satisfies: 15 distinct players, 2/5/5/3 by position
   * with a 3-4-3 starting XI, at most `maxPerTeam` per team, within budget,
   * every player a row of the filtered query, and the bench list and squad
   * list laid out as the response promises.
   */
  ghost predicate ValidSquad(res: SquadResult, joined: seq<Candidate>, gw: int, modelName: string,
                             status: Option<string>, maxCost: Option<int>, minPoints: Option<real>,
                             budget: int, maxPerTeam: int)
  {
    && res.Squad?
    && SquadShape(res)
    && SquadWithinRules(res, budget, maxPerTeam)
    && SquadFromQuery(res, joined, gw, modelName, status, maxCost, minPoints)
  }

  /** Both halves of a recognised concatenation are recognised. */
  lemma RecognisedParts(a: seq<Candidate>, b: seq<Candidate>)
    requires Recognised(a + b)
    ensures Recognised(a) && Recognised(b)
  {
    forall i | 0 <= i < |a| ensures ParsePosition(a[i].position).Some? {
      assert a[i] == (a + b)[i];
    }
    forall i | 0 <= i < |b| ensures ParsePosition(b[i].position).Some? {
      assert b[i] == (a + b)[|a| + i];
    }
  }

  /** Grouping the two phases' rows separately and reading them back gives a reordering of the squad. */
  lemma SquadRegrouped(startingRows: seq<Candidate>, benchRows: seq<Candidate>)
    requires Recognised(startingRows + benchRows)
    ensures multiset(Flatten(BuildCandidateBuckets(startingRows)) + Flatten(BuildCandidateBuckets(benchRows)))
            == multiset(startingRows + benchRows)
  {
    RecognisedParts(startingRows, benchRows);
    RegroupPermutation(startingRows);
    RegroupPermutation(benchRows);
  }

  /** Per-position counts of the two phases when both final checks pass. */
  lemma PhaseCounts(startingRows: seq<Candidate>, benchRows: seq<Candidate>)
    requires Recognised(startingRows + benchRows)
    requires forall p: Position :: |Bucket(startingRows, p)| == StartingFormation.Get(p)
    requires forall p: Position :: |Bucket(startingRows + benchRows, p)| == SquadRules.Get(p)
    ensures forall p: Position :: |Bucket(benchRows, p)| == SquadRules.Get(p) - StartingFormation.Get(p)
    ensures |startingRows| == 11 && |benchRows| == 4
  {
    forall p: Position ensures |Bucket(benchRows, p)| == SquadRules.Get(p) - StartingFormation.Get(p) {
      BucketAppend(startingRows, benchRows, p);
    }
    RecognisedParts(startingRows, benchRows);
    RecognisedSizes(startingRows);
    RecognisedSizes(benchRows);
  }

  /** The output's layout after both phases succeed. */
  lemma ShapeOutcome(res: SquadResult)
    requires res.Squad?
    requires WellBucketed(res.startingXi) && WellBucketed(res.bench)
    requires forall p: Position :: |res.startingXi.Get(p)| == StartingFormation.Get(p)
    requires forall p: Position :: |res.bench.Get(p)| == SquadRules.Get(p) - StartingFormation.Get(p)
    requires res.benchList == BenchList(res.bench)
    requires |res.squadList| == |Flatten(res.startingXi)| + |res.benchList|
    requires forall i :: 0 <= i < |Flatten(res.startingXi)| ==> res.squadList[i] == Slot(Starting, i + 1, Flatten(res.startingXi)[i])
    requires forall i :: 0 <= i < |res.benchList| ==>
               res.squadList[|Flatten(res.startingXi)| + i] == Slot(Bench, i + 1, res.benchList[i])
    requires res.squadCounts == SquadRules
    ensures SquadShape(res)
  {
    assert |res.bench.Get(GKP)| == 1 && |res.bench.Get(DEF)| == 2 && |res.bench.Get(MID)| == 1 && |res.bench.Get(FWD)| == 0;
    assert |res.startingXi.Get(GKP)| == 1 && |res.startingXi.Get(DEF)| == 3;
    assert |res.startingXi.Get(MID)| == 4 && |res.startingXi.Get(FWD)| == 3;
    BenchListWholeBench(res.bench);
  }

  /** The squad rules after both phases succeed. */
  lemma RulesOutcome(startingRows: seq<Candidate>, benchRows: seq<Candidate>, t: Tally, lim: Limits,
                     budget: int, remaining: int, remaining2: int, res: SquadResult)
    requires Consistent(t, startingRows + benchRows, lim)
    requires remaining == budget - Sum(Costs(startingRows))
    requires remaining2 == remaining - Sum(Costs(benchRows)) && remaining2 >= 0
    requires res.Squad?
    requires res.startingXi == BuildCandidateBuckets(startingRows) && res.bench == BuildCandidateBuckets(benchRows)
    requires res.spent == budget - remaining2 && res.remaining == remaining2
    requires res.teamCounts == t.teamCounts
    ensures SquadWithinRules(res, budget, lim.maxPerTeam)
  {
    var squad := Flatten(res.startingXi) + Flatten(res.bench);
    SquadRegrouped(startingRows, benchRows);
    DistinctIdsPermutation(startingRows + benchRows, squad);
    TeamsOutcome(startingRows + benchRows, squad, t.teamCounts, lim.maxPerTeam);
    CostOutcome(startingRows, benchRows, squad);
  }

  lemma TeamsOutcome(rows: seq<Candidate>, squad: seq<Candidate>, teamCounts: map<int, int>, maxPerTeam: int)
    requires multiset(rows) == multiset(squad)
    requires forall team :: Get(teamCounts, team) == TeamCount(rows, team) <= maxPerTeam
    ensures forall team :: Get(teamCounts, team) == TeamCount(squad, team) <= maxPerTeam
  {
    TeamCountPermutation(rows, squad);
  }

  lemma CostOutcome(startingRows: seq<Candidate>, benchRows: seq<Candidate>, squad: seq<Candidate>)
    requires multiset(startingRows + benchRows) == multiset(squad)
    ensures Sum(Costs(squad)) == Sum(Costs(startingRows)) + Sum(Costs(benchRows))
  {
    CostPermutation(startingRows + benchRows, squad);
    CostsConcat(startingRows, benchRows);
    SumConcat(Costs(startingRows), Costs(benchRows));
  }

  /** A row of the buckets of the filtered query is a joined row that passes the filters. */
  lemma BucketRowMatches(joined: seq<Candidate>, gw: int, modelName: string, status: Option<string>,
                         maxCost: Option<int>, minPoints: Option<real>, r: Candidate)
    requires r in Flatten(BuildCandidateBuckets(BaseCandidates(joined, gw, modelName, status, maxCost, minPoints)))
    ensures r in joined && MatchesQuery(r, gw, modelName, status, maxCost, minPoints)
  {
    var rows := BaseCandidates(joined, gw, modelName, status, maxCost, minPoints);
    BucketPositions(rows, GKP);
    BucketPositions(rows, DEF);
    BucketPositions(rows, MID);
    BucketPositions(rows, FWD);
  }

  /** Where the squad's players come from after both phases succeed. */
  lemma QueryOutcome(joined: seq<Candidate>, gw: int, modelName: string, status: Option<string>,
                     maxCost: Option<int>, minPoints: Option<real>,
                     startingRows: seq<Candidate>, benchRows: seq<Candidate>, res: SquadResult)
    requires Recognised(startingRows + benchRows)
    requires
      var buckets := BuildCandidateBuckets(BaseCandidates(joined, gw, modelName, status, maxCost, minPoints));
      FromBuckets(startingRows, buckets) && FromBuckets(benchRows, buckets)
    requires res.Squad? && res.targetGw == gw
    requires res.startingXi == BuildCandidateBuckets(startingRows) && res.bench == BuildCandidateBuckets(benchRows)
    ensures SquadFromQuery(res, joined, gw, modelName, status, maxCost, minPoints)
  {
    var squad := Flatten(res.startingXi) + Flatten(res.bench);
    SquadRegrouped(startingRows, benchRows);
    forall r | r in squad
      ensures r in joined && MatchesQuery(r, gw, modelName, status, maxCost, minPoints)
    {
      assert r in multiset(startingRows + benchRows);
      assert r in startingRows || r in benchRows;
      BucketRowMatches(joined, gw, modelName, status, maxCost, minPoints, r);
    }
  }

  /** A quota dict that misses its target misses it at some position. */
  lemma ShortAt(have: Quota, required: Quota)
    requires !AtLeast(have, required)
    ensures exists p: Position :: have.Get(p) < required.Get(p)
  {
    if have.gkp < required.gkp {
      assert have.Get(GKP) < required.Get(GKP);
    } else if have.def < required.def {
      assert have.Get(DEF) < required.Get(DEF);
    } else if have.mid < required.mid {
      assert have.Get(MID) < required.Get(MID);
    } else {
      assert have.Get(FWD) < required.Get(FWD);
    }
  }

  /** Counts that are at most the quota and reach it everywhere equal it. */
  lemma ExactCounts(have: Quota, required: Quota, rows: seq<Candidate>)
    requires AtLeast(have, required)
    requires forall p: Position :: have.Get(p) == |Bucket(rows, p)| <= required.Get(p)
    ensures forall p: Position :: |Bucket(rows, p)| == required.Get(p)
    ensures have == required
  {
    forall p: Position ensures |Bucket(rows, p)| == required.Get(p) {
      assert have.Get(p) >= required.Get(p);
    }
    assert have.Get(GKP) == required.Get(GKP) && have.Get(DEF) == required.Get(DEF);
    assert have.Get(MID) == required.Get(MID) && have.Get(FWD) == required.Get(FWD);
  }

  /** When every position reaches its quota the squad has exactly 15 players, so the length check never decides. */
  lemma LengthCheckRedundant(rows: seq<Candidate>, finalHave: Quota)
    requires Recognised(rows)
    requires forall p: Position :: finalHave.Get(p) == |Bucket(rows, p)| <= SquadRules.Get(p)
    ensures AtLeast(finalHave, SquadRules) ==> |rows| == 15
  {
    RecognisedSizes(rows);
    if AtLeast(finalHave, SquadRules) {
      ExactCounts(finalHave, SquadRules, rows);
    }
  }

  /** What AssembleSquad builds from the two phases' rows. */
  ghost predicate Assembled(res: SquadResult, gw: int, startingRows: seq<Candidate>, benchRows: seq<Candidate>,
                            spent: int, remaining: int, teamCounts: map<int, int>, finalHave: Quota)
  {
    && res.Squad? && res.targetGw == gw
    && res.startingXi == BuildCandidateBuckets(startingRows) && res.bench == BuildCandidateBuckets(benchRows)
    && res.benchList == BenchList(res.bench)
    && |res.squadList| == |Flatten(res.startingXi)| + |res.benchList|
    && (forall i :: 0 <= i < |Flatten(res.startingXi)| ==> res.squadList[i] == Slot(Starting, i + 1, Flatten(res.startingXi)[i]))
    && (forall i :: 0 <= i < |res.benchList| ==>
          res.squadList[|Flatten(res.startingXi)| + i] == Slot(Bench, i + 1, res.benchList[i]))
    && res.spent == spent && res.remaining == remaining && res.teamCounts == teamCounts && res.squadCounts == finalHave
  }

  /** The squad the output section builds from the two phases' rows. */
  function AssembledSquad(gw: int, startingRows: seq<Candidate>, benchRows: seq<Candidate>, spent: int, remaining: int,
                          teamCounts: map<int, int>, finalHave: Quota): SquadResult
  {
    var startingXi := BuildCandidateBuckets(startingRows);
    var bench := BuildCandidateBuckets(benchRows);
    var benchList := BenchList(bench);
    Squad(gw, startingXi, bench, benchList, Tagged(Flatten(startingXi), Starting) + Tagged(benchList, Bench),
          spent, remaining, teamCounts, finalHave)
  }

  /** The assembled squad groups each phase's rows, lists the bench and numbers the starting XI before the bench. */
  lemma AssembledSquadLayout(gw: int, startingRows: seq<Candidate>, benchRows: seq<Candidate>, spent: int, remaining: int,
                             teamCounts: map<int, int>, finalHave: Quota)
    ensures Assembled(AssembledSquad(gw, startingRows, benchRows, spent, remaining, teamCounts, finalHave),
                      gw, startingRows, benchRows, spent, remaining, teamCounts, finalHave)
  {
    TaggedSlots(Flatten(BuildCandidateBuckets(startingRows)), Starting);
    TaggedSlots(BenchList(BuildCandidateBuckets(benchRows)), Bench);
  }

  /** A squad laid out as the output section lays it out is the assembled squad. */
  lemma AssembledUnique(res: SquadResult, gw: int, startingRows: seq<Candidate>, benchRows: seq<Candidate>, spent: int,
                        remaining: int, teamCounts: map<int, int>, finalHave: Quota)
    requires Assembled(res, gw, startingRows, benchRows, spent, remaining, teamCounts, finalHave)
    ensures res == AssembledSquad(gw, startingRows, benchRows, spent, remaining, teamCounts, finalHave)
  {
    SlotsTagged(res.squadList, Flatten(res.startingXi), res.benchList);
  }

  /** A squad list laid out slot by slot is the two tagged lists, starting XI first. */
  lemma SlotsTagged(list: seq<Slot>, xi: seq<Candidate>, benchList: seq<Candidate>)
    requires |list| == |xi| + |benchList|
    requires forall i :: 0 <= i < |xi| ==> list[i] == Slot(Starting, i + 1, xi[i])
    requires forall i :: 0 <= i < |benchList| ==> list[|xi| + i] == Slot(Bench, i + 1, benchList[i])
    ensures list == Tagged(xi, Starting) + Tagged(benchList, Bench)
  {
    var tagged := Tagged(xi, Starting) + Tagged(benchList, Bench);
    TaggedSlots(xi, Starting);
    TaggedSlots(benchList, Bench);
    forall i | 0 <= i < |tagged|
      ensures list[i] == tagged[i]
    {
      if i >= |xi| {
        assert list[|xi| + (i - |xi|)] == Slot(Bench, i - |xi| + 1, benchList[i - |xi|]);
      }
    }
  }

  /** The output section of recommend_squad: grouping, the bench list and the tagged squad list. */
  method AssembleSquad(gw: int, startingRows: seq<Candidate>, benchRows: seq<Candidate>, spent: int, remaining: int,
                       teamCounts: map<int, int>, finalHave: Quota)
    returns (res: SquadResult)
    ensures Assembled(res, gw, startingRows, benchRows, spent, remaining, teamCounts, finalHave)
  {
    var startingGrouped := GroupByPosition(startingRows);
    var benchGrouped := GroupByPosition(benchRows);
    var benchList := BenchList(benchGrouped);
    var startingFlat := FlattenPosDict(startingGrouped);
    var tagged1 := Tag(startingFlat, Starting);
    var tagged2 := Tag(benchList, Bench);
    res := Squad(gw, startingGrouped, benchGrouped, benchList, tagged1 + tagged2, spent, remaining, teamCounts, finalHave);
  }

  /** What the rest of the endpoint knows once the starting XI check passes. */
  ghost predicate StartingDone(startingRows: seq<Candidate>, remaining: int, budget: int, buckets: PerPosition<seq<Candidate>>)
  {
    && FromBuckets(startingRows, buckets)
    && remaining == budget - Sum(Costs(startingRows))
    && remaining >= 0
    && forall p: Position :: |Bucket(startingRows, p)| == StartingFormation.Get(p)
  }

  /** A starting phase that passes the check leaves an exact 3-4-3 and a state the bench phase accepts. */
  lemma StartingPhaseChecked(t: Tally, startingRows: seq<Candidate>, remaining: int, budget: int, maxPerTeam: int,
                             buckets: PerPosition<seq<Candidate>>, startingHave: Quota)
    requires InPhase(t, [], startingRows, remaining, budget, Limits(maxPerTeam, SquadRules, Some(StartingFormation), buckets))
    requires forall p: Position :: startingHave.Get(p) == |Bucket(startingRows, p)|
    requires AtLeast(startingHave, StartingFormation)
    ensures Consistent(t, startingRows, Limits(maxPerTeam, SquadRules, None, buckets))
    ensures StartingDone(startingRows, remaining, budget, buckets)
  {
    assert [] + startingRows == startingRows;
    ExactCounts(startingHave, StartingFormation, startingRows);
  }

  /** The final check fails only when some position is short. */
  lemma FinalCheckFails(t: Tally, startingRows: seq<Candidate>, benchRows: seq<Candidate>, remaining2: int, remaining: int,
                        lim: Limits, finalHave: Quota)
    requires InPhase(t, startingRows, benchRows, remaining2, remaining, lim)
    requires lim.totalRequired == SquadRules
    requires forall p: Position :: finalHave.Get(p) == |Bucket(startingRows + benchRows, p)|
    requires !(AtLeast(finalHave, SquadRules) && |startingRows + benchRows| == 15)
    ensures exists p: Position :: finalHave.Get(p) < SquadRules.Get(p)
  {
    LengthCheckRedundant(startingRows + benchRows, finalHave);
    ShortAt(finalHave, SquadRules);
  }

  /** The squad returned after both phases and both checks pass is valid. */
  lemma SquadFromPhases(joined: seq<Candidate>, gw: int, modelName: string, status: Option<string>,
                        maxCost: Option<int>, minPoints: Option<real>, buckets: PerPosition<seq<Candidate>>,
                        budget: int, maxPerTeam: int, t: Tally, startingRows: seq<Candidate>, benchRows: seq<Candidate>,
                        remaining: int, remaining2: int, finalHave: Quota, res: SquadResult)
    requires buckets == BuildCandidateBuckets(BaseCandidates(joined, gw, modelName, status, maxCost, minPoints))
    requires StartingDone(startingRows, remaining, budget, buckets)
    requires InPhase(t, startingRows, benchRows, remaining2, remaining, Limits(maxPerTeam, SquadRules, None, buckets))
    requires forall p: Position :: finalHave.Get(p) == |Bucket(startingRows + benchRows, p)|
    requires AtLeast(finalHave, SquadRules)
    requires Assembled(res, gw, startingRows, benchRows, budget - remaining2, remaining2, t.teamCounts, finalHave)
    ensures ValidSquad(res, joined, gw, modelName, status, maxCost, minPoints, budget, maxPerTeam)
  {
    var finalRows := startingRows + benchRows;
    ExactCounts(finalHave, SquadRules, finalRows);
    PhaseCounts(startingRows, benchRows);
    ShapeOutcome(res);
    RulesOutcome(startingRows, benchRows, t, Limits(maxPerTeam, SquadRules, None, buckets), budget, remaining, remaining2, res);
    QueryOutcome(joined, gw, modelName, status, maxCost, minPoints, startingRows, benchRows, res);
  }

  /**
   * The result of the two phases and the checks after them, as StartingSpec
   * and BenchSpec describe the phases: a starting XI short of the formation
   * gives StartingFailed with the starting loop's reasons, picker counts and
   * spend; otherwise the bench phase decides, as BenchResult says.
   */
  ghost function PhasesResult(buckets: PerPosition<seq<Candidate>>, gw: int, candidatesCount: Quota,
                              budget: int, maxPerTeam: int): SquadResult
  {
    var s := StartingSpec(buckets, budget, maxPerTeam, SquadRules, StartingFormation);
    var startingHave := PositionCounts(s.picked);
    if !AtLeast(startingHave, StartingFormation) then
      StartingFailed(gw, s.reasons, startingHave, budget - s.remaining, s.remaining, s.t.teamCounts, candidatesCount)
    else
      BenchResult(buckets, gw, candidatesCount, budget, maxPerTeam, s.t, s.picked, s.remaining, s.reasons)
  }

  /**
   * The result once the starting phase left the picker at `t` with rows
   * `startingRows`, budget `remaining` and reasons `reasons1`: a squad short
   * of the quota (or not 15 rows) gives SquadFailed with both loops'
   * reasons; otherwise the squad is assembled from both phases' rows.
   */
  ghost function BenchResult(buckets: PerPosition<seq<Candidate>>, gw: int, candidatesCount: Quota,
                             budget: int, maxPerTeam: int, t: Tally, startingRows: seq<Candidate>, remaining: int,
                             reasons1: seq<string>): SquadResult
  {
    var b := BenchSpec(t, startingRows, remaining, SquadRules, maxPerTeam, buckets);
    var finalRows := startingRows + b.picked;
    var finalHave := PositionCounts(finalRows);
    if !(AtLeast(finalHave, SquadRules) && |finalRows| == 15) then
      SquadFailed(gw, reasons1 + b.reasons, finalHave, budget - b.remaining, b.remaining, b.t.teamCounts, candidatesCount)
    else
      AssembledSquad(gw, startingRows, b.picked, budget - b.remaining, b.remaining, b.t.teamCounts, finalHave)
  }

  /** A starting XI short of the formation is the result of the phases. */
  lemma StartingFailedIsPhasesResult(result: SquadResult, buckets: PerPosition<seq<Candidate>>, gw: int, candidatesCount: Quota,
                                     budget: int, maxPerTeam: int, t: Tally, startingRows: seq<Candidate>, remaining: int,
                                     reasons1: seq<string>)
    requires PhaseState(t, startingRows, remaining, reasons1) == StartingSpec(buckets, budget, maxPerTeam, SquadRules, StartingFormation)
    requires !AtLeast(PositionCounts(startingRows), StartingFormation)
    requires result == StartingFailed(gw, reasons1, PositionCounts(startingRows), budget - remaining, remaining, t.teamCounts, candidatesCount)
    ensures result == PhasesResult(buckets, gw, candidatesCount, budget, maxPerTeam)
  {
  }

  /** After a starting XI that meets the formation, the bench phase's outcome is the result of the phases. */
  lemma BenchResultIsPhasesResult(result: SquadResult, buckets: PerPosition<seq<Candidate>>, gw: int, candidatesCount: Quota,
                                  budget: int, maxPerTeam: int, t: Tally, startingRows: seq<Candidate>, remaining: int,
                                  reasons1: seq<string>)
    requires PhaseState(t, startingRows, remaining, reasons1) == StartingSpec(buckets, budget, maxPerTeam, SquadRules, StartingFormation)
    requires AtLeast(PositionCounts(startingRows), StartingFormation)
    requires result == BenchResult(buckets, gw, candidatesCount, budget, maxPerTeam, t, startingRows, remaining, reasons1)
    ensures result == PhasesResult(buckets, gw, candidatesCount, budget, maxPerTeam)
  {
  }

  /** The final check's two outcomes are BenchResult's. */
  lemma FinalCheckIsBenchResult(result: SquadResult, buckets: PerPosition<seq<Candidate>>, gw: int, candidatesCount: Quota,
                                budget: int, maxPerTeam: int, t1: Tally, t: Tally, startingRows: seq<Candidate>, remaining: int,
                                reasons1: seq<string>, benchRows: seq<Candidate>, remaining2: int, reasons2: seq<string>)
    requires PhaseState(t, benchRows, remaining2, reasons2) == BenchSpec(t1, startingRows, remaining, SquadRules, maxPerTeam, buckets)
    requires var finalRows := startingRows + benchRows;
      if !(AtLeast(PositionCounts(finalRows), SquadRules) && |finalRows| == 15) then
        result == SquadFailed(gw, reasons1 + reasons2, PositionCounts(finalRows), budget - remaining2, remaining2, t.teamCounts, candidatesCount)
      else
        Assembled(result, gw, startingRows, benchRows, budget - remaining2, remaining2, t.teamCounts, PositionCounts(finalRows))
    ensures result == BenchResult(buckets, gw, candidatesCount, budget, maxPerTeam, t1, startingRows, remaining, reasons1)
  {
    var finalRows := startingRows + benchRows;
    if AtLeast(PositionCounts(finalRows), SquadRules) && |finalRows| == 15 {
      AssembledUnique(result, gw, startingRows, benchRows, budget - remaining2, remaining2, t.teamCounts, PositionCounts(finalRows));
    }
  }

  /** A starting XI that fails the check comes with the starting loop's reason for stopping. */
  lemma StartingFailureExplained(t: Tally, rows: seq<Candidate>, remaining: int, reasons: seq<string>,
                                 budget: int, maxPerTeam: int, buckets: PerPosition<seq<Candidate>>)
    requires InPhase(t, [], rows, remaining, budget, Limits(maxPerTeam, SquadRules, Some(StartingFormation), buckets))
    requires PhaseState(t, rows, remaining, reasons) == StartingSpec(buckets, budget, maxPerTeam, SquadRules, StartingFormation)
    requires !AtLeast(PositionCounts(rows), StartingFormation)
    ensures StoppedWithReason(reasons, StartingGuardMessage, StartingStuckMessage)
  {
    var lim := Limits(maxPerTeam, SquadRules, Some(StartingFormation), buckets);
    StartingLoopStops(PhaseState(Tally({}, map[], map[], map[]), [], budget, []), 0, 0, lim);
    assert [] + rows == rows;
    assert Get(t.startingHave, GKP) == |Bucket(rows, GKP)| && Get(t.startingHave, DEF) == |Bucket(rows, DEF)|;
    assert Get(t.startingHave, MID) == |Bucket(rows, MID)| && Get(t.startingHave, FWD) == |Bucket(rows, FWD)|;
  }

  /** A squad that fails the final check comes with the bench loop's reason for stopping. */
  lemma SquadFailureExplained(t0: Tally, t: Tally, startingRows: seq<Candidate>, benchRows: seq<Candidate>,
                              remaining: int, remaining2: int, reasons: seq<string>, maxPerTeam: int,
                              buckets: PerPosition<seq<Candidate>>)
    requires InPhase(t, startingRows, benchRows, remaining2, remaining, Limits(maxPerTeam, SquadRules, None, buckets))
    requires PhaseState(t, benchRows, remaining2, reasons) == BenchSpec(t0, startingRows, remaining, SquadRules, maxPerTeam, buckets)
    requires !(AtLeast(PositionCounts(startingRows + benchRows), SquadRules) && |startingRows + benchRows| == 15)
    ensures StoppedWithReason(reasons, BenchGuardMessage, BenchStuckMessage)
  {
    var rows := startingRows + benchRows;
    var lim := Limits(maxPerTeam, SquadRules, None, buckets);
    LengthCheckRedundant(rows, PositionCounts(rows));
    BenchLoopStops(PhaseState(t0.(selected := Ids(startingRows), startingHave := map[]), [], remaining, []), 0, lim);
    assert Get(t.totalHave, GKP) == |Bucket(rows, GKP)| && Get(t.totalHave, DEF) == |Bucket(rows, DEF)|;
    assert Get(t.totalHave, MID) == |Bucket(rows, MID)| && Get(t.totalHave, FWD) == |Bucket(rows, FWD)|;
  }

  /** Reasons gathered before a phase's own do not hide the reason it stopped. */
  lemma StoppedWithReasonAfter(before: seq<string>, reasons: seq<string>, guardMessage: string, stuckMessage: string)
    requires StoppedWithReason(reasons, guardMessage, stuckMessage)
    ensures StoppedWithReason(before + reasons, guardMessage, stuckMessage)
  {
    assert (before + reasons)[|before + reasons| - 1] == reasons[|reasons| - 1];
  }

  /**
   * The two phases and the checks after them, for a target gameweek whose
   * buckets pass the raw-count quick fail.
   */
  method BuildSquad(joined: seq<Candidate>, gw: int, modelName: string, status: Option<string>,
                    maxCost: Option<int>, minPoints: Option<real>, buckets: PerPosition<seq<Candidate>>,
                    candidatesCount: Quota, budget: int, maxPerTeam: int)
    returns (result: SquadResult)
    requires buckets == BuildCandidateBuckets(BaseCandidates(joined, gw, modelName, status, maxCost, minPoints))
    requires budget >= 0 && maxPerTeam >= 0
    ensures result.StartingFailed? || result.SquadFailed? || result.Squad?
    ensures result.targetGw == gw
    ensures !result.Squad? ==> result.candidatesCount == candidatesCount
    ensures result.StartingFailed? ==> exists p: Position :: result.startingHave.Get(p) < StartingFormation.Get(p)
    ensures result.SquadFailed? ==> exists p: Position :: result.haveByPosition.Get(p) < SquadRules.Get(p)
    ensures result.Squad? ==> ValidSquad(result, joined, gw, modelName, status, maxCost, minPoints, budget, maxPerTeam)
    ensures result == PhasesResult(buckets, gw, candidatesCount, budget, maxPerTeam)
    ensures result.StartingFailed? ==> StoppedWithReason(result.reasons, StartingGuardMessage, StartingStuckMessage)
    ensures result.SquadFailed? ==> StoppedWithReason(result.reasons, BenchGuardMessage, BenchStuckMessage)
  {
    var startingRows, remaining, st, reasons1 := PickStartingXi(buckets, budget, maxPerTeam, SquadRules, StartingFormation);

    var startingHave := CountByPosition(startingRows);
    if !AtLeast(startingHave, StartingFormation) {
      ShortAt(startingHave, StartingFormation);
      StartingFailureExplained(st.Snapshot(), startingRows, remaining, reasons1, budget, maxPerTeam, buckets);
      result := StartingFailed(gw, reasons1, startingHave, budget - remaining, remaining, st.teamCounts, candidatesCount);
      StartingFailedIsPhasesResult(result, buckets, gw, candidatesCount, budget, maxPerTeam, st.Snapshot(),
                                   startingRows, remaining, reasons1);
      return;
    }
    StartingPhaseChecked(st.Snapshot(), startingRows, remaining, budget, maxPerTeam, buckets, startingHave);
    ghost var t1 := st.Snapshot();
    result := CompleteSquad(joined, gw, modelName, status, maxCost, minPoints, buckets, candidatesCount, budget, maxPerTeam,
                            st, startingRows, remaining, reasons1);
    BenchResultIsPhasesResult(result, buckets, gw, candidatesCount, budget, maxPerTeam, t1, startingRows, remaining, reasons1);
  }

  /** The bench phase, the final check and the output section, after a starting XI that passed its check. */
  method CompleteSquad(joined: seq<Candidate>, gw: int, modelName: string, status: Option<string>,
                       maxCost: Option<int>, minPoints: Option<real>, buckets: PerPosition<seq<Candidate>>,
                       candidatesCount: Quota, budget: int, maxPerTeam: int,
                       st: Picker, startingRows: seq<Candidate>, remaining: int, reasons1: seq<string>)
    returns (result: SquadResult)
    requires buckets == BuildCandidateBuckets(BaseCandidates(joined, gw, modelName, status, maxCost, minPoints))
    requires Consistent(st.Snapshot(), startingRows, Limits(maxPerTeam, SquadRules, None, buckets))
    requires StartingDone(startingRows, remaining, budget, buckets)
    modifies st
    ensures result.SquadFailed? || result.Squad?
    ensures result.targetGw == gw
    ensures !result.Squad? ==> result.candidatesCount == candidatesCount
    ensures result.SquadFailed? ==> exists p: Position :: result.haveByPosition.Get(p) < SquadRules.Get(p)
    ensures result.Squad? ==> ValidSquad(result, joined, gw, modelName, status, maxCost, minPoints, budget, maxPerTeam)
    ensures result == BenchResult(buckets, gw, candidatesCount, budget, maxPerTeam, old(st.Snapshot()), startingRows, remaining, reasons1)
    ensures result.SquadFailed? ==> StoppedWithReason(result.reasons, BenchGuardMessage, BenchStuckMessage)
  {
    ghost var t1 := st.Snapshot();
    var benchRows, remaining2, reasons2 := PickBench(st, buckets, startingRows, remaining, SquadRules, maxPerTeam);
    result := FinalCheck(joined, gw, modelName, status, maxCost, minPoints, buckets, candidatesCount, budget, maxPerTeam,
                         st.Snapshot(), st.teamCounts, startingRows, remaining, reasons1, benchRows, remaining2, reasons2);
    FinalCheckIsBenchResult(result, buckets, gw, candidatesCount, budget, maxPerTeam, t1, st.Snapshot(), startingRows, remaining,
                            reasons1, benchRows, remaining2, reasons2);
    if result.SquadFailed? {
      SquadFailureExplained(t1, st.Snapshot(), startingRows, benchRows, remaining, remaining2, reasons2, maxPerTeam, buckets);
      StoppedWithReasonAfter(reasons1, reasons2, BenchGuardMessage, BenchStuckMessage);
    }
  }

  /** The final squad check of recommend_squad and its output section, once both phases are done. */
  method FinalCheck(joined: seq<Candidate>, gw: int, modelName: string, status: Option<string>,
                    maxCost: Option<int>, minPoints: Option<real>, buckets: PerPosition<seq<Candidate>>,
                    candidatesCount: Quota, budget: int, maxPerTeam: int,
                    ghost t: Tally, teamCounts: map<int, int>,
                    startingRows: seq<Candidate>, remaining: int, reasons1: seq<string>,
                    benchRows: seq<Candidate>, remaining2: int, reasons2: seq<string>)
    returns (result: SquadResult)
    requires buckets == BuildCandidateBuckets(BaseCandidates(joined, gw, modelName, status, maxCost, minPoints))
    requires StartingDone(startingRows, remaining, budget, buckets)
    requires InPhase(t, startingRows, benchRows, remaining2, remaining, Limits(maxPerTeam, SquadRules, None, buckets))
    requires teamCounts == t.teamCounts
    ensures var finalRows := startingRows + benchRows;
      if !(AtLeast(PositionCounts(finalRows), SquadRules) && |finalRows| == 15) then
        result == SquadFailed(gw, reasons1 + reasons2, PositionCounts(finalRows), budget - remaining2, remaining2, teamCounts, candidatesCount)
      else
        Assembled(result, gw, startingRows, benchRows, budget - remaining2, remaining2, teamCounts, PositionCounts(finalRows))
    ensures result.SquadFailed? ==> exists p: Position :: result.haveByPosition.Get(p) < SquadRules.Get(p)
    ensures result.Squad? ==> ValidSquad(result, joined, gw, modelName, status, maxCost, minPoints, budget, maxPerTeam)
  {
    var finalRows := startingRows + benchRows;
    var finalHave := CountByPosition(finalRows);
    if !(AtLeast(finalHave, SquadRules) && |finalRows| == 15) {
      FinalCheckFails(t, startingRows, benchRows, remaining2, remaining, Limits(maxPerTeam, SquadRules, None, buckets), finalHave);
      return SquadFailed(gw, reasons1 + reasons2, finalHave, budget - remaining2, remaining2, teamCounts, candidatesCount);
    }

    result := FinishSquad(joined, gw, modelName, status, maxCost, minPoints, buckets, budget, maxPerTeam,
                          t, teamCounts, startingRows, remaining, benchRows, remaining2, finalHave);
  }

  /** The output section of recommend_squad for a squad that passed the final check. */
  method FinishSquad(joined: seq<Candidate>, gw: int, modelName: string, status: Option<string>,
                     maxCost: Option<int>, minPoints: Option<real>, buckets: PerPosition<seq<Candidate>>,
                     budget: int, maxPerTeam: int, ghost t: Tally, teamCounts: map<int, int>,
                     startingRows: seq<Candidate>, remaining: int, benchRows: seq<Candidate>, remaining2: int,
                     finalHave: Quota)
    returns (result: SquadResult)
    requires buckets == BuildCandidateBuckets(BaseCandidates(joined, gw, modelName, status, maxCost, minPoints))
    requires StartingDone(startingRows, remaining, budget, buckets)
    requires InPhase(t, startingRows, benchRows, remaining2, remaining, Limits(maxPerTeam, SquadRules, None, buckets))
    requires teamCounts == t.teamCounts
    requires finalHave == PositionCounts(startingRows + benchRows)
    requires AtLeast(finalHave, SquadRules)
    ensures Assembled(result, gw, startingRows, benchRows, budget - remaining2, remaining2, teamCounts, finalHave)
    ensures ValidSquad(result, joined, gw, modelName, status, maxCost, minPoints, budget, maxPerTeam)
  {
    result := AssembleSquad(gw, startingRows, benchRows, budget - remaining2, remaining2, teamCounts, finalHave);
    SquadFromPhases(joined, gw, modelName, status, maxCost, minPoints, buckets, budget, maxPerTeam,
                    t, startingRows, benchRows, remaining, remaining2, finalHave, result);
  }

  /**
   * recommend_squad.  `joined` is the prediction/player/team join in the
   * order the database returns it; `budget` is `budget_m` in tenths.
   */
  method RecommendSquad(gameweeks: map<int, GameweekRow>, joined: seq<Candidate>, targetGw: Option<int>,
                        modelName: string, status: string, maxCost: Option<int>, minPoints: Option<real>,
                        budget: int, maxPerTeam: int)
    returns (result: SquadResult)
    requires 500 <= budget <= 2000
    requires 1 <= maxPerTeam <= 3
    ensures result.NoTargetGw? <==> DecideTargetGw(gameweeks, targetGw).Err?
    ensures result.NoTargetGw? ==> result.error == NoNextGameweekError
    ensures !result.NoTargetGw? ==>
      var gw := DecideTargetGw(gameweeks, targetGw).value;
      var rows := BaseCandidates(joined, gw, modelName, EffectiveStatus(status), maxCost, minPoints);
      && result.targetGw == gw
      && (!result.Squad? ==> forall p: Position :: result.candidatesCount.Get(p) == |Bucket(rows, p)|)
      && (result.NotEnoughCandidates? <==> exists p: Position :: |Bucket(rows, p)| < SquadRules.Get(p))
    ensures result.NotEnoughCandidates? ==>
      && (forall p: Position :: Shortfall(p, SquadRules.Get(p), result.candidatesCount.Get(p)) in result.missing
                               <==> result.candidatesCount.Get(p) < SquadRules.Get(p))
      && (forall m :: m in result.missing ==> m == Shortfall(m.pos, SquadRules.Get(m.pos), result.candidatesCount.Get(m.pos)))
      && (forall i, j :: 0 <= i < j < |result.missing| ==> Rank(result.missing[i].pos) < Rank(result.missing[j].pos))
    ensures result.StartingFailed? ==> exists p: Position :: result.startingHave.Get(p) < StartingFormation.Get(p)
    ensures result.SquadFailed? ==> exists p: Position :: result.haveByPosition.Get(p) < SquadRules.Get(p)
    ensures result.Squad? ==>
      ValidSquad(result, joined, DecideTargetGw(gameweeks, targetGw).value, modelName, EffectiveStatus(status),
                 maxCost, minPoints, budget, maxPerTeam)
    ensures !result.NoTargetGw? && !result.NotEnoughCandidates? ==>
      var gw := DecideTargetGw(gameweeks, targetGw).value;
      var buckets := BuildCandidateBuckets(BaseCandidates(joined, gw, modelName, EffectiveStatus(status), maxCost, minPoints));
      result == PhasesResult(buckets, gw, CandidatesCount(buckets), budget, maxPerTeam)
    ensures result.StartingFailed? ==> StoppedWithReason(result.reasons, StartingGuardMessage, StartingStuckMessage)
    ensures result.SquadFailed? ==> StoppedWithReason(result.reasons, BenchGuardMessage, BenchStuckMessage)
  {
    var decided := DecideTargetGw(gameweeks, targetGw);
    if decided.Err? {
      return NoTargetGw(decided.error);
    }
    var gw := decided.value;
    var effectiveStatus := EffectiveStatus(status);

    var rows := BaseCandidates(joined, gw, modelName, effectiveStatus, maxCost, minPoints);
    var buckets := GroupByPosition(rows);
    var candidatesCount := CandidatesCount(buckets);

    var missing := MissingByPosition(candidatesCount);
    if |missing| > 0 {
      var m := missing[0];
      assert m in missing;
      return NotEnoughCandidates(gw, missing, candidatesCount);
    }
    result := BuildSquad(joined, gw, modelName, effectiveStatus, maxCost, minPoints, buckets, candidatesCount, budget, maxPerTeam);
  }
}
