/**
 * Candidate rows of the squad builder (recommendations.py): the squad rules,
 * the query filter, cost and value, position buckets and the two bucket orderings.
 *
 * Costs are kept in FPL's integer tenths (`now_cost`, 80 means 8.0m);
 * predicted points are reals.
 */
module Candidates {
  import opened Wrappers
  import opened Ordering

  datatype Position = GKP | DEF | MID | FWD

  function PositionName(p: Position): string
  {
    match p
    case GKP => "GKP"
    case DEF => "DEF"
    case MID => "MID"
    case FWD => "FWD"
  }

  /** `pos in buckets`: the position strings the builder recognises. */
  function ParsePosition(s: string): (r: Option<Position>)
    ensures r.Some? ==> PositionName(r.value) == s
    ensures r.None? ==> forall p: Position :: PositionName(p) != s
  {
    if s == "GKP" then Some(GKP)
    else if s == "DEF" then Some(DEF)
    else if s == "MID" then Some(MID)
    else if s == "FWD" then Some(FWD)
    else None
  }

  /** A dict with exactly the four position keys. */
  datatype PerPosition<T> = PerPosition(gkp: T, def: T, mid: T, fwd: T)
  {
    function Get(p: Position): T
    {
      match p
      case GKP => gkp
      case DEF => def
      case MID => mid
      case FWD => fwd
    }
  }

  type Quota = PerPosition<int>

  /** SQUAD_RULES: 2 GKP, 5 DEF, 5 MID, 3 FWD. */
  const SquadRules: Quota := PerPosition(2, 5, 5, 3)

  /** STARTING_FORMATION: 1 GKP, 3 DEF, 4 MID, 3 FWD (3-4-3). */
  const StartingFormation: Quota := PerPosition(1, 3, 4, 3)

  /** POSITION_CYCLE, the order in which the starting XI is filled. */
  const PositionCycle: seq<Position> := [FWD, MID, DEF, GKP]

  /** The key order of SQUAD_RULES and of the bucket dicts. */
  const BucketOrder: seq<Position> := [GKP, DEF, MID, FWD]

  lemma BucketOrderComplete(p: Position)
    ensures p in BucketOrder && p in PositionCycle
  {
  }

  /** One row of the candidates query: a prediction joined with its player and the player's team. */
  datatype Candidate = Candidate(
    predictionId: int,
    targetGw: int,
    modelName: string,
    predictedPoints: real,
    playerId: int,
    position: string,
    nowCost: int,
    status: string,
    teamId: int)

  // ---------------------------------------------------------------------------
  // _base_candidates_query as a filter
  // ---------------------------------------------------------------------------

  predicate MatchesQuery(r: Candidate, targetGw: int, modelName: string,
                         status: Option<string>, maxCost: Option<int>, minPoints: Option<real>)
  {
    && r.targetGw == targetGw
    && r.modelName == modelName
    && (status.Some? ==> r.status == status.value)
    && (maxCost.Some? ==> r.nowCost <= maxCost.value)
    && (minPoints.Some? ==> r.predictedPoints >= minPoints.value)
  }

  /** The rows of the prediction/player/team join that the query keeps, in join order. */
  function BaseCandidates(joined: seq<Candidate>, targetGw: int, modelName: string,
                          status: Option<string>, maxCost: Option<int>, minPoints: Option<real>): (r: seq<Candidate>)
    ensures |r| <= |joined|
    ensures forall c :: c in r <==> c in joined && MatchesQuery(c, targetGw, modelName, status, maxCost, minPoints)
  {
    if joined == [] then []
    else
      var last := joined[|joined| - 1];
      var front := BaseCandidates(joined[..|joined| - 1], targetGw, modelName, status, maxCost, minPoints);
      assert joined == joined[..|joined| - 1] + [last];
      front + (if MatchesQuery(last, targetGw, modelName, status, maxCost, minPoints) then [last] else [])
  }

  // ---------------------------------------------------------------------------
  // Cost and value
  // ---------------------------------------------------------------------------

  /** _calc_cost_m: price in millions. */
  function CostM(nowCost: int): real
  {
    nowCost as real / 10.0
  }

  /** The divisor _calc_value uses: the cost when it is positive, 0.1 otherwise. */
  function ValueDenominator(costM: real): (d: real)
    ensures d > 0.0
    ensures costM > 0.0 ==> d == costM
  {
    if costM > 0.0 then costM else 0.1
  }

  /** _calc_value: points per million; a free or negative price counts as 0.1m. */
  function CalcValue(points: real, costM: real): (v: real)
    ensures costM > 0.0 ==> v * costM == points
    ensures costM <= 0.0 ==> v == 10.0 * points
  {
    points / ValueDenominator(costM)
  }

  lemma {:induction false} ValueOfTenths(points: real, nowCost: int)
    requires nowCost > 0
    ensures CalcValue(points, CostM(nowCost)) * (nowCost as real) == 10.0 * points
  {
    var c := CostM(nowCost);
    assert c > 0.0;
    var v := CalcValue(points, c);
    assert v * c == points;
    assert c * 10.0 == nowCost as real;
    calc {
      v * (nowCost as real);
      v * (c * 10.0);
      (v * c) * 10.0;
    }
  }

  // ---------------------------------------------------------------------------
  // _build_candidate_buckets / _group_by_position
  // ---------------------------------------------------------------------------

  function Bucket(rows: seq<Candidate>, p: Position): seq<Candidate>
  {
    if rows == [] then []
    else
      var last := rows[|rows| - 1];
      Bucket(rows[..|rows| - 1], p) + (if last.position == PositionName(p) then [last] else [])
  }

  /** Every row of a bucket has that bucket's position. */
  ghost predicate WellBucketed(buckets: PerPosition<seq<Candidate>>)
  {
    forall p: Position, r :: r in buckets.Get(p) ==> r.position == PositionName(p)
  }

  function BuildCandidateBuckets(rows: seq<Candidate>): (b: PerPosition<seq<Candidate>>)
    ensures WellBucketed(b)
    ensures forall p: Position :: b.Get(p) == Bucket(rows, p)
  {
    BucketPositions(rows, GKP);
    BucketPositions(rows, DEF);
    BucketPositions(rows, MID);
    BucketPositions(rows, FWD);
    PerPosition(Bucket(rows, GKP), Bucket(rows, DEF), Bucket(rows, MID), Bucket(rows, FWD))
  }

  /** _build_candidate_buckets and _group_by_position: one pass appending each row to its position's list. */
  method GroupByPosition(rows: seq<Candidate>) returns (b: PerPosition<seq<Candidate>>)
    ensures b == BuildCandidateBuckets(rows)
  {
    b := PerPosition([], [], [], []);
    assert rows[..0] == [];
    for i := 0 to |rows|
      invariant forall p: Position :: b.Get(p) == Bucket(rows[..i], p)
    {
      var r := rows[i];
      assert rows[..i + 1][..i] == rows[..i];
      match ParsePosition(r.position)
      case Some(GKP) => b := b.(gkp := b.gkp + [r]);
      case Some(DEF) => b := b.(def := b.def + [r]);
      case Some(MID) => b := b.(mid := b.mid + [r]);
      case Some(FWD) => b := b.(fwd := b.fwd + [r]);
      case None =>
    }
    assert rows[..|rows|] == rows;
    assert forall p: Position :: b.Get(p) == Bucket(rows, p);
  }

  lemma {:induction false} BucketPositions(rows: seq<Candidate>, p: Position)
    ensures forall r :: r in Bucket(rows, p) ==> r in rows && r.position == PositionName(p)
  {
    if rows != [] {
      BucketPositions(rows[..|rows| - 1], p);
    }
  }

  /** A bucket holds exactly the rows of its position, each as often as in the input. */
  lemma {:induction false} BucketContents(rows: seq<Candidate>, p: Position, x: Candidate)
    ensures multiset(Bucket(rows, p))[x] == if x.position == PositionName(p) then multiset(rows)[x] else 0
  {
    if rows != [] {
      var front := rows[..|rows| - 1];
      assert rows == front + [rows[|rows| - 1]];
      BucketContents(front, p, x);
    }
  }

  /** Bucketing keeps input order: it distributes over concatenation. */
  lemma {:induction false} BucketAppend(a: seq<Candidate>, b: seq<Candidate>, p: Position)
    ensures Bucket(a + b, p) == Bucket(a, p) + Bucket(b, p)
    decreases |b|
  {
    if b == [] {
      assert a + b == a;
    } else {
      var front := b[..|b| - 1];
      assert (a + b)[..|a + b| - 1] == a + front;
      BucketAppend(a, front, p);
    }
  }

  /** The rows whose position is not one of the four. */
  function Unrecognised(rows: seq<Candidate>): seq<Candidate>
  {
    if rows == [] then []
    else
      var last := rows[|rows| - 1];
      Unrecognised(rows[..|rows| - 1]) + (if ParsePosition(last.position).None? then [last] else [])
  }

  /** Every row lands in exactly one bucket, except the unrecognised ones, which are dropped. */
  lemma {:induction false} BucketSizes(rows: seq<Candidate>)
    ensures |Bucket(rows, GKP)| + |Bucket(rows, DEF)| + |Bucket(rows, MID)| + |Bucket(rows, FWD)|
            + |Unrecognised(rows)| == |rows|
  {
    if rows != [] {
      BucketSizes(rows[..|rows| - 1]);
    }
  }

  // ---------------------------------------------------------------------------
  // _sort_bucket
  // ---------------------------------------------------------------------------

  datatype OrderBy = Points | Value

  /** Sort key of "points": (points, -now_cost, -team id, -player id), taken in reverse. */
  function PointsKey(r: Candidate): seq<real>
  {
    [r.predictedPoints, -(r.nowCost as real), -(r.teamId as real), -(r.playerId as real)]
  }

  function RowValue(r: Candidate): real
  {
    CalcValue(r.predictedPoints, CostM(r.nowCost))
  }

  /** Sort key of "value": (value, points), taken in reverse. */
  function ValueKey(r: Candidate): seq<real>
  {
    [RowValue(r), r.predictedPoints]
  }

  function SortKey(order: OrderBy): Candidate -> seq<real>
  {
    match order
    case Points => PointsKey
    case Value => ValueKey
  }

  function SortBucket(bucket: seq<Candidate>, order: OrderBy): seq<Candidate>
  {
    SortDesc(bucket, SortKey(order))
  }

  /** `a` may precede `b` in the "points" order: more points, then cheaper, then lower team id, then lower player id. */
  predicate PointsFirst(a: Candidate, b: Candidate)
  {
    || a.predictedPoints > b.predictedPoints
    || (a.predictedPoints == b.predictedPoints &&
        (|| a.nowCost < b.nowCost
         || (a.nowCost == b.nowCost &&
             (|| a.teamId < b.teamId
              || (a.teamId == b.teamId && a.playerId <= b.playerId)))))
  }

  /** `a` may precede `b` in the "value" order: higher value, then more points. */
  predicate ValueFirst(a: Candidate, b: Candidate)
  {
    RowValue(a) > RowValue(b) || (RowValue(a) == RowValue(b) && a.predictedPoints >= b.predictedPoints)
  }

  lemma PointsKeyOrder(a: Candidate, b: Candidate)
    requires !LexGreater(PointsKey(b), PointsKey(a))
    ensures PointsFirst(a, b)
  {
    var ka, kb := PointsKey(a), PointsKey(b);
    assert ka[1..] == [-(a.nowCost as real), -(a.teamId as real), -(a.playerId as real)];
    assert kb[1..] == [-(b.nowCost as real), -(b.teamId as real), -(b.playerId as real)];
    assert ka[1..][1..] == [-(a.teamId as real), -(a.playerId as real)];
    assert kb[1..][1..] == [-(b.teamId as real), -(b.playerId as real)];
    assert ka[1..][1..][1..] == [-(a.playerId as real)];
    assert kb[1..][1..][1..] == [-(b.playerId as real)];
    assert ka[1..][1..][1..][1..] == [];
    if a.predictedPoints == b.predictedPoints {
      assert !LexGreater(kb[1..], ka[1..]);
      if a.nowCost == b.nowCost {
        assert !LexGreater(kb[1..][1..], ka[1..][1..]);
        if a.teamId == b.teamId {
          assert !LexGreater(kb[1..][1..][1..], ka[1..][1..][1..]);
        }
      }
    }
  }

  lemma ValueKeyOrder(a: Candidate, b: Candidate)
    requires !LexGreater(ValueKey(b), ValueKey(a))
    ensures ValueFirst(a, b)
  {
    var ka, kb := ValueKey(a), ValueKey(b);
    assert ka[1..] == [a.predictedPoints];
    assert kb[1..] == [b.predictedPoints];
    assert ka[1..][1..] == [];
  }

  /**
   * _sort_bucket returns a permutation of the bucket ordered as the source
   * promises: by points with the three tie-breaks, or by value then points.
   */
  lemma SortBucketOrder(bucket: seq<Candidate>, order: OrderBy)
    ensures multiset(SortBucket(bucket, order)) == multiset(bucket)
    ensures var r := SortBucket(bucket, order);
      forall i, j :: 0 <= i < j < |r| ==>
        if order == Points then PointsFirst(r[i], r[j]) else ValueFirst(r[i], r[j])
  {
    var r := SortBucket(bucket, order);
    forall i, j | 0 <= i < j < |r|
      ensures if order == Points then PointsFirst(r[i], r[j]) else ValueFirst(r[i], r[j])
    {
      if order == Points {
        PointsKeyOrder(r[i], r[j]);
      } else {
        ValueKeyOrder(r[i], r[j]);
      }
    }
  }

  /** Python's sort is stable: rows with equal keys keep their bucket order. */
  lemma SortBucketStable(bucket: seq<Candidate>, order: OrderBy, k: seq<real>)
    ensures WithKey(SortBucket(bucket, order), SortKey(order), k) == WithKey(bucket, SortKey(order), k)
  {
    SortDescStable(bucket, SortKey(order), k);
  }

  /** Sorting a well-bucketed bucket keeps it well bucketed. */
  lemma SortedBucketsWellBucketed(buckets: PerPosition<seq<Candidate>>, order: OrderBy)
    requires WellBucketed(buckets)
    ensures WellBucketed(SortBuckets(buckets, order))
  {
    forall p: Position, r | r in SortBuckets(buckets, order).Get(p)
      ensures r.position == PositionName(p)
    {
      assert r in multiset(SortBucket(buckets.Get(p), order));
    }
  }

  /** `{p: _sort_bucket(buckets[p], order) for p in buckets}` */
  function SortBuckets(buckets: PerPosition<seq<Candidate>>, order: OrderBy): (r: PerPosition<seq<Candidate>>)
    ensures forall p: Position :: r.Get(p) == SortBucket(buckets.Get(p), order)
  {
    var r := PerPosition(SortBucket(buckets.gkp, order), SortBucket(buckets.def, order),
                         SortBucket(buckets.mid, order), SortBucket(buckets.fwd, order));
    assert forall p: Position :: r.Get(p) == SortBucket(buckets.Get(p), order) by {
      forall p: Position ensures r.Get(p) == SortBucket(buckets.Get(p), order) {
        if p == GKP {
          assert r.Get(p) == r.gkp;
        } else if p == DEF {
          assert r.Get(p) == r.def;
        } else if p == MID {
          assert r.Get(p) == r.mid;
        } else {
          assert r.Get(p) == r.fwd;
        }
      }
    }
    r
  }
}
