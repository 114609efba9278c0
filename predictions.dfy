/**
 * The baseline predictor (predictions.py): POST /predictions/baseline/run
 * averages each player's points over the last finished gameweeks and upserts
 * them as predictions; GET /predictions lists one gameweek's predictions,
 * best first, a page at a time.
 */
module Predictions {
  import opened Wrappers
  import opened Ordering
  import opened Store
  import opened Upsert

  const ModelName: string := "baseline_rollavg_v0"
  const NoFinishedGameweeksError: string := "No finished gameweeks found. Ingest gameweeks first."

  // ---------------------------------------------------------------------------
  // The window of finished gameweeks
  // ---------------------------------------------------------------------------

  /**
   * `order_by(gw.desc()).limit(window)` over the finished gameweeks, then
   * `sorted`: the `window` highest finished gameweeks, ascending.
   */
  function FinishedWindow(gws: map<int, GameweekRow>, window: nat): (r: seq<int>)
    ensures |r| == Min(window, |Flagged(gws, Finished)|)
    ensures StrictlyAscending(r)
    ensures forall g :: g in r ==> g in gws && gws[g].isFinished
    ensures forall g, h :: g in gws && gws[g].isFinished && g !in r && h in r ==> g < h
  {
    var asc := SortedSet(Flagged(gws, Finished));
    var start := |asc| - Min(window, |asc|);
    SuffixIsHighest(asc, start);
    asc[start..]
  }

  /** A suffix of a strictly ascending sequence holds the elements above all the others. */
  lemma SuffixIsHighest(asc: seq<int>, start: nat)
    requires StrictlyAscending(asc) && start <= |asc|
    ensures StrictlyAscending(asc[start..])
    ensures forall g, h :: g in asc && g !in asc[start..] && h in asc[start..] ==> g < h
  {
    var r := asc[start..];
    forall g, h | g in asc && g !in r && h in r ensures g < h {
      var j :| 0 <= j < |asc| && asc[j] == g;
      var k :| 0 <= k < |r| && r[k] == h;
      assert asc[start + k] == h;
      if j >= start {
        assert r[j - start] == g;
      }
    }
  }

  // ---------------------------------------------------------------------------
  // The per-player average
  // ---------------------------------------------------------------------------

  /** The player's summed points over the stat rows of the window's gameweeks. */
  function PointsOver(stats: map<(int, int), StatRow>, pid: int, ws: seq<int>): int
    decreases |ws|
  {
    if ws == [] then 0
    else
      var g := ws[|ws| - 1];
      PointsOver(stats, pid, ws[..|ws| - 1]) + (if (pid, g) in stats then stats[(pid, g)].totalPoints else 0)
  }

  /** How many stat rows the player has in the window's gameweeks. */
  function RowsOver(stats: map<(int, int), StatRow>, pid: int, ws: seq<int>): nat
    decreases |ws|
  {
    if ws == [] then 0
    else
      var g := ws[|ws| - 1];
      RowsOver(stats, pid, ws[..|ws| - 1]) + (if (pid, g) in stats then 1 else 0)
  }

  /** `float(avg(total_points) or 0.0)` for one player over the window. */
  function Average(stats: map<(int, int), StatRow>, pid: int, ws: seq<int>): real
  {
    var n := RowsOver(stats, pid, ws);
    if n == 0 then 0.0 else PointsOver(stats, pid, ws) as real / n as real
  }

  /** The players `group_by(player_id)` yields: those with a stat row in a window gameweek. */
  function WindowPlayers(stats: map<(int, int), StatRow>, ws: seq<int>): (ps: set<int>)
    ensures forall pid :: pid in ps <==> exists g :: g in ws && (pid, g) in stats
  {
    var ps := set k | k in stats && k.1 in ws :: k.0;
    assert forall pid :: pid in ps <==> exists g :: g in ws && (pid, g) in stats by {
      forall pid ensures pid in ps <==> exists g :: g in ws && (pid, g) in stats {
        if pid in ps {
          var k :| k in stats && k.1 in ws && k.0 == pid;
          assert (pid, k.1) == k;
        }
        if exists g :: g in ws && (pid, g) in stats {
          var g :| g in ws && (pid, g) in stats;
          var k := (pid, g);
          assert k in stats && k.1 in ws;
        }
      }
    }
    ps
  }

  lemma {:induction false} RowsOverPositive(stats: map<(int, int), StatRow>, pid: int, ws: seq<int>, g: int)
    requires g in ws && (pid, g) in stats
    ensures RowsOver(stats, pid, ws) > 0
    decreases |ws|
  {
    if ws[|ws| - 1] != g {
      assert g in ws[..|ws| - 1] by {
        var i :| 0 <= i < |ws| && ws[i] == g;
        assert ws[..|ws| - 1][i] == g;
      }
      RowsOverPositive(stats, pid, ws[..|ws| - 1], g);
    }
  }

  lemma {:induction false} PointsOverBounds(stats: map<(int, int), StatRow>, pid: int, ws: seq<int>, lo: int, hi: int)
    requires forall g :: g in ws && (pid, g) in stats ==> lo <= stats[(pid, g)].totalPoints <= hi
    ensures lo * RowsOver(stats, pid, ws) <= PointsOver(stats, pid, ws) <= hi * RowsOver(stats, pid, ws)
    decreases |ws|
  {
    if ws != [] {
      var front := ws[..|ws| - 1];
      assert forall g :: g in front ==> g in ws;
      PointsOverBounds(stats, pid, front, lo, hi);
      var n := RowsOver(stats, pid, front);
      MulSucc(lo, n);
      MulSucc(hi, n);
    }
  }

  lemma MulSucc(a: int, n: nat)
    ensures a * (n + 1) == a * n + a
  {
  }

  /**
   * A predicted player's prediction is a true mean: it lies between the least
   * and the greatest points the player scored in the window.
   */
  lemma AverageBounds(stats: map<(int, int), StatRow>, pid: int, ws: seq<int>, lo: int, hi: int)
    requires pid in WindowPlayers(stats, ws)
    requires forall g :: g in ws && (pid, g) in stats ==> lo <= stats[(pid, g)].totalPoints <= hi
    ensures lo as real <= Average(stats, pid, ws) <= hi as real
  {
    var g :| g in ws && (pid, g) in stats;
    RowsOverPositive(stats, pid, ws, g);
    PointsOverBounds(stats, pid, ws, lo, hi);
    QuotientBounds(PointsOver(stats, pid, ws), RowsOver(stats, pid, ws), lo, hi);
  }

  lemma QuotientBounds(total: int, n: int, lo: int, hi: int)
    requires n > 0 && lo * n <= total <= hi * n
    ensures lo as real <= total as real / n as real <= hi as real
  {
    var q := total as real / n as real;
    assert q * n as real == total as real;
    assert (lo * n) as real == lo as real * n as real && (hi * n) as real == hi as real * n as real;
  }

  // ---------------------------------------------------------------------------
  // The upsert
  // ---------------------------------------------------------------------------

  function PredictionKeyFor(targetGw: int): int -> PredictionKey
  {
    (pid: int) => PredictionKey(pid, targetGw, ModelName)
  }

  /** The prediction of a player: its window average, whatever was stored before. */
  function MakePrediction(stats: map<(int, int), StatRow>, ws: seq<int>): (int, Option<real>, int) -> real
  {
    (pid: int, existing: Option<real>, id: int) => Average(stats, pid, ws)
  }

  /** The upsert loop of run_baseline over the grouped players (taken in ascending player id), every overwrite counting. */
  function BaselineRun(preds: map<PredictionKey, real>, stats: map<(int, int), StatRow>, targetGw: int, ws: seq<int>): State<PredictionKey, real>
  {
    Run(State(preds, 0, 0, 0), SortedSet(WindowPlayers(stats, ws)), PredictionKeyFor(targetGw), MakePrediction(stats, ws), CountEvery)
  }

  /**
   * After the loop every player with a stat row in the window has this
   * model's prediction for the target gameweek, equal to its average.
   */
  lemma BaselinePredicts(preds: map<PredictionKey, real>, stats: map<(int, int), StatRow>, targetGw: int, ws: seq<int>, pid: int)
    requires pid in WindowPlayers(stats, ws)
    ensures var t := BaselineRun(preds, stats, targetGw, ws);
      PredictionKey(pid, targetGw, ModelName) in t.table
      && t.table[PredictionKey(pid, targetGw, ModelName)] == Average(stats, pid, ws)
  {
    var players := SortedSet(WindowPlayers(stats, ws));
    var i :| 0 <= i < |players| && players[i] == pid;
    RunLastWins(State(preds, 0, 0, 0), players, i, PredictionKeyFor(targetGw), MakePrediction(stats, ws), CountEvery);
  }

  /** Every other prediction, of another gameweek, another model or another player, is as it was. */
  lemma BaselineKeepsOthers(preds: map<PredictionKey, real>, stats: map<(int, int), StatRow>, targetGw: int, ws: seq<int>)
    ensures var t := BaselineRun(preds, stats, targetGw, ws);
      forall k :: k in preds && !(k.targetGw == targetGw && k.modelName == ModelName && k.playerId in WindowPlayers(stats, ws))
        ==> k in t.table && t.table[k] == preds[k]
  {
    var players := SortedSet(WindowPlayers(stats, ws));
    RunFrame(State(preds, 0, 0, 0), players, PredictionKeyFor(targetGw), MakePrediction(stats, ws), CountEvery);
  }

  /**
   * `inserted` counts the players that had no prediction and
   * `inserted + updated` is the number of players predicted.
   */
  lemma BaselineCounts(preds: map<PredictionKey, real>, stats: map<(int, int), StatRow>, targetGw: int, ws: seq<int>)
    ensures var t := BaselineRun(preds, stats, targetGw, ws);
      && t.inserted + t.updated == |WindowPlayers(stats, ws)|
      && t.inserted == |t.table.Keys - preds.Keys|
  {
    var s := State(preds, 0, 0, 0);
    var players := SortedSet(WindowPlayers(stats, ws));
    RunCounts(s, players, PredictionKeyFor(targetGw), MakePrediction(stats, ws), CountEvery);
    RunInsertedKeys(s, players, PredictionKeyFor(targetGw), MakePrediction(stats, ws), CountEvery);
  }

  /** What run_baseline returns on success. */
  datatype BaselineReport = BaselineReport(targetGw: int, window: int, usedFinishedGws: seq<int>, modelName: string,
                                           inserted: nat, updated: nat, totalPlayersPredicted: nat)

  /** One iteration of run_baseline's loop: insert the prediction, or overwrite it and count an update. */
  method UpsertPrediction(db: Db, stats: map<(int, int), StatRow>, ws: seq<int>, targetGw: int, pid: int,
                          ghost nextId: int, inserted: nat, updated: nat)
    returns (ghost nextId': int, inserted': nat, updated': nat)
    modifies db
    ensures State(db.predictions, nextId', inserted', updated')
            == Step(State(old(db.predictions), nextId, inserted, updated), pid,
                    PredictionKeyFor(targetGw), MakePrediction(stats, ws), CountEvery)
    ensures db.teams == old(db.teams) && db.players == old(db.players) && db.gwStats == old(db.gwStats)
    ensures db.gameweeks == old(db.gameweeks) && db.nextTeamId == old(db.nextTeamId) && db.nextPlayerId == old(db.nextPlayerId)
  {
    nextId', inserted', updated' := nextId, inserted, updated;
    var key := PredictionKey(pid, targetGw, ModelName);
    var avg := Average(stats, pid, ws);
    if key !in db.predictions {
      db.predictions := db.predictions[key := avg];
      nextId' := nextId' + 1;
      inserted' := inserted' + 1;
    } else {
      db.predictions := db.predictions[key := avg];
      updated' := updated' + 1;
    }
  }

  /** The loop of run_baseline over the grouped players, ascending by player id. */
  method UpsertBaseline(db: Db, targetGw: int, ws: seq<int>) returns (inserted: nat, updated: nat, players: seq<int>)
    modifies db
    ensures var t := BaselineRun(old(db.predictions), old(db.gwStats), targetGw, ws);
      db.predictions == t.table && inserted == t.inserted && updated == t.updated
    ensures players == SortedSet(WindowPlayers(old(db.gwStats), ws))
    ensures db.teams == old(db.teams) && db.players == old(db.players) && db.gwStats == old(db.gwStats)
    ensures db.gameweeks == old(db.gameweeks) && db.nextTeamId == old(db.nextTeamId) && db.nextPlayerId == old(db.nextPlayerId)
  {
    var stats := db.gwStats;
    players := SortedSet(WindowPlayers(stats, ws));
    ghost var s0 := State(db.predictions, 0, 0, 0);
    ghost var nextId := 0;
    inserted, updated := 0, 0;
    for i := 0 to |players|
      invariant State(db.predictions, nextId, inserted, updated)
                == Run(s0, players[..i], PredictionKeyFor(targetGw), MakePrediction(stats, ws), CountEvery)
      invariant db.teams == old(db.teams) && db.players == old(db.players) && db.gwStats == stats
      invariant db.gameweeks == old(db.gameweeks) && db.nextTeamId == old(db.nextTeamId) && db.nextPlayerId == old(db.nextPlayerId)
    {
      RunPrefix(s0, players, i, PredictionKeyFor(targetGw), MakePrediction(stats, ws), CountEvery);
      nextId, inserted, updated := UpsertPrediction(db, stats, ws, targetGw, players[i], nextId, inserted, updated);
    }
    assert players[..|players|] == players;
  }

  /**
   * run_baseline.  An explicit target wins, else the gameweek flagged is_next;
   * with no such gameweek, or no finished gameweek, an error and no change.
   */
  method RunBaseline(db: Db, targetGw: Option<int>, window: int) returns (result: Result<BaselineReport, string>)
    requires 1 <= window <= 10
    modifies db
    ensures DecideTargetGw(old(db.gameweeks), targetGw).Err? ==> result == Err(NoNextGameweekError)
    ensures DecideTargetGw(old(db.gameweeks), targetGw).Ok? && Flagged(old(db.gameweeks), Finished) == {}
            ==> result == Err(NoFinishedGameweeksError)
    ensures result.Ok? <==> DecideTargetGw(old(db.gameweeks), targetGw).Ok? && Flagged(old(db.gameweeks), Finished) != {}
    ensures result.Err? ==> db.predictions == old(db.predictions)
    ensures result.Ok? ==>
      var target := DecideTargetGw(old(db.gameweeks), targetGw).value;
      var ws := FinishedWindow(old(db.gameweeks), window);
      var t := BaselineRun(old(db.predictions), old(db.gwStats), target, ws);
      && Flagged(old(db.gameweeks), Finished) != {}
      && result.value == BaselineReport(target, window, ws, ModelName, t.inserted, t.updated, |WindowPlayers(old(db.gwStats), ws)|)
      && db.predictions == t.table
    ensures db.teams == old(db.teams) && db.players == old(db.players) && db.gwStats == old(db.gwStats)
    ensures db.gameweeks == old(db.gameweeks) && db.nextTeamId == old(db.nextTeamId) && db.nextPlayerId == old(db.nextPlayerId)
  {
    var decided := DecideTargetGw(db.gameweeks, targetGw);
    if decided.Err? {
      return Err(decided.error);
    }
    var target := decided.value;
    var finished := FinishedWindow(db.gameweeks, window);
    if |finished| == 0 {
      return Err(NoFinishedGameweeksError);
    }
    var inserted, updated, players := UpsertBaseline(db, target, finished);
    result := Ok(BaselineReport(target, window, finished, ModelName, inserted, updated, |players|));
  }

  // ---------------------------------------------------------------------------
  // GET /predictions
  // ---------------------------------------------------------------------------

  /** A row of the listing. */
  datatype Listed = Listed(playerId: int, targetGw: int, modelName: string, predictedPoints: real)

  datatype Listing = Listing(total: nat, limit: int, offset: int, rows: seq<Listed>)

  /** `order_by(predicted_points.desc(), player_id.asc())` as a descending key. */
  function ListKey(x: Listed): seq<real>
  {
    [x.predictedPoints, -(x.playerId as real)]
  }

  /** The rows of the target gameweek, in scan order. */
  function ForTarget(scan: seq<Listed>, targetGw: int): (r: seq<Listed>)
    ensures forall x :: x in r <==> x in scan && x.targetGw == targetGw
    ensures |r| <= |scan|
    decreases |scan|
  {
    if scan == [] then []
    else
      var x := scan[|scan| - 1];
      ForTarget(scan[..|scan| - 1], targetGw) + (if x.targetGw == targetGw then [x] else [])
  }

  /** `.offset(offset).limit(limit)` */
  function Page<T>(s: seq<T>, offset: nat, limit: nat): seq<T>
  {
    var lo := Min(offset, |s|);
    var hi := Min(offset + limit, |s|);
    s[lo..hi]
  }

  /**
   * list_predictions over the predictions table given in the order the
   * database reads it, which decides between rows the ORDER BY ties.
   */
  function ListPredictions(scan: seq<Listed>, targetGw: int, limit: int, offset: int): (r: Listing)
    requires 1 <= limit <= 200 && offset >= 0
    ensures r.total == |ForTarget(scan, targetGw)| && r.limit == limit && r.offset == offset
    ensures exists ordered :: multiset(ordered) == multiset(ForTarget(scan, targetGw)) && SortedDesc(ordered, ListKey)
                              && r.rows == Page(ordered, offset, limit)
    ensures |r.rows| == Max(0, Min(limit, r.total - offset))
    ensures forall x :: x in r.rows ==> x in scan && x.targetGw == targetGw
    ensures forall i, j :: 0 <= i < j < |r.rows| ==>
      r.rows[i].predictedPoints > r.rows[j].predictedPoints
      || (r.rows[i].predictedPoints == r.rows[j].predictedPoints && r.rows[i].playerId <= r.rows[j].playerId)
  {
    var matching := ForTarget(scan, targetGw);
    var ordered := SortDesc(matching, ListKey);
    PageOfSorted(matching, ordered, offset, limit);
    PageSorted(ordered, offset, limit);
    Listing(|matching|, limit, offset, Page(ordered, offset, limit))
  }

  lemma PageOfSorted(matching: seq<Listed>, ordered: seq<Listed>, offset: nat, limit: nat)
    requires multiset(ordered) == multiset(matching)
    ensures |Page(ordered, offset, limit)| == Max(0, Min(limit, |matching| - offset))
    ensures forall x :: x in Page(ordered, offset, limit) ==> x in matching
  {
    assert |ordered| == |matching| by {
      assert |multiset(ordered)| == |multiset(matching)|;
    }
    forall x | x in Page(ordered, offset, limit) ensures x in matching {
      assert x in multiset(ordered);
    }
  }

  /** A page of a list sorted by ListKey is ordered by points descending, then player id ascending. */
  lemma PageSorted(ordered: seq<Listed>, offset: nat, limit: nat)
    requires SortedDesc(ordered, ListKey)
    ensures var rows := Page(ordered, offset, limit);
      forall i, j :: 0 <= i < j < |rows| ==>
        rows[i].predictedPoints > rows[j].predictedPoints
        || (rows[i].predictedPoints == rows[j].predictedPoints && rows[i].playerId <= rows[j].playerId)
  {
    var lo := Min(offset, |ordered|);
    var rows := Page(ordered, offset, limit);
    forall i, j | 0 <= i < j < |rows|
      ensures rows[i].predictedPoints > rows[j].predictedPoints
              || (rows[i].predictedPoints == rows[j].predictedPoints && rows[i].playerId <= rows[j].playerId)
    {
      assert rows[i] == ordered[lo + i] && rows[j] == ordered[lo + j];
      var a := ListKey(rows[j]);
      var b := ListKey(rows[i]);
      assert !LexGreater(a, b);
      assert a[1..] == [-(rows[j].playerId as real)] && b[1..] == [-(rows[i].playerId as real)];
      if rows[i].predictedPoints == rows[j].predictedPoints {
        assert !LexGreater(a[1..], b[1..]);
      }
    }
  }

  /** Consecutive pages join up: the page at `offset` followed by the page after it is one longer page. */
  lemma PagesJoin<T>(s: seq<T>, offset: nat, a: nat, b: nat)
    ensures Page(s, offset, a) + Page(s, offset + a, b) == Page(s, offset, a + b)
  {
  }

  /** Two consecutive requests of list_predictions return the rows one request spanning both would. */
  lemma ListingPagesJoin(scan: seq<Listed>, targetGw: int, offset: nat, a: int, b: int)
    requires 1 <= a && 1 <= b && a + b <= 200
    ensures ListPredictions(scan, targetGw, a, offset).rows + ListPredictions(scan, targetGw, b, offset + a).rows
            == ListPredictions(scan, targetGw, a + b, offset).rows
  {
    PagesJoin(SortDesc(ForTarget(scan, targetGw), ListKey), offset, a, b);
  }

  /** `meta.total` counts every row of the target gameweek, whatever the page. */
  lemma TotalIgnoresPaging(scan: seq<Listed>, targetGw: int, limit: int, offset: int, limit': int, offset': int)
    requires 1 <= limit <= 200 && offset >= 0 && 1 <= limit' <= 200 && offset' >= 0
    ensures ListPredictions(scan, targetGw, limit, offset).total == ListPredictions(scan, targetGw, limit', offset').total
  {
  }

  // ---------------------------------------------------------------------------
  // The scan and the table
  // ---------------------------------------------------------------------------

  function KeyOf(x: Listed): PredictionKey
  {
    PredictionKey(x.playerId, x.targetGw, x.modelName)
  }

  /** `scan` lists each prediction of `table` exactly once. */
  ghost predicate ScanOf(scan: seq<Listed>, table: map<PredictionKey, real>)
  {
    && (forall i :: 0 <= i < |scan| ==> KeyOf(scan[i]) in table && table[KeyOf(scan[i])] == scan[i].predictedPoints)
    && (forall k :: k in table ==> exists i :: 0 <= i < |scan| && KeyOf(scan[i]) == k)
    && DistinctListed(scan)
  }

  function KeysFor(table: map<PredictionKey, real>, targetGw: int): set<PredictionKey>
  {
    set k | k in table && k.targetGw == targetGw
  }

  /** No two rows share a key. */
  predicate DistinctListed(xs: seq<Listed>)
  {
    forall i, j :: 0 <= i < j < |xs| ==> KeyOf(xs[i]) != KeyOf(xs[j])
  }

  lemma {:induction false} DistinctKeysCard(xs: seq<Listed>)
    requires DistinctListed(xs)
    ensures |set i | 0 <= i < |xs| :: KeyOf(xs[i])| == |xs|
    decreases |xs|
  {
    if xs != [] {
      var front := xs[..|xs| - 1];
      DistinctKeysCard(front);
      var s := set i | 0 <= i < |xs| :: KeyOf(xs[i]);
      var sf := set i | 0 <= i < |front| :: KeyOf(front[i]);
      var last := KeyOf(xs[|xs| - 1]);
      assert s == sf + {last} by {
        forall k | k in s ensures k in sf + {last} {
          var i :| 0 <= i < |xs| && KeyOf(xs[i]) == k;
          if i < |xs| - 1 {
            assert front[i] == xs[i];
          }
        }
        forall k | k in sf ensures k in s {
          var i :| 0 <= i < |front| && KeyOf(front[i]) == k;
          assert xs[i] == front[i];
        }
      }
      assert last !in sf by {
        forall i | 0 <= i < |front| ensures KeyOf(front[i]) != last {
          assert front[i] == xs[i];
        }
      }
    }
  }

  /** The rows of one gameweek keep the scan's distinct keys, in order. */
  lemma {:induction false} ForTargetDistinct(scan: seq<Listed>, targetGw: int)
    requires DistinctListed(scan)
    ensures DistinctListed(ForTarget(scan, targetGw))
    decreases |scan|
  {
    if scan != [] {
      var front := scan[..|scan| - 1];
      var x := scan[|scan| - 1];
      ForTargetDistinct(front, targetGw);
      var rf := ForTarget(front, targetGw);
      var r := ForTarget(scan, targetGw);
      if x.targetGw == targetGw {
        assert r == rf + [x];
        forall i | 0 <= i < |rf| ensures KeyOf(rf[i]) != KeyOf(x) {
          assert rf[i] in front;
          var n :| 0 <= n < |front| && front[n] == rf[i];
          assert scan[n] == rf[i];
        }
        forall i, j | 0 <= i < j < |r| ensures KeyOf(r[i]) != KeyOf(r[j]) {
          assert |r| == |rf| + 1 && r[i] == rf[i];
          if j < |rf| {
            assert r[j] == rf[j];
            assert KeyOf(rf[i]) != KeyOf(rf[j]);
          } else {
            assert r[j] == x;
            assert KeyOf(rf[i]) != KeyOf(x);
          }
        }
      } else {
        assert r == rf;
      }
    }
  }

  /** The keys of one gameweek's rows in a scan of the table are that gameweek's keys of the table. */
  lemma ForTargetKeys(scan: seq<Listed>, table: map<PredictionKey, real>, targetGw: int)
    requires ScanOf(scan, table)
    ensures var r := ForTarget(scan, targetGw);
      (set i | 0 <= i < |r| :: KeyOf(r[i])) == KeysFor(table, targetGw)
  {
    var r := ForTarget(scan, targetGw);
    var ks := set i | 0 <= i < |r| :: KeyOf(r[i]);
    forall k | k in ks ensures k in KeysFor(table, targetGw) {
      var i :| 0 <= i < |r| && KeyOf(r[i]) == k;
      assert r[i] in scan;
    }
    forall k | k in KeysFor(table, targetGw) ensures k in ks {
      var i :| 0 <= i < |scan| && KeyOf(scan[i]) == k;
      assert scan[i] in r;
      var j :| 0 <= j < |r| && r[j] == scan[i];
    }
  }

  /** Over a scan of the table, the rows of a gameweek are as many as its stored predictions. */
  lemma ForTargetCountsTable(scan: seq<Listed>, table: map<PredictionKey, real>, targetGw: int)
    requires ScanOf(scan, table)
    ensures |ForTarget(scan, targetGw)| == |KeysFor(table, targetGw)|
  {
    ForTargetDistinct(scan, targetGw);
    DistinctKeysCard(ForTarget(scan, targetGw));
    ForTargetKeys(scan, table, targetGw);
  }

  /** Over a scan of the table, `meta.total` is the number of stored predictions for the gameweek. */
  lemma TotalCountsTable(scan: seq<Listed>, table: map<PredictionKey, real>, targetGw: int, limit: int, offset: int)
    requires 1 <= limit <= 200 && offset >= 0
    requires ScanOf(scan, table)
    ensures ListPredictions(scan, targetGw, limit, offset).total == |KeysFor(table, targetGw)|
  {
    ForTargetCountsTable(scan, table, targetGw);
  }
}
