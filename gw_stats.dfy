/**
 * The live-stats ingest (ingest_gw_stats.py): upsert one row per known player
 * and gameweek from the `event/{gw}/live` payload, skipping elements whose FPL
 * id has no player row; and the loop over all finished gameweeks.
 */
module GwStats {
  import opened Wrappers
  import opened Ordering
  import opened Store
  import opened Upsert

  /** An entry of the live payload's `elements`: its FPL id and its `stats` object, where a value may be missing or null. */
  datatype LiveElement = LiveElement(id: int, stats: map<string, Option<int>>)

  /** A known element with its player resolved and its stats read. */
  datatype StatRecord = StatRecord(playerId: int, row: StatRow)

  /** The counters ingest_one_gw returns; `skippedIds` is present only when something was skipped. */
  datatype GwReport = GwReport(gw: int, inserted: nat, updated: nat, skipped: nat, totalSource: nat, skippedIds: Option<seq<int>>)

  datatype Totals = Totals(inserted: nat, updated: nat, skipped: nat)

  /** At most this many skipped ids are reported. */
  const SkippedIdsShown: nat := 20

  /** `int(s.get(name, 0) or 0)`: a missing or null value reads as 0. */
  function StatValue(stats: map<string, Option<int>>, name: string): (v: int)
    ensures name !in stats || stats[name].None? ==> v == 0
    ensures name in stats && stats[name].Some? ==> v == stats[name].value
  {
    if name in stats && stats[name].Some? then stats[name].value else 0
  }

  function StatsOf(e: LiveElement): StatRow
  {
    StatRow(StatValue(e.stats, "minutes"), StatValue(e.stats, "goals_scored"), StatValue(e.stats, "assists"),
            StatValue(e.stats, "clean_sheets"), StatValue(e.stats, "total_points"))
  }

  /** `fpl_to_player_id = {fpl_id: pid for (pid, fpl_id) in players}` */
  function PlayerIdMap(players: map<int, PlayerRow>): map<int, int>
  {
    PrimaryKeys(players, (p: PlayerRow) => p.id)
  }

  /** The elements the loop upserts, in payload order, with their players resolved. */
  function Resolve(es: seq<LiveElement>, m: map<int, int>): (rs: seq<StatRecord>)
    ensures forall r :: r in rs ==> exists e :: e in es && e.id in m && r == StatRecord(m[e.id], StatsOf(e))
    ensures forall e :: e in es && e.id in m ==> StatRecord(m[e.id], StatsOf(e)) in rs
    ensures |rs| <= |es|
    decreases |es|
  {
    if es == [] then []
    else
      var e := es[|es| - 1];
      Resolve(es[..|es| - 1], m) + (if e.id in m then [StatRecord(m[e.id], StatsOf(e))] else [])
  }

  /** The ids the loop skips, in payload order. */
  function SkippedIds(es: seq<LiveElement>, m: map<int, int>): (ids: seq<int>)
    ensures forall x :: x in ids <==> exists e :: e in es && e.id == x && e.id !in m
    decreases |es|
  {
    if es == [] then []
    else
      var e := es[|es| - 1];
      SkippedIds(es[..|es| - 1], m) + (if e.id !in m then [e.id] else [])
  }

  /** Every element is either upserted or skipped. */
  lemma {:induction false} ResolvedOrSkipped(es: seq<LiveElement>, m: map<int, int>)
    ensures |Resolve(es, m)| + |SkippedIds(es, m)| == |es|
    decreases |es|
  {
    if es != [] {
      ResolvedOrSkipped(es[..|es| - 1], m);
    }
  }

  function StatKey(gw: int): StatRecord -> (int, int)
  {
    (r: StatRecord) => (r.playerId, gw)
  }

  function MakeStat(r: StatRecord, existing: Option<StatRow>, id: int): StatRow
  {
    r.row
  }

  /** The upsert loop of ingest_one_gw on the stats table; the table's own primary key is not modelled. */
  function GwRun(stats: map<(int, int), StatRow>, gw: int, es: seq<LiveElement>, m: map<int, int>): State<(int, int), StatRow>
  {
    Run(State(stats, 0, 0, 0), Resolve(es, m), StatKey(gw), MakeStat, CountChanged)
  }

  function Take(ids: seq<int>, n: nat): seq<int>
  {
    if |ids| <= n then ids else ids[..n]
  }

  /** The report ingest_one_gw returns. */
  function GwReportOf(stats: map<(int, int), StatRow>, gw: int, es: seq<LiveElement>, m: map<int, int>): GwReport
  {
    var t := GwRun(stats, gw, es, m);
    var skipped := SkippedIds(es, m);
    GwReport(gw, t.inserted, t.updated, |skipped|, |es|,
             if |skipped| > 0 then Some(Take(skipped, SkippedIdsShown)) else None)
  }

  // ---------------------------------------------------------------------------
  // Properties of one gameweek
  // ---------------------------------------------------------------------------

  /**
   * Each element bumps at most one counter, and `skipped_ids` is reported
   * exactly when something was skipped, holding the first (at most 20)
   * skipped ids in payload order.
   */
  lemma GwCounts(stats: map<(int, int), StatRow>, gw: int, es: seq<LiveElement>, m: map<int, int>)
    ensures var r := GwReportOf(stats, gw, es, m);
      && r.gw == gw && r.totalSource == |es|
      && r.inserted + r.updated + r.skipped <= r.totalSource
      && (r.skippedIds.Some? <==> r.skipped > 0)
      && (r.skippedIds.Some? ==> |r.skippedIds.value| == Min(r.skipped, SkippedIdsShown)
                                 && r.skippedIds.value <= SkippedIds(es, m))
  {
    ResolvedOrSkipped(es, m);
    RunCounts(State(stats, 0, 0, 0), Resolve(es, m), StatKey(gw), MakeStat, CountChanged);
  }

  /** Only rows of this gameweek are written: every other row stays as it was, and no row of another gameweek appears. */
  lemma GwTouchesOnlyItsGameweek(stats: map<(int, int), StatRow>, gw: int, es: seq<LiveElement>, m: map<int, int>)
    ensures var t := GwRun(stats, gw, es, m);
      && (forall k :: k in t.table && k.1 != gw ==> k in stats && t.table[k] == stats[k])
      && (forall k :: k in stats && k.1 != gw ==> k in t.table && t.table[k] == stats[k])
  {
    var s := State(stats, 0, 0, 0);
    var rs := Resolve(es, m);
    RunFrame(s, rs, StatKey(gw), MakeStat, CountChanged);
    forall k | k in KeysOf(rs, StatKey(gw)) ensures k.1 == gw {
      var i :| 0 <= i < |rs| && StatKey(gw)(rs[i]) == k;
    }
  }

  /** The row of a resolved player holds the stats of the last element resolving to it. */
  lemma GwLastElementWins(stats: map<(int, int), StatRow>, gw: int, es: seq<LiveElement>, m: map<int, int>, i: nat)
    requires i < |Resolve(es, m)|
    requires forall j :: i < j < |Resolve(es, m)| ==> Resolve(es, m)[j].playerId != Resolve(es, m)[i].playerId
    ensures GwRun(stats, gw, es, m).table[(Resolve(es, m)[i].playerId, gw)] == Resolve(es, m)[i].row
  {
    var rs := Resolve(es, m);
    RunLastWins(State(stats, 0, 0, 0), rs, i, StatKey(gw), MakeStat, CountChanged);
  }

  /** Re-ingesting the same payload, when no two elements resolve to the same player, changes no row and counts no insert or update. */
  lemma GwReingestChangesNothing(stats: map<(int, int), StatRow>, gw: int, es: seq<LiveElement>, m: map<int, int>)
    requires DistinctKeys(Resolve(es, m), StatKey(gw))
    ensures var t := GwRun(stats, gw, es, m);
      var again := GwRun(t.table, gw, es, m);
      again.table == t.table && again.inserted == 0 && again.updated == 0
  {
    RerunFromZero(State(stats, 0, 0, 0), Resolve(es, m), StatKey(gw), MakeStat);
  }

  // ---------------------------------------------------------------------------
  // The routes
  // ---------------------------------------------------------------------------

  /** The `else` branch of the loop: overwrite each of the five stats that differs, noting whether any did. */
  method OverwriteStat(existing: StatRow, row: StatRow) returns (updatedRow: StatRow, changed: bool)
    ensures updatedRow == row
    ensures changed <==> row != existing
  {
    updatedRow := existing;
    changed := false;
    if updatedRow.minutes != row.minutes {
      updatedRow := updatedRow.(minutes := row.minutes);
      changed := true;
    }
    if updatedRow.goalsScored != row.goalsScored {
      updatedRow := updatedRow.(goalsScored := row.goalsScored);
      changed := true;
    }
    if updatedRow.assists != row.assists {
      updatedRow := updatedRow.(assists := row.assists);
      changed := true;
    }
    if updatedRow.cleanSheets != row.cleanSheets {
      updatedRow := updatedRow.(cleanSheets := row.cleanSheets);
      changed := true;
    }
    if updatedRow.totalPoints != row.totalPoints {
      updatedRow := updatedRow.(totalPoints := row.totalPoints);
      changed := true;
    }
  }

  /** One upsert of the loop, for an element whose player is known. */
  method UpsertStat(db: Db, gw: int, r: StatRecord, ghost nextId: int, inserted: nat, updated: nat)
    returns (ghost nextId': int, inserted': nat, updated': nat)
    modifies db
    ensures State(db.gwStats, nextId', inserted', updated')
            == Step(State(old(db.gwStats), nextId, inserted, updated), r, StatKey(gw), MakeStat, CountChanged)
    ensures db.teams == old(db.teams) && db.players == old(db.players) && db.gameweeks == old(db.gameweeks)
    ensures db.predictions == old(db.predictions) && db.nextTeamId == old(db.nextTeamId) && db.nextPlayerId == old(db.nextPlayerId)
  {
    nextId', inserted', updated' := nextId, inserted, updated;
    var key := (r.playerId, gw);
    if key !in db.gwStats {
      db.gwStats := db.gwStats[key := r.row];
      nextId' := nextId' + 1;
      inserted' := inserted' + 1;
    } else {
      var existing, changed := OverwriteStat(db.gwStats[key], r.row);
      db.gwStats := db.gwStats[key := existing];
      if changed {
        updated' := updated' + 1;
      }
    }
  }

  /** ingest_one_gw, with the fetched `elements` as a parameter. */
  method IngestOneGw(db: Db, gw: int, elements: seq<LiveElement>) returns (report: GwReport)
    modifies db
    ensures db.gwStats == GwRun(old(db.gwStats), gw, elements, PlayerIdMap(old(db.players))).table
    ensures report == GwReportOf(old(db.gwStats), gw, elements, PlayerIdMap(old(db.players)))
    ensures db.teams == old(db.teams) && db.players == old(db.players) && db.gameweeks == old(db.gameweeks)
    ensures db.predictions == old(db.predictions) && db.nextTeamId == old(db.nextTeamId) && db.nextPlayerId == old(db.nextPlayerId)
  {
    var fplToPlayerId := PlayerIdMap(db.players);
    ghost var s0 := State(db.gwStats, 0, 0, 0);
    ghost var nextId := 0;
    var inserted := 0;
    var updated := 0;
    var skipped := 0;
    var skippedIds := [];
    for i := 0 to |elements|
      invariant State(db.gwStats, nextId, inserted, updated) == Run(s0, Resolve(elements[..i], fplToPlayerId), StatKey(gw), MakeStat, CountChanged)
      invariant skippedIds == SkippedIds(elements[..i], fplToPlayerId) && skipped == |skippedIds|
      invariant db.teams == old(db.teams) && db.players == old(db.players) && db.gameweeks == old(db.gameweeks)
      invariant db.predictions == old(db.predictions) && db.nextTeamId == old(db.nextTeamId) && db.nextPlayerId == old(db.nextPlayerId)
    {
      var e := elements[i];
      ResolveStep(elements, i, fplToPlayerId);
      var playerId := if e.id in fplToPlayerId then Some(fplToPlayerId[e.id]) else None;
      if playerId.None? {
        skipped := skipped + 1;
        skippedIds := skippedIds + [e.id];
        continue;
      }
      var r := StatRecord(playerId.value, StatsOf(e));
      nextId, inserted, updated := UpsertStat(db, gw, r, nextId, inserted, updated);
    }
    assert elements[..|elements|] == elements;
    report := GwReport(gw, inserted, updated, skipped, |elements|,
                       if skipped > 0 then Some(Take(skippedIds, SkippedIdsShown)) else None);
  }

  /** One more element either adds its resolved record or its skipped id. */
  lemma ResolveStep(es: seq<LiveElement>, i: nat, m: map<int, int>)
    requires i < |es|
    ensures var rs := Resolve(es[..i], m);
      && (es[i].id in m ==> Resolve(es[..i + 1], m) == rs + [StatRecord(m[es[i].id], StatsOf(es[i]))]
                            && (rs + [StatRecord(m[es[i].id], StatsOf(es[i]))])[..|rs|] == rs
                            && SkippedIds(es[..i + 1], m) == SkippedIds(es[..i], m))
      && (es[i].id !in m ==> Resolve(es[..i + 1], m) == rs && SkippedIds(es[..i + 1], m) == SkippedIds(es[..i], m) + [es[i].id])
  {
    assert es[..i + 1][..i] == es[..i];
  }

  /** The totals over a sequence of per-gameweek reports. */
  function SumReports(rs: seq<GwReport>): Totals
    decreases |rs|
  {
    if rs == [] then Totals(0, 0, 0)
    else
      var t := SumReports(rs[..|rs| - 1]);
      var r := rs[|rs| - 1];
      Totals(t.inserted + r.inserted, t.updated + r.updated, t.skipped + r.skipped)
  }

  lemma SumReportsSnoc(rs: seq<GwReport>, r: GwReport)
    ensures var t := SumReports(rs);
      SumReports(rs + [r]) == Totals(t.inserted + r.inserted, t.updated + r.updated, t.skipped + r.skipped)
  {
    assert (rs + [r])[..|rs|] == rs;
  }

  function SumSources(rs: seq<GwReport>): nat
    decreases |rs|
  {
    if rs == [] then 0 else SumSources(rs[..|rs| - 1]) + rs[|rs| - 1].totalSource
  }

  /** Well-formed ingest reports add up to totals within the summed payload sizes. */
  lemma {:induction false} TotalsBound(rs: seq<GwReport>)
    requires forall i :: 0 <= i < |rs| ==> rs[i].inserted + rs[i].updated + rs[i].skipped <= rs[i].totalSource
    ensures var t := SumReports(rs); t.inserted + t.updated + t.skipped <= SumSources(rs)
    decreases |rs|
  {
    if rs != [] {
      TotalsBound(rs[..|rs| - 1]);
    }
  }

  /** The rows of gameweeks outside `gws` are as they were in `original`. */
  ghost predicate KeptOutside(original: map<(int, int), StatRow>, now: map<(int, int), StatRow>, gws: seq<int>)
  {
    forall k :: k in original && k.1 !in gws ==> k in now && now[k] == original[k]
  }

  lemma KeptOutsideStep(original: map<(int, int), StatRow>, before: map<(int, int), StatRow>, after: map<(int, int), StatRow>,
                        finished: seq<int>, i: nat)
    requires i < |finished|
    requires KeptOutside(original, before, finished[..i])
    requires forall k :: k in before && k.1 != finished[i] ==> k in after && after[k] == before[k]
    ensures KeptOutside(original, after, finished[..i + 1])
  {
    assert finished[..i + 1] == finished[..i] + [finished[i]];
  }

  /** One report per gameweek of `gws`, in that order, each for that gameweek's payload and within its size. */
  ghost predicate ReportsFor(perGw: seq<GwReport>, gws: seq<int>, fetch: int -> seq<LiveElement>)
  {
    && |perGw| == |gws|
    && (forall j :: 0 <= j < |perGw| ==> perGw[j].gw == gws[j] && perGw[j].totalSource == |fetch(gws[j])|)
    && (forall j :: 0 <= j < |perGw| ==> perGw[j].inserted + perGw[j].updated + perGw[j].skipped <= perGw[j].totalSource)
  }

  lemma ReportsForSnoc(perGw: seq<GwReport>, finished: seq<int>, i: nat, fetch: int -> seq<LiveElement>, r: GwReport)
    requires i < |finished| && ReportsFor(perGw, finished[..i], fetch)
    requires r.gw == finished[i] && r.totalSource == |fetch(finished[i])| && r.inserted + r.updated + r.skipped <= r.totalSource
    ensures ReportsFor(perGw + [r], finished[..i + 1], fetch)
  {
    assert finished[..i + 1] == finished[..i] + [finished[i]];
  }

  /** The stats table and the reports after ingest_finished_gameweeks has ingested the gameweeks `gws` in order. */
  datatype Ingested = Ingested(table: map<(int, int), StatRow>, reports: seq<GwReport>)

  /**
   * The loop of ingest_finished_gameweeks as a fold: each gameweek of `gws` in
   * turn runs ingest_one_gw on the table the previous one left, with the player
   * map read from `players`, which the loop does not change.
   */
  function IngestAll(stats: map<(int, int), StatRow>, players: map<int, PlayerRow>, gws: seq<int>,
                     fetch: int -> seq<LiveElement>): Ingested
    decreases |gws|
  {
    if gws == [] then Ingested(stats, [])
    else
      var prev := IngestAll(stats, players, gws[..|gws| - 1], fetch);
      var gw := gws[|gws| - 1];
      Ingested(GwRun(prev.table, gw, fetch(gw), PlayerIdMap(players)).table,
               prev.reports + [GwReportOf(prev.table, gw, fetch(gw), PlayerIdMap(players))])
  }

  /**
   * The fold gives one report per listed gameweek, in order, for that
   * gameweek's payload and within its size, and leaves the rows of every
   * unlisted gameweek as they were.
   */
  lemma {:induction false} IngestAllReports(stats: map<(int, int), StatRow>, players: map<int, PlayerRow>, gws: seq<int>,
                                            fetch: int -> seq<LiveElement>)
    ensures ReportsFor(IngestAll(stats, players, gws, fetch).reports, gws, fetch)
    ensures KeptOutside(stats, IngestAll(stats, players, gws, fetch).table, gws)
    decreases |gws|
  {
    if gws != [] {
      var n := |gws| - 1;
      var prev := IngestAll(stats, players, gws[..n], fetch);
      IngestAllReports(stats, players, gws[..n], fetch);
      assert gws[..n + 1] == gws;
      GwCounts(prev.table, gws[n], fetch(gws[n]), PlayerIdMap(players));
      GwTouchesOnlyItsGameweek(prev.table, gws[n], fetch(gws[n]), PlayerIdMap(players));
      ReportsForSnoc(prev.reports, gws, n, fetch, GwReportOf(prev.table, gws[n], fetch(gws[n]), PlayerIdMap(players)));
      KeptOutsideStep(stats, prev.table, IngestAll(stats, players, gws, fetch).table, gws, n);
    }
  }

  /** The loop body of ingest_finished_gameweeks: ingest the i-th listed gameweek. */
  method IngestListed(db: Db, finished: seq<int>, i: nat, fetch: int -> seq<LiveElement>) returns (r: GwReport)
    requires i < |finished|
    modifies db
    ensures r == GwReportOf(old(db.gwStats), finished[i], fetch(finished[i]), PlayerIdMap(old(db.players)))
    ensures db.gwStats == GwRun(old(db.gwStats), finished[i], fetch(finished[i]), PlayerIdMap(old(db.players))).table
    ensures r.gw == finished[i] && r.totalSource == |fetch(finished[i])| && r.inserted + r.updated + r.skipped <= r.totalSource
    ensures forall k :: k in old(db.gwStats) && k.1 != finished[i] ==> k in db.gwStats && db.gwStats[k] == old(db.gwStats)[k]
    ensures db.teams == old(db.teams) && db.players == old(db.players) && db.gameweeks == old(db.gameweeks)
    ensures db.predictions == old(db.predictions)
  {
    var gw := finished[i];
    r := IngestOneGw(db, gw, fetch(gw));
    GwCounts(old(db.gwStats), gw, fetch(gw), PlayerIdMap(db.players));
    GwTouchesOnlyItsGameweek(old(db.gwStats), gw, fetch(gw), PlayerIdMap(db.players));
  }

  /**
   * ingest_finished_gameweeks, with the live payload of each gameweek given by
   * `fetch`: the finished gameweeks in ascending order, one report each, and
   * the totals summed over them.
   */
  method IngestFinishedGameweeks(db: Db, fetch: int -> seq<LiveElement>) returns (gws: nat, totals: Totals, perGw: seq<GwReport>)
    modifies db
    ensures gws == |Flagged(old(db.gameweeks), Finished)| && |perGw| == gws
    ensures Ingested(db.gwStats, perGw) == IngestAll(old(db.gwStats), old(db.players), SortedSet(Flagged(old(db.gameweeks), Finished)), fetch)
    ensures forall i :: 0 <= i < |perGw| ==> perGw[i].gw == SortedSet(Flagged(old(db.gameweeks), Finished))[i]
    ensures forall i :: 0 <= i < |perGw| ==> perGw[i].totalSource == |fetch(perGw[i].gw)|
    ensures forall i :: 0 <= i < |perGw| ==> perGw[i].inserted + perGw[i].updated + perGw[i].skipped <= perGw[i].totalSource
    ensures totals == SumReports(perGw)
    ensures totals.inserted + totals.updated + totals.skipped <= SumSources(perGw)
    ensures forall k :: k in old(db.gwStats) && k.1 !in Flagged(old(db.gameweeks), Finished) ==> k in db.gwStats && db.gwStats[k] == old(db.gwStats)[k]
    ensures db.teams == old(db.teams) && db.players == old(db.players) && db.gameweeks == old(db.gameweeks)
    ensures db.predictions == old(db.predictions)
  {
    var finished := SortedSet(Flagged(db.gameweeks, Finished));
    totals, perGw := IngestEach(db, finished, fetch);
    IngestAllReports(old(db.gwStats), old(db.players), finished, fetch);
    TotalsBound(perGw);
    gws := |finished|;
  }

  /** The `for gw in finished` loop of ingest_finished_gameweeks. */
  method IngestEach(db: Db, finished: seq<int>, fetch: int -> seq<LiveElement>) returns (totals: Totals, perGw: seq<GwReport>)
    modifies db
    ensures Ingested(db.gwStats, perGw) == IngestAll(old(db.gwStats), old(db.players), finished, fetch)
    ensures totals == SumReports(perGw)
    ensures db.teams == old(db.teams) && db.players == old(db.players) && db.gameweeks == old(db.gameweeks)
    ensures db.predictions == old(db.predictions)
  {
    perGw := [];
    totals := Totals(0, 0, 0);
    for i := 0 to |finished|
      invariant Ingested(db.gwStats, perGw) == IngestAll(old(db.gwStats), old(db.players), finished[..i], fetch)
      invariant totals == SumReports(perGw)
      invariant db.teams == old(db.teams) && db.players == old(db.players) && db.gameweeks == old(db.gameweeks)
      invariant db.predictions == old(db.predictions)
    {
      var r := IngestListed(db, finished, i, fetch);
      assert finished[..i + 1][..i] == finished[..i];
      SumReportsSnoc(perGw, r);
      perGw := perGw + [r];
      totals := Totals(totals.inserted + r.inserted, totals.updated + r.updated, totals.skipped + r.skipped);
    }
    assert finished[..|finished|] == finished;
  }
}
