/**
 * The gameweek routes (gameweeks.py): the deadline text rewrite of parse_dt,
 * the upsert of the bootstrap `events`, and GET /gameweeks/current.
 *
 * Deadlines stay text: the model keeps the string parse_dt hands to
 * `datetime.fromisoformat`, which is not part of this model.
 */
module Gameweeks {
  import opened Wrappers
  import opened Store
  import opened Upsert

  /** `s.replace("Z", "+00:00")`: every "Z", not only a trailing one, becomes "+00:00". */
  function ReplaceZ(s: string): (r: string)
    ensures 'Z' !in r
    ensures 'Z' !in s ==> r == s
    ensures |r| >= |s|
    decreases |s|
  {
    if s == [] then []
    else (if s[0] == 'Z' then "+00:00" else [s[0]]) + ReplaceZ(s[1..])
  }

  lemma {:induction false} ReplaceZConcat(a: string, b: string)
    ensures ReplaceZ(a + b) == ReplaceZ(a) + ReplaceZ(b)
    decreases |a|
  {
    if a == [] {
      assert a + b == b;
    } else {
      var head := if a[0] == 'Z' then "+00:00" else [a[0]];
      assert (a + b)[0] == a[0] && (a + b)[1..] == a[1..] + b;
      ReplaceZConcat(a[1..], b);
      calc {
        ReplaceZ(a + b);
        head + ReplaceZ(a[1..] + b);
        head + (ReplaceZ(a[1..]) + ReplaceZ(b));
        (head + ReplaceZ(a[1..])) + ReplaceZ(b);
      }
    }
  }

  /**
   * parse_dt without the final `fromisoformat`: None for a missing or empty
   * string, the "Z"-rewritten text for one ending in "Z", the text itself otherwise.
   */
  function ParseDt(s: Option<string>): (r: Option<string>)
    ensures s.None? || s.value == "" ==> r.None?
    ensures s.Some? && s.value != "" && s.value[|s.value| - 1] != 'Z' ==> r == s
    ensures s.Some? && s.value != "" && s.value[|s.value| - 1] == 'Z' ==> r == Some(ReplaceZ(s.value)) && 'Z' !in r.value
  {
    if s.None? || s.value == "" then None
    else if s.value[|s.value| - 1] == 'Z' then Some(ReplaceZ(s.value))
    else s
  }

  /** FPL's deadlines, "2025-08-15T17:30:00Z", get the explicit UTC offset in place of their one trailing "Z". */
  lemma ParseDtUtc(p: string)
    requires 'Z' !in p
    ensures ParseDt(Some(p + "Z")) == Some(p + "+00:00")
  {
    var s := p + "Z";
    assert s != "" && s[|s| - 1] == 'Z';
    ReplaceZConcat(p, "Z");
    assert "Z"[1..] == [];
    assert ReplaceZ("Z") == "+00:00";
  }

  /** Rewriting is done once: the text parse_dt returns comes back unchanged. */
  lemma ParseDtIdempotent(s: Option<string>)
    ensures ParseDt(ParseDt(s)) == ParseDt(s)
  {
    var r := ParseDt(s);
    if r.Some? {
      assert r.value != "";
      if 'Z' !in r.value {
        assert r.value[|r.value| - 1] != 'Z';
      }
    }
  }

  // ---------------------------------------------------------------------------
  // POST /gameweeks/ingest/fpl
  // ---------------------------------------------------------------------------

  /** An entry of the bootstrap payload's `events`; the three flags may be missing or null. */
  datatype EventRecord = EventRecord(id: int, deadlineTime: Option<string>, isCurrent: Option<bool>,
                                    isNext: Option<bool>, finished: Option<bool>, name: Option<string>)

  /** `bool(e.get(flag))`: a missing or null flag is false. */
  function Truthy(b: Option<bool>): (r: bool)
    ensures r <==> b == Some(true)
  {
    b.Some? && b.value
  }

  function EventKey(e: EventRecord): int { e.id }

  function GameweekOf(e: EventRecord): GameweekRow
  {
    GameweekRow(ParseDt(e.deadlineTime), Truthy(e.isCurrent), Truthy(e.isNext), Truthy(e.finished), e.name)
  }

  function MakeGameweek(e: EventRecord, existing: Option<GameweekRow>, id: int): GameweekRow
  {
    GameweekOf(e)
  }

  /** The loop of ingest_gameweeks; the table's own primary key is not modelled. */
  function GameweeksRun(gws: map<int, GameweekRow>, events: seq<EventRecord>): State<int, GameweekRow>
  {
    Run(State(gws, 0, 0, 0), events, EventKey, MakeGameweek, CountChanged)
  }

  /**
   * The row of a gameweek named in the payload holds the last event for it,
   * with its deadline normalised and its flags coerced; other rows stay, and
   * each event bumps at most one counter.
   */
  lemma GameweeksUpserted(gws: map<int, GameweekRow>, events: seq<EventRecord>, i: nat)
    requires i < |events|
    requires forall j :: i < j < |events| ==> events[j].id != events[i].id
    ensures var t := GameweeksRun(gws, events);
      var e := events[i];
      && t.table[e.id] == GameweekRow(ParseDt(e.deadlineTime), e.isCurrent == Some(true), e.isNext == Some(true),
                                      e.finished == Some(true), e.name)
      && (forall k :: k in gws && k !in KeysOf(events, EventKey) ==> t.table[k] == gws[k])
      && t.inserted + t.updated <= |events|
  {
    var s := State(gws, 0, 0, 0);
    RunLastWins(s, events, i, EventKey, MakeGameweek, CountChanged);
    RunFrame(s, events, EventKey, MakeGameweek, CountChanged);
    RunCounts(s, events, EventKey, MakeGameweek, CountChanged);
  }

  /** Ingesting the same events (distinct ids) again changes no row and counts nothing. */
  lemma GameweeksReingestChangesNothing(gws: map<int, GameweekRow>, events: seq<EventRecord>)
    requires DistinctKeys(events, EventKey)
    ensures var t := GameweeksRun(gws, events);
      var again := GameweeksRun(t.table, events);
      again.table == t.table && again.inserted == 0 && again.updated == 0
  {
    RerunFromZero(State(gws, 0, 0, 0), events, EventKey, MakeGameweek);
  }

  /** The `else` branch of the loop: overwrite each of the five fields that differs, noting whether any did. */
  method OverwriteGameweek(existing: GameweekRow, row: GameweekRow) returns (updatedRow: GameweekRow, changed: bool)
    ensures updatedRow == row
    ensures changed <==> row != existing
  {
    updatedRow := existing;
    changed := false;
    if updatedRow.deadline != row.deadline {
      updatedRow := updatedRow.(deadline := row.deadline);
      changed := true;
    }
    if updatedRow.isCurrent != row.isCurrent {
      updatedRow := updatedRow.(isCurrent := row.isCurrent);
      changed := true;
    }
    if updatedRow.isNext != row.isNext {
      updatedRow := updatedRow.(isNext := row.isNext);
      changed := true;
    }
    if updatedRow.isFinished != row.isFinished {
      updatedRow := updatedRow.(isFinished := row.isFinished);
      changed := true;
    }
    if updatedRow.name != row.name {
      updatedRow := updatedRow.(name := row.name);
      changed := true;
    }
  }

  /** One iteration of the loop of ingest_gameweeks. */
  method UpsertGameweek(db: Db, e: EventRecord, ghost nextId: int, inserted: nat, updated: nat)
    returns (ghost nextId': int, inserted': nat, updated': nat)
    modifies db
    ensures State(db.gameweeks, nextId', inserted', updated')
            == Step(State(old(db.gameweeks), nextId, inserted, updated), e, EventKey, MakeGameweek, CountChanged)
    ensures db.teams == old(db.teams) && db.players == old(db.players) && db.gwStats == old(db.gwStats)
    ensures db.predictions == old(db.predictions) && db.nextTeamId == old(db.nextTeamId) && db.nextPlayerId == old(db.nextPlayerId)
  {
    nextId', inserted', updated' := nextId, inserted, updated;
    var row := GameweekOf(e);
    if e.id !in db.gameweeks {
      db.gameweeks := db.gameweeks[e.id := row];
      nextId' := nextId' + 1;
      inserted' := inserted' + 1;
    } else {
      var existing, changed := OverwriteGameweek(db.gameweeks[e.id], row);
      db.gameweeks := db.gameweeks[e.id := existing];
      if changed {
        updated' := updated' + 1;
      }
    }
  }

  /** ingest_gameweeks, with the fetched `events` as a parameter. */
  method IngestGameweeks(db: Db, events: seq<EventRecord>) returns (report: Report)
    modifies db
    ensures var t := GameweeksRun(old(db.gameweeks), events);
      db.gameweeks == t.table && report == Report(t.inserted, t.updated, |events|)
    ensures db.teams == old(db.teams) && db.players == old(db.players) && db.gwStats == old(db.gwStats)
    ensures db.predictions == old(db.predictions) && db.nextTeamId == old(db.nextTeamId) && db.nextPlayerId == old(db.nextPlayerId)
  {
    ghost var s0 := State(db.gameweeks, 0, 0, 0);
    ghost var nextId := 0;
    var inserted := 0;
    var updated := 0;
    for i := 0 to |events|
      invariant State(db.gameweeks, nextId, inserted, updated) == Run(s0, events[..i], EventKey, MakeGameweek, CountChanged)
      invariant db.teams == old(db.teams) && db.players == old(db.players) && db.gwStats == old(db.gwStats)
      invariant db.predictions == old(db.predictions) && db.nextTeamId == old(db.nextTeamId) && db.nextPlayerId == old(db.nextPlayerId)
    {
      RunPrefix(s0, events, i, EventKey, MakeGameweek, CountChanged);
      nextId, inserted, updated := UpsertGameweek(db, events[i], nextId, inserted, updated);
    }
    assert events[..|events|] == events;
    report := Report(inserted, updated, |events|);
  }

  // ---------------------------------------------------------------------------
  // GET /gameweeks/current
  // ---------------------------------------------------------------------------

  /** The object shown for a gameweek. */
  datatype GwSummary = GwSummary(gw: int, deadlineTime: Option<string>, isFinished: bool, name: Option<string>)

  function SummaryOf(gws: map<int, GameweekRow>, g: Option<int>): (r: Option<GwSummary>)
    requires g.Some? ==> g.value in gws
    ensures r.None? <==> g.None?
    ensures r.Some? ==> r.value == GwSummary(g.value, gws[g.value].deadline, gws[g.value].isFinished, gws[g.value].name)
  {
    match g
    case None => None
    case Some(n) => Some(GwSummary(n, gws[n].deadline, gws[n].isFinished, gws[n].name))
  }

  /**
   * current_and_next: the gameweek flagged is_current and the one flagged
   * is_next, each None when no gameweek carries the flag.
   */
  function CurrentAndNext(gws: map<int, GameweekRow>): (r: (Option<GwSummary>, Option<GwSummary>))
    ensures r.0.None? <==> forall g :: g in gws ==> !gws[g].isCurrent
    ensures r.1.None? <==> forall g :: g in gws ==> !gws[g].isNext
    ensures r.0.Some? ==> var g := r.0.value.gw;
      g in gws && gws[g].isCurrent && r.0.value == GwSummary(g, gws[g].deadline, gws[g].isFinished, gws[g].name)
    ensures r.1.Some? ==> var g := r.1.value.gw;
      g in gws && gws[g].isNext && r.1.value == GwSummary(g, gws[g].deadline, gws[g].isFinished, gws[g].name)
  {
    (SummaryOf(gws, FirstFlagged(gws, Current)), SummaryOf(gws, FirstFlagged(gws, Next)))
  }
}
