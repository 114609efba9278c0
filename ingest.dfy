/**
 * POST /ingest/fpl/bootstrap (ingest.py): upsert the teams, build the map from
 * FPL team id to team primary key, then upsert the players.
 */
module Ingest {
  import opened Wrappers
  import opened Candidates
  import opened Store
  import opened Upsert

  /** An entry of the bootstrap payload's `teams` list. */
  datatype TeamRecord = TeamRecord(id: int, name: string, shortName: Option<string>)

  /** An entry of the bootstrap payload's `elements` list. */
  datatype PlayerRecord = PlayerRecord(id: int, firstName: string, secondName: string, webName: string,
                                       team: int, elementType: int, nowCost: int, status: string)

  /** `t.get("short_name") or name`: a missing or empty short name falls back to the name. */
  function ShortNameOf(t: TeamRecord): (s: string)
    ensures t.shortName.Some? && t.shortName.value != "" ==> s == t.shortName.value
    ensures t.shortName.None? || t.shortName.value == "" ==> s == t.name
  {
    if t.shortName.Some? && t.shortName.value != "" then t.shortName.value else t.name
  }

  /** `pos_map.get(element_type, "UNK")`: element types 1..4 name the squad builder's positions in bucket order. */
  function PositionOf(elementType: int): (s: string)
    ensures 1 <= elementType <= 4 ==> ParsePosition(s) == Some(BucketOrder[elementType - 1])
    ensures !(1 <= elementType <= 4) ==> s == "UNK" && ParsePosition(s) == None
  {
    if elementType == 1 then "GKP"
    else if elementType == 2 then "DEF"
    else if elementType == 3 then "MID"
    else if elementType == 4 then "FWD"
    else "UNK"
  }

  function TeamKey(t: TeamRecord): int { t.id }

  function MakeTeam(t: TeamRecord, existing: Option<TeamRow>, id: int): TeamRow
  {
    match existing
    case None => TeamRow(id, t.name, ShortNameOf(t))
    case Some(row) => row.(name := t.name, shortName := ShortNameOf(t))
  }

  /** The team loop of ingest_fpl_bootstrap. */
  function TeamsRun(teams: map<int, TeamRow>, nextId: int, data: seq<TeamRecord>): State<int, TeamRow>
  {
    Run(State(teams, nextId, 0, 0), data, TeamKey, MakeTeam, CountChanged)
  }

  /** `team_map = {t.fpl_team_id: t.id for t in team_rows}` */
  function TeamMap(teams: map<int, TeamRow>): map<int, int>
  {
    PrimaryKeys(teams, (t: TeamRow) => t.id)
  }

  function PlayerKey(p: PlayerRecord): int { p.id }

  /** `team_map.get(fpl_team_id)`: None when the FPL team has no row. */
  function TeamIdOf(teamMap: map<int, int>, team: int): Option<int>
  {
    if team in teamMap then Some(teamMap[team]) else None
  }

  function MakePlayer(teamMap: map<int, int>, p: PlayerRecord, existing: Option<PlayerRow>, id: int): PlayerRow
  {
    var teamId := TeamIdOf(teamMap, p.team);
    var position := PositionOf(p.elementType);
    match existing
    case None => PlayerRow(id, p.firstName, p.secondName, p.webName, teamId, position, p.nowCost, p.status)
    case Some(row) =>
      row.(firstName := p.firstName, secondName := p.secondName, webName := p.webName,
           teamId := teamId, position := position, nowCost := p.nowCost, status := p.status)
  }

  /** The player loop of ingest_fpl_bootstrap, given the team map. */
  function PlayersRun(players: map<int, PlayerRow>, nextId: int, teamMap: map<int, int>, data: seq<PlayerRecord>): State<int, PlayerRow>
  {
    Run(State(players, nextId, 0, 0), data, PlayerKey, (p, o, id) => MakePlayer(teamMap, p, o, id), CountChanged)
  }

  /** The whole route on the two tables: teams first, then players against the new team map. */
  function Bootstrap(teams: map<int, TeamRow>, nextTeamId: int, players: map<int, PlayerRow>, nextPlayerId: int,
                     teamsData: seq<TeamRecord>, playersData: seq<PlayerRecord>): (State<int, TeamRow>, State<int, PlayerRow>)
  {
    var t := TeamsRun(teams, nextTeamId, teamsData);
    (t, PlayersRun(players, nextPlayerId, TeamMap(t.table), playersData))
  }

  // ---------------------------------------------------------------------------
  // Properties
  // ---------------------------------------------------------------------------

  lemma TeamsSettled()
    ensures Settled(MakeTeam)
  {
  }

  lemma PlayersSettled(teamMap: map<int, int>)
    ensures Settled((p, o, id) => MakePlayer(teamMap, p, o, id))
  {
  }

  /**
   * The team row of an FPL id named in the payload carries the name and short
   * name of the last record with that id; other rows stay as they were, and
   * each record bumps at most one counter.
   */
  lemma TeamsUpserted(teams: map<int, TeamRow>, nextId: int, data: seq<TeamRecord>, i: nat)
    requires i < |data|
    requires forall j :: i < j < |data| ==> data[j].id != data[i].id
    ensures var t := TeamsRun(teams, nextId, data);
      && t.table[data[i].id].name == data[i].name
      && t.table[data[i].id].shortName == ShortNameOf(data[i])
      && (forall k :: k in teams && k !in KeysOf(data, TeamKey) ==> t.table[k] == teams[k])
      && t.inserted + t.updated <= |data|
  {
    var s := State(teams, nextId, 0, 0);
    RunLastWins(s, data, i, TeamKey, MakeTeam, CountChanged);
    RunFrame(s, data, TeamKey, MakeTeam, CountChanged);
    RunCounts(s, data, TeamKey, MakeTeam, CountChanged);
  }

  /**
   * The player row of an FPL id named in the payload carries the last record's
   * seven fields, with the team resolved through the team map (None when the
   * team is unknown); other rows stay as they were.
   */
  lemma PlayersUpserted(players: map<int, PlayerRow>, nextId: int, teamMap: map<int, int>, data: seq<PlayerRecord>, i: nat)
    requires i < |data|
    requires forall j :: i < j < |data| ==> data[j].id != data[i].id
    ensures var t := PlayersRun(players, nextId, teamMap, data);
      var p := data[i];
      var row := t.table[p.id];
      && row.firstName == p.firstName && row.secondName == p.secondName && row.webName == p.webName
      && row.teamId == (if p.team in teamMap then Some(teamMap[p.team]) else None)
      && row.position == PositionOf(p.elementType) && row.nowCost == p.nowCost && row.status == p.status
      && (forall k :: k in players && k !in KeysOf(data, PlayerKey) ==> t.table[k] == players[k])
      && t.inserted + t.updated <= |data|
  {
    var s := State(players, nextId, 0, 0);
    var make := (p, o, id) => MakePlayer(teamMap, p, o, id);
    RunLastWins(s, data, i, PlayerKey, make, CountChanged);
    RunFrame(s, data, PlayerKey, make, CountChanged);
    RunCounts(s, data, PlayerKey, make, CountChanged);
  }

  /**
   * Ingesting the same payload (distinct FPL ids in each list) a second time
   * inserts nothing, updates nothing and leaves both tables as they were.
   */
  lemma ReingestChangesNothing(teams: map<int, TeamRow>, nextTeamId: int, players: map<int, PlayerRow>, nextPlayerId: int,
                               teamsData: seq<TeamRecord>, playersData: seq<PlayerRecord>)
    requires DistinctKeys(teamsData, TeamKey) && DistinctKeys(playersData, PlayerKey)
    ensures var (t, p) := Bootstrap(teams, nextTeamId, players, nextPlayerId, teamsData, playersData);
      Bootstrap(t.table, t.nextId, p.table, p.nextId, teamsData, playersData)
        == (State(t.table, t.nextId, 0, 0), State(p.table, p.nextId, 0, 0))
  {
    var (t, p) := Bootstrap(teams, nextTeamId, players, nextPlayerId, teamsData, playersData);
    TeamsSettled();
    Rerun(State(teams, nextTeamId, 0, 0), teamsData, TeamKey, MakeTeam);
    assert TeamsRun(t.table, t.nextId, teamsData) == State(t.table, t.nextId, 0, 0);
    var make := (r, o, id) => MakePlayer(TeamMap(t.table), r, o, id);
    PlayersSettled(TeamMap(t.table));
    Rerun(State(players, nextPlayerId, 0, 0), playersData, PlayerKey, make);
  }

  // ---------------------------------------------------------------------------
  // The route
  // ---------------------------------------------------------------------------

  /** The `else` branch of the team loop: overwrite the name and short name where they differ, noting whether either did. */
  method OverwriteTeam(existing: TeamRow, t: TeamRecord) returns (row: TeamRow, changed: bool)
    ensures row == MakeTeam(t, Some(existing), row.id)
    ensures row.id == existing.id
    ensures changed <==> row != existing
  {
    var shortName := ShortNameOf(t);
    row := existing;
    changed := false;
    if row.name != t.name {
      row := row.(name := t.name);
      changed := true;
    }
    if row.shortName != shortName {
      row := row.(shortName := shortName);
      changed := true;
    }
  }

  /** One iteration of the team loop. */
  method UpsertTeam(db: Db, t: TeamRecord, inserted: nat, updated: nat) returns (inserted': nat, updated': nat)
    modifies db
    ensures State(db.teams, db.nextTeamId, inserted', updated')
            == Step(State(old(db.teams), old(db.nextTeamId), inserted, updated), t, TeamKey, MakeTeam, CountChanged)
    ensures db.players == old(db.players) && db.nextPlayerId == old(db.nextPlayerId) && db.gwStats == old(db.gwStats)
    ensures db.gameweeks == old(db.gameweeks) && db.predictions == old(db.predictions)
  {
    inserted', updated' := inserted, updated;
    if t.id !in db.teams {
      db.teams := db.teams[t.id := TeamRow(db.nextTeamId, t.name, ShortNameOf(t))];
      db.nextTeamId := db.nextTeamId + 1;
      inserted' := inserted' + 1;
    } else {
      var existing, changed := OverwriteTeam(db.teams[t.id], t);
      db.teams := db.teams[t.id := existing];
      if changed {
        updated' := updated' + 1;
      }
    }
  }

  /** The team loop. */
  method UpsertTeams(db: Db, data: seq<TeamRecord>) returns (report: Report)
    modifies db
    ensures State(db.teams, db.nextTeamId, report.inserted, report.updated) == TeamsRun(old(db.teams), old(db.nextTeamId), data)
    ensures report.totalSource == |data|
    ensures db.players == old(db.players) && db.nextPlayerId == old(db.nextPlayerId) && db.gwStats == old(db.gwStats)
    ensures db.gameweeks == old(db.gameweeks) && db.predictions == old(db.predictions)
  {
    var s0 := State(db.teams, db.nextTeamId, 0, 0);
    var inserted := 0;
    var updated := 0;
    for i := 0 to |data|
      invariant State(db.teams, db.nextTeamId, inserted, updated) == Run(s0, data[..i], TeamKey, MakeTeam, CountChanged)
      invariant db.players == old(db.players) && db.nextPlayerId == old(db.nextPlayerId) && db.gwStats == old(db.gwStats)
      invariant db.gameweeks == old(db.gameweeks) && db.predictions == old(db.predictions)
    {
      RunPrefix(s0, data, i, TeamKey, MakeTeam, CountChanged);
      inserted, updated := UpsertTeam(db, data[i], inserted, updated);
    }
    assert data[..|data|] == data;
    report := Report(inserted, updated, |data|);
  }

  /** The `else` branch of the player loop: overwrite each of the seven fields that differs, noting whether any did. */
  method OverwritePlayer(existing: PlayerRow, teamMap: map<int, int>, p: PlayerRecord) returns (row: PlayerRow, changed: bool)
    ensures row == MakePlayer(teamMap, p, Some(existing), row.id)
    ensures row.id == existing.id
    ensures changed <==> row != existing
  {
    var teamId := TeamIdOf(teamMap, p.team);
    var position := PositionOf(p.elementType);
    row := existing;
    changed := false;
    if row.firstName != p.firstName {
      row := row.(firstName := p.firstName);
      changed := true;
    }
    if row.secondName != p.secondName {
      row := row.(secondName := p.secondName);
      changed := true;
    }
    if row.webName != p.webName {
      row := row.(webName := p.webName);
      changed := true;
    }
    assert changed <==> row != existing;
    if row.teamId != teamId {
      row := row.(teamId := teamId);
      changed := true;
    }
    if row.position != position {
      row := row.(position := position);
      changed := true;
    }
    assert changed <==> row != existing;
    if row.nowCost != p.nowCost {
      row := row.(nowCost := p.nowCost);
      changed := true;
    }
    if row.status != p.status {
      row := row.(status := p.status);
      changed := true;
    }
  }

  /** One iteration of the player loop. */
  method UpsertPlayer(db: Db, teamMap: map<int, int>, p: PlayerRecord, inserted: nat, updated: nat) returns (inserted': nat, updated': nat)
    modifies db
    ensures State(db.players, db.nextPlayerId, inserted', updated')
            == Step(State(old(db.players), old(db.nextPlayerId), inserted, updated), p, PlayerKey,
                    (p, o, id) => MakePlayer(teamMap, p, o, id), CountChanged)
    ensures db.teams == old(db.teams) && db.nextTeamId == old(db.nextTeamId) && db.gwStats == old(db.gwStats)
    ensures db.gameweeks == old(db.gameweeks) && db.predictions == old(db.predictions)
  {
    inserted', updated' := inserted, updated;
    if p.id !in db.players {
      db.players := db.players[p.id := PlayerRow(db.nextPlayerId, p.firstName, p.secondName, p.webName,
                                                 TeamIdOf(teamMap, p.team), PositionOf(p.elementType), p.nowCost, p.status)];
      db.nextPlayerId := db.nextPlayerId + 1;
      inserted' := inserted' + 1;
    } else {
      var existing, changed := OverwritePlayer(db.players[p.id], teamMap, p);
      db.players := db.players[p.id := existing];
      if changed {
        updated' := updated' + 1;
      }
    }
  }

  /** The player loop, against the team map built after the team loop. */
  method UpsertPlayers(db: Db, teamMap: map<int, int>, data: seq<PlayerRecord>) returns (report: Report)
    modifies db
    ensures State(db.players, db.nextPlayerId, report.inserted, report.updated) == PlayersRun(old(db.players), old(db.nextPlayerId), teamMap, data)
    ensures report.totalSource == |data|
    ensures db.teams == old(db.teams) && db.nextTeamId == old(db.nextTeamId) && db.gwStats == old(db.gwStats)
    ensures db.gameweeks == old(db.gameweeks) && db.predictions == old(db.predictions)
  {
    var make := (p, o, id) => MakePlayer(teamMap, p, o, id);
    var s0 := State(db.players, db.nextPlayerId, 0, 0);
    var inserted := 0;
    var updated := 0;
    for i := 0 to |data|
      invariant State(db.players, db.nextPlayerId, inserted, updated) == Run(s0, data[..i], PlayerKey, make, CountChanged)
      invariant db.teams == old(db.teams) && db.nextTeamId == old(db.nextTeamId) && db.gwStats == old(db.gwStats)
      invariant db.gameweeks == old(db.gameweeks) && db.predictions == old(db.predictions)
    {
      RunPrefix(s0, data, i, PlayerKey, make, CountChanged);
      inserted, updated := UpsertPlayer(db, teamMap, data[i], inserted, updated);
    }
    assert data[..|data|] == data;
    report := Report(inserted, updated, |data|);
  }

  /** ingest_fpl_bootstrap: the two tables end as Bootstrap says, with its counters reported. */
  method IngestFplBootstrap(db: Db, teamsData: seq<TeamRecord>, playersData: seq<PlayerRecord>)
    returns (teams: Report, players: Report)
    modifies db
    ensures (State(db.teams, db.nextTeamId, teams.inserted, teams.updated),
             State(db.players, db.nextPlayerId, players.inserted, players.updated))
            == Bootstrap(old(db.teams), old(db.nextTeamId), old(db.players), old(db.nextPlayerId), teamsData, playersData)
    ensures teams.totalSource == |teamsData| && players.totalSource == |playersData|
    ensures db.gwStats == old(db.gwStats) && db.gameweeks == old(db.gameweeks) && db.predictions == old(db.predictions)
  {
    teams := UpsertTeams(db, teamsData);
    var teamMap := TeamMap(db.teams);
    players := UpsertPlayers(db, teamMap, playersData);
  }
}
