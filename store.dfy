/**
 * The database tables the routes read and write, each a map keyed by the
 * table's unique key (the primary keys the ORM assigns are kept as fields).
 */
module Store {
  import opened Wrappers
  import opened Ordering

  /** teams: keyed by fpl_team_id. */
  datatype TeamRow = TeamRow(id: int, name: string, shortName: string)

  /** players: keyed by fpl_player_id; `team_id` is None when the FPL team is unknown. */
  datatype PlayerRow = PlayerRow(id: int, firstName: string, secondName: string, webName: string,
                                 teamId: Option<int>, position: string, nowCost: int, status: string)

  /** player_gw_stats: keyed by (player_id, gw). */
  datatype StatRow = StatRow(minutes: int, goalsScored: int, assists: int, cleanSheets: int, totalPoints: int)

  /** gameweeks: keyed by gw; the deadline is kept as the normalised ISO text parse_dt returns. */
  datatype GameweekRow = GameweekRow(deadline: Option<string>, isCurrent: bool, isNext: bool,
                                     isFinished: bool, name: Option<string>)

  /**
   * The lookup dictionaries the ingest routes build from a table keyed by FPL
   * id: each FPL id mapped to its row's primary key `key(row)`.
   */
  function PrimaryKeys<R>(rows: map<int, R>, key: R -> int): (m: map<int, int>)
    ensures m.Keys == rows.Keys
    ensures forall k :: k in m ==> m[k] == key(rows[k])
  {
    map k | k in rows :: key(rows[k])
  }

  /** predictions: unique on (player_id, target_gw, model_name). */
  datatype PredictionKey = PredictionKey(playerId: int, targetGw: int, modelName: string)

  class Db {
    var teams: map<int, TeamRow>
    var players: map<int, PlayerRow>
    var gwStats: map<(int, int), StatRow>
    var gameweeks: map<int, GameweekRow>
    var predictions: map<PredictionKey, real>
    /** The next primary keys the database hands out. */
    var nextTeamId: int
    var nextPlayerId: int

    constructor ()
      ensures teams == map[] && players == map[] && gwStats == map[] && gameweeks == map[] && predictions == map[]
      ensures nextTeamId == 1 && nextPlayerId == 1
    {
      teams := map[];
      players := map[];
      gwStats := map[];
      gameweeks := map[];
      predictions := map[];
      nextTeamId := 1;
      nextPlayerId := 1;
    }
  }

  // ---------------------------------------------------------------------------
  // `select(Gameweek).where(<flag> == True)...first()`
  // ---------------------------------------------------------------------------

  datatype Flag = Current | Next | Finished

  predicate HasFlag(row: GameweekRow, f: Flag)
  {
    match f
    case Current => row.isCurrent
    case Next => row.isNext
    case Finished => row.isFinished
  }

  /** The gameweeks carrying a flag. */
  function Flagged(gws: map<int, GameweekRow>, f: Flag): (s: set<int>)
    ensures forall g :: g in s <==> g in gws && HasFlag(gws[g], f)
  {
    set g | g in gws && HasFlag(gws[g], f)
  }

  /**
   * `.first()` of the flagged gameweeks.  The query has no ORDER BY; the model
   * takes the lowest flagged gw.
   */
  function FirstFlagged(gws: map<int, GameweekRow>, f: Flag): (r: Option<int>)
    ensures r.None? <==> forall g :: g in gws ==> !HasFlag(gws[g], f)
    ensures r.Some? ==> r.value in gws && HasFlag(gws[r.value], f)
    ensures r.Some? ==> forall g :: g in gws && HasFlag(gws[g], f) ==> r.value <= g
  {
    var s := Flagged(gws, f);
    if s == {} then None else Some(SetMin(s))
  }

  const NoNextGameweekError: string := "No next gameweek found. Run /gameweeks/ingest/fpl first."

  /** _decide_target_gw: an explicit target wins; otherwise the gameweek flagged is_next, or an error. */
  function DecideTargetGw(gws: map<int, GameweekRow>, targetGw: Option<int>): (r: Result<int, string>)
    ensures targetGw.Some? ==> r == Ok(targetGw.value)
    ensures targetGw.None? && r.Ok? ==> r.value in gws && gws[r.value].isNext
    ensures targetGw.None? ==> (r.Err? <==> forall g :: g in gws ==> !gws[g].isNext)
    ensures r.Err? ==> r.error == NoNextGameweekError
  {
    if targetGw.Some? then Ok(targetGw.value)
    else
      match FirstFlagged(gws, Next)
      case None => Err(NoNextGameweekError)
      case Some(g) => Ok(g)
  }
}
