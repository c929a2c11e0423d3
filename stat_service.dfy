/**
  * service/stat.ts: a player's game statistics, reachable only through a
  * player the caller owns. The ownership check always comes before the
  * check that the statistic belongs to that player.
  */
module StatService {
  import opened Errors
  import opened Store
  import DbErrors
  import PlayerService

  const NoStat := DbErrors.NoStatWithId

  /** The five counters of a statistic as a create request carries them. */
  datatype StatInput = StatInput(points: int, rebounds: int, assists: int, steals: int, turnovers: int)

  /** The counters an update may carry; an absent counter keeps its value. */
  datatype StatChanges = StatChanges(points: Option<int>, rebounds: Option<int>, assists: Option<int>,
                                     steals: Option<int>, turnovers: Option<int>)

  const NoChanges := StatChanges(None, None, None, None, None)

  /** A statistic after `changes`: given counters are replaced, the player never changes. */
  function Apply(s: Stat, c: StatChanges): (r: Stat)
    ensures r.player == s.player
    ensures r.points == (if c.points.Some? then c.points.value else s.points)
    ensures r.rebounds == (if c.rebounds.Some? then c.rebounds.value else s.rebounds)
    ensures r.assists == (if c.assists.Some? then c.assists.value else s.assists)
    ensures r.steals == (if c.steals.Some? then c.steals.value else s.steals)
    ensures r.turnovers == (if c.turnovers.Some? then c.turnovers.value else s.turnovers)
  {
    Stat(s.player, c.points.GetOr(s.points), c.rebounds.GetOr(s.rebounds), c.assists.GetOr(s.assists),
         c.steals.GetOr(s.steals), c.turnovers.GetOr(s.turnovers))
  }

  /** An empty update leaves a statistic as it is; applying the same update twice is applying it once. */
  lemma ApplyIdentityAndIdempotent(s: Stat, c: StatChanges)
    ensures Apply(s, NoChanges) == s
    ensures Apply(Apply(s, c), c) == Apply(s, c)
  {
  }

  predicate StatOf(stats: map<int, Stat>, playerId: int, id: int) {
    id in stats && stats[id].player == playerId
  }

  /** `checkStatExists`: the statistic exists and belongs to the player. */
  function CheckStatExists(db: Db, playerId: int, statId: int): (r: Outcome)
    reads db
    ensures r.Pass? <==> StatOf(db.stats, playerId, statId)
    ensures r.Fail? ==> r.error == Service(NotFound, NoStat)
  {
    if StatOf(db.stats, playerId, statId) then Pass else Fail(Service(NotFound, NoStat))
  }

  /** `getStatById`: a missing or foreign player is reported before a missing statistic. */
  function GetStatById(db: Db, playerId: int, id: int, userId: int): (r: Result<Stat>)
    reads db
    ensures !PlayerService.OwnsPlayer(db.players, playerId, userId) ==> r == Err(Service(NotFound, PlayerService.NoPlayer))
    ensures PlayerService.OwnsPlayer(db.players, playerId, userId) && !StatOf(db.stats, playerId, id)
            ==> r == Err(Service(NotFound, NoStat))
    ensures r.Ok? <==> PlayerService.OwnsPlayer(db.players, playerId, userId) && StatOf(db.stats, playerId, id)
    ensures r.Ok? ==> r.value == db.stats[id]
  {
    var owns := PlayerService.CheckUserHasPlayer(db, playerId, userId);
    if owns.Fail? then Err(owns.error)
    else if StatOf(db.stats, playerId, id) then Ok(db.stats[id]) else Err(Service(NotFound, NoStat))
  }

  /** `createStat`: a fresh statistic attached to the player named in the path. */
  method CreateStat(db: Db, playerId: int, input: StatInput, userId: int) returns (r: Result<Row<Stat>>)
    requires db.Valid()
    modifies db
    ensures db.Valid()
    ensures r.Ok? <==> PlayerService.OwnsPlayer(old(db.players), playerId, userId)
    ensures r.Ok? ==> r.value.id !in old(db.stats)
                      && r.value.value == Stat(playerId, input.points, input.rebounds, input.assists, input.steals, input.turnovers)
                      && db.stats == old(db.stats)[r.value.id := r.value.value]
    ensures r.Err? ==> r.error == Service(NotFound, PlayerService.NoPlayer) && db.stats == old(db.stats)
    ensures db.users == old(db.users) && db.teams == old(db.teams) && db.players == old(db.players)
  {
    var owns := PlayerService.CheckUserHasPlayer(db, playerId, userId);
    if owns.Fail? {
      return Err(DbErrors.HandleDBError(owns.error));
    }
    var id := db.nextStatId;
    var stat := Stat(playerId, input.points, input.rebounds, input.assists, input.steals, input.turnovers);
    db.stats := db.stats[id := stat];
    db.nextStatId := id + 1;
    r := Ok(Row(id, stat));
  }

  /** `updateStatById`: player ownership, then the statistic; only the given counters change. */
  method UpdateStatById(db: Db, playerId: int, id: int, changes: StatChanges, userId: int) returns (r: Result<Row<Stat>>)
    requires db.Valid()
    modifies db
    ensures db.Valid()
    ensures !PlayerService.OwnsPlayer(old(db.players), playerId, userId) ==> r == Err(Service(NotFound, PlayerService.NoPlayer))
    ensures PlayerService.OwnsPlayer(old(db.players), playerId, userId) && !StatOf(old(db.stats), playerId, id)
            ==> r == Err(Service(NotFound, NoStat))
    ensures r.Ok? <==> PlayerService.OwnsPlayer(old(db.players), playerId, userId) && StatOf(old(db.stats), playerId, id)
    ensures r.Ok? ==> db.stats == old(db.stats)[id := Apply(old(db.stats)[id], changes)]
                      && r.value == Row(id, db.stats[id])
    ensures r.Err? ==> db.stats == old(db.stats)
    ensures db.users == old(db.users) && db.teams == old(db.teams) && db.players == old(db.players)
  {
    var owns := PlayerService.CheckUserHasPlayer(db, playerId, userId);
    if owns.Fail? {
      return Err(DbErrors.HandleDBError(owns.error));
    }
    var exists_ := CheckStatExists(db, playerId, id);
    if exists_.Fail? {
      return Err(DbErrors.HandleDBError(exists_.error));
    }
    var stat := Apply(db.stats[id], changes);
    db.stats := db.stats[id := stat];
    r := Ok(Row(id, stat));
  }

  /** `deleteStatById`: removes exactly that statistic; the player stays. */
  method DeleteStatById(db: Db, playerId: int, id: int, userId: int) returns (r: Outcome)
    requires db.Valid()
    modifies db
    ensures db.Valid()
    ensures !PlayerService.OwnsPlayer(old(db.players), playerId, userId) ==> r == Fail(Service(NotFound, PlayerService.NoPlayer))
    ensures PlayerService.OwnsPlayer(old(db.players), playerId, userId) && !StatOf(old(db.stats), playerId, id)
            ==> r == Fail(Service(NotFound, NoStat))
    ensures r.Pass? <==> PlayerService.OwnsPlayer(old(db.players), playerId, userId) && StatOf(old(db.stats), playerId, id)
    ensures r.Pass? ==> db.stats == old(db.stats) - {id}
    ensures r.Fail? ==> db.stats == old(db.stats)
    ensures db.users == old(db.users) && db.teams == old(db.teams) && db.players == old(db.players)
  {
    var owns := PlayerService.CheckUserHasPlayer(db, playerId, userId);
    if owns.Fail? {
      return Fail(DbErrors.HandleDBError(owns.error));
    }
    var exists_ := CheckStatExists(db, playerId, id);
    if exists_.Fail? {
      return Fail(DbErrors.HandleDBError(exists_.error));
    }
    db.stats := db.stats - {id};
    r := Pass;
  }
}
