/**
  * service/player.ts: players are listed and read by anyone signed in,
  * created for the caller, and changed or deleted only by their owner.
  */
module PlayerService {
  import opened Errors
  import opened Store
  import DbErrors

  const NoPlayer := DbErrors.NoPlayerWithId

  /** The fields an update may carry; an absent field keeps its value. */
  datatype PlayerChanges = PlayerChanges(name: Option<string>, position: Option<string>)

  /** A player after `changes`: given fields are replaced, the owner never changes. */
  function Apply(p: Player, changes: PlayerChanges): (r: Player)
    ensures r.owner == p.owner
    ensures changes.name.Some? ==> r.name == changes.name.value
    ensures changes.name.None? ==> r.name == p.name
    ensures changes.position.Some? ==> r.position == changes.position.value
    ensures changes.position.None? ==> r.position == p.position
  {
    Player(changes.name.GetOr(p.name), changes.position.GetOr(p.position), p.owner)
  }

  /** An empty update leaves a player as it is; applying the same update twice is applying it once. */
  lemma ApplyIdentityAndIdempotent(p: Player, changes: PlayerChanges)
    ensures Apply(p, PlayerChanges(None, None)) == p
    ensures Apply(Apply(p, changes), changes) == Apply(p, changes)
  {
  }

  predicate OwnsPlayer(players: map<int, Player>, id: int, userId: int) {
    id in players && players[id].owner == userId
  }

  /** `getAllPlayers`: every player, whoever owns it. */
  function GetAllPlayers(db: Db): (r: map<int, Player>)
    reads db
    ensures r.Keys == db.players.Keys
    ensures forall id :: id in r ==> r[id] == db.players[id]
  {
    db.players
  }

  /** `getPlayerById`: any existing player, regardless of owner. */
  function GetPlayerById(db: Db, id: int): (r: Result<Player>)
    reads db
    ensures r.Ok? <==> id in db.players
    ensures r.Ok? ==> r.value == db.players[id]
    ensures r.Err? ==> r.error == Service(NotFound, NoPlayer)
  {
    if id in db.players then Ok(db.players[id]) else Err(Service(NotFound, NoPlayer))
  }

  /** `checkUserHasPlayer`: the player exists and belongs to the caller. */
  function CheckUserHasPlayer(db: Db, playerId: int, userId: int): (r: Outcome)
    reads db
    ensures r.Pass? <==> OwnsPlayer(db.players, playerId, userId)
    ensures r.Fail? ==> r.error == Service(NotFound, NoPlayer)
  {
    if OwnsPlayer(db.players, playerId, userId) then Pass else Fail(Service(NotFound, NoPlayer))
  }

  /** `createPlayer`: a fresh id, owned by the caller. */
  method CreatePlayer(db: Db, name: string, position: string, userId: int) returns (r: Result<Row<Player>>)
    requires db.Valid()
    modifies db
    ensures db.Valid()
    ensures r.Ok?
    ensures r.value.id !in old(db.players) && r.value.value == Player(name, position, userId)
    ensures db.players == old(db.players)[r.value.id := r.value.value]
    ensures db.users == old(db.users) && db.teams == old(db.teams) && db.stats == old(db.stats)
  {
    var id := db.nextPlayerId;
    var player := Player(name, position, userId);
    db.players := db.players[id := player];
    db.nextPlayerId := id + 1;
    r := Ok(Row(id, player));
  }

  /** `updatePlayerDetailsById`: only the owner may change a player, and only the given fields change. */
  method UpdatePlayerDetailsById(db: Db, id: int, userId: int, changes: PlayerChanges) returns (r: Result<Row<Player>>)
    requires db.Valid()
    modifies db
    ensures db.Valid()
    ensures r.Ok? <==> OwnsPlayer(old(db.players), id, userId)
    ensures r.Ok? ==> db.players == old(db.players)[id := Apply(old(db.players)[id], changes)]
                      && r.value == Row(id, db.players[id])
    ensures r.Err? ==> r.error == Service(NotFound, NoPlayer) && db.players == old(db.players)
    ensures db.users == old(db.users) && db.teams == old(db.teams) && db.stats == old(db.stats)
  {
    var owns := CheckUserHasPlayer(db, id, userId);
    if owns.Fail? {
      return Err(DbErrors.HandleDBError(owns.error));
    }
    var player := Apply(db.players[id], changes);
    db.players := db.players[id := player];
    r := Ok(Row(id, player));
  }

  /** `deletePlayerById`: removes exactly the owned player. */
  method DeletePlayerById(db: Db, id: int, userId: int) returns (r: Outcome)
    requires db.Valid()
    modifies db
    ensures db.Valid()
    ensures r.Pass? <==> OwnsPlayer(old(db.players), id, userId)
    ensures r.Pass? ==> db.players == old(db.players) - {id}
    ensures r.Fail? ==> r.error == Service(NotFound, NoPlayer) && db.players == old(db.players)
    ensures db.users == old(db.users) && db.teams == old(db.teams) && db.stats == old(db.stats)
  {
    var owns := CheckUserHasPlayer(db, id, userId);
    if owns.Fail? {
      return Fail(DbErrors.HandleDBError(owns.error));
    }
    db.players := db.players - {id};
    r := Pass;
  }
}
