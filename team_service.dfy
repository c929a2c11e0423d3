/**
  * service/team.ts: teams are visible to their owner (and all of them to
  * an admin), and every change first checks that the caller owns the team.
  * A lineup is refused a sixth player, which keeps every team at five
  * players or fewer.
  */
module TeamService {
  import opened Errors
  import opened Store
  import Text
  import DbErrors

  const NoTeam := DbErrors.NoTeamWithId
  const TeamFull := "Team already has 5 players"
  const NotInTeam := "No player with this id exists in the team"

  predicate OwnsTeam(teams: map<int, Team>, id: int, userId: int) {
    id in teams && teams[id].owner == userId
  }

  /** `getAllTeams`: an admin sees every team, anyone else exactly their own. */
  function GetAllTeams(db: Db, userId: int, roles: seq<string>): (r: map<int, Team>)
    reads db
    ensures forall id :: id in r <==> id in db.teams && (ADMIN in roles || db.teams[id].owner == userId)
    ensures forall id :: id in r ==> r[id] == db.teams[id]
  {
    map id | id in db.teams && (ADMIN in roles || db.teams[id].owner == userId) :: db.teams[id]
  }

  /** `getTeamById`: a team the caller may not see is reported as missing. */
  function GetTeamById(db: Db, id: int, userId: int, roles: seq<string>): (r: Result<Team>)
    reads db
    ensures r.Ok? <==> id in db.teams && (ADMIN in roles || db.teams[id].owner == userId)
    ensures r.Ok? ==> r.value == db.teams[id]
    ensures r.Err? ==> r.error == Service(NotFound, NoTeam)
  {
    if id in db.teams && (ADMIN in roles || db.teams[id].owner == userId) then Ok(db.teams[id])
    else Err(Service(NotFound, NoTeam))
  }

  /** `checkUserHasTeam`: the team exists and the caller owns it; roles play no part. */
  function CheckUserHasTeam(db: Db, teamId: int, userId: int): (r: Outcome)
    reads db
    ensures r.Pass? <==> OwnsTeam(db.teams, teamId, userId)
    ensures r.Fail? ==> r.error == Service(NotFound, NoTeam)
  {
    if OwnsTeam(db.teams, teamId, userId) then Pass else Fail(Service(NotFound, NoTeam))
  }

  /** `checkTeamHas5Players`: fails only for an existing team with five players or more. */
  function CheckTeamHas5Players(db: Db, teamId: int): (r: Outcome)
    reads db
    ensures r.Fail? <==> teamId in db.teams && |db.teams[teamId].players| >= MaxTeamPlayers
    ensures r.Fail? ==> r.error == Service(Conflict, TeamFull)
  {
    if teamId in db.teams && |db.teams[teamId].players| >= MaxTeamPlayers then Fail(Service(Conflict, TeamFull))
    else Pass
  }

  /** `checkTeamHasPlayer`: the player is in the team's lineup. */
  function CheckTeamHasPlayer(db: Db, teamId: int, playerId: int): (r: Outcome)
    reads db
    ensures r.Pass? <==> teamId in db.teams && playerId in db.teams[teamId].players
    ensures r.Fail? ==> r.error == Service(NotFound, NotInTeam)
  {
    if teamId in db.teams && playerId in db.teams[teamId].players then Pass else Fail(Service(NotFound, NotInTeam))
  }

  /** Keeping names and owners keeps the per-owner name index intact. */
  lemma SameNamesKeepIndex(before: map<int, Team>, after: map<int, Team>)
    requires after.Keys <= before.Keys
    requires forall t :: t in after ==> after[t].name == before[t].name && after[t].owner == before[t].owner
    requires forall t :: t in before ==> !NameClash(before, t, before[t].name, before[t].owner)
    ensures forall t :: t in after ==> !NameClash(after, t, after[t].name, after[t].owner)
  {
    forall t | t in after
      ensures !NameClash(after, t, after[t].name, after[t].owner)
    {
      assert !NameClash(before, t, before[t].name, before[t].owner);
    }
  }

  /** `createTeam`: a new, empty team owned by the caller, unless the caller already has a team of that name. */
  method CreateTeam(db: Db, name: string, userId: int) returns (r: Result<Row<Team>>)
    requires db.Valid()
    modifies db
    ensures db.Valid()
    ensures r.Ok? <==> !NameInUse(old(db.teams), name, userId)
    ensures r.Ok? ==> r.value.id !in old(db.teams) && r.value.value == Team(name, userId, {})
                      && db.teams == old(db.teams)[r.value.id := r.value.value]
    ensures r.Err? ==> r.error == Service(ValidationFailed, DbErrors.TeamNameExists) && db.teams == old(db.teams)
    ensures db.users == old(db.users) && db.players == old(db.players) && db.stats == old(db.stats)
  {
    if NameInUse(db.teams, name, userId) {
      TeamNameIndexError();
      return Err(DbErrors.HandleDBError(Db(UniqueFailed(TeamNameIndex))));
    }
    var id := db.nextTeamId;
    var team := Team(name, userId, {});
    db.teams := db.teams[id := team];
    db.nextTeamId := id + 1;
    forall t | t in db.teams
      ensures !NameClash(db.teams, t, db.teams[t].name, db.teams[t].owner)
    {
      if t != id {
        assert !NameClash(old(db.teams), t, db.teams[t].name, db.teams[t].owner);
      }
    }
    r := Ok(Row(id, team));
  }

  /** `updateTeamNameById`: only the name of an owned team changes, and only to a name the owner has not used. */
  method UpdateTeamNameById(db: Db, id: int, userId: int, name: string) returns (r: Result<Row<Team>>)
    requires db.Valid()
    modifies db
    ensures db.Valid()
    ensures !OwnsTeam(old(db.teams), id, userId) ==> r == Err(Service(NotFound, NoTeam))
    ensures OwnsTeam(old(db.teams), id, userId) && NameClash(old(db.teams), id, name, userId)
            ==> r == Err(Service(ValidationFailed, DbErrors.TeamNameExists))
    ensures r.Ok? <==> OwnsTeam(old(db.teams), id, userId) && !NameClash(old(db.teams), id, name, userId)
    ensures r.Ok? ==> db.teams == old(db.teams)[id := old(db.teams)[id].(name := name)]
                      && r.value == Row(id, db.teams[id])
    ensures r.Err? ==> db.teams == old(db.teams)
    ensures db.users == old(db.users) && db.players == old(db.players) && db.stats == old(db.stats)
  {
    var owns := CheckUserHasTeam(db, id, userId);
    if owns.Fail? {
      return Err(DbErrors.HandleDBError(owns.error));
    }
    if NameClash(db.teams, id, name, userId) {
      TeamNameIndexError();
      return Err(DbErrors.HandleDBError(Db(UniqueFailed(TeamNameIndex))));
    }
    var team := db.teams[id].(name := name);
    db.teams := db.teams[id := team];
    forall t | t in db.teams
      ensures !NameClash(db.teams, t, db.teams[t].name, db.teams[t].owner)
    {
      if t != id {
        assert !NameClash(old(db.teams), t, db.teams[t].name, db.teams[t].owner);
      }
    }
    r := Ok(Row(id, team));
  }

  /**
    * `addPlayerToTeam`: ownership first, then the size limit, then the
    * player must exist; adding a player already in the lineup changes nothing.
    * A missing player is the mapper's failed-connect error, with message
    * `notFound`, as `handleDBError` translates it.
    */
  method AddPlayerToTeam(db: Db, id: int, playerId: int, userId: int, notFound: string) returns (r: Result<Row<Team>>)
    requires db.Valid()
    modifies db
    ensures db.Valid()
    ensures !OwnsTeam(old(db.teams), id, userId) ==> r == Err(Service(NotFound, NoTeam))
    ensures OwnsTeam(old(db.teams), id, userId) && |old(db.teams)[id].players| >= MaxTeamPlayers
            ==> r == Err(Service(Conflict, TeamFull))
    ensures OwnsTeam(old(db.teams), id, userId) && |old(db.teams)[id].players| < MaxTeamPlayers
            && playerId !in old(db.players)
            ==> r == Err(DbErrors.HandleDBError(Db(RecordMissing(notFound))))
    ensures OwnsTeam(old(db.teams), id, userId) && |old(db.teams)[id].players| < MaxTeamPlayers
            && playerId !in old(db.players)
            && Text.Contains(notFound, "team") && !Text.Contains(notFound, "user") && !Text.Contains(notFound, "player")
            && !DbErrors.NamesForeignKey(notFound)
            ==> r == Err(Service(NotFound, NoTeam))
    ensures r.Ok? <==> OwnsTeam(old(db.teams), id, userId) && |old(db.teams)[id].players| < MaxTeamPlayers
                       && playerId in old(db.players)
    ensures r.Ok? ==> db.teams == old(db.teams)[id := old(db.teams)[id].(players := old(db.teams)[id].players + {playerId})]
                      && r.value == Row(id, db.teams[id])
    ensures r.Ok? && playerId in old(db.teams)[id].players ==> db.teams == old(db.teams)
    ensures r.Err? ==> db.teams == old(db.teams)
    ensures db.users == old(db.users) && db.players == old(db.players) && db.stats == old(db.stats)
  {
    var owns := CheckUserHasTeam(db, id, userId);
    if owns.Fail? {
      return Err(DbErrors.HandleDBError(owns.error));
    }
    var size := CheckTeamHas5Players(db, id);
    if size.Fail? {
      return Err(DbErrors.HandleDBError(size.error));
    }
    if playerId !in db.players {
      if Text.Contains(notFound, "team") && !Text.Contains(notFound, "user") && !Text.Contains(notFound, "player")
         && !DbErrors.NamesForeignKey(notFound) {
        DbErrors.NotFoundNamesTeam(notFound);
      }
      return Err(DbErrors.HandleDBError(Db(RecordMissing(notFound))));
    }
    var team := db.teams[id].(players := db.teams[id].players + {playerId});
    assert playerId in db.teams[id].players ==> team == db.teams[id];
    SameNamesKeepIndex(db.teams, db.teams[id := team]);
    db.teams := db.teams[id := team];
    r := Ok(Row(id, team));
  }

  /** `removePlayerFromTeam`: the player must be in the owned team; afterwards exactly that player is gone. */
  method RemovePlayerFromTeam(db: Db, id: int, playerId: int, userId: int) returns (r: Result<Row<Team>>)
    requires db.Valid()
    modifies db
    ensures db.Valid()
    ensures !OwnsTeam(old(db.teams), id, userId) ==> r == Err(Service(NotFound, NoTeam))
    ensures OwnsTeam(old(db.teams), id, userId) && playerId !in old(db.teams)[id].players
            ==> r == Err(Service(NotFound, NotInTeam))
    ensures r.Ok? <==> OwnsTeam(old(db.teams), id, userId) && playerId in old(db.teams)[id].players
    ensures r.Ok? ==> db.teams == old(db.teams)[id := old(db.teams)[id].(players := old(db.teams)[id].players - {playerId})]
                      && r.value == Row(id, db.teams[id])
    ensures r.Err? ==> db.teams == old(db.teams)
    ensures db.users == old(db.users) && db.players == old(db.players) && db.stats == old(db.stats)
  {
    var owns := CheckUserHasTeam(db, id, userId);
    if owns.Fail? {
      return Err(DbErrors.HandleDBError(owns.error));
    }
    var member := CheckTeamHasPlayer(db, id, playerId);
    if member.Fail? {
      return Err(DbErrors.HandleDBError(member.error));
    }
    var team := db.teams[id].(players := db.teams[id].players - {playerId});
    SameNamesKeepIndex(db.teams, db.teams[id := team]);
    db.teams := db.teams[id := team];
    r := Ok(Row(id, team));
  }

  /** `deleteTeamById`: removes exactly the owned team. */
  method DeleteTeamById(db: Db, id: int, userId: int) returns (r: Outcome)
    requires db.Valid()
    modifies db
    ensures db.Valid()
    ensures r.Pass? <==> OwnsTeam(old(db.teams), id, userId)
    ensures r.Pass? ==> db.teams == old(db.teams) - {id}
    ensures r.Fail? ==> r.error == Service(NotFound, NoTeam) && db.teams == old(db.teams)
    ensures db.users == old(db.users) && db.players == old(db.players) && db.stats == old(db.stats)
  {
    var owns := CheckUserHasTeam(db, id, userId);
    if owns.Fail? {
      return Fail(DbErrors.HandleDBError(owns.error));
    }
    SameNamesKeepIndex(db.teams, db.teams - {id});
    db.teams := db.teams - {id};
    r := Pass;
  }

  /** Adding a new player and then removing it gives back the lineup the team had. */
  method AddThenRemove(db: Db, id: int, playerId: int, userId: int, notFound: string) returns (added: Result<Row<Team>>, removed: Result<Row<Team>>)
    requires db.Valid()
    requires OwnsTeam(db.teams, id, userId) && playerId !in db.teams[id].players
    modifies db
    ensures db.Valid()
    ensures added.Ok? ==> removed.Ok? && db.teams == old(db.teams)
  {
    added := AddPlayerToTeam(db, id, playerId, userId, notFound);
    removed := RemovePlayerFromTeam(db, id, playerId, userId);
    if added.Ok? {
      assert old(db.teams)[id].players + {playerId} - {playerId} == old(db.teams)[id].players;
      assert old(db.teams)[id].(players := old(db.teams)[id].players) == old(db.teams)[id];
    }
  }
}
