/**
  * The relational store the services work on, as in-memory tables keyed by
  * the auto-incremented id, and the errors the object-relational mapper
  * raises when a constraint or a required record is missing.
  */
module Store {
  import opened Errors
  import Text
  import DbErrors

  /** Role tags stored on a user. */
  const USER := "user"
  const ADMIN := "admin"

  /** A team's lineup never holds more players than this. */
  const MaxTeamPlayers := 5

  /** Unique indexes of the schema, as the error table names them. */
  const TeamNameIndex := "idx_team_name_user_id_unique"
  const EmailIndex := "idx_user_email_unique"

  datatype User = User(name: string, email: string, passwordHash: string, roles: seq<string>)
  datatype Team = Team(name: string, owner: int, players: set<int>)
  datatype Player = Player(name: string, position: string, owner: int)
  datatype Stat = Stat(player: int, points: int, rebounds: int, assists: int, steals: int, turnovers: int)

  /** A record together with its id, as the mapper returns it. */
  datatype Row<T> = Row(id: int, value: T)

  /** Some user other than `id` already has `email`. */
  predicate EmailClash(users: map<int, User>, id: int, email: string) {
    exists u :: u in users && u != id && users[u].email == email
  }

  /** Some user already has `email`. */
  predicate EmailInUse(users: map<int, User>, email: string) {
    exists u :: u in users && users[u].email == email
  }

  /** Some team of `owner` already has `name`. */
  predicate NameInUse(teams: map<int, Team>, name: string, owner: int) {
    exists t :: t in teams && teams[t].name == name && teams[t].owner == owner
  }

  /** Some team other than `id` of the same owner already has `name`. */
  predicate NameClash(teams: map<int, Team>, id: int, name: string, owner: int) {
    exists t :: t in teams && t != id && teams[t].name == name && teams[t].owner == owner
  }

  /** The error the mapper raises when a write would break the unique index `index`. */
  function UniqueFailed(index: string): DbError {
    DbError(DbErrors.UniqueViolation, index)
  }

  /**
    * The error the mapper raises when a record a write needs does not
    * exist. Its `message` is the mapper's own text, which the services
    * receive as a parameter: its wording is not part of this model.
    */
  function RecordMissing(cause: string): DbError {
    DbError(DbErrors.RecordNotFound, cause)
  }

  /** A write that breaks the email index is reported as a taken email address. */
  lemma EmailIndexError()
    ensures DbErrors.HandleDBError(Db(UniqueFailed(EmailIndex))) == Service(ValidationFailed, DbErrors.EmailExists)
  {
    Text.ContainsMiddle("", EmailIndex, "");
    assert "" + EmailIndex + "" == EmailIndex;
    DbErrors.DuplicateEmail(EmailIndex);
  }

  /** A write that breaks the team-name index is reported as a taken team name. */
  lemma TeamNameIndexError()
    ensures DbErrors.HandleDBError(Db(UniqueFailed(TeamNameIndex))) == Service(ValidationFailed, DbErrors.TeamNameExists)
  {
    Text.ContainsMiddle("", TeamNameIndex, "");
    assert "" + TeamNameIndex + "" == TeamNameIndex;
    DbErrors.DuplicateTeamName(TeamNameIndex);
  }

  class Db {
    var users: map<int, User>
    var teams: map<int, Team>
    var players: map<int, Player>
    var stats: map<int, Stat>
    var nextUserId: int
    var nextTeamId: int
    var nextPlayerId: int
    var nextStatId: int

    /** The schema's constraints, and the auto-increment counters lie above every id in use. */
    ghost predicate Valid()
      reads this
    {
      && (forall t :: t in teams ==> |teams[t].players| <= MaxTeamPlayers)
      && (forall t :: t in teams ==> !NameClash(teams, t, teams[t].name, teams[t].owner))
      && (forall u :: u in users ==> !EmailClash(users, u, users[u].email))
      && (forall id :: id in users ==> id < nextUserId)
      && (forall id :: id in teams ==> id < nextTeamId)
      && (forall id :: id in players ==> id < nextPlayerId)
      && (forall id :: id in stats ==> id < nextStatId)
    }

    constructor ()
      ensures Valid()
      ensures users == map[] && teams == map[] && players == map[] && stats == map[]
    {
      users, teams, players, stats := map[], map[], map[], map[];
      nextUserId, nextTeamId, nextPlayerId, nextStatId := 1, 1, 1, 1;
    }
  }
}
