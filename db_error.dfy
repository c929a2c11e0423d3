/**
  * `handleDBError` (service/_handleDBError.ts): the ordered table that turns a
  * database error into a domain error. It never returns normally: every
  * path throws, either the domain error that a rule names or the original
  * error unchanged. Here it returns the error that is thrown.
  */
module DbErrors {
  import opened Text
  import opened Errors

  const UniqueViolation := "P2002"
  const RecordNotFound := "P2025"
  const ForeignKeyViolation := "P2003"

  const TeamNameExists := "A team with this name already exists"
  const EmailExists := "There is already a user with this email address"
  const ItemExists := "This item already exists"
  const UserMissing := "This user does not exist"
  const PlayerMissing := "This player does not exist"
  const NoUserWithId := "No user with this id exists"
  const NoPlayerWithId := "No player with this id exists"
  const NoTeamWithId := "No team with this id exists"
  const NoStatWithId := "No stat with this id exists"

  /** The error `handleDBError(e)` throws: one switch per known code, then the rethrow. */
  function HandleDBError(e: Error): (r: Error)
    ensures r == e || (r.Service? && r.kind in {ValidationFailed, NotFound, Conflict})
    ensures e.Db? && e.db.code == UniqueViolation ==> r.Service? && r.kind == ValidationFailed
    ensures !e.Db? ==> r == e
  {
    match e
    case Db(d) =>
      if d.code == UniqueViolation then UniqueViolationError(d.message)
      else if d.code == RecordNotFound then RecordNotFoundError(d)
      else if d.code == ForeignKeyViolation then ForeignKeyError(d)
      else e
    case _ => e
  }

  /** The P2002 switch: it always throws a validation error. */
  function UniqueViolationError(message: string): (r: Error)
    ensures r.Service? && r.kind == ValidationFailed
  {
    if Contains(message, "idx_team_name_user_id_unique") then Service(ValidationFailed, TeamNameExists)
    else if Contains(message, "idx_user_email_unique") then Service(ValidationFailed, EmailExists)
    else Service(ValidationFailed, ItemExists)
  }

  /** The P2025 switch; when no case fires, the original error is rethrown. */
  function RecordNotFoundError(d: DbError): (r: Error)
    ensures r == Db(d) || (r.Service? && r.kind == NotFound)
  {
    var message := d.message;
    if Contains(message, "fk_player_user") then Service(NotFound, UserMissing)
    else if Contains(message, "fk_team_user") then Service(NotFound, UserMissing)
    else if Contains(message, "fk_stat_player") then Service(NotFound, PlayerMissing)
    else if Contains(message, "user") then Service(NotFound, NoUserWithId)
    else if Contains(message, "player") then Service(NotFound, NoPlayerWithId)
    else if Contains(message, "team") then Service(NotFound, NoTeamWithId)
    else if Contains(message, "stat") then Service(NotFound, NoStatWithId)
    else Db(d)
  }

  /** The P2003 switch; when no case fires, the original error is rethrown. */
  function ForeignKeyError(d: DbError): (r: Error)
    ensures r == Db(d) || (r.Service? && r.kind == Conflict)
  {
    if Contains(d.message, "player_id") then Service(Conflict, PlayerMissing)
    else if Contains(d.message, "user_id") then Service(Conflict, UserMissing)
    else Db(d)
  }

  /** One row of the decision table: the code, the substring, and the domain error it gives. */
  datatype Rule = Rule(code: string, needle: string, kind: Kind, message: string)

  /**
    * The same table written as data, in the order of the source; the
    * default case of the P2002 switch is the rule whose substring is empty.
    */
  const Rules: seq<Rule> := [
    Rule(UniqueViolation, "idx_team_name_user_id_unique", ValidationFailed, TeamNameExists),
    Rule(UniqueViolation, "idx_user_email_unique", ValidationFailed, EmailExists),
    Rule(UniqueViolation, "", ValidationFailed, ItemExists),
    Rule(RecordNotFound, "fk_player_user", NotFound, UserMissing),
    Rule(RecordNotFound, "fk_team_user", NotFound, UserMissing),
    Rule(RecordNotFound, "fk_stat_player", NotFound, PlayerMissing),
    Rule(RecordNotFound, "user", NotFound, NoUserWithId),
    Rule(RecordNotFound, "player", NotFound, NoPlayerWithId),
    Rule(RecordNotFound, "team", NotFound, NoTeamWithId),
    Rule(RecordNotFound, "stat", NotFound, NoStatWithId),
    Rule(ForeignKeyViolation, "player_id", Conflict, PlayerMissing),
    Rule(ForeignKeyViolation, "user_id", Conflict, UserMissing)
  ]

  predicate Fires(rule: Rule, e: DbError) {
    rule.code == e.code && Contains(e.message, rule.needle)
  }

  /** The first rule of `rules`, from index `k` on, that fires on `e`. */
  function FirstMatch(rules: seq<Rule>, k: nat, e: DbError): (r: Option<Rule>)
    ensures r.Some? ==> r.value in rules && Fires(r.value, e)
    ensures r.None? ==> forall j :: k <= j < |rules| ==> !Fires(rules[j], e)
    decreases |rules| - k
  {
    if k >= |rules| then None
    else if Fires(rules[k], e) then Some(rules[k])
    else FirstMatch(rules, k + 1, e)
  }

  /** What a table lookup throws: the rule's domain error, or the original error when none fired. */
  function Thrown(found: Option<Rule>, e: DbError): Error {
    match found
    case Some(rule) => Service(rule.kind, rule.message)
    case None => Db(e)
  }

  /** What the table throws for `e`. */
  function ByTable(e: DbError): Error {
    Thrown(FirstMatch(Rules, 0, e), e)
  }

  lemma Hit(k: nat, e: DbError)
    requires k < |Rules| && Fires(Rules[k], e)
    ensures FirstMatch(Rules, k, e) == Some(Rules[k])
  {
  }

  lemma Skip(k: nat, e: DbError)
    requires k < |Rules| && !Fires(Rules[k], e)
    ensures FirstMatch(Rules, k, e) == FirstMatch(Rules, k + 1, e)
  {
  }

  lemma SkipOtherCode(k: nat, e: DbError)
    requires k < |Rules| && Rules[k].code != e.code
    ensures FirstMatch(Rules, k, e) == FirstMatch(Rules, k + 1, e)
  {
  }

  /** `handleDBError` is exactly the first-match reading of its table. */
  lemma HandleDBErrorIsFirstMatch(e: DbError)
    ensures HandleDBError(Db(e)) == ByTable(e)
  {
    if e.code == UniqueViolation {
      FromUniqueViolation(e);
    } else {
      SkipUniqueViolationRules(e);
      if e.code == RecordNotFound {
        FromRecordNotFound(e);
      } else {
        FromOtherCodes(e);
      }
    }
  }

  lemma FromUniqueViolation(e: DbError)
    requires e.code == UniqueViolation
    ensures HandleDBError(Db(e)) == Thrown(FirstMatch(Rules, 0, e), e)
  {
    var m := e.message;
    if Contains(m, "idx_team_name_user_id_unique") {
      Hit(0, e);
    } else if Contains(m, "idx_user_email_unique") {
      Skip(0, e); Hit(1, e);
    } else {
      Skip(0, e); Skip(1, e); Hit(2, e);
    }
  }

  lemma FromOtherCodes(e: DbError)
    requires e.code != UniqueViolation && e.code != RecordNotFound
    ensures HandleDBError(Db(e)) == Thrown(FirstMatch(Rules, 3, e), e)
  {
    SkipRecordNotFoundRules(3, e);
    if e.code == ForeignKeyViolation && Contains(e.message, "player_id") {
      Hit(10, e);
    } else if e.code == ForeignKeyViolation && Contains(e.message, "user_id") {
      Skip(10, e); Hit(11, e);
    } else {
      Skip(10, e); Skip(11, e);
      assert FirstMatch(Rules, 12, e) == None;
    }
  }

  /** The P2002 rules never fire on an error with another code. */
  lemma SkipUniqueViolationRules(e: DbError)
    requires e.code != UniqueViolation
    ensures FirstMatch(Rules, 0, e) == FirstMatch(Rules, 3, e)
  {
    SkipOtherCode(0, e);
    SkipOtherCode(1, e);
    SkipOtherCode(2, e);
  }

  /** The P2025 rules, from `k` on, never fire on an error with another code. */
  lemma {:induction false} SkipRecordNotFoundRules(k: nat, e: DbError)
    requires 3 <= k <= 10 && e.code != RecordNotFound
    ensures FirstMatch(Rules, k, e) == FirstMatch(Rules, 10, e)
    decreases 10 - k
  {
    if k < 10 {
      assert Rules[k].code == RecordNotFound;
      SkipOtherCode(k, e);
      SkipRecordNotFoundRules(k + 1, e);
    }
  }

  lemma FromRecordNotFound(e: DbError)
    requires e.code == RecordNotFound
    ensures HandleDBError(Db(e)) == Thrown(FirstMatch(Rules, 3, e), e)
  {
    var m := e.message;
    if Contains(m, "fk_player_user") {
      Hit(3, e);
    } else if Contains(m, "fk_team_user") {
      Skip(3, e); Hit(4, e);
    } else if Contains(m, "fk_stat_player") {
      Skip(3, e); Skip(4, e); Hit(5, e);
    } else {
      Skip(3, e); Skip(4, e); Skip(5, e);
      FromPlainCause(e);
    }
  }

  /** A P2025 cause naming no foreign key is matched by entity name, from rule 6 on. */
  lemma FromPlainCause(e: DbError)
    requires e.code == RecordNotFound
    requires !Contains(e.message, "fk_player_user") && !Contains(e.message, "fk_team_user")
    requires !Contains(e.message, "fk_stat_player")
    ensures RecordNotFoundError(e) == Thrown(FirstMatch(Rules, 6, e), e)
  {
    var m := e.message;
    if Contains(m, "user") {
      Hit(6, e);
    } else if Contains(m, "player") {
      Skip(6, e); Hit(7, e);
    } else if Contains(m, "team") {
      Skip(6, e); Skip(7, e); Hit(8, e);
    } else if Contains(m, "stat") {
      Skip(6, e); Skip(7, e); Skip(8, e); Hit(9, e);
    } else {
      Skip(6, e); Skip(7, e); Skip(8, e); Skip(9, e); Skip(10, e); Skip(11, e);
      assert FirstMatch(Rules, 12, e) == None;
    }
  }

  /** A unique-constraint error on the team index names the duplicate team. */
  lemma DuplicateTeamName(message: string)
    requires Contains(message, "idx_team_name_user_id_unique")
    ensures HandleDBError(Db(DbError(UniqueViolation, message))) == Service(ValidationFailed, TeamNameExists)
  {
  }

  /** On the user-email index it names the email, unless the team index is also named. */
  lemma DuplicateEmail(message: string)
    requires Contains(message, "idx_user_email_unique") && !Contains(message, "idx_team_name_user_id_unique")
    ensures HandleDBError(Db(DbError(UniqueViolation, message))) == Service(ValidationFailed, EmailExists)
  {
  }

  /** Any other unique-constraint error is the generic "already exists". */
  lemma DuplicateOther(message: string)
    requires !Contains(message, "idx_user_email_unique") && !Contains(message, "idx_team_name_user_id_unique")
    ensures HandleDBError(Db(DbError(UniqueViolation, message))) == Service(ValidationFailed, ItemExists)
  {
  }

  /**
    * Order matters: a message naming `fk_player_user` also contains
    * `player` and `user`, yet the first rule wins.
    */
  lemma PlayerUserForeignKeyWins(message: string)
    requires Contains(message, "fk_player_user")
    ensures Contains(message, "player") && Contains(message, "user")
    ensures HandleDBError(Db(DbError(RecordNotFound, message))) == Service(NotFound, UserMissing)
  {
    var key := "fk_player_user";
    assert OccursAt(key, "player", 3);
    assert OccursAt(key, "user", 10);
    ContainsIffOccurs(key, "player");
    ContainsIffOccurs(key, "user");
    ContainsTransitive(message, "fk_player_user", "player");
    ContainsTransitive(message, "fk_player_user", "user");
  }

  /** A record-not-found error that names none of the seven substrings is rethrown as it is. */
  lemma RecordNotFoundUnmatchedRethrows(message: string)
    requires forall needle :: needle in ["fk_player_user", "fk_team_user", "fk_stat_player", "user", "player", "team", "stat"]
               ==> !Contains(message, needle)
    ensures HandleDBError(Db(DbError(RecordNotFound, message))) == Db(DbError(RecordNotFound, message))
  {
    assert !Contains(message, "user");
    assert !Contains(message, "player");
    assert !Contains(message, "team");
    assert !Contains(message, "stat");
  }

  /** The message names one of the three foreign keys the first P2025 cases look for. */
  predicate NamesForeignKey(message: string) {
    Contains(message, "fk_player_user") || Contains(message, "fk_team_user") || Contains(message, "fk_stat_player")
  }

  /** A record-not-found message that names the user table and no foreign key is "No user with this id exists". */
  lemma NotFoundNamesUser(message: string)
    requires Contains(message, "user") && !NamesForeignKey(message)
    ensures HandleDBError(Db(DbError(RecordNotFound, message))) == Service(NotFound, NoUserWithId)
  {
  }

  /**
    * A record-not-found message that names the team table but neither
    * `user`, `player` nor a foreign key is "No team with this id exists".
    */
  lemma NotFoundNamesTeam(message: string)
    requires Contains(message, "team") && !Contains(message, "user") && !Contains(message, "player")
    requires !NamesForeignKey(message)
    ensures HandleDBError(Db(DbError(RecordNotFound, message))) == Service(NotFound, NoTeamWithId)
  {
  }

  /** A foreign-key error naming `player_id` is a conflict about the player, even if it names `user_id` too. */
  lemma ForeignKeyPlayerFirst(message: string)
    requires Contains(message, "player_id")
    ensures HandleDBError(Db(DbError(ForeignKeyViolation, message))) == Service(Conflict, PlayerMissing)
  {
  }

  /** A foreign-key error naming only `user_id` is a conflict about the user; naming neither, it is rethrown. */
  lemma ForeignKeyUserOrRethrow(message: string)
    requires !Contains(message, "player_id")
    ensures HandleDBError(Db(DbError(ForeignKeyViolation, message)))
         == if Contains(message, "user_id") then Service(Conflict, UserMissing)
            else Db(DbError(ForeignKeyViolation, message))
  {
  }

  /** Every other code, the empty code of an error without one included, is rethrown unchanged. */
  lemma OtherCodesRethrow(code: string, message: string)
    requires code !in {UniqueViolation, RecordNotFound, ForeignKeyViolation}
    ensures HandleDBError(Db(DbError(code, message))) == Db(DbError(code, message))
  {
  }

  /**
    * Passing an error through the handler twice changes nothing more: a
    * domain error thrown inside a `try` block whose `catch` calls the
    * handler comes out as it went in.
    */
  lemma HandleDBErrorIdempotent(e: Error)
    ensures HandleDBError(HandleDBError(e)) == HandleDBError(e)
  {
  }
}
