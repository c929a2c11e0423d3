# Player lineup: a verified model of the backend services and the frontend list logic

This project is a Dafny model of the player-lineup application. It is a
fantasy-basketball CRUD app with a Koa/Prisma backend and a React frontend.
Users, players, teams and game statistics are managed through it.

The model covers these parts:

- **Sessions and users** (`UserService`, `user_service.dfy`):
  - the `Authorization` header is parsed into a session;
  - a role check;
  - login, registration, listing, reading, updating and deleting users;
  - the public view of a user.
- **Route guards** (`UserRoutes`, `user_routes.dfy`):
  - `checkUserId` and the `me` resolution;
  - the ordered middleware chains of the `/users` routes.
  - `Run` states the outcome of a chain. `RunChain` is the step-by-step loop the router performs, proved equal to `Run`.
- **Database error translation** (`DbErrors`, `db_error.dfy`):
  - `handleDBError` as it is written;
  - an independent first-match rule table, proved equal to it.
- **The store** (`Store`, `store.dfy`):
  - one `Db` class holding the user, team, player and stat tables as maps keyed by id;
  - its invariant `Valid()`: a team holds at most five players, team names are unique per owner, e-mail addresses are unique, and ids stay below the auto-increment counters.
  - Every service method keeps `Valid()` and states its whole new state.
- **Teams, players, stats** (`TeamService`, `PlayerService`, `StatService`):
  - the ownership checks, in the source's order;
  - the five-player limit;
  - partial updates;
  - exact insertions and deletions.
- **Frontend**:
  - the filtered list pages, with their `text`/`search`/checkbox state (`Lists`);
  - the paginated tables (`Pagination`);
  - the five-slot lineup table, position abbreviations and counter totals (`TeamDetails`);
  - the player comparison selection and guard (`Compare`);
  - the sign-in gate (`PrivateRoute`).

Calls into libraries come in as function parameters, so every property holds for any implementation of them:

- JWT verification and issuing;
- argon2 hashing and verifying.

The store is a set of in-memory maps. The object-relational mapper's errors are built in `Store`:

- `UniqueFailed(index)` carries the violated index name as its message;
- `RecordMissing(message)` carries the mapper's own record-not-found message. Its wording is not fixed: the services that raise it take it as a parameter `notFound`, so their contracts hold for every message.

`handleDBError` reads only these messages.

## Model

| member | source | states |
|---|---|---|
| UserService.MakeExposedUser | playerlineup-backend/src/service/user.ts:12-18 | the public user carries exactly id, name and email |
| UserService.ExposedUserHidesSecrets | playerlineup-backend/src/service/user.ts:12-18 | the public user does not depend on the password hash or the roles |
| UserService.FromVerifier | playerlineup-backend/src/service/user.ts:31-49 | a session comes back exactly when the verifier accepts the token; every failure is `Unauthorized` |
| UserService.VerifierFailureMessages | playerlineup-backend/src/service/user.ts:41-49 | expired gives "The token has expired"; malformed gives "Invalid authentication token: " + message; anything else gives its own message |
| UserService.CheckAndParseSession | playerlineup-backend/src/service/user.ts:20-51 | succeeds iff the header is present and starts with `Bearer ` and the verifier accepts; every error is `Unauthorized` |
| UserService.MissingHeaderNeedsNoVerifier | playerlineup-backend/src/service/user.ts:21-23 | a missing or empty header gives the same result whatever the verifier does, so the verifier is not consulted |
| UserService.WrongSchemeNeedsNoVerifier | playerlineup-backend/src/service/user.ts:25-27 | a non-empty header not starting with `Bearer ` is rejected whatever the verifier does |
| UserService.VerifierSeesToken | playerlineup-backend/src/service/user.ts:29-37 | the verifier gets the header with its first 7 characters removed, and its verdict decides the result |
| UserService.IssuedTokenResolves | playerlineup-backend/src/service/user.ts:29-37 | a token whose subject is `String(n)` resolves to user id `n` with the verifier's roles |
| Text.StartsWith | playerlineup-backend/src/service/user.ts:25 | `startsWith`: the prefix is no longer than the string and agrees with it character by character |
| Text.Contains | playerlineup-frontend/src/pages/players/PlayersList.jsx:25 | `includes`: a contained string is no longer than the container, and the empty string is contained in every string |
| Text.ToNumber | playerlineup-backend/src/service/user.ts:35 | `Number(s)` is a number exactly for strings of decimal digits, never negative, and 0 for the empty string |
| Text.ToNumberOfDecimal | playerlineup-backend/src/service/user.ts:35 | `Number(String(n)) === n` for every non-negative integer |
| UserService.CheckRole | playerlineup-backend/src/service/user.ts:53-59 | passes iff the role is among the session's roles, else `Forbidden` with the fixed message |
| UserService.Login | playerlineup-backend/src/service/user.ts:61-79 | a token exactly when a user has the email and the password verifies against its hash; it is that user's token; an unknown email and a wrong password give the same error |
| UserService.GetAll | playerlineup-backend/src/service/user.ts:82-90 | one public user per stored user, keyed by id |
| UserService.GetById | playerlineup-backend/src/service/user.ts:93-110 | the public user for a known id, else `NotFound("No user with this id exists")` |
| UserService.Register | playerlineup-backend/src/service/user.ts:113-128 | a taken email fails with "There is already a user with this email address" and changes nothing; otherwise exactly one new user is stored, with the password's hash and roles `[user]`, and its token is returned |
| UserService.UpdateById | playerlineup-backend/src/service/user.ts:131-146 | only supplied fields change; an unknown id gives `handleDBError` of the mapper's not-found error for every message, which is `NotFound` "No user with this id exists" when the message names `user` and no foreign key; another user's email is a validation error |
| UserService.DeleteById | playerlineup-backend/src/service/user.ts:149-159 | removes exactly that user; an unknown id gives `handleDBError` of the mapper's not-found error for every message, which is `NotFound` "No user with this id exists" when the message names `user` and no foreign key |
| Store.EmailIndexError | playerlineup-backend/src/service/_handleDBError.ts:7-19 | a write breaking the email index is reported as a taken email |
| Store.TeamNameIndexError | playerlineup-backend/src/service/_handleDBError.ts:7-12 | a write breaking the team-name index is reported as a taken team name |
| DbErrors.HandleDBError | playerlineup-backend/src/service/_handleDBError.ts:4-57 | the result is the original error or a `ValidationFailed`/`NotFound`/`Conflict` service error; every P2002 becomes `ValidationFailed`; errors that are not the mapper's pass unchanged |
| DbErrors.UniqueViolationError | playerlineup-backend/src/service/_handleDBError.ts:7-20 | the P2002 switch always throws a `ValidationFailed` error |
| DbErrors.RecordNotFoundError | playerlineup-backend/src/service/_handleDBError.ts:22-40 | the P2025 switch throws a `NotFound` error or falls through to the rethrow |
| DbErrors.ForeignKeyError | playerlineup-backend/src/service/_handleDBError.ts:42-56 | the P2003 switch throws a `Conflict` error or falls through to the rethrow |
| DbErrors.FirstMatch | playerlineup-backend/src/service/_handleDBError.ts:7-53 | the rule found is one of the table's rules and fires, and no earlier rule fires; none found means no rule from there on fires |
| DbErrors.HandleDBErrorIsFirstMatch | playerlineup-backend/src/service/_handleDBError.ts:4-57 | `handleDBError` equals the first rule of the ordered decision table that fires, else the rethrown error |
| DbErrors.FromUniqueViolation | playerlineup-backend/src/service/_handleDBError.ts:7-20 | for P2002 the answer is the first firing rule from the table's start |
| DbErrors.FromRecordNotFound | playerlineup-backend/src/service/_handleDBError.ts:22-40 | for P2025 the answer is the first firing P2025 rule, else the rethrow |
| DbErrors.FromOtherCodes | playerlineup-backend/src/service/_handleDBError.ts:42-56 | for every other code the answer is the first firing P2003 rule, else the rethrow |
| DbErrors.DuplicateTeamName | playerlineup-backend/src/service/_handleDBError.ts:9-12 | the team-name index wins: "A team with this name already exists" |
| DbErrors.DuplicateEmail | playerlineup-backend/src/service/_handleDBError.ts:13-16 | the email index, without the team-name index, gives "There is already a user with this email address" |
| DbErrors.DuplicateOther | playerlineup-backend/src/service/_handleDBError.ts:17-18 | any other P2002 gives "This item already exists" |
| DbErrors.PlayerUserForeignKeyWins | playerlineup-backend/src/service/_handleDBError.ts:24-25 | `fk_player_user` contains both `player` and `user` but yields "This user does not exist" |
| DbErrors.NotFoundNamesUser | playerlineup-backend/src/service/_handleDBError.ts:22-32 | a P2025 message that names `user` and none of the three foreign keys gives `NotFound` "No user with this id exists" |
| DbErrors.NotFoundNamesTeam | playerlineup-backend/src/service/_handleDBError.ts:22-36 | a P2025 message that names `team` but not `user`, `player` or a foreign key gives `NotFound` "No team with this id exists" |
| DbErrors.RecordNotFoundUnmatchedRethrows | playerlineup-backend/src/service/_handleDBError.ts:22-40 | a P2025 message with none of the seven substrings is rethrown unchanged |
| DbErrors.ForeignKeyPlayerFirst | playerlineup-backend/src/service/_handleDBError.ts:44-47 | a P2003 mentioning `player_id` is "This player does not exist", tested first |
| DbErrors.ForeignKeyUserOrRethrow | playerlineup-backend/src/service/_handleDBError.ts:48-56 | otherwise `user_id` gives "This user does not exist" and anything else is rethrown |
| DbErrors.OtherCodesRethrow | playerlineup-backend/src/service/_handleDBError.ts:5-56 | any other code, the empty default included, is rethrown unchanged |
| DbErrors.HandleDBErrorIdempotent | playerlineup-backend/src/service/_handleDBError.ts:4-57 | translating an already translated error changes nothing |
| UserRoutes.CheckUserId | playerlineup-backend/src/rest/user.ts:52-65 | passes iff the id is `me`, or the caller's own numeric id, or the caller is an admin; otherwise 403 `FORBIDDEN` with the fixed message |
| UserRoutes.MePasses | playerlineup-backend/src/rest/user.ts:57 | `me` passes whatever the session |
| UserRoutes.AdminPassesAnyId | playerlineup-backend/src/rest/user.ts:57 | an admin passes for every id |
| UserRoutes.NonAdminOwnIdOnly | playerlineup-backend/src/rest/user.ts:57-64 | without the admin role a numeric id passes exactly when it equals the session's user id |
| UserRoutes.ResolveUserId | playerlineup-backend/src/rest/user.ts:123-126 | `me` looks up the session's user id, any other id itself |
| UserRoutes.ParsePositive | playerlineup-backend/src/rest/user.ts:134 | accepts the decimal digit strings with a positive value, and yields that value |
| UserRoutes.ValidateParam | playerlineup-backend/src/rest/user.ts:131-138 | `GET /:id` accepts `me` or a positive number; implemented with lines 211-219 and 237-241, where `PUT` and `DELETE` accept only a positive number |
| UserRoutes.RunStep | playerlineup-backend/src/rest/user.ts:249-275 | only the handler answers a request; a step that continues keeps the session or sets one |
| UserRoutes.Run | playerlineup-backend/src/rest/user.ts:249-275 | a chain is answered only if it contains the handler |
| UserRoutes.RunAppend | playerlineup-backend/src/rest/user.ts:249-275 | running two pieces of a chain in turn is running the whole chain; the first step that stops decides |
| UserRoutes.RunChain | playerlineup-backend/src/rest/user.ts:249-275 | the router's step-by-step run of a chain is `Run` of it |
| UserRoutes.RegisterNeedsNoSession | playerlineup-backend/src/rest/user.ts:249 | registration is answered exactly when the body and query validate, whatever the header or the verifier |
| UserRoutes.ListUsersNeedsAdmin | playerlineup-backend/src/rest/user.ts:253-257 | an authentication failure stops the chain with that error; a non-admin is forbidden; an admin's request with a body or query key the `null` scheme does not allow is a validation error; the handler runs exactly for an authenticated admin whose request carries nothing extra |
| UserRoutes.ByIdReached | playerlineup-backend/src/rest/user.ts:259-275 | a by-id handler runs exactly when authentication, validation of the id and of the body and query, and `checkUserId` all pass, in that order |
| UserRoutes.NonAdminOwnRecordOnly | playerlineup-backend/src/rest/user.ts:259-275 | a non-admin reaches a by-id handler only for their own record |
| UserRoutes.WritesNeedNumericId | playerlineup-backend/src/rest/user.ts:265-275 | the update and delete handlers always get a positive numeric id, never `me` |
| TeamService.GetAllTeams | playerlineup-backend/src/service/team.ts:8-15 | an admin gets every team; anyone else exactly the teams they own |
| TeamService.GetTeamById | playerlineup-backend/src/service/team.ts:18-39 | the team when it exists and the caller owns it or is an admin, else `NotFound("No team with this id exists")` |
| TeamService.CheckUserHasTeam | playerlineup-backend/src/service/team.ts:140-150 | passes iff the team exists and the caller owns it; roles play no part |
| TeamService.CheckTeamHas5Players | playerlineup-backend/src/service/team.ts:152-167 | fails with `Conflict("Team already has 5 players")` exactly for an existing team with five or more players |
| TeamService.CheckTeamHasPlayer | playerlineup-backend/src/service/team.ts:169-188 | passes iff the player is in the team's lineup |
| TeamService.CreateTeam | playerlineup-backend/src/service/team.ts:41-53 | a new empty team owned by the caller, unless the caller already has a team of that name |
| TeamService.UpdateTeamNameById | playerlineup-backend/src/service/team.ts:55-71 | ownership first; then only the name changes, unless the owner already uses it |
| TeamService.AddPlayerToTeam | playerlineup-backend/src/service/team.ts:73-97 | ownership, then size, then the player's existence; a missing player gives `handleDBError` of the mapper's failed-connect error for every message, which is `NotFound` "No team with this id exists" when the message names `team` but not `user`, `player` or a foreign key; adds exactly that player, keeps every team at five or fewer, and re-adding changes nothing |
| TeamService.RemovePlayerFromTeam | playerlineup-backend/src/service/team.ts:99-123 | ownership, then membership; afterwards exactly that player is gone |
| TeamService.DeleteTeamById | playerlineup-backend/src/service/team.ts:125-138 | removes exactly the owned team and nothing else |
| TeamService.AddThenRemove | playerlineup-backend/src/service/team.ts:73-123 | adding a new player and removing it restores the teams |
| PlayerService.GetAllPlayers | playerlineup-backend/src/service/player.ts:8-10 | every player, whoever owns it |
| PlayerService.GetPlayerById | playerlineup-backend/src/service/player.ts:13-28 | any existing player with no ownership check, else `NotFound("No player with this id exists")` |
| PlayerService.CheckUserHasPlayer | playerlineup-backend/src/service/player.ts:79-89 | passes iff the player exists and the caller owns it |
| PlayerService.CreatePlayer | playerlineup-backend/src/service/player.ts:31-42 | a player with a fresh id, owned by the caller |
| PlayerService.Apply | playerlineup-backend/src/service/player.ts:51-57 | supplied fields replace, omitted fields keep their values, the owner never changes |
| PlayerService.ApplyIdentityAndIdempotent | playerlineup-backend/src/service/player.ts:51-57 | an empty update is the identity, and repeating an update changes nothing |
| PlayerService.UpdatePlayerDetailsById | playerlineup-backend/src/service/player.ts:45-61 | only the owner may update; only that player changes |
| PlayerService.DeletePlayerById | playerlineup-backend/src/service/player.ts:64-77 | only the owner may delete; exactly that player is removed |
| StatService.CheckStatExists | playerlineup-backend/src/service/stat.ts:77-87 | passes iff the statistic exists and belongs to the player |
| StatService.GetStatById | playerlineup-backend/src/service/stat.ts:8-21 | the player check comes first; then a statistic of another player or none is `NotFound("No stat with this id exists")` |
| StatService.CreateStat | playerlineup-backend/src/service/stat.ts:24-38 | only for an owned player; the new statistic is attached to the path's player |
| StatService.Apply | playerlineup-backend/src/service/stat.ts:48-54 | supplied counters replace, omitted ones keep their values, the player never changes |
| StatService.ApplyIdentityAndIdempotent | playerlineup-backend/src/service/stat.ts:48-54 | an empty update is the identity, and repeating an update changes nothing |
| StatService.UpdateStatById | playerlineup-backend/src/service/stat.ts:41-58 | the player check first, then the statistic check; only that statistic changes |
| StatService.DeleteStatById | playerlineup-backend/src/service/stat.ts:61-75 | the same checks in the same order; exactly that statistic is removed and the player stays |
| Lists.Keep | playerlineup-frontend/src/pages/players/PlayersList.jsx:23 | the result is an order-preserving subsequence; each value that passes appears as often as in the input, and no other value appears |
| Lists.KeepAll | playerlineup-frontend/src/pages/players/PlayersList.jsx:23-30 | a filter every element passes is the identity |
| Text.Lower | playerlineup-frontend/src/pages/players/PlayersList.jsx:25 | `toLowerCase` keeps the length and lower-cases each letter A-Z |
| Lists.EmptySearchMatches | playerlineup-frontend/src/pages/players/PlayersList.jsx:24-25 | the empty search matches every name |
| Lists.SearchIgnoresCase | playerlineup-frontend/src/pages/players/PlayersList.jsx:24-25 | lower-casing the name or the search first changes nothing |
| Lists.FilteredPlayers | playerlineup-frontend/src/pages/players/PlayersList.jsx:22-31 | an order-preserving subsequence of the players; a player is kept, with all its copies, iff the search matches its name and, with "mine only" on, the caller owns it |
| Lists.FilteredTeams | playerlineup-frontend/src/pages/teams/TeamsList.jsx:22-30 | an order-preserving subsequence of the teams; a team is kept, with all its copies, iff the search matches its name and, with "mine only" on, the caller owns it |
| Lists.FilteredUsers | playerlineup-frontend/src/pages/users/UsersList.jsx:22-30 | an order-preserving subsequence holding every copy of each user whose name matches, and no other user |
| Lists.NoFilterKeepsEverything | playerlineup-frontend/src/pages/players/PlayersList.jsx:22-31 | the empty search with the checkbox off lists everything (the same holds for teams and users) |
| Lists.ListControls.constructor | playerlineup-frontend/src/pages/players/PlayersList.jsx:11-14 | empty text and search, box unchecked |
| Lists.ListControls.Type | playerlineup-frontend/src/pages/players/PlayersList.jsx:50-51 | typing changes only `text` |
| Lists.ListControls.Submit | playerlineup-frontend/src/pages/players/PlayersList.jsx:57 | the button copies `text` into `search` |
| Lists.ListControls.Toggle | playerlineup-frontend/src/pages/players/PlayersList.jsx:69 | the checkbox flips the filter flag and nothing else |
| Lists.ListControls.ShownPlayers | playerlineup-frontend/src/pages/players/PlayersList.jsx:78 | the table gets a subsequence of the players |
| Lists.ListControls.ShownTeams | playerlineup-frontend/src/pages/teams/TeamsList.jsx:22-30 | the table gets a subsequence of the teams |
| Lists.SearchControls.constructor | playerlineup-frontend/src/pages/users/UsersList.jsx:22-30 | empty text and search |
| Lists.SearchControls.Type | playerlineup-frontend/src/pages/users/UsersList.jsx:50 | typing changes only `text` |
| Lists.SearchControls.Submit | playerlineup-frontend/src/pages/users/UsersList.jsx:56 | the button copies `text` into `search` |
| Lists.SearchControls.ShownUsers | playerlineup-frontend/src/pages/users/UsersList.jsx:22-30 | the table gets a subsequence of the users |
| Lists.TypeThenSubmit | playerlineup-frontend/src/pages/players/PlayersList.jsx:50-57 | while typing, the list stays filtered by the old search; after the click it is filtered by the typed text |
| Lists.ToggleTwice | playerlineup-frontend/src/pages/teams/TeamsList.jsx:68 | two clicks on the checkbox restore the state |
| Pagination.PageSlice | playerlineup-frontend/src/components/players/PlayersTable.jsx:15-16 | at most `perPage` items, namely the items from `currentPage * perPage` on, in order; empty past the end |
| Pagination.PageCount | playerlineup-frontend/src/components/players/PlayersTable.jsx:17 | the least page count whose pages cover every item (`ceil(n / perPage)`) |
| Pagination.PagesFromAreSuffix | playerlineup-frontend/src/components/users/UsersTable.jsx:15-17 | the pages from one page on hold exactly the items from that page's offset |
| Pagination.PagesPartitionItems | playerlineup-frontend/src/components/players/PlayersTable.jsx:15-17 | concatenating pages `0 .. pageCount - 1` gives back the items exactly |
| Pagination.Render | playerlineup-frontend/src/components/users/UsersTable.jsx:15-23 | an empty list shows its message, otherwise the current page and the page count |
| Pagination.OneTeamPerPage | playerlineup-frontend/src/components/teams/TeamsTable.jsx:7-15 | page `i` shows `[teams[i]]`, or nothing past the end; there are as many pages as teams |
| Pagination.Paginator.constructor | playerlineup-frontend/src/components/teams/TeamsTable.jsx:6-7 | the table starts on page 0 |
| Pagination.Paginator.HandlePageClick | playerlineup-frontend/src/components/players/PlayersTable.jsx:11-13 | the selected page becomes the current page |
| Pagination.Paginator.View | playerlineup-frontend/src/components/teams/TeamsTable.jsx:13-19 | the shown rows never exceed the page size |
| TeamDetails.AbbreviatePosition | playerlineup-frontend/src/components/teams/TeamDetailsTable.jsx:20-35 | the five positions map to PG, SG, SF, PF, C; any other text is returned unchanged |
| TeamDetails.Slots | playerlineup-frontend/src/components/teams/TeamDetailsTable.jsx:106-141 | exactly five rows; row `i` is player `i` when there is one, else the placeholder |
| TeamDetails.SlotsShowLineup | playerlineup-frontend/src/components/teams/TeamDetailsTable.jsx:106-141 | the filled rows are the first five players in order; a valid lineup is shown in full |
| TeamDetails.Render | playerlineup-frontend/src/components/teams/TeamDetailsTable.jsx:9-18 | an empty lineup shows the info message instead of the table |
| TeamDetails.GameTotals | playerlineup-frontend/src/components/teams/TeamDetailsTable.jsx:41-51 | each total is the sum of that counter over all games |
| Compare.HasId | playerlineup-frontend/src/App.jsx:24 | `Number(player.id) === Number(value)` can hold only for a digit string and a non-negative id |
| Compare.FindById | playerlineup-frontend/src/App.jsx:24 | the first player whose id equals `Number(value)`, or none when no player matches |
| Compare.OptionValueFindsPlayer | playerlineup-frontend/src/App.jsx:41-45 | an option's value leads back to its player, unless an earlier player has the same id |
| Compare.Selection.constructor | playerlineup-frontend/src/App.jsx:11 | both slots start empty |
| Compare.Selection.HandleSelectChange | playerlineup-frontend/src/App.jsx:16-28 | the empty choice clears the slot; a matching value fills it with the first match; no match changes nothing; the other slot never changes |
| Compare.Selection.SelectedPlayers | playerlineup-frontend/src/App.jsx:30 | the chosen players, player 1 first, from none to two |
| Compare.ComparePlayerTable | playerlineup-frontend/src/components/compare/ComparePlayerTable.jsx:8-29 | rows exactly for an array of two non-null players, one each in order; otherwise "Please choose 2 players" |
| Compare.TableNeedsBothChoices | playerlineup-frontend/src/components/compare/ComparePlayerTable.jsx:8-10 | the comparison appears exactly when both drop-downs have a choice |
| PrivateRoute.Decide | playerlineup-frontend/src/components/PrivateRoute.jsx:5-32 | not ready shows loading; ready and signed in shows the page; otherwise a replacing navigation to `/login?redirect=` followed by the path |
| PrivateRoute.NotReadyIgnoresAuth | playerlineup-frontend/src/components/PrivateRoute.jsx:10-24 | before the session is known, the sign-in flag plays no part |
| PrivateRoute.OutcomesPartition | playerlineup-frontend/src/components/PrivateRoute.jsx:10-31 | the three outcomes are exclusive and cover every (ready, authed) pair |
| PrivateRoute.RedirectRemembersPage | playerlineup-frontend/src/components/PrivateRoute.jsx:31 | different pages redirect to different login links |

## Left out

- JWT signing and verification: these are library calls. The verifier is a parameter returning expired, malformed, another failure, or a subject with roles. Token expiry is the verifier's concern.
- Password hashing and verifying (argon2) are parameters. Their cost settings are configuration.
- The auth delay middleware is a step that passes the request on. Its randomised wall-clock wait cannot be stated here.
- `requireAuthentication` and `makeRequireRole` live in core/auth, which is not part of this model. They are modelled as running `checkAndParseSession` on the `Authorization` header and `checkRole` on the stored session.
- The Joi schemas and core/validation are not part of this model.
  - Whether the body and the query string hold only what the route's scheme allows is one bit of the request, `inputValid`. Every chain's validate step checks it: `validate` is taken to reject any body or query key that the scheme does not list, so a `null` scheme, or one that lists only `params`, rejects every body or query key.
  - A rejected request is reported as `ValidationFailed` with a fixed message.
  - The mapping of service errors to HTTP statuses (core/serviceError) is left out for the same reason.
- UserRoutes.ValidateParam: numeric ids are accepted only as plain decimal digit strings. Joi's other numeric spellings ("+5", "5.0", "1e1", surrounding blanks) are not modelled.
- UserRoutes.CheckUserId: validation is taken to convert a numeric `:id` into a number. Whether core/validation writes the converted value back is not visible. Before validation, an id is a string and never strictly equal to the numeric user id.
- Text.ToNumber: `Number()` is modelled for strings of decimal digits, the empty string included (it gives 0). Every other string gives `NaN`.
- Text.Lower: only the ASCII letters A-Z are lower-cased. Unicode case mapping is not modelled.
- The mapper's P2002 messages are assumed to contain the violated index name. Its P2025 messages are not visible: UserService.UpdateById, UserService.DeleteById and TeamService.AddPlayerToTeam take the message as a parameter. Which `NotFound` text the source then answers depends on whether that message names `user`, `player` or `team`, which the model leaves open.
- Store: the schema's referential actions, cascades and foreign-key checks are not modelled. Deleting a user, player or team removes exactly that row. A create does not check the owner's existence. One consequence: after PlayerService.DeletePlayerById the deleted id stays in every team's `players` set, so TeamService.CheckTeamHas5Players still counts it toward the five-player limit.
- Prisma's own request validation is not modelled. An example is a `NaN` id reaching `getById` when a token subject is not numeric.
- The average computations (division and `toFixed`) are floating point. Only the integer totals they start from are modelled (TeamDetails.GameTotals).
- Logging, the SWR data fetching, loading and error states, deletes triggered from the tables, and all markup are left out.
- The other route files (players, teams, stats, sessions, health) are not modelled. Their services are modelled directly.
