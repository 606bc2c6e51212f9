# gameplan-backend: a verified model of the decision and data rules

gameplan-backend is a Go HTTP service for organising seasons of matches between players. It has account sign-up and login through an identity provider (Stytch), billing customers (Stripe), a Postgres store reached through sqlc-generated typed queries, and welcome mail (Mailgun). Most of it is glue. This project models the parts that make decisions, and proves what they promise:

- **Sign-up and login** (`Auth`). The handlers are pure functions of the answers each collaborator gives. Sign-up returns the response envelope together with the trace of calls it made. The model proves:
  - the password check;
  - the identity-error table;
  - short-circuiting at the first failure;
  - that the metadata update and the welcome mail are best effort.
- **Typed queries** (`Queries`). Every query named below is a pure function over an in-memory table (a `seq` of rows):
  - SQL NULL is `Option`, and `=` against NULL is never true (`Base.SqlEq`);
  - a `:one` query answers the first matching row or `NoRows`;
  - `now` stands for `CURRENT_TIMESTAMP`;
  - ORDER BY is a stable insertion sort, proved sorted and a permutation.
- **Read-merge-write updates** (`Players`, `Seasons`). The handlers fold a dynamically typed key/value map into the current row.
  - Go iterates a map in an unspecified order, so the fold takes the order as an input. The model proves the result does not depend on it.
  - A type assertion on a value of the wrong type panics. The model returns `Panic` and writes nothing.
- **Match handlers** (`Matches`): creation defaults, the continue-on-error batch update counting its successes, and the delete endpoint that touches nothing.
- Shared pieces:
  - `Envelope`: the `{isSuccess, data, error.code}` response and its error codes;
  - `Decimal`: Go's `%d` spelling (no padding zeros, no "-0"), with a parser that inverts it, proving that it is injective and that it is the only canonical spelling;
  - `Updates`: update-map values and iteration orders;
  - `Rows`: row and parameter records;
  - `Seqs`: filter, first index and sort.

Where the description of the system and the code disagree, the model follows the code:
- `DeletePlayer` and `DeleteSeason` are hard `DELETE`s, not soft deletes.
- `GetPlayer` and `GetSeason` have no `isActive` filter.
- The scoreboard endpoint does not scope the scoreboard to the caller.
- Every owner-scoped player and season handler acts for the fixed user id 1 (`PlaceholderUser`) instead of the session's user. The match and auth handlers take no user id.

Two consequences of the code are proved rather than corrected. A batch match update always writes `isActive = false` and `winnerId = NULL` (`Matches.BatchClearsWinnerAndDeactivates`). Any successful player update re-activates the player (`Players.PutUnknownKeyOnlyReactivates`).

## Model

| member | source | states |
|---|---|---|
| Envelope.CodeStringInjective | api_server/auth_server.go:218-333 | distinct error codes have distinct wire strings, so a client can tell every failure apart |
| Auth.ClassifyIdentityErrorTable | api_server/auth_server.go:240-278 | `duplicate_email` gives DUPLICATE_EMAIL and `invalid_email` gives INVALID_EMAIL, each if and only if; every other error, typed or not, gives STYTCH_ERROR |
| Auth.NewUserParams | api_server/auth_server.go:304-321 | the stored user carries both provider ids, lang "en", isVerified false, NULL phone and country, and a birthday present exactly when the request had one |
| Auth.SignUp | api_server/auth_server.go:218-362 | success iff the password has at least 8 bytes and identity, billing and store all succeed; the calls made are steps 0,1,2,… in order, with 0, 1, 2, 3 or 5 calls depending on where it stopped; the failing step decides WEAK_PASSWORD, the identity code, STRIPE_ERROR or DATABASE_ERROR; success carries no data; the copy at api_server/api_server.go:63-207 is the same |
| Auth.SignUpBestEffortSteps | api_server/api_server.go:180-206 | the metadata-update and mail outcomes change neither the response nor the calls |
| Auth.SignUpCallArguments | api_server/auth_server.go:236-353 | each call carries the earlier steps' results: the customer is tagged with the identity id, the row links both ids, the metadata names the new row id, the mail goes to the request's address |
| Auth.SignUpNoOrphanWrites | api_server/api_server.go:80-178 | an identity failure makes no billing or store call, a billing failure no store call, and a store failure no metadata or mail call |
| Auth.Login | api_server/auth_server.go:27-60 | one authentication with a 60-minute session; success iff it succeeds, returning "Login successful" and the token; any failure is INVALID_CREDENTIALS; the copy at api_server/api_server.go:29-62 is the same |
| Matches.NewMatchParams | api_server/matches_server.go:24-33 | a new match has both point totals 0, no winner, and present season and player ids copied from the request |
| Matches.PostMatches | api_server/matches_server.go:22-53 | success iff the insert succeeds, with no data; otherwise DB_ERROR; the insert is always the default one; the copy at api_server/api_server.go:212-256 builds a data map but answers the same |
| Matches.BatchParams | api_server/matches_server.go:58-67 | every batch update leaves winnerId NULL and isActive false and copies the item's other fields |
| Matches.PutMatchesBatches | api_server/matches_server.go:55-83 | one update per item, all attempted in order; the response is always success, carrying the number of items that did not fail and named an existing match; each row ends up as its last successful item made it, and unnamed rows are unchanged; the copy at api_server/api_server.go:257-285 is the same |
| Matches.BatchCountBounded | api_server/api_server.go:258-277 | the reported count lies between 0 and the number of items |
| Matches.BatchClearsWinnerAndDeactivates | db/query.sql.go:684-697 | a match updated by the batch ends up inactive and without a winner, whatever it held |
| Matches.BatchLeavesOthers | api_server/matches_server.go:57-75 | a match that no successful item names is left exactly as it was |
| Matches.DeleteMatchesMatchId | api_server/matches_server.go:98-104 | the endpoint answers success without data and leaves the table as it was |
| Matches.DeleteEndpointKeepsMatch | api_server/matches_server.go:98-104 | unlike the DeleteMatch query, the endpoint keeps a match with the given id |
| Players.NewPlayerParams | api_server/players_server.go:18-38 | a created player has a present owner equal to the caller and no preferred match group |
| Players.PostPlayersAsWritten | api_server/players_server.go:195-225 | the handler as written panics, with no insert, exactly when the request omits the email |
| Players.PostPlayers | api_server/players_server.go:195-225 | the corrected handler stores an omitted email as NULL; success iff the insert succeeds, with the new row; otherwise DB_ERROR |
| Players.PostPlayersWithoutEmail | api_server/players_server.go:202 | without an email the handler as written panics, while the corrected one stores NULL and answers as the insert does |
| Players.PostPlayersAgreeWithEmail | api_server/players_server.go:198-225 | with an email present, the handler as written and the corrected one issue the same insert and give the same answer |
| Players.EmailColumn | api_server/players_server.go:84-85 | an email update stores NULL exactly for the empty string, and the string itself otherwise |
| Players.ApplyPlayerEntry | api_server/players_server.go:80-89 | one merge step fails exactly when `name`, `email` or `emailNotificationsEnabled` holds a value of the wrong type; other keys are accepted |
| Players.ApplyPlayerUpdatesIsMerge | api_server/players_server.go:80-89 | visiting distinct keys in any order gives the order-free merge over the set of keys |
| Players.MergeWritesMergedPlayer | api_server/players_server.go:69-95 | the merge fails iff some key is ill-typed; otherwise its params keep the caller's id and owner, are active, and write exactly the merged row |
| Players.UpdatePlayer | api_server/players_server.go:57-96 | a failed owner-scoped read gives the read error with no write; a panic happens iff a recognised key is ill-typed; the write never misses; the returned row is the current one with name, email and notifications merged, isActive true, preferredMatchGroup and createdAt kept; it is the row stored at the owner's player, and every row not matching id and owner is unchanged |
| Players.UpdatePlayerOrderFree | api_server/players_server.go:80 | any two iteration orders of the update map give the same table and result |
| Players.PutPlayersPlayerId | api_server/players_server.go:288-316 | a one-key update for the placeholder owner: it panics iff the player exists and the value is ill-typed, and answers DB_ERROR iff the player does not exist; any failure leaves the table unchanged; success returns the merged row, stores it at the owner's player and leaves every other row unchanged |
| Players.PutUnknownKeyOnlyReactivates | api_server/players_server.go:69-89 | an unrecognised key changes nothing but isActive (now true) and the update stamp |
| Players.CustomMapOf | api_server/players_server.go:271-276 | the custom-value map has an entry for a column name iff some row with that name has a valid value, and the entry holds the value of such a row |
| Players.CustomMapLastWins | api_server/players_server.go:272-275 | a column's entry holds the value of its last row with a valid value |
| Players.BuildCustomMap | api_server/players_server.go:271-276 | the loop builds exactly that map: keys are the column names of rows with a valid value |
| Players.GetPlayersPlayerId | api_server/players_server.go:248-286 | success iff the owner-scoped read finds the player, else DB_ERROR; a failed custom-value fetch still succeeds with an empty map; otherwise the map is the one built from the joined rows: its keys are the names of the player's columns with a valid value, and each entry holds a value the player stores for that column |
| Players.JoinedCustomMap | api_server/players_server.go:265-276 | every entry of the map built from the player's joined rows is a valid value the player has for a column of that name, and every such name has an entry |
| Seasons.PostSeasons | api_server/seasons_server.go:187-218 | a posted season belongs to the placeholder owner, has a present start date and frequency "weekly"; success iff the insert succeeds |
| Seasons.ApplySeasonUpdatesIsMerge | api_server/seasons_server.go:81-94 | visiting distinct keys in any order gives the order-free merge over the set of keys |
| Seasons.MergeWritesMergedSeason | api_server/seasons_server.go:70-96 | the merge fails iff some key is ill-typed; otherwise its params keep the caller's id and owner and write exactly the merged row |
| Seasons.UpdateSeason | api_server/seasons_server.go:57-101 | a failed read gives the read error with no write; a panic happens iff a recognised key is ill-typed; only name, startDate, seasonType, frequency and isActive change, unnamed ones including isActive keep their values; the returned row is the row stored at the owner's season, and every row not matching id and owner is unchanged |
| Seasons.UpdateSeasonOrderFree | api_server/seasons_server.go:81 | any two iteration orders of the update map give the same table and result |
| Seasons.PutSeasonsSeasonId | api_server/seasons_server.go:325-353 | success iff the owner's season exists, else DB_ERROR with the table unchanged; on success the stored season is the current one with only its name and update stamp changed, returned as the data, and every other row is unchanged |
| Seasons.SeasonScoreboard | api_server/seasons_server.go:131-144 | the wrapper's board is ordered by non-increasing wins and lists exactly the players of the season's owner, each with its wins in that season |
| Seasons.SeasonScoreboardIgnoresCaller | api_server/seasons_server.go:136-139 | the caller's user id has no effect on the scoreboard |
| Seasons.GetSeasonsSeasonIdScoreboard | api_server/seasons_server.go:367-406 | success iff the store answers the scoreboard query and the placeholder owner's season read succeeds, with that season's name and the season's full tally ranked by non-increasing wins; otherwise DB_ERROR |
| Seasons.GetSeasonsLength | db/query.sql.go:586-589 | the active-season listing has one row per active season of the owner |
| Seasons.GetSeasonsTotalAmount | api_server/seasons_server.go:220-244 | DB_ERROR when the listing fails; otherwise the total is the number of active seasons owned by the placeholder owner |
| Seasons.PublicLink | api_server/seasons_server.go:355-365 | the link starts with "/public/seasons/" and ends with "/schedule", and between them is the canonical `%d` spelling of the season id |
| Seasons.PublicLinkRoundTrip | api_server/seasons_server.go:357 | the season id reads back out of its link |
| Seasons.PublicLinkInjective | api_server/seasons_server.go:357 | two seasons share a link iff they are the same season |
| Decimal.Format | api_server/seasons_server.go:357 | the spelling is canonical: no padding zeros, and a '-' exactly for negative numbers, never before a zero |
| Decimal.FormatRoundTrip | api_server/seasons_server.go:357 | parsing a `%d` spelling gives the number back, negative numbers included |
| Decimal.CanonicalIsFormat | api_server/seasons_server.go:357 | every canonical spelling parses, and formatting its value gives it back, so `%d` has exactly one spelling per number |
| Queries.GetPlayer | db/query.sql.go:334-359 | a row is returned only if it matches both id and owner; NoRows iff no row does; isActive plays no part |
| Queries.GetPlayerOwnerScoped | db/query.sql.go:334-337 | with unique ids, another owner's read of a player always gives NoRows |
| Queries.GetPlayerIgnoresActive | db/query.sql.go:334-337 | with unique ids, the owner reads back any of their players, inactive ones included |
| Queries.GetPlayers | db/query.sql.go:444-477 | exactly the rows owned by the user and active, each with its multiplicity |
| Queries.DeletePlayer | db/query.sql.go:247-260 | rows matching both id and owner disappear; every other row keeps its multiplicity |
| Queries.UpdatePlayer | db/query.sql.go:765-810 | NoRows iff no row matches id and owner; matching rows get every column written, other rows are unchanged; the returned row is a written one |
| Queries.GetSeason | db/query.sql.go:479-504 | a row is returned only if it matches both id and owner; NoRows iff no row does; isActive plays no part |
| Queries.GetSeasons | db/query.sql.go:586-619 | exactly the rows owned by the user and active, each with its multiplicity |
| Queries.DeleteSeason | db/query.sql.go:272-285 | rows matching both id and owner disappear; every other row keeps its multiplicity |
| Queries.DeletedSeasonGone | db/query.sql.go:272-275 | after the owner deletes a season it is neither listed nor readable by that owner |
| Queries.DeleteSeasonOtherOwners | db/query.sql.go:272-275 | another owner's season listing is unchanged by the delete |
| Queries.UpdateSeason | db/query.sql.go:812-857 | NoRows iff no row matches id and owner; matching rows get every column written, other rows are unchanged; the returned row is a written one |
| Queries.DeleteMatch | db/query.sql.go:237-245 | exactly the matches with another id remain, each with its multiplicity |
| Queries.UpdateMatch | db/query.sql.go:684-742 | NoRows iff no match has the id; ids are preserved, matches with the id get every column written, others are unchanged |
| Queries.Tally | db/query.sql.go:506-513 | one row per owned player, holding the player and its won-match count |
| Queries.GetSeasonScoreboard | db/query.sql.go:506-544 | the rows are ordered by non-increasing wins and are a permutation of the tally |
| Queries.ScoreboardContents | db/query.sql.go:506-513 | a row is on the board iff it is an owned player with its win count, zero wins included; the board has one row per owned player; it is empty when the season does not exist |
| Queries.GetSeasonUpcomingMatches | db/query.sql.go:546-584 | only matches of the season dated after `now`, in ascending date order, as many as there are up to 5 |
| Queries.UpcomingAreEarliest | db/query.sql.go:546-551 | the listed matches are drawn from the candidates, and every candidate left out is dated no earlier than any listed one |
| Queries.GetPlayerCustomColumns | db/query.sql.go:361-395 | exactly the active columns, each with its multiplicity, ordered by display order with NULL orders last |
| Queries.GetPlayerCustomValues | db/query.sql.go:397-442 | a row is returned iff it joins a value of the player to the column it names |
| Queries.UpsertPlayerCustomValue | db/query.sql.go:904-931 | afterwards the (player, column) row holds the value and the new stamp; uniqueness of the key is kept; rows with other keys stay; an existing row keeps its id and createdAt and only its value and update stamp change; otherwise one row is added with the next id |
| Queries.UpsertRepeat | db/query.sql.go:904-911 | repeating the upsert changes only the key row's update stamp; at the same time it changes nothing |
| Queries.DeleteUser | db/query.sql.go:287-294 | the user with the id gets isActive false and a new stamp and nothing else changes; other users are unchanged |
| Queries.DeleteUserSubscription | db/query.sql.go:296-307 | the user with the id gets tier "free", an empty billing id and a new stamp and nothing else changes; other users are unchanged |

## Left out

- main.go and api/auth.go are not part of this model. They hold HTTP routing, middleware, environment loading and session checks against the identity provider, which are framework glue.
- api_server/subscriptions_server.go and api_server/user_settings_server.go are not part of this model. So are the handlers that return a constant NOT_IMPLEMENTED envelope: they make no decisions.
- The list, delete and detail wrappers not named above (`GetPlayers`, `DeletePlayersPlayerId`, `DeleteSeasonsSeasonId`, `GetSeasonsSeasonId`, `GetSeasonsSeasonIdUpcoming`) are left out. Each passes the results of modelled queries into the envelope, answering DB_ERROR if one fails. Most use one query. `GetSeasonsSeasonId` combines three: `GetSeason`, the owner's `GetPlayers` and `GetSeasonUpcomingMatches`, whose five upcoming matches it returns under the key "allMatches".
- The identity, billing and mail SDKs are not modelled: each call is an input outcome value. The INSERT queries are outcomes too, since their column defaults (`createdAt`, `isActive`) live in the schema, which is not part of this model.
- Queries.UpsertPlayerCustomValue: the SQL supplies none of `id`, `createdAt` and, on insert, `updatedAt`. The model assumes the schema's defaults: the id comes from the sequence and is passed in as `nextId`, and `createdAt` and `updatedAt` equal `now`.
- Store failures other than a missing row are modelled only where they are inputs: the INSERTs, `Matches.PutMatchesBatches`, the listing in `Seasons.GetSeasonsTotalAmount` and the scoreboard query in `Seasons.GetSeasonsSeasonIdScoreboard`. The other reads and updates are pure functions of the table. So a connection error is not modelled for them.
- Players.UpdatePlayer: a failed write after a successful read (api_server/players_server.go:91-94) cannot happen in the model, because the only store error is a missing row and the read has just found it. The same holds for Seasons.UpdateSeason, Players.PutPlayersPlayerId, Seasons.PutSeasonsSeasonId and Players.GetPlayersPlayerId's player read.
- Auth.ClassifyIdentityError: the model assumes the identity provider's typed error matches the `*stytch.Error` test at api_server/auth_server.go:241. That type comes from the un-versioned `stytch-go/stytch` package, while the client comes from `stytch-go/v16` (lines 14-17). If v16 returns its own error type, every identity failure becomes STYTCH_ERROR. The SDK is not part of this model, so this cannot be settled here.
- Other queries (`GetMatch`, `UpdateMatchesBatch`, custom-column create and delete, user settings and lookups) are left out because no modelled handler uses them.
- Ids, points and dates are unbounded integers. Go's `int32(...)` truncations are not modelled, and neither is the birthday's `Unix()` conversion: the birthday is an opaque optional integer.
- Clocks are not modelled: `CURRENT_TIMESTAMP` is the `now` parameter.
- Logging and error messages are not modelled: only `isSuccess`, the error code and the data are.
- Concurrency and last-writer-wins behaviour between requests are not modelled.
- Batch items have every field present. The batch handler's nil-pointer dereferences of absent fields are not modelled.
- The generated request types are not part of this model. `PutSeasonsSeasonId` takes the name as a plain string. `PostPlayers` takes the email as optional, as its nil check shows.
- Matches.PutMatchesBatches: a store failure other than a missing id is given as the set of item indices where the store fails, not derived.
- Players.UpdatePlayer: the returned row is pinned to the merged current row only when player ids are unique, which the table's primary key guarantees.
- Seasons.UpdateSeason: the returned row is pinned to the merged current row only when season ids are unique, which the table's primary key guarantees.
- Players.PutPlayersPlayerId: the returned row is pinned only under unique ids, as for Players.UpdatePlayer.
- Seasons.PutSeasonsSeasonId: the returned row is pinned only under unique ids, as for Seasons.UpdateSeason.
- Queries.GetSeasonScoreboard: SQL leaves the order of equal-wins rows open. The model fixes one stable order and proves only sortedness and permutation.
- Queries.GetSeasonUpcomingMatches: the same holds for matches with equal dates.
- Queries.GetPlayerCustomColumns: the same holds for columns with equal display orders.

## Findings

| source | as written | input that shows it | evidently intended | confidence | as-written member | corrected member |
|---|---|---|---|---|---|---|
| api_server/players_server.go:202 | the email pointer is dereferenced before the `Valid: Email != nil` check, so a missing email panics before the insert | a create-player body without `email` (Players.PostPlayersWithoutEmail) | an omitted email is stored as NULL and the player is created | not executed; high, since the nil check on the same line can only be false when the dereference has already failed | Players.PostPlayersAsWritten | Players.PostPlayers |
