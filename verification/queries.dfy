/**
 The typed queries of the store as pure functions over in-memory tables.
 A table is a sequence of rows in storage order; a query without ORDER BY
 returns rows in that order. `now` stands for CURRENT_TIMESTAMP.
 */
module Queries {

  import opened Base
  import opened Seqs
  import opened Rows

  // ---------------------------------------------------------------------------
  // Table invariants kept by the primary and unique keys of the schema

  predicate UniquePlayerIds(players: seq<Player>)
  {
    forall i, j :: 0 <= i < j < |players| ==> players[i].id != players[j].id
  }

  predicate UniqueSeasonIds(seasons: seq<Season>)
  {
    forall i, j :: 0 <= i < j < |seasons| ==> seasons[i].id != seasons[j].id
  }

  // ---------------------------------------------------------------------------
  // Owner-scoped players

  /** The WHERE clause `id = $1 AND userId = $2` of the owner-scoped player queries. */
  predicate PlayerKey(p: Player, id: int, userId: int)
  {
    p.id == id && p.userId == Some(userId)
  }

  /** GetPlayer: the row matching both id and owner; there is no active filter. */
  function GetPlayer(players: seq<Player>, id: int, userId: int): (r: Result<Player, DbError>)
    ensures r.Ok? ==> r.value in players && PlayerKey(r.value, id, userId)
    ensures r.Err? <==> forall p :: p in players ==> !PlayerKey(p, id, userId)
  {
    match FirstIndex(players, (p: Player) => PlayerKey(p, id, userId))
    case None => Err(NoRows)
    case Some(i) => Ok(players[i])
  }

  /** GetPlayers: the active players of one owner, in storage order. */
  function GetPlayers(players: seq<Player>, userId: int): (r: seq<Player>)
    ensures forall p :: p in r <==> p in players && p.userId == Some(userId) && p.isActive
    ensures forall p :: multiset(r)[p] == if p.userId == Some(userId) && p.isActive then multiset(players)[p] else 0
  {
    Filter(players, (p: Player) => p.userId == Some(userId) && p.isActive)
  }

  /** DeletePlayer: a hard DELETE of the row matching both id and owner. */
  function DeletePlayer(players: seq<Player>, id: int, userId: int): (r: seq<Player>)
    ensures forall p :: p in r ==> !PlayerKey(p, id, userId)
    ensures forall p :: !PlayerKey(p, id, userId) ==> multiset(r)[p] == multiset(players)[p]
  {
    Filter(players, (p: Player) => !PlayerKey(p, id, userId))
  }

  /** The row that UpdatePlayer writes over `row`. */
  function UpdatedPlayerRow(row: Player, params: UpdatePlayerParams, now: Timestamp): Player
  {
    row.(name := params.name, email := params.email, preferredMatchGroup := params.preferredMatchGroup,
         emailNotificationsEnabled := params.emailNotificationsEnabled, isActive := params.isActive,
         updatedAt := Some(now))
  }

  predicate PlayerUpdateTarget(p: Player, params: UpdatePlayerParams)
  {
    p.id == params.id && SqlEq(p.userId, params.userId)
  }

  /**
   UpdatePlayer: sets every column of the rows matching id and owner and
   returns the first such row; no such row is `ErrNoRows`.
   */
  function UpdatePlayer(players: seq<Player>, params: UpdatePlayerParams, now: Timestamp)
    : (r: Result<(seq<Player>, Player), DbError>)
    ensures r.Err? <==> forall p :: p in players ==> !PlayerUpdateTarget(p, params)
    ensures r.Ok? ==> |r.value.0| == |players|
    ensures r.Ok? ==> forall j :: 0 <= j < |players| && !PlayerUpdateTarget(players[j], params) ==>
                                   r.value.0[j] == players[j]
    ensures r.Ok? ==> forall j :: 0 <= j < |players| && PlayerUpdateTarget(players[j], params) ==>
                                   r.value.0[j] == UpdatedPlayerRow(players[j], params, now)
    ensures r.Ok? ==> r.value.1 in r.value.0 && r.value.1.id == params.id && r.value.1.userId == params.userId
    ensures r.Ok? ==> exists j :: 0 <= j < |players| && PlayerUpdateTarget(players[j], params) &&
                                  r.value.1 == UpdatedPlayerRow(players[j], params, now)
  {
    match FirstIndex(players, (p: Player) => PlayerUpdateTarget(p, params))
    case None => Err(NoRows)
    case Some(i) =>
      var table := seq(|players|, j requires 0 <= j < |players| =>
        if PlayerUpdateTarget(players[j], params) then UpdatedPlayerRow(players[j], params, now) else players[j]);
      Ok((table, table[i]))
  }

  /** Under unique ids, a player is determined by its id. */
  lemma PlayerDeterminedById(players: seq<Player>, a: Player, b: Player)
    requires UniquePlayerIds(players)
    requires a in players && b in players && a.id == b.id
    ensures a == b
  {
    var i :| 0 <= i < |players| && players[i] == a;
    var j :| 0 <= j < |players| && players[j] == b;
    assert !(i < j) && !(j < i);
  }

  /** Another owner can never see a player: the owner-scoped read fails for them. */
  lemma GetPlayerOwnerScoped(players: seq<Player>, p: Player, otherUser: int)
    requires UniquePlayerIds(players)
    requires p in players && p.userId != Some(otherUser)
    ensures GetPlayer(players, p.id, otherUser) == Err(NoRows)
  {
    forall r | r in players && r.id == p.id
      ensures !PlayerKey(r, p.id, otherUser)
    {
      PlayerDeterminedById(players, r, p);
    }
  }

  /** The owner reads back any of their players, inactive (soft-deleted) ones included. */
  lemma GetPlayerIgnoresActive(players: seq<Player>, p: Player, userId: int)
    requires UniquePlayerIds(players)
    requires p in players && p.userId == Some(userId)
    ensures GetPlayer(players, p.id, userId) == Ok(p)
  {
    var r := GetPlayer(players, p.id, userId);
    PlayerDeterminedById(players, r.value, p);
  }

  // ---------------------------------------------------------------------------
  // Owner-scoped seasons

  predicate SeasonKey(s: Season, id: int, userId: int)
  {
    s.id == id && s.userId == Some(userId)
  }

  /** GetSeason: the row matching both id and owner; there is no active filter. */
  function GetSeason(seasons: seq<Season>, id: int, userId: int): (r: Result<Season, DbError>)
    ensures r.Ok? ==> r.value in seasons && SeasonKey(r.value, id, userId)
    ensures r.Err? <==> forall s :: s in seasons ==> !SeasonKey(s, id, userId)
  {
    match FirstIndex(seasons, (s: Season) => SeasonKey(s, id, userId))
    case None => Err(NoRows)
    case Some(i) => Ok(seasons[i])
  }

  /** GetSeasons: the active seasons of one owner, in storage order. */
  function GetSeasons(seasons: seq<Season>, userId: int): (r: seq<Season>)
    ensures forall s :: s in r <==> s in seasons && s.userId == Some(userId) && s.isActive
    ensures forall s :: multiset(r)[s] == if s.userId == Some(userId) && s.isActive then multiset(seasons)[s] else 0
  {
    Filter(seasons, (s: Season) => s.userId == Some(userId) && s.isActive)
  }

  /** DeleteSeason: a hard DELETE of the row matching both id and owner. */
  function DeleteSeason(seasons: seq<Season>, id: int, userId: int): (r: seq<Season>)
    ensures forall s :: s in r ==> !SeasonKey(s, id, userId)
    ensures forall s :: !SeasonKey(s, id, userId) ==> multiset(r)[s] == multiset(seasons)[s]
  {
    Filter(seasons, (s: Season) => !SeasonKey(s, id, userId))
  }

  function UpdatedSeasonRow(row: Season, params: UpdateSeasonParams, now: Timestamp): Season
  {
    row.(name := params.name, startDate := params.startDate, seasonType := params.seasonType,
         frequency := params.frequency, isActive := params.isActive, updatedAt := Some(now))
  }

  predicate SeasonUpdateTarget(s: Season, params: UpdateSeasonParams)
  {
    s.id == params.id && SqlEq(s.userId, params.userId)
  }

  /** UpdateSeason: sets every column of the rows matching id and owner and returns the first. */
  function UpdateSeason(seasons: seq<Season>, params: UpdateSeasonParams, now: Timestamp)
    : (r: Result<(seq<Season>, Season), DbError>)
    ensures r.Err? <==> forall s :: s in seasons ==> !SeasonUpdateTarget(s, params)
    ensures r.Ok? ==> |r.value.0| == |seasons|
    ensures r.Ok? ==> forall j :: 0 <= j < |seasons| && !SeasonUpdateTarget(seasons[j], params) ==>
                                   r.value.0[j] == seasons[j]
    ensures r.Ok? ==> forall j :: 0 <= j < |seasons| && SeasonUpdateTarget(seasons[j], params) ==>
                                   r.value.0[j] == UpdatedSeasonRow(seasons[j], params, now)
    ensures r.Ok? ==> r.value.1 in r.value.0 && r.value.1.id == params.id && r.value.1.userId == params.userId
    ensures r.Ok? ==> exists j :: 0 <= j < |seasons| && SeasonUpdateTarget(seasons[j], params) &&
                                  r.value.1 == UpdatedSeasonRow(seasons[j], params, now)
  {
    match FirstIndex(seasons, (s: Season) => SeasonUpdateTarget(s, params))
    case None => Err(NoRows)
    case Some(i) =>
      var table := seq(|seasons|, j requires 0 <= j < |seasons| =>
        if SeasonUpdateTarget(seasons[j], params) then UpdatedSeasonRow(seasons[j], params, now) else seasons[j]);
      Ok((table, table[i]))
  }

  /** Under unique ids, a season is determined by its id. */
  lemma SeasonDeterminedById(seasons: seq<Season>, a: Season, b: Season)
    requires UniqueSeasonIds(seasons)
    requires a in seasons && b in seasons && a.id == b.id
    ensures a == b
  {
    var i :| 0 <= i < |seasons| && seasons[i] == a;
    var j :| 0 <= j < |seasons| && seasons[j] == b;
    assert !(i < j) && !(j < i);
  }

  /** A season deleted by its owner is gone from the owner's list and from the owner-scoped read. */
  lemma DeletedSeasonGone(seasons: seq<Season>, id: int, userId: int)
    ensures forall s :: s in GetSeasons(DeleteSeason(seasons, id, userId), userId) ==> s.id != id
    ensures GetSeason(DeleteSeason(seasons, id, userId), id, userId).Err?
  {
  }

  /** Deleting one owner's season leaves every other owner's list exactly as it was. */
  lemma DeleteSeasonOtherOwners(seasons: seq<Season>, id: int, userId: int, other: int)
    requires other != userId
    ensures multiset(GetSeasons(DeleteSeason(seasons, id, userId), other)) == multiset(GetSeasons(seasons, other))
  {
    var after := DeleteSeason(seasons, id, userId);
    forall s
      ensures multiset(GetSeasons(after, other))[s] == multiset(GetSeasons(seasons, other))[s]
    {
      if s.userId == Some(other) && s.isActive {
        assert !SeasonKey(s, id, userId);
      }
    }
  }

  // ---------------------------------------------------------------------------
  // Matches

  /** DeleteMatch: a hard DELETE by id alone. */
  function DeleteMatch(matches: seq<Match>, id: int): (r: seq<Match>)
    ensures forall m :: m in r <==> m in matches && m.id != id
    ensures forall m: Match :: m.id != id ==> multiset(r)[m] == multiset(matches)[m]
  {
    Filter(matches, (m: Match) => m.id != id)
  }

  function UpdatedMatchRow(row: Match, params: UpdateMatchParams, now: Timestamp): Match
  {
    row.(seasonId := params.seasonId, player1 := params.player1, player1Points := params.player1Points,
         player2 := params.player2, player2Points := params.player2Points, matchDate := params.matchDate,
         winnerId := params.winnerId, group := params.group, isActive := params.isActive,
         updatedAt := Some(now))
  }

  /** UpdateMatch: sets every column of the rows with the given id and returns the first. */
  function UpdateMatch(matches: seq<Match>, params: UpdateMatchParams, now: Timestamp)
    : (r: Result<(seq<Match>, Match), DbError>)
    ensures r.Err? <==> forall m :: m in matches ==> m.id != params.id
    ensures r.Ok? ==> |r.value.0| == |matches|
    ensures r.Ok? ==> forall j :: 0 <= j < |matches| ==> r.value.0[j].id == matches[j].id
    ensures r.Ok? ==> forall j :: 0 <= j < |matches| && matches[j].id != params.id ==> r.value.0[j] == matches[j]
    ensures r.Ok? ==> forall j :: 0 <= j < |matches| && matches[j].id == params.id ==>
                                   r.value.0[j] == UpdatedMatchRow(matches[j], params, now)
    ensures r.Ok? ==> r.value.1 in r.value.0 && r.value.1.id == params.id
  {
    match FirstIndex(matches, (m: Match) => m.id == params.id)
    case None => Err(NoRows)
    case Some(i) =>
      var table := seq(|matches|, j requires 0 <= j < |matches| =>
        if matches[j].id == params.id then UpdatedMatchRow(matches[j], params, now) else matches[j]);
      Ok((table, table[i]))
  }

  // ---------------------------------------------------------------------------
  // Season scoreboard

  /** The subquery `(SELECT s.userId FROM seasons s WHERE s.id = $2)`: NULL when there is no such season. */
  function SeasonOwner(seasons: seq<Season>, id: int): (r: Option<int>)
    ensures r.Some? ==> exists s :: s in seasons && s.id == id && s.userId == r
    ensures (forall s :: s in seasons ==> s.id != id) ==> r.None?
  {
    match FirstIndex(seasons, (s: Season) => s.id == id)
    case None => None
    case Some(i) => seasons[i].userId
  }

  /** The matches of a season won by a player: the left-joined rows that COUNT(m.winnerId) counts. */
  function WonMatches(matches: seq<Match>, seasonId: int, playerId: int): (r: seq<Match>)
    ensures forall m :: m in r <==> m in matches && m.seasonId == Some(seasonId) && m.winnerId == Some(playerId)
  {
    Filter(matches, (m: Match) => m.seasonId == Some(seasonId) && m.winnerId == Some(playerId))
  }

  function RowFor(matches: seq<Match>, seasonId: int, p: Player): ScoreboardRow
  {
    ScoreboardRow(p.id, p.name, |WonMatches(matches, seasonId, p.id)|)
  }

  /** The players the WHERE clause `p.userId = (subquery)` keeps. */
  function OwnedPlayers(players: seq<Player>, owner: Option<int>): seq<Player>
  {
    Filter(players, (p: Player) => SqlEq(p.userId, owner))
  }

  /** The owned players, each with its win count, before the ORDER BY. */
  function Tally(players: seq<Player>, matches: seq<Match>, owner: Option<int>, seasonId: int)
    : (r: seq<ScoreboardRow>)
    ensures |r| == |OwnedPlayers(players, owner)|
    ensures forall row :: row in r <==>
              exists p :: p in players && SqlEq(p.userId, owner) && row == RowFor(matches, seasonId, p)
  {
    var owned := OwnedPlayers(players, owner);
    var r := seq(|owned|, i requires 0 <= i < |owned| => RowFor(matches, seasonId, owned[i]));
    forall row | row in r
      ensures exists p :: p in players && SqlEq(p.userId, owner) && row == RowFor(matches, seasonId, p)
    {
      var i :| 0 <= i < |r| && r[i] == row;
      assert owned[i] in owned;
    }
    forall p | p in players && SqlEq(p.userId, owner)
      ensures RowFor(matches, seasonId, p) in r
    {
      var i :| 0 <= i < |owned| && owned[i] == p;
      assert r[i] == RowFor(matches, seasonId, p);
    }
    r
  }

  function NegWins(row: ScoreboardRow): int { -(row.wins as int) }

  /**
   GetSeasonScoreboard: every player owned by the owner of season `idParam`,
   with the number of matches of season `seasonIdParam` it won, by descending wins.
   */
  function GetSeasonScoreboard(players: seq<Player>, matches: seq<Match>, seasons: seq<Season>,
                               seasonIdParam: int, idParam: int): (r: seq<ScoreboardRow>)
    ensures forall i, j :: 0 <= i < j < |r| ==> r[i].wins >= r[j].wins
    ensures multiset(r) == multiset(Tally(players, matches, SeasonOwner(seasons, idParam), seasonIdParam))
  {
    var r := SortBy(Tally(players, matches, SeasonOwner(seasons, idParam), seasonIdParam), NegWins);
    assert forall i, j :: 0 <= i < j < |r| ==> NegWins(r[i]) <= NegWins(r[j]);
    r
  }

  /**
   The scoreboard lists exactly the players of the season's owner, zero-win
   players included, each with the count of its wins in the season; and
   nothing at all when the season does not exist.
   */
  lemma ScoreboardContents(players: seq<Player>, matches: seq<Match>, seasons: seq<Season>, seasonId: int)
    ensures var r := GetSeasonScoreboard(players, matches, seasons, seasonId, seasonId);
            var owner := SeasonOwner(seasons, seasonId);
            && (forall row :: row in r <==> exists p :: p in players && SqlEq(p.userId, owner) &&
                                                        row == ScoreboardRow(p.id, p.name, |WonMatches(matches, seasonId, p.id)|))
            && |r| == |OwnedPlayers(players, owner)|
    ensures (forall s :: s in seasons ==> s.id != seasonId) ==>
              GetSeasonScoreboard(players, matches, seasons, seasonId, seasonId) == []
  {
    var owner := SeasonOwner(seasons, seasonId);
    var t := Tally(players, matches, owner, seasonId);
    var r := GetSeasonScoreboard(players, matches, seasons, seasonId, seasonId);
    assert |r| == |t| by {
      calc {
        |r|;
        |multiset(r)|;
        |multiset(t)|;
        |t|;
      }
    }
    forall row
      ensures row in r <==> row in t
    {
      calc {
        row in r;
        row in multiset(r);
        row in multiset(t);
        row in t;
      }
    }
  }

  // ---------------------------------------------------------------------------
  // Upcoming matches

  /** At most this many matches are listed as upcoming (`LIMIT 5`). */
  const UpcomingLimit: nat := 5

  /** The WHERE clause: of the season, dated strictly after `now` (a NULL date never is). */
  predicate IsUpcoming(m: Match, seasonId: int, now: Timestamp)
  {
    m.seasonId == Some(seasonId) && m.matchDate.Some? && m.matchDate.value > now
  }

  /** The date of a dated match (every candidate is dated), the ORDER BY key. */
  function DateKey(m: Match): int
  {
    match m.matchDate
    case Some(d) => d
    case None => 0
  }

  function UpcomingCandidates(matches: seq<Match>, seasonId: int, now: Timestamp): (r: seq<Match>)
    ensures forall m :: m in r <==> m in matches && IsUpcoming(m, seasonId, now)
    ensures forall m :: multiset(r)[m] == if IsUpcoming(m, seasonId, now) then multiset(matches)[m] else 0
  {
    Filter(matches, (m: Match) => IsUpcoming(m, seasonId, now))
  }

  /** The candidates in ascending date order; all of them are dated. */
  function SortedCandidates(matches: seq<Match>, seasonId: int, now: Timestamp): (r: seq<Match>)
    ensures multiset(r) == multiset(UpcomingCandidates(matches, seasonId, now))
    ensures |r| == |UpcomingCandidates(matches, seasonId, now)|
    ensures forall i :: 0 <= i < |r| ==> r[i] in matches && IsUpcoming(r[i], seasonId, now)
    ensures SortedBy(r, DateKey)
  {
    var cands := UpcomingCandidates(matches, seasonId, now);
    var r := SortBy(cands, DateKey);
    forall i | 0 <= i < |r|
      ensures r[i] in matches && IsUpcoming(r[i], seasonId, now)
    {
      assert r[i] in multiset(cands);
    }
    r
  }

  /** GetSeasonUpcomingMatches: `ORDER BY matchDate ASC LIMIT 5` over the candidates. */
  function GetSeasonUpcomingMatches(matches: seq<Match>, seasonId: int, now: Timestamp): (r: seq<Match>)
    ensures forall m :: m in r ==> m in matches && IsUpcoming(m, seasonId, now)
    ensures SortedBy(r, DateKey)
    ensures |r| <= UpcomingLimit
    ensures var n := |UpcomingCandidates(matches, seasonId, now)|;
            |r| == if n < UpcomingLimit then n else UpcomingLimit
  {
    var sorted := SortedCandidates(matches, seasonId, now);
    var k := if |sorted| <= UpcomingLimit then |sorted| else UpcomingLimit;
    var r := sorted[..k];
    assert forall i :: 0 <= i < |r| ==> r[i] == sorted[i];
    r
  }

  /**
   The listed matches are the earliest candidates: each is a candidate, and
   any candidate occurrence left out is dated no earlier than every listed match.
   */
  lemma UpcomingAreEarliest(matches: seq<Match>, seasonId: int, now: Timestamp)
    ensures var r := GetSeasonUpcomingMatches(matches, seasonId, now);
            var cands := UpcomingCandidates(matches, seasonId, now);
            && multiset(r) <= multiset(cands)
            && forall x, c :: x in r && c in cands && multiset(r)[c] < multiset(cands)[c] ==>
                 x.matchDate.value <= c.matchDate.value
  {
    var r := GetSeasonUpcomingMatches(matches, seasonId, now);
    var cands := UpcomingCandidates(matches, seasonId, now);
    var sorted := SortedCandidates(matches, seasonId, now);
    var k := if |sorted| <= UpcomingLimit then |sorted| else UpcomingLimit;
    var rest := sorted[k..];
    assert r == sorted[..k];
    assert sorted == r + rest;
    assert multiset(cands) == multiset(r) + multiset(rest);
    SortedPrefixIsSmallest(sorted, DateKey, k);
    forall x, c | x in r && c in cands && multiset(r)[c] < multiset(cands)[c]
      ensures x.matchDate.value <= c.matchDate.value
    {
      assert c in multiset(rest);
      assert c in rest;
      assert DateKey(x) <= DateKey(c);
    }
  }

  // ---------------------------------------------------------------------------
  // Custom columns and values

  predicate ActiveColumn(c: PlayerCustomColumn) { c.isActive == Some(true) }

  function OrderKey(c: PlayerCustomColumn): int
  {
    match c.displayOrder
    case Some(n) => n
    case None => 0
  }

  predicate HasOrder(c: PlayerCustomColumn) { c.displayOrder.Some? }

  predicate NoOrder(c: PlayerCustomColumn) { c.displayOrder.None? }

  /** ORDER BY display_order ASC as PostgreSQL does it: ascending, NULLs after every value. */
  predicate NullsLastOrder(cs: seq<PlayerCustomColumn>)
  {
    forall i, j :: 0 <= i < j < |cs| && cs[j].displayOrder.Some? ==>
      cs[i].displayOrder.Some? && cs[i].displayOrder.value <= cs[j].displayOrder.value
  }

  /** The columns that have a display order, sorted by it. */
  function OrderedColumns(active: seq<PlayerCustomColumn>): (r: seq<PlayerCustomColumn>)
    ensures multiset(r) == multiset(Filter(active, HasOrder))
    ensures NullsLastOrder(r)
    ensures forall i :: 0 <= i < |r| ==> r[i].displayOrder.Some?
  {
    var ordered := Filter(active, HasOrder);
    var r := SortBy(ordered, OrderKey);
    forall i | 0 <= i < |r|
      ensures r[i].displayOrder.Some?
    {
      assert r[i] in multiset(ordered);
    }
    r
  }

  lemma NullsLastConcat(sorted: seq<PlayerCustomColumn>, unordered: seq<PlayerCustomColumn>)
    requires NullsLastOrder(sorted)
    requires forall i :: 0 <= i < |unordered| ==> unordered[i].displayOrder.None?
    ensures NullsLastOrder(sorted + unordered)
  {
    var r := sorted + unordered;
    assert forall k :: |sorted| <= k < |r| ==> r[k] == unordered[k - |sorted|];
    forall i, j | 0 <= i < j < |r| && r[j].displayOrder.Some?
      ensures r[i].displayOrder.Some? && r[i].displayOrder.value <= r[j].displayOrder.value
    {
      assert j < |sorted|;
      assert r[i] == sorted[i] && r[j] == sorted[j];
    }
  }

  lemma SplitByOrder(active: seq<PlayerCustomColumn>)
    ensures multiset(Filter(active, HasOrder)) + multiset(Filter(active, NoOrder)) == multiset(active)
  {
    var a, b := Filter(active, HasOrder), Filter(active, NoOrder);
    forall c ensures (multiset(a) + multiset(b))[c] == multiset(active)[c] { }
  }

  /** Arranges columns by ascending display order, those without one last. */
  function ArrangeByOrder(active: seq<PlayerCustomColumn>): (r: seq<PlayerCustomColumn>)
    ensures multiset(r) == multiset(active)
    ensures NullsLastOrder(r)
  {
    var sorted := OrderedColumns(active);
    var unordered := Filter(active, NoOrder);
    SplitByOrder(active);
    assert forall i :: 0 <= i < |unordered| ==> unordered[i] in unordered;
    NullsLastConcat(sorted, unordered);
    sorted + unordered
  }

  /** GetPlayerCustomColumns: the active columns by ascending display order, NULL orders last. */
  function GetPlayerCustomColumns(columns: seq<PlayerCustomColumn>): (r: seq<PlayerCustomColumn>)
    ensures multiset(r) == multiset(Filter(columns, ActiveColumn))
    ensures forall c :: c in r <==> c in columns && ActiveColumn(c)
    ensures NullsLastOrder(r)
  {
    var active := Filter(columns, ActiveColumn);
    var r := ArrangeByOrder(active);
    SameMembers(r, active);
    r
  }

  function JoinRow(v: PlayerCustomValue, c: PlayerCustomColumn): CustomValueRow
  {
    CustomValueRow(v.id, v.playerId, v.columnId, v.value, c.name, c.fieldType)
  }

  /** The columns joined to one value row by `pcv.column_id = pcc.id`. */
  function JoinColumns(v: PlayerCustomValue, columns: seq<PlayerCustomColumn>): (r: seq<CustomValueRow>)
    ensures forall row :: row in r <==> exists c :: c in columns && v.columnId == Some(c.id) && row == JoinRow(v, c)
  {
    if columns == [] then []
    else
      var rest := JoinColumns(v, columns[1..]);
      assert columns == [columns[0]] + columns[1..];
      if v.columnId == Some(columns[0].id) then [JoinRow(v, columns[0])] + rest else rest
  }

  /** GetPlayerCustomValues: a player's values, each joined to its column definition. */
  function GetPlayerCustomValues(values: seq<PlayerCustomValue>, columns: seq<PlayerCustomColumn>, playerId: int)
    : (r: seq<CustomValueRow>)
    ensures forall row :: row in r <==>
              exists v, c :: v in values && c in columns && v.playerId == Some(playerId) &&
                             v.columnId == Some(c.id) && row == JoinRow(v, c)
  {
    if values == [] then []
    else
      var rest := GetPlayerCustomValues(values[1..], columns, playerId);
      assert values == [values[0]] + values[1..];
      if values[0].playerId == Some(playerId) then JoinColumns(values[0], columns) + rest else rest
  }

  /** The unique key (player_id, column_id) of player_custom_values. */
  predicate CustomKey(v: PlayerCustomValue, playerId: int, columnId: int)
  {
    v.playerId == Some(playerId) && v.columnId == Some(columnId)
  }

  /** At most one row per non-NULL (player, column) pair. */
  predicate UniqueCustomKeys(values: seq<PlayerCustomValue>)
  {
    forall i, j :: 0 <= i < j < |values| && values[i].playerId.Some? && values[i].columnId.Some? ==>
      !(values[i].playerId == values[j].playerId && values[i].columnId == values[j].columnId)
  }

  /**
   UpsertPlayerCustomValue: inserts a row for (player, column), or on conflict
   overwrites the value and the update stamp of the existing one.
   */
  function UpsertPlayerCustomValue(values: seq<PlayerCustomValue>, playerId: int, columnId: int, value: string,
                                   nextId: int, now: Timestamp)
    : (r: (seq<PlayerCustomValue>, PlayerCustomValue))
    ensures CustomKey(r.1, playerId, columnId) && r.1.value == Some(value) && r.1.updatedAt == Some(now)
    ensures r.1 in r.0
    ensures UniqueCustomKeys(values) ==> UniqueCustomKeys(r.0)
    ensures UniqueCustomKeys(values) ==>
              forall j :: 0 <= j < |r.0| && CustomKey(r.0[j], playerId, columnId) ==> r.0[j] == r.1
    ensures forall v :: !CustomKey(v, playerId, columnId) ==> (v in r.0 <==> v in values)
    ensures (exists v :: v in values && CustomKey(v, playerId, columnId)) ==> |r.0| == |values|
    ensures (forall v :: v in values ==> !CustomKey(v, playerId, columnId)) ==>
              |r.0| == |values| + 1 && r.1.id == nextId && r.1.createdAt == Some(now)
    ensures UniqueCustomKeys(values) ==>
              forall v :: v in values && CustomKey(v, playerId, columnId) ==>
                            r.1 == v.(value := Some(value), updatedAt := Some(now))
  {
    match FirstIndex(values, (v: PlayerCustomValue) => CustomKey(v, playerId, columnId))
    case Some(i) =>
      var row := values[i].(value := Some(value), updatedAt := Some(now));
      var table := values[i := row];
      assert table[i] == row;
      assert forall v :: !CustomKey(v, playerId, columnId) ==> (v in table <==> v in values) by {
        forall v | !CustomKey(v, playerId, columnId)
          ensures v in table <==> v in values
        {
          if v in values {
            var j :| 0 <= j < |values| && values[j] == v;
            assert table[j] == v;
          }
        }
      }
      (table, row)
    case None =>
      var row := PlayerCustomValue(nextId, Some(playerId), Some(columnId), Some(value), Some(now), Some(now));
      (values + [row], row)
  }

  /** After an upsert, the (player, column) row sits at the first key position `i` of the new table. */
  lemma UpsertAgain(values: seq<PlayerCustomValue>, playerId: int, columnId: int, value: string,
                    id1: int, id2: int, t1: Timestamp, t2: Timestamp)
    ensures var first := UpsertPlayerCustomValue(values, playerId, columnId, value, id1, t1);
            var second := UpsertPlayerCustomValue(first.0, playerId, columnId, value, id2, t2);
            exists i :: 0 <= i < |first.0| && first.0[i] == first.1 &&
                        second.0 == first.0[i := first.0[i].(updatedAt := Some(t2))]
  {
    var key := (v: PlayerCustomValue) => CustomKey(v, playerId, columnId);
    var first := UpsertPlayerCustomValue(values, playerId, columnId, value, id1, t1);
    var i: nat := match FirstIndex(values, key) case Some(i) => i case None => |values|;
    assert first.0[i] == first.1;
    assert forall j :: 0 <= j < i ==> first.0[j] == values[j];
    assert FirstIndex(first.0, key) == Some(i);
  }

  /**
   Repeating an upsert changes no row but the update stamp of the (player, column)
   row, which moves to the later time; at the same time it changes nothing.
   */
  lemma UpsertRepeat(values: seq<PlayerCustomValue>, playerId: int, columnId: int, value: string,
                     id1: int, id2: int, t1: Timestamp, t2: Timestamp)
    ensures var first := UpsertPlayerCustomValue(values, playerId, columnId, value, id1, t1);
            var second := UpsertPlayerCustomValue(first.0, playerId, columnId, value, id2, t2);
            && |second.0| == |first.0|
            && (forall j :: 0 <= j < |first.0| ==> second.0[j] == first.0[j].(updatedAt := second.0[j].updatedAt))
            && (forall j :: 0 <= j < |first.0| && second.0[j] != first.0[j] ==>
                  CustomKey(first.0[j], playerId, columnId) && second.0[j].updatedAt == Some(t2))
            && (t1 == t2 ==> second.0 == first.0)
  {
    var first := UpsertPlayerCustomValue(values, playerId, columnId, value, id1, t1);
    var second := UpsertPlayerCustomValue(first.0, playerId, columnId, value, id2, t2);
    UpsertAgain(values, playerId, columnId, value, id1, id2, t1, t2);
    var i :| 0 <= i < |first.0| && first.0[i] == first.1 &&
             second.0 == first.0[i := first.0[i].(updatedAt := Some(t2))];
    if t1 == t2 {
      assert first.0[i].(updatedAt := Some(t2)) == first.0[i];
    }
  }

  // ---------------------------------------------------------------------------
  // Users: soft delete and subscription reset

  /** DeleteUser: a soft delete that clears `isActive` on the row with the id. */
  function DeleteUser(users: seq<User>, id: int, now: Timestamp): (r: seq<User>)
    ensures |r| == |users|
    ensures forall j :: 0 <= j < |r| && users[j].id != id ==> r[j] == users[j]
    ensures forall j :: 0 <= j < |r| && users[j].id == id ==>
              !r[j].isActive && r[j].updatedAt == Some(now) &&
              r[j].(isActive := users[j].isActive, updatedAt := users[j].updatedAt) == users[j]
  {
    seq(|users|, j requires 0 <= j < |users| =>
      if users[j].id == id then users[j].(isActive := false, updatedAt := Some(now)) else users[j])
  }

  /** DeleteUserSubscription: resets the tier to 'free' and clears the billing id. */
  function DeleteUserSubscription(users: seq<User>, id: int, now: Timestamp): (r: seq<User>)
    ensures |r| == |users|
    ensures forall j :: 0 <= j < |r| && users[j].id != id ==> r[j] == users[j]
    ensures forall j :: 0 <= j < |r| && users[j].id == id ==>
              r[j].subscriptionTier == "free" && r[j].stripeId == "" && r[j].updatedAt == Some(now) &&
              r[j].(subscriptionTier := users[j].subscriptionTier, stripeId := users[j].stripeId,
                    updatedAt := users[j].updatedAt) == users[j]
  {
    seq(|users|, j requires 0 <= j < |users| =>
      if users[j].id == id then users[j].(subscriptionTier := "free", stripeId := "", updatedAt := Some(now))
      else users[j])
  }
}
