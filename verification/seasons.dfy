/**
 The season handlers: creation defaults, the read-merge-write partial update,
 the name-only PUT, the scoreboard endpoint and its parameter wiring, the
 season count and the public schedule link.
 */
module Seasons {

  import opened Base
  import opened Rows
  import opened Envelope
  import opened Updates
  import Queries
  import Decimal

  /** The owner every endpoint acts for: the handlers use a fixed user id instead of the session's. */
  const PlaceholderUser: int := 1

  /** The frequency every season posted through the API starts with. */
  const DefaultFrequency: string := "weekly"

  // ---------------------------------------------------------------------------
  // Creation

  datatype NewSeasonRequest = NewSeasonRequest(name: string, startDate: Timestamp, seasonType: string)

  /** PostSeasons: the insert for the placeholder owner, with a present start date and a weekly frequency. */
  function PostSeasons(req: NewSeasonRequest, inserted: Result<Season, Fault>)
    : (r: (CreateSeasonParams, ApiResult<Season>))
    ensures r.0.userId == Some(PlaceholderUser) && r.0.frequency == "weekly"
    ensures r.0.name == req.name && r.0.startDate == Some(req.startDate) && r.0.seasonType == req.seasonType
    ensures r.1.IsSuccess() <==> inserted.Ok?
    ensures inserted.Err? ==> r.1 == Failure(DbError)
    ensures inserted.Ok? ==> r.1.data == Some(inserted.value)
  {
    var params := CreateSeasonParams(Some(PlaceholderUser), req.name, Some(req.startDate), req.seasonType, DefaultFrequency);
    (params, if inserted.Ok? then Success(Some(inserted.value)) else Failure(DbError))
  }

  // ---------------------------------------------------------------------------
  // Read-merge-write update

  /** Whether `v` has the type the merge asserts for `key`; unrecognised keys accept anything. */
  predicate SeasonEntryTyped(key: string, v: Value)
  {
    && (key == "name" ==> v.VString?)
    && (key == "startDate" ==> v.VDate?)
    && (key == "seasonType" ==> v.VString?)
    && (key == "frequency" ==> v.VString?)
    && (key == "isActive" ==> v.VBool?)
  }

  predicate SeasonUpdatesTyped(updates: map<string, Value>)
  {
    forall k :: k in updates ==> SeasonEntryTyped(k, updates[k])
  }

  /** One iteration of the merge loop; `None` is a failed type assertion. */
  function ApplySeasonEntry(p: UpdateSeasonParams, key: string, v: Value): (r: Option<UpdateSeasonParams>)
    ensures r.Some? <==> SeasonEntryTyped(key, v)
  {
    if key == "name" then (if v.VString? then Some(p.(name := v.s)) else None)
    else if key == "startDate" then (if v.VDate? then Some(p.(startDate := v.date)) else None)
    else if key == "seasonType" then (if v.VString? then Some(p.(seasonType := v.s)) else None)
    else if key == "frequency" then (if v.VString? then Some(p.(frequency := v.s)) else None)
    else if key == "isActive" then (if v.VBool? then Some(p.(isActive := v.b)) else None)
    else Some(p)
  }

  /** The merge loop, visiting the keys of `updates` in `order`. */
  function ApplySeasonUpdates(p: UpdateSeasonParams, updates: map<string, Value>, order: seq<string>)
    : Option<UpdateSeasonParams>
    requires forall k :: k in order ==> k in updates
    decreases |order|
  {
    if order == [] then Some(p)
    else
      match ApplySeasonEntry(p, order[0], updates[order[0]])
      case None => None
      case Some(q) => ApplySeasonUpdates(q, updates, order[1..])
  }

  function DateValue(v: Value, otherwise: Option<Timestamp>): Option<Timestamp>
  {
    if v.VDate? then v.date else otherwise
  }

  /** The merge stated over the set of visited keys, independent of any visiting order. */
  function MergeSeason(p: UpdateSeasonParams, updates: map<string, Value>, keys: set<string>): Option<UpdateSeasonParams>
    requires keys <= updates.Keys
  {
    if exists k :: k in keys && !SeasonEntryTyped(k, updates[k]) then None
    else Some(p.(name := if "name" in keys then AsString(updates["name"], p.name) else p.name,
                 startDate := if "startDate" in keys then DateValue(updates["startDate"], p.startDate) else p.startDate,
                 seasonType := if "seasonType" in keys then AsString(updates["seasonType"], p.seasonType) else p.seasonType,
                 frequency := if "frequency" in keys then AsString(updates["frequency"], p.frequency) else p.frequency,
                 isActive := if "isActive" in keys then AsBool(updates["isActive"], p.isActive) else p.isActive))
  }

  /** Applying one more key `k` before the others is merging over the larger key set. */
  lemma MergeSeasonStep(p: UpdateSeasonParams, updates: map<string, Value>, k: string, rest: set<string>)
    requires k in updates && rest <= updates.Keys && k !in rest
    ensures ApplySeasonEntry(p, k, updates[k]).None? ==> MergeSeason(p, updates, {k} + rest).None?
    ensures ApplySeasonEntry(p, k, updates[k]).Some? ==>
              MergeSeason(ApplySeasonEntry(p, k, updates[k]).value, updates, rest) == MergeSeason(p, updates, {k} + rest)
  {
    if ApplySeasonEntry(p, k, updates[k]).None? {
      assert k in {k} + rest && !SeasonEntryTyped(k, updates[k]);
    } else {
      assert (exists x :: x in rest && !SeasonEntryTyped(x, updates[x])) <==>
             (exists x :: x in {k} + rest && !SeasonEntryTyped(x, updates[x]));
    }
  }

  /** Visiting distinct keys in any order gives the order-free merge. */
  lemma {:induction false} ApplySeasonUpdatesIsMerge(p: UpdateSeasonParams, updates: map<string, Value>, order: seq<string>)
    requires forall i, j :: 0 <= i < j < |order| ==> order[i] != order[j]
    requires forall k :: k in order ==> k in updates
    ensures ApplySeasonUpdates(p, updates, order) == MergeSeason(p, updates, set k | k in order)
    decreases |order|
  {
    if order != [] {
      var k, rest := order[0], order[1..];
      var restKeys := set x | x in rest;
      assert (set x | x in order) == {k} + restKeys;
      assert k !in rest by {
        forall j | 0 <= j < |rest|
          ensures rest[j] != k
        {
          assert rest[j] == order[j + 1];
        }
      }
      forall i, j | 0 <= i < j < |rest|
        ensures rest[i] != rest[j]
      {
        assert rest[i] == order[i + 1] && rest[j] == order[j + 1];
      }
      MergeSeasonStep(p, updates, k, restKeys);
      match ApplySeasonEntry(p, k, updates[k])
      case None =>
      case Some(q) =>
        ApplySeasonUpdatesIsMerge(q, updates, rest);
    }
  }

  /** The params the merge starts from: the current row's values, with the caller's id and owner. */
  function BaseParams(current: Season, userId: int, seasonId: int): UpdateSeasonParams
  {
    UpdateSeasonParams(current.name, current.startDate, current.seasonType, current.frequency,
                       current.isActive, seasonId, Some(userId))
  }

  /** The row a successful update leaves: the named fields merged, everything else as it was. */
  function MergedSeason(current: Season, updates: map<string, Value>, now: Timestamp): Season
  {
    current.(name := StringOr(updates, "name", current.name),
             startDate := DateOr(updates, "startDate", current.startDate),
             seasonType := StringOr(updates, "seasonType", current.seasonType),
             frequency := StringOr(updates, "frequency", current.frequency),
             isActive := BoolOr(updates, "isActive", current.isActive),
             updatedAt := Some(now))
  }

  /** Merging a whole well-typed map into the current values and writing them gives the merged row. */
  lemma MergeWritesMergedSeason(current: Season, userId: int, seasonId: int, updates: map<string, Value>, now: Timestamp)
    ensures MergeSeason(BaseParams(current, userId, seasonId), updates, updates.Keys).None? <==> !SeasonUpdatesTyped(updates)
    ensures SeasonUpdatesTyped(updates) ==>
              var params := MergeSeason(BaseParams(current, userId, seasonId), updates, updates.Keys).value;
              && params.id == seasonId && params.userId == Some(userId)
              && Queries.UpdatedSeasonRow(current, params, now) == MergedSeason(current, updates, now)
  {
  }

  /**
   UpdateSeason: reads the owner's season, merges the update map into its
   values in map-iteration `order`, and writes the result back.
   */
  function UpdateSeason(seasons: seq<Season>, userId: int, seasonId: int, updates: map<string, Value>,
                        order: seq<string>, now: Timestamp)
    : (r: (seq<Season>, Result<Season, UpdateError>))
    requires IsIterationOrder(order, updates)
    ensures r.1.Err? ==> r.0 == seasons
    ensures Queries.GetSeason(seasons, seasonId, userId).Err? ==> r.1 == Err(ReadFailed(NoRows))
    ensures Queries.GetSeason(seasons, seasonId, userId).Ok? ==>
              (r.1 == Err(Panic) <==> !SeasonUpdatesTyped(updates))
    ensures !(r.1.Err? && r.1.error.WriteFailed?)
    ensures r.1.Ok? ==> r.1.value.id == seasonId && r.1.value.userId == Some(userId)
    ensures r.1.Ok? ==> |r.0| == |seasons|
    ensures r.1.Ok? ==> forall j :: 0 <= j < |seasons| && !(seasons[j].id == seasonId && seasons[j].userId == Some(userId)) ==>
                                   r.0[j] == seasons[j]
    ensures r.1.Ok? ==> r.1.value in r.0
    ensures r.1.Ok? && Queries.UniqueSeasonIds(seasons) ==>
              forall j :: 0 <= j < |seasons| && seasons[j].id == seasonId && seasons[j].userId == Some(userId) ==> r.0[j] == r.1.value
    ensures r.1.Ok? && Queries.UniqueSeasonIds(seasons) ==>
              r.1.value == MergedSeason(Queries.GetSeason(seasons, seasonId, userId).value, updates, now)
  {
    match Queries.GetSeason(seasons, seasonId, userId)
    case Err(e) => (seasons, Err(ReadFailed(e)))
    case Ok(current) =>
      ApplySeasonUpdatesIsMerge(BaseParams(current, userId, seasonId), updates, order);
      IterationVisitsAllKeys(order, updates);
      MergeWritesMergedSeason(current, userId, seasonId, updates, now);
      match ApplySeasonUpdates(BaseParams(current, userId, seasonId), updates, order)
      case None => (seasons, Err(Panic))
      case Some(params) =>
        assert Queries.SeasonUpdateTarget(current, params);
        match Queries.UpdateSeason(seasons, params, now)
        case Err(e) => (seasons, Err(WriteFailed(e)))
        case Ok(written) =>
          if Queries.UniqueSeasonIds(seasons) then
            var j :| 0 <= j < |seasons| && Queries.SeasonUpdateTarget(seasons[j], params) &&
                     written.1 == Queries.UpdatedSeasonRow(seasons[j], params, now);
            Queries.SeasonDeterminedById(seasons, seasons[j], current);
            assert forall k :: 0 <= k < |seasons| && seasons[k].id == seasonId && seasons[k].userId == Some(userId) ==>
                                written.0[k] == written.1 by {
              forall k | 0 <= k < |seasons| && seasons[k].id == seasonId && seasons[k].userId == Some(userId)
                ensures written.0[k] == written.1
              {
                Queries.SeasonDeterminedById(seasons, seasons[k], current);
              }
            }
            (written.0, Ok(written.1))
          else
            (written.0, Ok(written.1))
  }

  /** Go leaves the map's iteration order unspecified; the update does not depend on it. */
  lemma UpdateSeasonOrderFree(seasons: seq<Season>, userId: int, seasonId: int, updates: map<string, Value>,
                              order1: seq<string>, order2: seq<string>, now: Timestamp)
    requires IsIterationOrder(order1, updates) && IsIterationOrder(order2, updates)
    ensures UpdateSeason(seasons, userId, seasonId, updates, order1, now) ==
            UpdateSeason(seasons, userId, seasonId, updates, order2, now)
  {
    var read := Queries.GetSeason(seasons, seasonId, userId);
    if read.Ok? {
      var base := BaseParams(read.value, userId, seasonId);
      ApplySeasonUpdatesIsMerge(base, updates, order1);
      ApplySeasonUpdatesIsMerge(base, updates, order2);
      IterationVisitsAllKeys(order1, updates);
      IterationVisitsAllKeys(order2, updates);
    }
  }

  /** PutSeasonsSeasonId: an update map holding only the new name, for the placeholder owner. */
  function PutSeasonsSeasonId(seasons: seq<Season>, seasonId: int, name: string, now: Timestamp)
    : (r: (seq<Season>, ApiResult<Season>))
    ensures r.1.IsSuccess() <==> Queries.GetSeason(seasons, seasonId, PlaceholderUser).Ok?
    ensures r.1.Failure? ==> r.1.code == DbError && r.0 == seasons
    ensures r.1.Success? && Queries.UniqueSeasonIds(seasons) ==>
              var current := Queries.GetSeason(seasons, seasonId, PlaceholderUser).value;
              r.1.data == Some(current.(name := name, updatedAt := Some(now)))
    ensures r.1.Success? ==> r.1.data.Some? && r.1.data.value in r.0 && |r.0| == |seasons|
    ensures r.1.Success? ==>
              forall j :: 0 <= j < |seasons| && !(seasons[j].id == seasonId && seasons[j].userId == Some(PlaceholderUser)) ==>
                            r.0[j] == seasons[j]
    ensures r.1.Success? && Queries.UniqueSeasonIds(seasons) ==>
              forall j :: 0 <= j < |seasons| && seasons[j].id == seasonId && seasons[j].userId == Some(PlaceholderUser) ==>
                            r.0[j] == r.1.data.value
  {
    var updates := map["name" := VString(name)];
    assert SeasonUpdatesTyped(updates);
    var (table, result) := UpdateSeason(seasons, PlaceholderUser, seasonId, updates, ["name"], now);
    match result
    case Ok(s) => (table, Success(Some(s)))
    case Err(_) => (table, Failure(DbError))
  }

  // ---------------------------------------------------------------------------
  // Scoreboard

  /** The scoreboard wrapper: the season id goes to both query parameters; `userId` is not used. */
  function SeasonScoreboard(players: seq<Player>, matches: seq<Match>, seasons: seq<Season>, userId: int, seasonId: int)
    : (r: seq<ScoreboardRow>)
    ensures forall i, j :: 0 <= i < j < |r| ==> r[i].wins >= r[j].wins
    ensures forall row :: row in r <==>
              exists p :: p in players && SqlEq(p.userId, Queries.SeasonOwner(seasons, seasonId)) &&
                          row == ScoreboardRow(p.id, p.name, |Queries.WonMatches(matches, seasonId, p.id)|)
  {
    Queries.ScoreboardContents(players, matches, seasons, seasonId);
    Queries.GetSeasonScoreboard(players, matches, seasons, seasonId, seasonId)
  }

  /** Any caller gets the same scoreboard: the wrapper does not scope it to the caller. */
  lemma SeasonScoreboardIgnoresCaller(players: seq<Player>, matches: seq<Match>, seasons: seq<Season>,
                                      user1: int, user2: int, seasonId: int)
    ensures SeasonScoreboard(players, matches, seasons, user1, seasonId) ==
            SeasonScoreboard(players, matches, seasons, user2, seasonId)
  {
  }

  datatype ScoreboardData = ScoreboardData(scoreboard: seq<ScoreboardRow>, seasonName: string)

  /**
   GetSeasonsSeasonIdScoreboard: the scoreboard query, then an owner-scoped
   read of the season for its name. `boardRead` says whether the store
   answered the scoreboard query; either failure answers DB_ERROR.
   */
  function GetSeasonsSeasonIdScoreboard(players: seq<Player>, matches: seq<Match>, seasons: seq<Season>, seasonId: int,
                                        boardRead: Result<(), Fault>)
    : (r: ApiResult<ScoreboardData>)
    ensures r.IsSuccess() <==> boardRead.Ok? && Queries.GetSeason(seasons, seasonId, PlaceholderUser).Ok?
    ensures r.Failure? ==> r.code == DbError
    ensures r.Success? ==> r.data.Some?
    ensures r.Success? ==> r.data.value.seasonName == Queries.GetSeason(seasons, seasonId, PlaceholderUser).value.name
    ensures r.Success? ==> multiset(r.data.value.scoreboard) ==
                           multiset(Queries.Tally(players, matches, Queries.SeasonOwner(seasons, seasonId), seasonId))
    ensures r.Success? ==> forall i, j :: 0 <= i < j < |r.data.value.scoreboard| ==>
                                           r.data.value.scoreboard[i].wins >= r.data.value.scoreboard[j].wins
  {
    match boardRead
    case Err(_) => Failure(DbError)
    case Ok(_) =>
      var board := SeasonScoreboard(players, matches, seasons, PlaceholderUser, seasonId);
      match Queries.GetSeason(seasons, seasonId, PlaceholderUser)
      case Err(_) => Failure(DbError)
      case Ok(season) => Success(Some(ScoreboardData(board, season.name)))
  }

  // ---------------------------------------------------------------------------
  // Season count

  /** The number of active seasons `userId` owns, counted row by row. */
  function CountActiveSeasons(seasons: seq<Season>, userId: int): nat
  {
    if seasons == [] then 0
    else (if seasons[0].userId == Some(userId) && seasons[0].isActive then 1 else 0)
         + CountActiveSeasons(seasons[1..], userId)
  }

  /** The listing has one row per active season of the owner. */
  lemma {:induction false} GetSeasonsLength(seasons: seq<Season>, userId: int)
    ensures |Queries.GetSeasons(seasons, userId)| == CountActiveSeasons(seasons, userId)
  {
    if seasons != [] {
      GetSeasonsLength(seasons[1..], userId);
    }
  }

  /**
   GetSeasonsTotalAmount: the length of the placeholder owner's active-season
   list; `listed` says whether the store answered the listing.
   */
  function GetSeasonsTotalAmount(seasons: seq<Season>, listed: Result<(), Fault>): (r: ApiResult<nat>)
    ensures listed.Err? ==> r == Failure(DbError)
    ensures listed.Ok? ==> r == Success(Some(CountActiveSeasons(seasons, PlaceholderUser)))
  {
    match listed
    case Err(_) => Failure(DbError)
    case Ok(_) =>
      GetSeasonsLength(seasons, PlaceholderUser);
      Success(Some(|Queries.GetSeasons(seasons, PlaceholderUser)|))
  }

  // ---------------------------------------------------------------------------
  // Public schedule link

  const LinkPrefix: string := "/public/seasons/"
  const LinkSuffix: string := "/schedule"

  /** GetSeasonsSeasonIdPublicScheduleLink: the link with the id in decimal. */
  function PublicLink(seasonId: int): (link: string)
    ensures |link| > |LinkPrefix| + |LinkSuffix|
    ensures link[..|LinkPrefix|] == "/public/seasons/"
    ensures link[|link| - |LinkSuffix|..] == "/schedule"
    ensures var id := link[|LinkPrefix|..|link| - |LinkSuffix|];
            Decimal.Canonical(id) && Decimal.Parse(id) == Some(seasonId)
  {
    var id := Decimal.Format(seasonId);
    var link := LinkPrefix + id + LinkSuffix;
    assert link[|LinkPrefix|..|link| - |LinkSuffix|] == id;
    Decimal.FormatRoundTrip(seasonId);
    link
  }

  /** Reads the season id back out of a public link. */
  function SeasonIdOfLink(link: string): Option<int>
  {
    if |link| >= |LinkPrefix| + |LinkSuffix| && link[..|LinkPrefix|] == LinkPrefix
       && link[|link| - |LinkSuffix|..] == LinkSuffix
    then Decimal.Parse(link[|LinkPrefix|..|link| - |LinkSuffix|])
    else None
  }

  /** The link names its season: the id reads back, so distinct seasons get distinct links. */
  lemma PublicLinkRoundTrip(seasonId: int)
    ensures SeasonIdOfLink(PublicLink(seasonId)) == Some(seasonId)
  {
    var link := PublicLink(seasonId);
    assert link[|LinkPrefix|..|link| - |LinkSuffix|] == Decimal.Format(seasonId);
    Decimal.FormatRoundTrip(seasonId);
  }

  lemma PublicLinkInjective(a: int, b: int)
    ensures PublicLink(a) == PublicLink(b) <==> a == b
  {
    PublicLinkRoundTrip(a);
    PublicLinkRoundTrip(b);
  }
}
