/**
 The player handlers: creation defaults, the read-merge-write partial update
 driven by a key/value map, and the detail read with its custom-value map.
 */
module Players {

  import opened Base
  import opened Rows
  import opened Envelope
  import opened Updates
  import Queries

  /** The owner every endpoint acts for: the handlers use a fixed user id instead of the session's. */
  const PlaceholderUser: int := 1

  // ---------------------------------------------------------------------------
  // Creation

  /** CreatePlayer: the insert for a new player of `userId`; no preferred match group yet. */
  function NewPlayerParams(userId: int, name: string, email: Option<string>, notify: bool): (p: CreatePlayerParams)
    ensures p.userId == Some(userId) && p.preferredMatchGroup.None?
    ensures p.name == name && p.email == email && p.emailNotificationsEnabled == notify
  {
    CreatePlayerParams(Some(userId), name, email, None, notify)
  }

  /** The body of a create request; the email is optional. */
  datatype NewPlayerRequest = NewPlayerRequest(name: string, email: Option<string>, emailNotificationsEnabled: bool)

  /**
   PostPlayers as written: the email pointer is dereferenced before its
   presence is checked, so a request without an email panics before the insert.
   */
  function PostPlayersAsWritten(req: NewPlayerRequest, inserted: Result<Player, Fault>)
    : (r: (Option<CreatePlayerParams>, Reply<Player>))
    ensures r.1.Panicked? <==> req.email.None?
    ensures r.1.Panicked? ==> r.0.None?
    ensures req.email.Some? ==>
              r.0 == Some(NewPlayerParams(PlaceholderUser, req.name, req.email, req.emailNotificationsEnabled))
  {
    match req.email
    case None => (None, Panicked)
    case Some(e) =>
      var params := NewPlayerParams(PlaceholderUser, req.name, Some(e), req.emailNotificationsEnabled);
      (Some(params), Replied(if inserted.Ok? then Success(Some(inserted.value)) else Failure(DbError)))
  }

  /**
   PostPlayers with the presence check done first: an omitted email is stored
   as NULL, and the response reflects the insert.
   */
  function PostPlayers(req: NewPlayerRequest, inserted: Result<Player, Fault>)
    : (r: (CreatePlayerParams, ApiResult<Player>))
    ensures r.0 == NewPlayerParams(PlaceholderUser, req.name, req.email, req.emailNotificationsEnabled)
    ensures r.0.email.None? <==> req.email.None?
    ensures r.1.IsSuccess() <==> inserted.Ok?
    ensures inserted.Err? ==> r.1 == Failure(DbError)
    ensures inserted.Ok? ==> r.1.data == Some(inserted.value)
  {
    var params := NewPlayerParams(PlaceholderUser, req.name, req.email, req.emailNotificationsEnabled);
    (params, if inserted.Ok? then Success(Some(inserted.value)) else Failure(DbError))
  }

  /** A create request without an email crashes the handler as written, and the corrected one stores NULL. */
  lemma PostPlayersWithoutEmail(name: string, notify: bool, inserted: Result<Player, Fault>)
    ensures PostPlayersAsWritten(NewPlayerRequest(name, None, notify), inserted) == (None, Panicked)
    ensures PostPlayers(NewPlayerRequest(name, None, notify), inserted).0.email == None
    ensures PostPlayers(NewPlayerRequest(name, None, notify), inserted).1.IsSuccess() <==> inserted.Ok?
  {
  }

  /** With an email present the two agree: the correction changes nothing else. */
  lemma PostPlayersAgreeWithEmail(req: NewPlayerRequest, inserted: Result<Player, Fault>)
    requires req.email.Some?
    ensures var fixed := PostPlayers(req, inserted);
            PostPlayersAsWritten(req, inserted) == (Some(fixed.0), Replied(fixed.1))
  {
  }

  // ---------------------------------------------------------------------------
  // Read-merge-write update

  /** The email column an `email` update writes: the empty string is stored as NULL. */
  function EmailColumn(s: string): (r: Option<string>)
    ensures r.None? <==> s == ""
    ensures r.Some? ==> r.value == s
  {
    if s == "" then None else Some(s)
  }

  /** Whether `v` has the type the merge asserts for `key`; unrecognised keys accept anything. */
  predicate PlayerEntryTyped(key: string, v: Value)
  {
    && (key == "name" ==> v.VString?)
    && (key == "email" ==> v.VString?)
    && (key == "emailNotificationsEnabled" ==> v.VBool?)
  }

  predicate PlayerUpdatesTyped(updates: map<string, Value>)
  {
    forall k :: k in updates ==> PlayerEntryTyped(k, updates[k])
  }

  /** One iteration of the merge loop; `None` is a failed type assertion. */
  function ApplyPlayerEntry(p: UpdatePlayerParams, key: string, v: Value): (r: Option<UpdatePlayerParams>)
    ensures r.Some? <==> PlayerEntryTyped(key, v)
  {
    if key == "name" then (if v.VString? then Some(p.(name := v.s)) else None)
    else if key == "email" then (if v.VString? then Some(p.(email := EmailColumn(v.s))) else None)
    else if key == "emailNotificationsEnabled" then
      (if v.VBool? then Some(p.(emailNotificationsEnabled := v.b)) else None)
    else Some(p)
  }

  /** The merge loop, visiting the keys of `updates` in `order`. */
  function ApplyPlayerUpdates(p: UpdatePlayerParams, updates: map<string, Value>, order: seq<string>)
    : Option<UpdatePlayerParams>
    requires forall k :: k in order ==> k in updates
    decreases |order|
  {
    if order == [] then Some(p)
    else
      match ApplyPlayerEntry(p, order[0], updates[order[0]])
      case None => None
      case Some(q) => ApplyPlayerUpdates(q, updates, order[1..])
  }

  /** The merge stated over the set of visited keys, independent of any visiting order. */
  function MergePlayer(p: UpdatePlayerParams, updates: map<string, Value>, keys: set<string>): Option<UpdatePlayerParams>
    requires keys <= updates.Keys
  {
    if exists k :: k in keys && !PlayerEntryTyped(k, updates[k]) then None
    else Some(p.(name := if "name" in keys then AsString(updates["name"], p.name) else p.name,
                 email := if "email" in keys then EmailColumn(AsString(updates["email"], "")) else p.email,
                 emailNotificationsEnabled :=
                   if "emailNotificationsEnabled" in keys then AsBool(updates["emailNotificationsEnabled"], false)
                   else p.emailNotificationsEnabled))
  }

  /** Applying one more key `k` before the others is merging over the larger key set. */
  lemma MergePlayerStep(p: UpdatePlayerParams, updates: map<string, Value>, k: string, rest: set<string>)
    requires k in updates && rest <= updates.Keys && k !in rest
    ensures ApplyPlayerEntry(p, k, updates[k]).None? ==> MergePlayer(p, updates, {k} + rest).None?
    ensures ApplyPlayerEntry(p, k, updates[k]).Some? ==>
              MergePlayer(ApplyPlayerEntry(p, k, updates[k]).value, updates, rest) == MergePlayer(p, updates, {k} + rest)
  {
    if ApplyPlayerEntry(p, k, updates[k]).None? {
      assert k in {k} + rest && !PlayerEntryTyped(k, updates[k]);
    } else {
      assert (exists x :: x in rest && !PlayerEntryTyped(x, updates[x])) <==>
             (exists x :: x in {k} + rest && !PlayerEntryTyped(x, updates[x]));
    }
  }

  /** Visiting distinct keys in any order gives the order-free merge. */
  lemma {:induction false} ApplyPlayerUpdatesIsMerge(p: UpdatePlayerParams, updates: map<string, Value>, order: seq<string>)
    requires forall i, j :: 0 <= i < j < |order| ==> order[i] != order[j]
    requires forall k :: k in order ==> k in updates
    ensures ApplyPlayerUpdates(p, updates, order) == MergePlayer(p, updates, set k | k in order)
    decreases |order|
  {
    if order != [] {
      var k, rest := order[0], order[1..];
      var restKeys := set x | x in rest;
      assert (set x | x in order) == {k} + restKeys;
      assert k !in rest by {
        forall j | 0 <= j < |rest|
          ensures rest[j] != k
        {
          assert rest[j] == order[j + 1];
        }
      }
      forall i, j | 0 <= i < j < |rest|
        ensures rest[i] != rest[j]
      {
        assert rest[i] == order[i + 1] && rest[j] == order[j + 1];
      }
      MergePlayerStep(p, updates, k, restKeys);
      match ApplyPlayerEntry(p, k, updates[k])
      case None =>
      case Some(q) =>
        ApplyPlayerUpdatesIsMerge(q, updates, rest);
    }
  }

  /** The params the merge starts from: the current row's values, forced active, with the caller's id and owner. */
  function BaseParams(current: Player, userId: int, playerId: int): UpdatePlayerParams
  {
    UpdatePlayerParams(current.name, current.email, current.preferredMatchGroup,
                       current.emailNotificationsEnabled, true, playerId, Some(userId))
  }

  /** The row a successful update leaves: the named fields merged, the player active again. */
  function MergedPlayer(current: Player, updates: map<string, Value>, now: Timestamp): Player
  {
    current.(name := StringOr(updates, "name", current.name),
             email := if "email" in updates && updates["email"].VString? then EmailColumn(updates["email"].s)
                      else current.email,
             emailNotificationsEnabled := BoolOr(updates, "emailNotificationsEnabled", current.emailNotificationsEnabled),
             isActive := true,
             updatedAt := Some(now))
  }

  /** Merging a whole well-typed map into the current values and writing them gives the merged row. */
  lemma MergeWritesMergedPlayer(current: Player, userId: int, playerId: int, updates: map<string, Value>, now: Timestamp)
    ensures MergePlayer(BaseParams(current, userId, playerId), updates, updates.Keys).None? <==> !PlayerUpdatesTyped(updates)
    ensures PlayerUpdatesTyped(updates) ==>
              var params := MergePlayer(BaseParams(current, userId, playerId), updates, updates.Keys).value;
              && params.id == playerId && params.userId == Some(userId) && params.isActive
              && Queries.UpdatedPlayerRow(current, params, now) == MergedPlayer(current, updates, now)
  {
  }

  /**
   UpdatePlayer: reads the owner's player, merges the update map into its
   values in map-iteration `order`, and writes the result back.
   */
  function UpdatePlayer(players: seq<Player>, userId: int, playerId: int, updates: map<string, Value>,
                        order: seq<string>, now: Timestamp)
    : (r: (seq<Player>, Result<Player, UpdateError>))
    requires IsIterationOrder(order, updates)
    ensures r.1.Err? ==> r.0 == players
    ensures Queries.GetPlayer(players, playerId, userId).Err? ==> r.1 == Err(ReadFailed(NoRows))
    ensures Queries.GetPlayer(players, playerId, userId).Ok? ==>
              (r.1 == Err(Panic) <==> !PlayerUpdatesTyped(updates))
    ensures !(r.1.Err? && r.1.error.WriteFailed?)
    ensures r.1.Ok? ==> r.1.value.id == playerId && r.1.value.userId == Some(userId) && r.1.value.isActive
    ensures r.1.Ok? ==> |r.0| == |players|
    ensures r.1.Ok? ==> forall j :: 0 <= j < |players| && !(players[j].id == playerId && players[j].userId == Some(userId)) ==>
                                   r.0[j] == players[j]
    ensures r.1.Ok? ==> r.1.value in r.0
    ensures r.1.Ok? && Queries.UniquePlayerIds(players) ==>
              forall j :: 0 <= j < |players| && players[j].id == playerId && players[j].userId == Some(userId) ==> r.0[j] == r.1.value
    ensures r.1.Ok? && Queries.UniquePlayerIds(players) ==>
              r.1.value == MergedPlayer(Queries.GetPlayer(players, playerId, userId).value, updates, now)
  {
    match Queries.GetPlayer(players, playerId, userId)
    case Err(e) => (players, Err(ReadFailed(e)))
    case Ok(current) =>
      ApplyPlayerUpdatesIsMerge(BaseParams(current, userId, playerId), updates, order);
      IterationVisitsAllKeys(order, updates);
      MergeWritesMergedPlayer(current, userId, playerId, updates, now);
      match ApplyPlayerUpdates(BaseParams(current, userId, playerId), updates, order)
      case None => (players, Err(Panic))
      case Some(params) =>
        assert Queries.PlayerUpdateTarget(current, params);
        match Queries.UpdatePlayer(players, params, now)
        case Err(e) => (players, Err(WriteFailed(e)))
        case Ok(written) =>
          if Queries.UniquePlayerIds(players) then
            var j :| 0 <= j < |players| && Queries.PlayerUpdateTarget(players[j], params) &&
                     written.1 == Queries.UpdatedPlayerRow(players[j], params, now);
            Queries.PlayerDeterminedById(players, players[j], current);
            assert forall k :: 0 <= k < |players| && players[k].id == playerId && players[k].userId == Some(userId) ==>
                                written.0[k] == written.1 by {
              forall k | 0 <= k < |players| && players[k].id == playerId && players[k].userId == Some(userId)
                ensures written.0[k] == written.1
              {
                Queries.PlayerDeterminedById(players, players[k], current);
              }
            }
            (written.0, Ok(written.1))
          else
            (written.0, Ok(written.1))
  }

  /** Go leaves the map's iteration order unspecified; the update does not depend on it. */
  lemma UpdatePlayerOrderFree(players: seq<Player>, userId: int, playerId: int, updates: map<string, Value>,
                              order1: seq<string>, order2: seq<string>, now: Timestamp)
    requires IsIterationOrder(order1, updates) && IsIterationOrder(order2, updates)
    ensures UpdatePlayer(players, userId, playerId, updates, order1, now) ==
            UpdatePlayer(players, userId, playerId, updates, order2, now)
  {
    var read := Queries.GetPlayer(players, playerId, userId);
    if read.Ok? {
      var base := BaseParams(read.value, userId, playerId);
      ApplyPlayerUpdatesIsMerge(base, updates, order1);
      ApplyPlayerUpdatesIsMerge(base, updates, order2);
      IterationVisitsAllKeys(order1, updates);
      IterationVisitsAllKeys(order2, updates);
    }
  }

  /** PutPlayersPlayerId: a one-entry update map for the placeholder owner. */
  function PutPlayersPlayerId(players: seq<Player>, playerId: int, key: string, value: Value, now: Timestamp)
    : (r: (seq<Player>, Reply<Player>))
    ensures r.1.Panicked? <==> Queries.GetPlayer(players, playerId, PlaceholderUser).Ok? && !PlayerEntryTyped(key, value)
    ensures r.1 == Replied(Failure(DbError)) <==> Queries.GetPlayer(players, playerId, PlaceholderUser).Err?
    ensures !(r.1.Replied? && r.1.result.Success?) ==> r.0 == players
    ensures r.1.Replied? && r.1.result.Success? && Queries.UniquePlayerIds(players) ==>
              r.1.result.data ==
                Some(MergedPlayer(Queries.GetPlayer(players, playerId, PlaceholderUser).value, map[key := value], now))
    ensures r.1.Replied? && r.1.result.Success? ==>
              r.1.result.data.Some? && r.1.result.data.value in r.0 && |r.0| == |players|
    ensures r.1.Replied? && r.1.result.Success? ==>
              forall j :: 0 <= j < |players| && !(players[j].id == playerId && players[j].userId == Some(PlaceholderUser)) ==>
                            r.0[j] == players[j]
    ensures r.1.Replied? && r.1.result.Success? && Queries.UniquePlayerIds(players) ==>
              forall j :: 0 <= j < |players| && players[j].id == playerId && players[j].userId == Some(PlaceholderUser) ==>
                            r.0[j] == r.1.result.data.value
  {
    var updates := map[key := value];
    assert key in updates && updates[key] == value;
    assert PlayerUpdatesTyped(updates) <==> PlayerEntryTyped(key, value);
    var (table, result) := UpdatePlayer(players, PlaceholderUser, playerId, updates, [key], now);
    match result
    case Ok(p) => (table, Replied(Success(Some(p))))
    case Err(Panic) => (table, Panicked)
    case Err(_) => (table, Replied(Failure(DbError)))
  }

  /** A PUT naming a key the merge does not recognise still reactivates the player and stamps it. */
  lemma PutUnknownKeyOnlyReactivates(players: seq<Player>, playerId: int, key: string, value: Value, now: Timestamp)
    requires key != "name" && key != "email" && key != "emailNotificationsEnabled"
    requires Queries.UniquePlayerIds(players)
    requires Queries.GetPlayer(players, playerId, PlaceholderUser).Ok?
    ensures var current := Queries.GetPlayer(players, playerId, PlaceholderUser).value;
            PutPlayersPlayerId(players, playerId, key, value, now).1 ==
              Replied(Success(Some(current.(isActive := true, updatedAt := Some(now)))))
  {
  }

  // ---------------------------------------------------------------------------
  // Player details

  /** The custom-value map the loop builds from the rows: a valid value sets its column's entry. */
  function CustomMapOf(rows: seq<CustomValueRow>): (m: map<string, string>)
    ensures forall k :: k in m <==> exists i :: 0 <= i < |rows| && rows[i].columnName == k && rows[i].value.Some?
    ensures forall k :: k in m ==> exists i :: 0 <= i < |rows| && rows[i].columnName == k && rows[i].value == Some(m[k])
  {
    if rows == [] then map[]
    else
      var init := rows[..|rows| - 1];
      var last := rows[|rows| - 1];
      var m := CustomMapOf(init);
      assert forall i :: 0 <= i < |init| ==> init[i] == rows[i];
      if last.value.Some? then m[last.columnName := last.value.value] else m
  }

  /** A column's entry holds the value of the last row for that column whose value is valid. */
  lemma {:induction false} CustomMapLastWins(rows: seq<CustomValueRow>, i: nat)
    requires i < |rows| && rows[i].value.Some?
    requires forall j :: i < j < |rows| ==> !(rows[j].columnName == rows[i].columnName && rows[j].value.Some?)
    ensures rows[i].columnName in CustomMapOf(rows)
    ensures CustomMapOf(rows)[rows[i].columnName] == rows[i].value.value
  {
    if i < |rows| - 1 {
      var init := rows[..|rows| - 1];
      assert init[i] == rows[i];
      CustomMapLastWins(init, i);
    }
  }

  /** The loop of GetPlayersPlayerId that turns the joined rows into a name-to-value map. */
  method BuildCustomMap(rows: seq<CustomValueRow>) returns (m: map<string, string>)
    ensures m == CustomMapOf(rows)
    ensures forall k :: k in m <==> exists i :: 0 <= i < |rows| && rows[i].columnName == k && rows[i].value.Some?
  {
    m := map[];
    for i := 0 to |rows|
      invariant m == CustomMapOf(rows[..i])
    {
      assert rows[..i + 1][..i] == rows[..i];
      if rows[i].value.Some? {
        m := m[rows[i].columnName := rows[i].value.value];
      }
    }
    assert rows[..|rows|] == rows;
  }

  datatype PlayerDetails = PlayerDetails(player: Player, customValues: map<string, string>)

  /**
   GetPlayersPlayerId: the placeholder owner's player with its custom values;
   `fetched` is false when the custom-value query fails, which only empties the map.
   */
  function GetPlayersPlayerId(players: seq<Player>, values: seq<PlayerCustomValue>, columns: seq<PlayerCustomColumn>,
                              playerId: int, fetched: bool)
    : (r: ApiResult<PlayerDetails>)
    ensures r.IsSuccess() <==> Queries.GetPlayer(players, playerId, PlaceholderUser).Ok?
    ensures r.Failure? ==> r.code == DbError
    ensures r.Success? ==> r.data.Some? && r.data.value.player == Queries.GetPlayer(players, playerId, PlaceholderUser).value
    ensures r.Success? && !fetched ==> r.data.value.customValues == map[]
    ensures r.Success? && fetched ==>
              forall k :: k in r.data.value.customValues <==>
                exists v, c :: v in values && c in columns && v.playerId == Some(playerId) &&
                               v.columnId == Some(c.id) && c.name == k && v.value.Some?
    ensures r.Success? && fetched ==>
              forall k :: k in r.data.value.customValues ==>
                exists v, c :: v in values && c in columns && v.playerId == Some(playerId) &&
                               v.columnId == Some(c.id) && c.name == k && v.value == Some(r.data.value.customValues[k])
    ensures r.Success? && fetched ==>
              r.data.value.customValues == CustomMapOf(Queries.GetPlayerCustomValues(values, columns, playerId))
  {
    match Queries.GetPlayer(players, playerId, PlaceholderUser)
    case Err(_) => Failure(DbError)
    case Ok(player) =>
      if fetched then
        var m := CustomMapOf(Queries.GetPlayerCustomValues(values, columns, playerId));
        JoinedCustomMap(values, columns, playerId, m);
        Success(Some(PlayerDetails(player, m)))
      else
        Success(Some(PlayerDetails(player, map[])))
  }

  /** The map built from the joined rows names exactly the player's valued columns, each with a value it holds. */
  lemma JoinedCustomMap(values: seq<PlayerCustomValue>, columns: seq<PlayerCustomColumn>, playerId: int,
                        m: map<string, string>)
    requires m == CustomMapOf(Queries.GetPlayerCustomValues(values, columns, playerId))
    ensures forall k :: k in m ==>
              exists v, c :: v in values && c in columns && v.playerId == Some(playerId) &&
                             v.columnId == Some(c.id) && c.name == k && v.value == Some(m[k])
    ensures forall k :: k in m <==>
              exists v, c :: v in values && c in columns && v.playerId == Some(playerId) &&
                             v.columnId == Some(c.id) && c.name == k && v.value.Some?
  {
    var rows := Queries.GetPlayerCustomValues(values, columns, playerId);
    forall k | k in m
      ensures exists v, c :: v in values && c in columns && v.playerId == Some(playerId) &&
                             v.columnId == Some(c.id) && c.name == k && v.value == Some(m[k])
    {
      var i :| 0 <= i < |rows| && rows[i].columnName == k && rows[i].value == Some(m[k]);
      assert rows[i] in rows;
    }
    forall k | exists v, c :: v in values && c in columns && v.playerId == Some(playerId) &&
                              v.columnId == Some(c.id) && c.name == k && v.value.Some?
      ensures k in m
    {
      var v, c :| v in values && c in columns && v.playerId == Some(playerId) &&
                  v.columnId == Some(c.id) && c.name == k && v.value.Some?;
      var row := Queries.JoinRow(v, c);
      assert row in rows;
      var i :| 0 <= i < |rows| && rows[i] == row;
    }
  }
}
