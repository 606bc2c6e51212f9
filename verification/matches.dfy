/**
 The match handlers: creation with fixed defaults, the continue-on-error
 batch update, and the delete endpoint that does not touch the store.
 */
module Matches {

  import opened Base
  import opened Rows
  import opened Envelope
  import Queries

  datatype NewMatchRequest = NewMatchRequest(seasonId: int, playerId1: int, playerId2: int, group: int, matchDate: Timestamp)

  /** The insert PostMatches issues: both point totals 0 and no winner yet. */
  function NewMatchParams(req: NewMatchRequest): (p: CreateMatchParams)
    ensures p.player1Points == 0 && p.player2Points == 0 && p.winnerId.None?
    ensures p.seasonId == Some(req.seasonId) && p.player1 == Some(req.playerId1) && p.player2 == Some(req.playerId2)
    ensures p.matchDate == Some(req.matchDate) && p.group == req.group
  {
    CreateMatchParams(Some(req.seasonId), Some(req.playerId1), 0, Some(req.playerId2), 0,
                      Some(req.matchDate), None, req.group)
  }

  /** PostMatches: the insert and the response; `inserted` is what the insert answers. */
  function PostMatches(req: NewMatchRequest, inserted: Result<Match, Fault>)
    : (r: (CreateMatchParams, ApiResult<()>))
    ensures r.0 == NewMatchParams(req)
    ensures r.1.IsSuccess() <==> inserted.Ok?
    ensures inserted.Err? ==> r.1 == Failure(DbError)
    ensures inserted.Ok? ==> r.1.data.None?
  {
    (NewMatchParams(req), if inserted.Ok? then Success(None) else Failure(DbError))
  }

  /** One element of a batch update; every field is present. */
  datatype BatchItem = BatchItem(
    id: int, seasonId: int, playerId1: int, playerId2: int,
    player1Points: int, player2Points: int, group: int, matchDate: Timestamp)

  /** The update a batch item issues: `winnerId` and `isActive` are never filled in. */
  function BatchParams(item: BatchItem): (p: UpdateMatchParams)
    ensures p.winnerId.None? && !p.isActive
    ensures p.id == item.id && p.seasonId == Some(item.seasonId)
    ensures p.player1 == Some(item.playerId1) && p.player2 == Some(item.playerId2)
    ensures p.player1Points == item.player1Points && p.player2Points == item.player2Points
    ensures p.group == item.group && p.matchDate == Some(item.matchDate)
  {
    UpdateMatchParams(Some(item.seasonId), Some(item.playerId1), item.player1Points,
                      Some(item.playerId2), item.player2Points, Some(item.matchDate),
                      None, item.group, false, item.id)
  }

  predicate HasMatch(matches: seq<Match>, id: int)
  {
    exists m :: m in matches && m.id == id
  }

  /**
   Whether item `k`'s update succeeds: the store did not fail on it (`faults`
   holds the indices where it does) and a match with its id exists.
   */
  predicate Succeeds(matches: seq<Match>, items: seq<BatchItem>, faults: set<nat>, k: nat)
    requires k < |items|
  {
    k !in faults && HasMatch(matches, items[k].id)
  }

  /** The number of successful updates among the first `n` items. */
  function SuccessCount(matches: seq<Match>, items: seq<BatchItem>, faults: set<nat>, n: nat): (c: nat)
    requires n <= |items|
    ensures c <= n
  {
    if n == 0 then 0
    else SuccessCount(matches, items, faults, n - 1) + (if Succeeds(matches, items, faults, n - 1) then 1 else 0)
  }

  /** The last of the first `n` items that successfully updated the match `id`. */
  function LastUpdate(matches: seq<Match>, items: seq<BatchItem>, faults: set<nat>, n: nat, id: int): (r: Option<nat>)
    requires n <= |items|
    ensures r.Some? ==> r.value < n && Succeeds(matches, items, faults, r.value) && items[r.value].id == id
    ensures r.Some? ==> forall k :: r.value < k < n ==> !(Succeeds(matches, items, faults, k) && items[k].id == id)
    ensures r.None? <==> forall k :: 0 <= k < n ==> !(Succeeds(matches, items, faults, k) && items[k].id == id)
  {
    if n == 0 then None
    else if Succeeds(matches, items, faults, n - 1) && items[n - 1].id == id then Some(n - 1)
    else LastUpdate(matches, items, faults, n - 1, id)
  }

  /** The row the batch leaves in place of `row`: the last successful update of it wins. */
  function BatchRow(matches: seq<Match>, items: seq<BatchItem>, faults: set<nat>, n: nat, row: Match, now: Timestamp): Match
    requires n <= |items|
  {
    match LastUpdate(matches, items, faults, n, row.id)
    case None => row
    case Some(k) => Queries.UpdatedMatchRow(row, BatchParams(items[k]), now)
  }

  /**
   PutMatchesBatches: issues one update per item, in order, skips over a
   failed item and counts the successful ones; the response is always a
   success carrying that count.
   */
  method PutMatchesBatches(matches: seq<Match>, items: seq<BatchItem>, faults: set<nat>, now: Timestamp)
    returns (table: seq<Match>, calls: seq<UpdateMatchParams>, response: ApiResult<nat>)
    ensures calls == seq(|items|, k requires 0 <= k < |items| => BatchParams(items[k]))
    ensures response.IsSuccess()
    ensures response.data == Some(SuccessCount(matches, items, faults, |items|))
    ensures |table| == |matches|
    ensures forall j :: 0 <= j < |matches| ==> table[j] == BatchRow(matches, items, faults, |items|, matches[j], now)
  {
    var count: nat := 0;
    table := matches;
    calls := [];
    for i := 0 to |items|
      invariant calls == seq(i, k requires 0 <= k < i => BatchParams(items[k]))
      invariant count == SuccessCount(matches, items, faults, i)
      invariant |table| == |matches|
      invariant forall j :: 0 <= j < |matches| ==> table[j] == BatchRow(matches, items, faults, i, matches[j], now)
    {
      var params := BatchParams(items[i]);
      calls := calls + [params];
      if i in faults {
        continue;
      }
      assert HasMatch(matches, items[i].id) <==> exists m :: m in table && m.id == items[i].id by {
        forall m | m in matches && m.id == items[i].id
          ensures exists m' :: m' in table && m'.id == items[i].id
        {
          var j :| 0 <= j < |matches| && matches[j] == m;
          assert table[j].id == m.id;
        }
        forall m | m in table && m.id == items[i].id
          ensures HasMatch(matches, items[i].id)
        {
          var j :| 0 <= j < |table| && table[j] == m;
          assert matches[j].id == m.id;
        }
      }
      match Queries.UpdateMatch(table, params, now)
      case Err(_) =>
        continue;
      case Ok(updated) =>
        table := updated.0;
        count := count + 1;
    }
    response := Success(Some(count));
  }

  /** The batch count is between 0 and the number of items. */
  lemma BatchCountBounded(matches: seq<Match>, items: seq<BatchItem>, faults: set<nat>)
    ensures 0 <= SuccessCount(matches, items, faults, |items|) <= |items|
  {
  }

  /** Every updated match ends up inactive and without a winner, whatever it held before. */
  lemma BatchClearsWinnerAndDeactivates(matches: seq<Match>, items: seq<BatchItem>, faults: set<nat>, row: Match, now: Timestamp)
    requires LastUpdate(matches, items, faults, |items|, row.id).Some?
    ensures !BatchRow(matches, items, faults, |items|, row, now).isActive
    ensures BatchRow(matches, items, faults, |items|, row, now).winnerId.None?
  {
  }

  /** A match no successful item names is left as it was. */
  lemma BatchLeavesOthers(matches: seq<Match>, items: seq<BatchItem>, faults: set<nat>, row: Match, now: Timestamp)
    requires forall k :: 0 <= k < |items| && items[k].id == row.id ==> !Succeeds(matches, items, faults, k)
    ensures BatchRow(matches, items, faults, |items|, row, now) == row
  {
  }

  /** DeleteMatchesMatchId: answers success and leaves the table as it is; no query is issued. */
  function DeleteMatchesMatchId(matches: seq<Match>, id: int): (r: (seq<Match>, ApiResult<()>))
    ensures r.1.IsSuccess() && r.1.data.None?
    ensures r.0 == matches
  {
    (matches, Success(None))
  }

  /** Unlike the DeleteMatch query, the endpoint leaves a match with that id in the table. */
  lemma DeleteEndpointKeepsMatch(matches: seq<Match>, m: Match)
    requires m in matches
    ensures m in DeleteMatchesMatchId(matches, m.id).0
    ensures m !in Queries.DeleteMatch(matches, m.id)
  {
  }
}
