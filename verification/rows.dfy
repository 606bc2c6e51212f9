/**
 The persisted entities and the parameter records of the typed queries.
 Nullable columns are `Option`s; `createdAt`/`updatedAt` are timestamps the
 store stamps with the `now` it is given.
 */
module Rows {

  import opened Base

  datatype User = User(
    id: int,
    stytchId: string,
    stripeId: string,
    name: string,
    email: string,
    phone: Option<string>,
    country: Option<string>,
    birthday: Option<int>,
    lang: string,
    createdAt: Option<Timestamp>,
    updatedAt: Option<Timestamp>,
    isActive: bool,
    isVerified: bool,
    subscriptionTier: string,
    jsonSettings: Option<string>)

  datatype Player = Player(
    id: int,
    userId: Option<int>,
    name: string,
    email: Option<string>,
    createdAt: Option<Timestamp>,
    updatedAt: Option<Timestamp>,
    preferredMatchGroup: Option<int>,
    isActive: bool,
    emailNotificationsEnabled: bool)

  datatype Season = Season(
    id: int,
    userId: Option<int>,
    name: string,
    startDate: Option<Timestamp>,
    createdAt: Option<Timestamp>,
    updatedAt: Option<Timestamp>,
    isActive: bool,
    seasonType: string,
    frequency: string)

  datatype Match = Match(
    id: int,
    seasonId: Option<int>,
    player1: Option<int>,
    player1Points: int,
    player2: Option<int>,
    player2Points: int,
    matchDate: Option<Timestamp>,
    winnerId: Option<int>,
    createdAt: Option<Timestamp>,
    updatedAt: Option<Timestamp>,
    isActive: bool,
    group: int)

  datatype PlayerCustomColumn = PlayerCustomColumn(
    id: int,
    name: string,
    fieldType: string,
    description: Option<string>,
    isRequired: Option<bool>,
    isActive: Option<bool>,
    displayOrder: Option<int>)

  datatype PlayerCustomValue = PlayerCustomValue(
    id: int,
    playerId: Option<int>,
    columnId: Option<int>,
    value: Option<string>,
    createdAt: Option<Timestamp>,
    updatedAt: Option<Timestamp>)

  /** A row of the value/column join of GetPlayerCustomValues. */
  datatype CustomValueRow = CustomValueRow(
    id: int,
    playerId: Option<int>,
    columnId: Option<int>,
    value: Option<string>,
    columnName: string,
    fieldType: string)

  /** A row of GetSeasonScoreboard. */
  datatype ScoreboardRow = ScoreboardRow(playerId: int, playerName: string, wins: nat)

  datatype CreateUserParams = CreateUserParams(
    stytchId: string,
    stripeId: string,
    name: string,
    email: string,
    phone: Option<string>,
    country: Option<string>,
    birthday: Option<int>,
    lang: string,
    isVerified: bool)

  datatype CreatePlayerParams = CreatePlayerParams(
    userId: Option<int>,
    name: string,
    email: Option<string>,
    preferredMatchGroup: Option<int>,
    emailNotificationsEnabled: bool)

  datatype UpdatePlayerParams = UpdatePlayerParams(
    name: string,
    email: Option<string>,
    preferredMatchGroup: Option<int>,
    emailNotificationsEnabled: bool,
    isActive: bool,
    id: int,
    userId: Option<int>)

  datatype CreateSeasonParams = CreateSeasonParams(
    userId: Option<int>,
    name: string,
    startDate: Option<Timestamp>,
    seasonType: string,
    frequency: string)

  datatype UpdateSeasonParams = UpdateSeasonParams(
    name: string,
    startDate: Option<Timestamp>,
    seasonType: string,
    frequency: string,
    isActive: bool,
    id: int,
    userId: Option<int>)

  datatype CreateMatchParams = CreateMatchParams(
    seasonId: Option<int>,
    player1: Option<int>,
    player1Points: int,
    player2: Option<int>,
    player2Points: int,
    matchDate: Option<Timestamp>,
    winnerId: Option<int>,
    group: int)

  datatype UpdateMatchParams = UpdateMatchParams(
    seasonId: Option<int>,
    player1: Option<int>,
    player1Points: int,
    player2: Option<int>,
    player2Points: int,
    matchDate: Option<Timestamp>,
    winnerId: Option<int>,
    group: int,
    isActive: bool,
    id: int)

  /** Why a typed query returned no row: `pgx.ErrNoRows` of a `:one` query. */
  datatype DbError = NoRows
}
