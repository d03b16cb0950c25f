/** The match document as the upstream service returns it, the summary the handler answers
    with, and the JavaScript `||` defaults used while reshaping one into the other. */
module Payload {
  import opened Wrappers

  /** An entry of `users`: id, `username`, `avatar_url`. */
  datatype User = User(id: int, username: string, avatarUrl: string)

  /** A `userMap` entry. */
  datatype Profile = Profile(name: string, avatar: string)

  /** One player's result in one game. `accuracyText` is the already formatted percentage;
      `team` is absent outside team modes. */
  datatype Score = Score(
    userId: int,
    score: Option<int>,
    accuracyText: string,
    maxCombo: Option<int>,
    rank: Option<string>,
    team: Option<int>)

  /** A played beatmap: ruleset and team-mode indices, the beatmap labels, and the scores in
      upstream order. */
  datatype Game = Game(
    rulesetId: int,
    teamMode: int,
    beatmapsetId: string,
    beatmapsetTitle: string,
    beatmapVersion: string,
    scores: seq<Score>)

  /** A match event; only some of them carry a game. */
  datatype Event = Event(game: Option<Game>)

  /** The fetched document: `match.id`, `match.name`, `users`, `events`. */
  datatype Match = Match(id: int, name: string, users: seq<User>, events: seq<Event>)

  /** A player line in a game summary. */
  datatype PlayerRecord = PlayerRecord(
    name: string,
    avatar: string,
    score: int,
    accuracy: string,
    combo: int,
    grade: string)

  /** One game as the handler reports it. `modeLabel` and `teamModeLabel` are the JSON keys
      `mode`/`ruleset` in one handler and `gameMode`/`matchType` in the other. */
  datatype GameSummary = GameSummary(
    mapDisplay: string,
    backdrop: string,
    modeLabel: string,
    teamModeLabel: string,
    red: int,
    blue: int,
    winner: string,
    redPlayers: seq<PlayerRecord>,
    bluePlayers: seq<PlayerRecord>)

  datatype MatchSummary = MatchSummary(id: int, matchName: string, games: seq<GameSummary>)

  /** The JSON body sent back: the summary, or `{ error: message }`. */
  datatype Body = Summary(summary: MatchSummary) | Error(message: string)

  /** A reply with a status code, or a fault thrown outside any `try`, after which the
      handler sends nothing. */
  datatype Response = Reply(status: int, body: Body) | Crash(message: string)

  /** The outcome of the token exchange and the match request together. */
  datatype Fetched = Fetched(data: Match) | FetchFailed(message: string)

  /** `x || d` for a number that may be absent: absent and 0 are both falsy. With the default
      0 the falsy 0 makes no difference. */
  function IntOr(x: Option<int>, d: int): (r: int)
    ensures x.Some? && x.value != 0 ==> r == x.value
    ensures x.None? || x.value == 0 ==> r == d
    ensures d == 0 ==> r == (if x.Some? then x.value else 0)
  {
    if x.Some? && x.value != 0 then x.value else d
  }

  /** `x || d` for a string that may be absent: absent and "" are both falsy. */
  function StrOr(x: Option<string>, d: string): (r: string)
    ensures x.Some? && x.value != "" ==> r == x.value
    ensures x.None? || x.value == "" ==> r == d
    ensures d != "" ==> r != ""
  {
    if x.Some? && x.value != "" then x.value else d
  }
}
