/** The match-level chain: keep the events that carry a game, summarise each game, reverse. */
module Summaries {
  import opened Wrappers
  import opened Payload
  import opened Users
  import opened Teams
  import opened Tally
  import opened Labels

  /** Which events carry a game (`e => e.game`). */
  function HasGame(events: seq<Event>): (flags: seq<bool>)
    ensures |flags| == |events|
    ensures forall i :: 0 <= i < |events| ==> flags[i] == events[i].game.Some?
  {
    seq(|events|, i requires 0 <= i < |events| => events[i].game.Some?)
  }

  /** `events.filter(e => e.game)`, read as the games: one per event that carries a game, in
      event order. */
  function GameEvents(events: seq<Event>): (games: seq<Game>)
    ensures |games| == |Chosen(HasGame(events), true, |events|)|
    ensures forall k :: 0 <= k < |games| ==>
      events[Chosen(HasGame(events), true, |events|)[k]].game == Some(games[k])
  {
    var kept := Keep(events, HasGame(events), true);
    KeepIsChosen(events, HasGame(events), true, |events|);
    seq(|kept|, k requires 0 <= k < |kept| => kept[k].game.value)
  }

  /** `reverse()`: the same elements, last first. */
  function Reverse<T>(s: seq<T>): (r: seq<T>)
    ensures |r| == |s|
    ensures forall k :: 0 <= k < |s| ==> r[k] == s[|s| - 1 - k]
    decreases |s|
  {
    if s == [] then [] else Reverse(s[1..]) + [s[0]]
  }

  /** The `map` over the games: one summary per game, in the same order. */
  function SummarizeAll(games: seq<Game>, userMap: map<int, Profile>, rule: Rule): (s: seq<GameSummary>)
    ensures |s| == |games|
    ensures forall k :: 0 <= k < |games| ==> s[k] == SummaryOf(games[k], userMap, rule)
  {
    seq(|games|, k requires 0 <= k < |games| => SummaryOf(games[k], userMap, rule))
  }

  /** The response body of a fetched match: its id and name, and one summary per game, the
      most recent event's game first when events come oldest first. */
  function MatchSummaryOf(m: Match, rule: Rule): (r: MatchSummary)
    ensures r.id == m.id && r.matchName == m.name
    ensures |r.games| == |GameEvents(m.events)|
    ensures forall k :: 0 <= k < |r.games| ==>
      r.games[k] == SummaryOf(GameEvents(m.events)[|r.games| - 1 - k], UserMap(m.users), rule)
  {
    var games := GameEvents(m.events);
    MatchSummary(m.id, m.name, Reverse(SummarizeAll(games, UserMap(m.users), rule)))
  }

  /** The records of a game with two scores, in score order. */
  lemma TwoRecords(scores: seq<Score>, userMap: map<int, Profile>)
    requires |scores| == 2
    ensures Records(scores, userMap) == [RecordOf(scores[0], userMap), RecordOf(scores[1], userMap)]
  {
    RecordsAt(scores, userMap, 0);
    RecordsAt(scores, userMap, 1);
  }

  /** The sides of a game with two scores, in score order. */
  lemma TwoSides(g: Game, userMap: map<int, Profile>, rule: Rule)
    requires |g.scores| == 2
    ensures Sides(g, userMap, rule)
      == [IsRed(rule, g.teamMode, g.scores[0].team, 0, Resolve(userMap, g.scores[0].userId).name),
          IsRed(rule, g.teamMode, g.scores[1].team, 1, Resolve(userMap, g.scores[1].userId).name)]
  {
    SidesAt(g, userMap, rule, 2, 0);
    SidesAt(g, userMap, rule, 2, 1);
  }

  /** Splitting two elements by side keeps each on its own side, the first ahead of the second. */
  lemma KeepTwo<T>(a: T, b: T, x: bool, y: bool, want: bool)
    ensures Keep([a, b], [x, y], want) == (if x == want then [a] else []) + (if y == want then [b] else [])
  {
    assert KeepPrefix([a, b], [x, y], want, 1) == KeepPrefix([a, b], [x, y], want, 0) + (if x == want then [a] else []);
  }

  /** The summary of a game with two scores: each score's record goes to the side its rule
      picks, the first score's record ahead of the second's. */
  lemma TwoScoreSummary(g: Game, userMap: map<int, Profile>, rule: Rule)
    requires |g.scores| == 2
    ensures var s := SummaryOf(g, userMap, rule);
      var r0 := RecordOf(g.scores[0], userMap);
      var r1 := RecordOf(g.scores[1], userMap);
      var red0 := IsRed(rule, g.teamMode, g.scores[0].team, 0, Resolve(userMap, g.scores[0].userId).name);
      var red1 := IsRed(rule, g.teamMode, g.scores[1].team, 1, Resolve(userMap, g.scores[1].userId).name);
      && s.redPlayers == (if red0 then [r0] else []) + (if red1 then [r1] else [])
      && s.bluePlayers == (if red0 then [] else [r0]) + (if red1 then [] else [r1])
      && s.red == Total(s.redPlayers) && s.blue == Total(s.bluePlayers)
      && s.winner == Winner(s.red, s.blue)
  {
    TwoRecords(g.scores, userMap);
    TwoSides(g, userMap, rule);
    var r0 := RecordOf(g.scores[0], userMap);
    var r1 := RecordOf(g.scores[1], userMap);
    var red0 := IsRed(rule, g.teamMode, g.scores[0].team, 0, Resolve(userMap, g.scores[0].userId).name);
    var red1 := IsRed(rule, g.teamMode, g.scores[1].team, 1, Resolve(userMap, g.scores[1].userId).name);
    KeepTwo(r0, r1, red0, red1, true);
    KeepTwo(r0, r1, red0, red1, false);
  }

  /** The user map of the worked example below. */
  lemma ExampleUserMap()
    ensures UserMap([User(1, "Alice", ""), User(2, "Bob", "")])
      == map[1 := Profile("Alice", ""), 2 := Profile("Bob", "")]
  {
    var users := [User(1, "Alice", ""), User(2, "Bob", "")];
    assert users[..1] == [User(1, "Alice", "")] && users[..1][..0] == [];
    assert UserMap(users[..1]) == map[1 := Profile("Alice", "")];
  }

  /** A worked example: a "Team Vs" game in which Alice, tagged team 2, scores 1000 and Bob,
      tagged team 1, scores 800. Alice alone is red, Bob alone is blue, and red wins. */
  lemma TeamVsExample()
    ensures var g := Game(0, 2, "1", "Song", "Insane", [
        Score(1, Some(1000), "95.00", Some(200), Some("S"), Some(2)),
        Score(2, Some(800), "90.00", Some(150), Some("A"), Some(1))]);
      var s := SummaryOf(g, UserMap([User(1, "Alice", ""), User(2, "Bob", "")]), TagOrFirst);
      && s.red == 1000 && s.blue == 800 && s.winner == "Red Wins"
      && s.redPlayers == [PlayerRecord("Alice", "", 1000, "95.00", 200, "S")]
      && s.bluePlayers == [PlayerRecord("Bob", "", 800, "90.00", 150, "A")]
  {
    var g := Game(0, 2, "1", "Song", "Insane", [
      Score(1, Some(1000), "95.00", Some(200), Some("S"), Some(2)),
      Score(2, Some(800), "90.00", Some(150), Some("A"), Some(1))]);
    ExampleUserMap();
    var userMap := map[1 := Profile("Alice", ""), 2 := Profile("Bob", "")];
    TwoScoreSummary(g, userMap, TagOrFirst);
    var alice := PlayerRecord("Alice", "", 1000, "95.00", 200, "S");
    var bob := PlayerRecord("Bob", "", 800, "90.00", 150, "A");
    assert RecordOf(g.scores[0], userMap) == alice;
    assert RecordOf(g.scores[1], userMap) == bob;
    assert IsRed(TagOrFirst, 2, Some(2), 0, "Alice");
    assert !IsRed(TagOrFirst, 2, Some(1), 1, "Bob");
    assert Total([alice]) == 1000 && Total([bob]) == 800;
  }
}
