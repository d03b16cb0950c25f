/** The handler of blooms-greenhouse: checks that a URL was given and assigns sides with the
    name-aware rule, taking the team names from the match title. */
module Greenhouse {
  import opened Wrappers
  import opened MatchUrl
  import opened TeamTitle
  import opened Payload
  import opened Users
  import opened Teams
  import opened Tally
  import opened Summaries

  /** The rule this handler applies to every game of a match titled `title`. */
  function RuleFor(title: string): Rule {
    NameAware(SearchTerms(title))
  }

  /** The handler, with the token exchange and the match request behind `fetch`. A missing or
      empty `url` is refused with 400 before anything is fetched; a failed fetch becomes 500
      with its message; otherwise the summary is sent with 200. */
  function Handle(url: Option<string>, fetch: string -> Fetched): (r: Response)
    ensures (url.None? || url == Some("")) <==> r == Reply(400, Error("No URL provided"))
    ensures url.Some? && url.value != "" ==>
      match fetch(MatchId(url.value))
      case FetchFailed(message) => r == Reply(500, Error(message))
      case Fetched(m) => r == Reply(200, Summary(MatchSummaryOf(m, RuleFor(m.name))))
  {
    if url.None? || url.value == "" then Reply(400, Error("No URL provided"))
    else
      match fetch(MatchId(url.value))
      case FetchFailed(message) => Reply(500, Error(message))
      case Fetched(m) => Reply(200, Summary(MatchSummaryOf(m, RuleFor(m.name))))
  }

  /** Without team names in the title, a game outside the team modes puts exactly its first
      score on red and all the others, in order, on blue. */
  lemma HeadToHeadWithoutTeamNames(g: Game, userMap: map<int, Profile>)
    requires g.teamMode < 2 && |g.scores| > 0
    ensures SummaryOf(g, userMap, NameAware(None)).redPlayers == [RecordOf(g.scores[0], userMap)]
    ensures SummaryOf(g, userMap, NameAware(None)).bluePlayers == Records(g.scores, userMap)[1..]
  {
    var recs, sides := Records(g.scores, userMap), Sides(g, userMap, NameAware(None));
    forall i | 0 <= i < |sides|
      ensures sides[i] <==> i == 0
    {
      SidesAt(g, userMap, NameAware(None), |g.scores|, i);
    }
    KeepOnlyFirst(recs, sides, |recs|);
    RecordsAt(g.scores, userMap, 0);
    assert recs[..1] == [recs[0]];
    assert recs[1..|recs|] == recs[1..];
  }

  /** With team names, outside the team modes: a player whose name mentions the red name is on
      red, even if it also mentions the blue name; one that mentions only the blue name is on
      blue. */
  lemma NamedPlayersSides(g: Game, userMap: map<int, Profile>, search: TeamNames, i: int)
    requires g.teamMode < 2 && 0 <= i < |g.scores|
    ensures Mentions(Resolve(userMap, g.scores[i].userId).name, search.red) ==>
      RecordOf(g.scores[i], userMap) in SummaryOf(g, userMap, NameAware(Some(search))).redPlayers
    ensures (!Mentions(Resolve(userMap, g.scores[i].userId).name, search.red)
             && Mentions(Resolve(userMap, g.scores[i].userId).name, search.blue)) ==>
      RecordOf(g.scores[i], userMap) in SummaryOf(g, userMap, NameAware(Some(search))).bluePlayers
  {
    var sides := Sides(g, userMap, NameAware(Some(search)));
    var s := g.scores[i];
    SidesAt(g, userMap, NameAware(Some(search)), |g.scores|, i);
    IsRedNameAwareSpec(Some(search), g.teamMode, s.team, i, Resolve(userMap, s.userId).name);
    RecordsAt(g.scores, userMap, i);
    KeepHas(Records(g.scores, userMap), sides, sides[i], i);
  }
}
