/** The handler of osu-parser: no check on the URL, and sides assigned by team tag with the
    first score red outside the team modes. */
module OsuParser {
  import opened Wrappers
  import opened MatchUrl
  import opened Payload
  import opened Users
  import opened Teams
  import opened Tally
  import opened Summaries

  /** What the runtime throws when `url.split` is read on a missing `url`. */
  const MissingUrlFault: string := "Cannot read properties of undefined (reading 'split')"

  /** The handler, with the token exchange and the match request behind `fetch`. The match id
      is taken before the `try`, so a missing `url` throws out of the handler and no reply is
      sent; an empty one is passed on as the empty id. A failed fetch becomes 500 with its
      message; otherwise the summary is sent with 200. */
  function Handle(url: Option<string>, fetch: string -> Fetched): (r: Response)
    ensures url.None? <==> r.Crash?
    ensures url.None? ==> r.message == MissingUrlFault
    ensures url.Some? ==>
      match fetch(MatchId(url.value))
      case FetchFailed(message) => r == Reply(500, Error(message))
      case Fetched(m) => r == Reply(200, Summary(MatchSummaryOf(m, TagOrFirst)))
  {
    match url
    case None => Crash(MissingUrlFault)
    case Some(u) =>
      match fetch(MatchId(u))
      case FetchFailed(message) => Reply(500, Error(message))
      case Fetched(m) => Reply(200, Summary(MatchSummaryOf(m, TagOrFirst)))
  }

  /** The handler with the presence check of blooms-greenhouse added: a missing or empty `url`
      gets a 400 reply instead of a fault, and a present one is handled as before. */
  function HandleChecked(url: Option<string>, fetch: string -> Fetched): (r: Response)
    ensures !r.Crash?
    ensures (url.None? || url == Some("")) <==> r == Reply(400, Error("No URL provided"))
    ensures url.Some? && url.value != "" ==> r == Handle(url, fetch)
  {
    if url.None? || url.value == "" then Reply(400, Error("No URL provided")) else Handle(url, fetch)
  }

  /** A score tagged team 2 is on red, whatever the team mode. */
  lemma TeamTwoIsRed(g: Game, userMap: map<int, Profile>, i: int)
    requires 0 <= i < |g.scores| && g.scores[i].team == Some(2)
    ensures RecordOf(g.scores[i], userMap) in SummaryOf(g, userMap, TagOrFirst).redPlayers
  {
    SidesAt(g, userMap, TagOrFirst, |g.scores|, i);
    RecordsAt(g.scores, userMap, i);
    KeepHas(Records(g.scores, userMap), Sides(g, userMap, TagOrFirst), true, i);
  }

  /** Outside the team modes the first score leads the red side, and every later red player
      is one tagged team 2. */
  lemma HeadToHeadRedSide(g: Game, userMap: map<int, Profile>)
    requires g.teamMode < 2 && |g.scores| > 0
    ensures var reds := SummaryOf(g, userMap, TagOrFirst).redPlayers;
      |reds| > 0 && reds[0] == RecordOf(g.scores[0], userMap)
    ensures forall k :: 1 <= k < |Chosen(Sides(g, userMap, TagOrFirst), true, |g.scores|)| ==>
      g.scores[Chosen(Sides(g, userMap, TagOrFirst), true, |g.scores|)[k]].team == Some(2)
  {
    var sides := Sides(g, userMap, TagOrFirst);
    forall i | 0 <= i < |sides|
      ensures sides[i] == IsRedTagOrFirst(g.teamMode, g.scores[i].team, i)
    {
      SidesAt(g, userMap, TagOrFirst, |g.scores|, i);
    }
    var idx := Chosen(sides, true, |sides|);
    KeepIsChosen(Records(g.scores, userMap), sides, true, |sides|);
    RecordsAt(g.scores, userMap, 0);
    assert 0 in idx;
    var j :| 0 <= j < |idx| && idx[j] == 0;
    assert idx[0] >= 0;
    assert j == 0;
  }
}
