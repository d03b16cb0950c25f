# osu! match summary, modelled in Dafny

The repository holds two near-identical HTTP handlers, `blooms-greenhouse/api/getmatch.js` and
`osu-parser/api/getmatch.js`. Each takes a multiplayer match URL and derives the match id from it.
It then fetches the match from the osu! API and answers with one summary per game. A summary
holds the map label, the ruleset and team-mode labels, the red and blue totals, the winner, and
the red and blue player lists. The two handlers differ in how they send a score to red or blue.
They also differ in what happens when `url` is missing.

This project models the reshaping that follows the two network calls, and the handler around it.

- `MatchUrl`: `url.split('/').pop()` as a split into pieces and the last piece.
- `TeamTitle`: the team context `(red) vs (blue)` that blooms-greenhouse reads from the match
  title. The pattern `/\(([^)]+)\) vs \(([^)]+)\)/` is written as a left-to-right scan and proved
  equal to a declarative description of the leftmost match.
- `Text`: lower-casing and the `includes` substring test.
- `Payload`: the fetched document, the summary, the reply, and JavaScript's `x || default`.
- `Labels`: the ruleset and team-mode tables with their defaults, and the winner label.
- `Users`: the `userMap`. It is built by an imperative loop (`BuildUserMap`) that is proved
  equal to the function `UserMap`. The module also builds each score's player record.
- `Teams`: the two team-assignment rules, the name-aware one (blooms-greenhouse) and the
  team-tag-or-first one (osu-parser). Both are values of one `Rule` datatype.
- `Tally`: the per-game `forEach`. The loop (`TallyScores`) and the side decision it makes for
  each score (`PickSide`) are imperative methods. They are proved against the functions
  `Keep`, `Sides`, `Records` and `Total`, and the callback that builds the summary
  (`SummarizeGame`) is proved equal to the function `SummaryOf`. The lemmas on `Keep`,
  `Chosen` and `Total` give the partition, order preservation and sum conservation.
- `Summaries`: the `filter`/`map`/`reverse` chain over the match events.
- `Greenhouse`, `OsuParser`: the two handlers, each with the game-level properties of its rule.

The handlers are functions, so they use `UserMap` and `SummaryOf` rather than the loops that
are proved equal to them. The token exchange and the match request become one parameter,
`fetch: string -> Fetched`, which is called with the match id. The match id is the last piece
of `url.split('/')`, as `pop()` returns it, so it is empty for a URL ending in '/'.

## Model

| member | source | states |
|---|---|---|
| `MatchUrl.Split` | blooms-greenhouse/api/getmatch.js:8 | `split('/')` gives at least one piece, and no piece holds a '/' |
| `MatchUrl.JoinSplit` | osu-parser/api/getmatch.js:5 | joining the pieces with '/' gives back the URL, so the split loses nothing |
| `MatchUrl.LastPieceIsSuffix` | osu-parser/api/getmatch.js:5 | the last piece is a suffix of the URL, and a '/' stands right before it unless it is the whole URL |
| `MatchUrl.MatchId` | blooms-greenhouse/api/getmatch.js:8 | the match id is the text after the last '/': it holds no '/', it is the whole URL when there is no '/', and it is empty when the URL ends in '/' |
| `Text.Lower` | blooms-greenhouse/api/getmatch.js:29-30 | lower-casing keeps the length, turns each upper-case letter 'A'..'Z' into its lower-case letter, leaves no upper-case letter and keeps every other character |
| `Text.ContainsIffOccurs` | blooms-greenhouse/api/getmatch.js:53-54 | the `includes` scan succeeds exactly when the term occurs at some position |
| `TeamTitle.CloseAt` | blooms-greenhouse/api/getmatch.js:28 | finds the first ')' at or after a position, or the end of the title |
| `TeamTitle.MatchAtSound` | blooms-greenhouse/api/getmatch.js:28 | whatever the scan at a position captures is '(' red ") vs (" blue ')' there, with non-empty names free of ')' |
| `TeamTitle.MatchAtComplete` | blooms-greenhouse/api/getmatch.js:28 | every such occurrence at a position is exactly what the scan captures there |
| `TeamTitle.MatchAtSpec` | blooms-greenhouse/api/getmatch.js:28 | the scan at a position and the pattern there agree in both directions |
| `TeamTitle.FindFromSpec` | blooms-greenhouse/api/getmatch.js:28 | the search from a position returns the match at the first position that has one, and nothing when no later position matches |
| `TeamTitle.ParseTeams` | blooms-greenhouse/api/getmatch.js:28 | absent exactly when the title has no occurrence of the pattern; otherwise the names of the leftmost occurrence |
| `TeamTitle.SearchTerms` | blooms-greenhouse/api/getmatch.js:29-30 | both search terms are absent together when there is no team context; otherwise they are the captured names lower-cased, never empty |
| `Payload.IntOr` | blooms-greenhouse/api/getmatch.js:46-48 | defaulting gives the value when it is present and non-zero, and the default otherwise; with the default 0, as the handler uses it, the value when present and 0 when absent |
| `Payload.StrOr` | blooms-greenhouse/api/getmatch.js:48 | defaulting a string to `d` gives `d` when it is absent or empty, and never gives "" when `d` is not "" |
| `Labels.RulesetLabel` | osu-parser/api/getmatch.js:49 | for indices 0..3 the label is that entry of ["Osu", "Taiko", "Catch", "Mania"]; outside that range it is "Osu" |
| `Labels.TeamModeLabel` | osu-parser/api/getmatch.js:50 | for indices 0..3 the label is that entry of ["Head-to-Head", "Tag Co-op", "Team Vs", "Tag Team Vs"]; outside that range it is "Standard" |
| `Labels.Winner` | blooms-greenhouse/api/getmatch.js:68 | "Red Wins" iff red > blue, "Blue Wins" iff blue > red, "Draw" iff they are equal |
| `Users.UserMapKeys` | blooms-greenhouse/api/getmatch.js:33 | an id is in `userMap` exactly when some user carries it |
| `Users.UserMapLastWins` | osu-parser/api/getmatch.js:21 | the entry for an id is the name and avatar of the last user with that id |
| `Users.BuildUserMap` | blooms-greenhouse/api/getmatch.js:33 | the `forEach` loop leaves exactly `UserMap(users)` |
| `Users.Resolve` | blooms-greenhouse/api/getmatch.js:43 | a known id gives its entry; an unknown id gives name "Unknown" and avatar "" |
| `Users.RecordOf` | blooms-greenhouse/api/getmatch.js:43-49 | the record takes the user's name and avatar. A missing score or combo is 0. The grade is the rank when it is present and non-empty, and "F" otherwise, so it is never empty. The accuracy text is passed through |
| `Teams.IsRedNameAwareSpec` | blooms-greenhouse/api/getmatch.js:51-56 | in a team mode, red iff tagged team 2. Outside team modes: a name mentioning the red term is red, even if it also mentions the blue term; else a name mentioning the blue term is blue; else only index 0 is red. Without a team context, red iff index 0 |
| `Teams.IsRedTagOrFirst` | osu-parser/api/getmatch.js:40 | tagged team 2 is always red; outside team modes index 0 is red too; in every other case, red iff tagged team 2 |
| `Teams.RulesAgreeInTeamModes` | blooms-greenhouse/api/getmatch.js:51-52 | when team_mode >= 2 both rules put a score on red iff it is tagged team 2 |
| `Teams.RulesDifferInHeadToHead` | blooms-greenhouse/api/getmatch.js:52-54 | for every pair of team terms, every non-team mode, every later index and every name that mentions the blue term but not the red one, a score tagged team 2 is blue under the name-aware rule and red under the other |
| `Tally.KeepPrefix` | blooms-greenhouse/api/getmatch.js:58-59 | after n scores, one side's player list holds at most n players |
| `Tally.Chosen` | osu-parser/api/getmatch.js:42-43 | the positions sent to one side, strictly ascending; each such position is listed and nothing else |
| `Tally.KeepStep` | osu-parser/api/getmatch.js:42-43 | one more score pushes its player onto the end of its own side's list and leaves the other list as it was |
| `Tally.KeepIsChosen` | blooms-greenhouse/api/getmatch.js:58-59 | each side's list is the players at that side's positions, in their original order |
| `Tally.KeepLengths` | blooms-greenhouse/api/getmatch.js:42-59 | after n scores, the red and blue lists together hold n players |
| `Tally.KeepPartition` | blooms-greenhouse/api/getmatch.js:42-59 | red and blue together hold each of the first n players as often as it occurs among them: their multisets add up to that of the scores' players |
| `Tally.KeepHas` | osu-parser/api/getmatch.js:42-43 | a player sent to a side appears in that side's list |
| `Tally.KeepOnlyFirst` | blooms-greenhouse/api/getmatch.js:55 | when only position 0 is red, red holds just the first player and blue the rest, in order |
| `Tally.TotalAppend` | osu-parser/api/getmatch.js:42-43 | pushing a player adds its score to the side's total |
| `Tally.TotalPartition` | osu-parser/api/getmatch.js:28-51 | the red total plus the blue total is the sum of all the game's scores |
| `Tally.Records` | blooms-greenhouse/api/getmatch.js:42-49 | one player record per score |
| `Tally.RecordsAt` | blooms-greenhouse/api/getmatch.js:43-49 | the record at each position is the record built from the score at that position |
| `Tally.SidesAt` | osu-parser/api/getmatch.js:30-40 | each score's side is the rule applied to its team mode, team tag, index and resolved name |
| `Tally.SummarySplitsPlayers` | blooms-greenhouse/api/getmatch.js:62-70 | a game summary splits all the game's players between red and blue (lengths and multisets add up). Each total is the sum of its side's scores, and red + blue is the sum of all scores |
| `Tally.TallyStep` | osu-parser/api/getmatch.js:42-43 | one pass of the loop keeps its invariant: the next player goes to the end of its side's list, its score onto that side's total, and the other side is unchanged |
| `Tally.PickSide` | blooms-greenhouse/api/getmatch.js:51-56 | the step-by-step `isRed` assignments decide the side that the rule gives the score |
| `Tally.TallyScores` | osu-parser/api/getmatch.js:28-44 | the loop ends with each side's list holding that side's players in score order, and each running total equal to the sum of its list's scores |
| `Tally.SummarizeGame` | blooms-greenhouse/api/getmatch.js:40-70 | the callback, loop and summary object together produce exactly `SummaryOf` |
| `Tally.RulesAgreeOnTeamGames` | osu-parser/api/getmatch.js:40 | in a team mode, both handlers summarise a game identically |
| `Tally.SidesAgreeOnTeamGames` | blooms-greenhouse/api/getmatch.js:51-52 | in a team mode, the two rules pick the same side for every score of the game |
| `Summaries.HasGame` | blooms-greenhouse/api/getmatch.js:35 | flags exactly the events that carry a game |
| `Summaries.GameEvents` | osu-parser/api/getmatch.js:23 | the filtered games are those of the events carrying one, in event order, one per such event |
| `Summaries.SummarizeAll` | blooms-greenhouse/api/getmatch.js:35 | the `map` gives one summary per game, and summary k is that of game k |
| `Summaries.Reverse` | blooms-greenhouse/api/getmatch.js:73 | the reversed list has the same length, and element k is element n-1-k of the original |
| `Summaries.MatchSummaryOf` | osu-parser/api/getmatch.js:19-57 | keeps the match id and name. Holds one summary per event with a game, in exactly the reverse of event order, each built with the map of the match's users |
| `Summaries.TwoScoreSummary` | osu-parser/api/getmatch.js:40-52 | in a game with two scores, each score's record goes to the side the rule picks for it, the first ahead of the second; each total is the sum of its side and the winner compares the totals |
| `MatchUrl.SplitOne` | osu-parser/api/getmatch.js:5 | the split gives a single piece exactly when the URL holds no '/' |
| `Summaries.TeamVsExample` | osu-parser/api/getmatch.js:40-52 | a Team Vs game where Alice (team 2) scores 1000 and Bob (team 1) scores 800 gives red 1000, blue 800, "Red Wins", Alice alone on red and Bob alone on blue |
| `Greenhouse.Handle` | blooms-greenhouse/api/getmatch.js:5-76 | a missing or empty `url` gets 400 "No URL provided" before anything is fetched, and nothing else does. Otherwise a failed fetch gets 500 with its message, and a fetched match gets 200 with its summary under the name-aware rule with the title's search terms |
| `Greenhouse.HeadToHeadWithoutTeamNames` | blooms-greenhouse/api/getmatch.js:51-56 | with no team context, a game outside team modes has exactly the first player on red and all the others, in order, on blue |
| `Greenhouse.NamedPlayersSides` | blooms-greenhouse/api/getmatch.js:53-54 | outside team modes, a player whose name mentions the red term is on red; one whose name mentions only the blue term is on blue |
| `OsuParser.Handle` | osu-parser/api/getmatch.js:4-60 | a missing `url` faults before any reply, and only then. An empty one is passed on as the empty id. A failed fetch gets 500 with its message; a fetched match gets 200 with its summary under the team-tag rule |
| `OsuParser.HandleChecked` | osu-parser/api/getmatch.js:4-5 | with a presence check it never faults: a missing or empty `url` gets 400, and any other URL is handled as before |
| `OsuParser.TeamTwoIsRed` | osu-parser/api/getmatch.js:40 | a score tagged team 2 is on red whatever the team mode |
| `OsuParser.HeadToHeadRedSide` | osu-parser/api/getmatch.js:40 | outside team modes the first player leads the red list, and every later red player is tagged team 2 |

## Findings

| source | as written | input that shows it | evidently intended | confidence | as-written member | corrected member |
|---|---|---|---|---|---|---|
| osu-parser/api/getmatch.js:4-5 | `url.split('/')` runs before the `try` and nothing checks that `url` is present | a request with no `url` parameter: the handler throws and sends no reply | a 400 reply "No URL provided", as blooms-greenhouse/api/getmatch.js:6 sends | medium, not executed | `OsuParser.Handle` | `OsuParser.HandleChecked` |

## Left out

- The OAuth token request, the match request and the credentials read from the environment are network I/O. Together they are the `fetch` parameter, whose failure carries a message.
- `res.status(...).json(...)` is represented by the `Response` value. The `catch` is modelled only for a failed fetch. A fetched document is assumed well-formed, so the faults a malformed one would raise are not modelled. Examples are a missing `match`, `users`, `events`, `beatmapset` or `beatmap`, or a user without `username`.
- Accuracy formatting `(s.accuracy * 100).toFixed(2)` is floating-point rounding. A score carries its already formatted accuracy text, which is passed through.
- `parseInt` on the raw score is not modelled: the score, combo, team tag, team mode and ruleset are already integers. The team tag is compared with 2 as a number; a tag of another type is not modelled.
- `Text.Lower` lower-cases only 'A'..'Z'. JavaScript's `toLowerCase` also maps non-ASCII letters such as 'É', so a name that matches a team term only after Unicode case mapping is put on a different side in the model.
- Scores and the running totals `rScore`/`bScore` are JavaScript numbers (IEEE doubles). The model's `int` is unbounded, so the sums, and the conservation lemmas `Tally.TotalPartition` and `Tally.SummarySplitsPlayers`, match the source only while every total stays below 2^53.
- The regular expression is modelled only for the one pattern the handler uses, not as a general regex engine.
- The JSON key names differ between the handlers (`mode`/`ruleset` against `gameMode`/`matchType`). Both are the fields `modeLabel`/`teamModeLabel` of one `GameSummary`.
- `userMap` is a map from integer ids. JavaScript's conversion of keys to strings and its inherited object keys are not modelled.
- A `url` query value that is an array rather than a string is not modelled.
