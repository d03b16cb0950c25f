/** One game: every score is sent to one side, and each side keeps its players in order and
    a running total of their scores. */
module Tally {
  import opened Wrappers
  import opened Payload
  import opened Labels
  import opened Users
  import opened Text
  import opened TeamTitle
  import opened Teams

  /** The elements among the first `n` of `xs` whose side is `want`, in their original order. */
  function KeepPrefix<T>(xs: seq<T>, sides: seq<bool>, want: bool, n: nat): (kept: seq<T>)
    requires |xs| == |sides| && n <= |xs|
    ensures |kept| <= n
    decreases n
  {
    if n == 0 then []
    else KeepPrefix(xs, sides, want, n - 1) + (if sides[n - 1] == want then [xs[n - 1]] else [])
  }

  /** The elements of `xs` whose side is `want`, in their original order. */
  function Keep<T>(xs: seq<T>, sides: seq<bool>, want: bool): seq<T>
    requires |xs| == |sides|
  {
    KeepPrefix(xs, sides, want, |xs|)
  }

  /** The positions below `n` whose side is `want`, ascending: each such position appears,
      and only those. */
  function Chosen(sides: seq<bool>, want: bool, n: nat): (idx: seq<nat>)
    requires n <= |sides|
    ensures forall k :: 0 <= k < |idx| ==> idx[k] < n && sides[idx[k]] == want
    ensures forall k, l :: 0 <= k < l < |idx| ==> idx[k] < idx[l]
    ensures forall i :: 0 <= i < n && sides[i] == want ==> i in idx
    decreases n
  {
    if n == 0 then []
    else Chosen(sides, want, n - 1) + (if sides[n - 1] == want then [n - 1] else [])
  }

  /** Order preservation: the kept elements are those at the chosen positions, in order. */
  lemma {:induction false} KeepIsChosen<T>(xs: seq<T>, sides: seq<bool>, want: bool, n: nat)
    requires |xs| == |sides| && n <= |xs|
    ensures |KeepPrefix(xs, sides, want, n)| == |Chosen(sides, want, n)|
    ensures forall k :: 0 <= k < |Chosen(sides, want, n)| ==>
      KeepPrefix(xs, sides, want, n)[k] == xs[Chosen(sides, want, n)[k]]
    decreases n
  {
    if n > 0 {
      KeepIsChosen(xs, sides, want, n - 1);
      var kept, idx := KeepPrefix(xs, sides, want, n - 1), Chosen(sides, want, n - 1);
      if sides[n - 1] == want {
        var kept', idx' := kept + [xs[n - 1]], idx + [n - 1];
        assert KeepPrefix(xs, sides, want, n) == kept';
        assert Chosen(sides, want, n) == idx';
        forall k | 0 <= k < |idx'|
          ensures kept'[k] == xs[idx'[k]]
        {
          if k < |idx| {
            assert kept'[k] == kept[k];
          }
        }
      } else {
        assert KeepPrefix(xs, sides, want, n) == kept;
        assert Chosen(sides, want, n) == idx;
      }
    }
  }

  /** One step of the fold: the next element joins its own side and leaves the other alone. */
  lemma KeepStep<T>(xs: seq<T>, sides: seq<bool>, n: nat)
    requires |xs| == |sides| && 0 < n <= |xs|
    ensures sides[n - 1] ==> KeepPrefix(xs, sides, true, n) == KeepPrefix(xs, sides, true, n - 1) + [xs[n - 1]]
    ensures sides[n - 1] ==> KeepPrefix(xs, sides, false, n) == KeepPrefix(xs, sides, false, n - 1)
    ensures !sides[n - 1] ==> KeepPrefix(xs, sides, true, n) == KeepPrefix(xs, sides, true, n - 1)
    ensures !sides[n - 1] ==> KeepPrefix(xs, sides, false, n) == KeepPrefix(xs, sides, false, n - 1) + [xs[n - 1]]
  {
  }

  /** The multiset of the first `n` elements of `xs`. */
  ghost function PrefixBag<T>(xs: seq<T>, n: nat): multiset<T>
    requires n <= |xs|
    decreases n
  {
    if n == 0 then multiset{} else PrefixBag(xs, n - 1) + multiset{xs[n - 1]}
  }

  /** The bag of all the elements is the multiset of the sequence. */
  lemma {:induction false} PrefixBagAll<T>(xs: seq<T>, n: nat)
    requires n <= |xs|
    ensures PrefixBag(xs, n) == multiset(xs[..n])
    decreases n
  {
    if n == 0 {
      assert xs[..0] == [];
    } else {
      PrefixBagAll(xs, n - 1);
      assert xs[..n] == xs[..n - 1] + [xs[n - 1]];
    }
  }

  /** One step of the fold adds one to the two sides' combined length. */
  lemma KeepStepLength<T>(xs: seq<T>, sides: seq<bool>, n: nat)
    requires |xs| == |sides| && 0 < n <= |xs|
    ensures |KeepPrefix(xs, sides, true, n)| + |KeepPrefix(xs, sides, false, n)|
      == |KeepPrefix(xs, sides, true, n - 1)| + |KeepPrefix(xs, sides, false, n - 1)| + 1
  {
    KeepStep(xs, sides, n);
  }

  /** One step of the fold keeps the partition: if the two sides hold the first `n - 1`
      elements, they hold the first `n` once the next element joins its side. */
  lemma KeepStepMultiset<T>(xs: seq<T>, sides: seq<bool>, n: nat)
    requires |xs| == |sides| && 0 < n <= |xs|
    requires multiset(KeepPrefix(xs, sides, true, n - 1)) + multiset(KeepPrefix(xs, sides, false, n - 1))
      == PrefixBag(xs, n - 1)
    ensures multiset(KeepPrefix(xs, sides, true, n)) + multiset(KeepPrefix(xs, sides, false, n))
      == PrefixBag(xs, n)
  {
    KeepStep(xs, sides, n);
  }

  /** Each of the first `n` elements is kept on exactly one of the two sides, so the two
      sides' lengths add up to `n`. */
  lemma {:induction false} KeepLengths<T>(xs: seq<T>, sides: seq<bool>, n: nat)
    requires |xs| == |sides| && n <= |xs|
    ensures |KeepPrefix(xs, sides, true, n)| + |KeepPrefix(xs, sides, false, n)| == n
    decreases n
  {
    if n > 0 {
      KeepLengths(xs, sides, n - 1);
      KeepStepLength(xs, sides, n);
    }
  }

  /** Partition: the two sides together hold exactly the first `n` elements, each as often
      as it occurs there. */
  lemma {:induction false} KeepPartition<T>(xs: seq<T>, sides: seq<bool>, n: nat)
    requires |xs| == |sides| && n <= |xs|
    ensures multiset(KeepPrefix(xs, sides, true, n)) + multiset(KeepPrefix(xs, sides, false, n))
      == PrefixBag(xs, n)
    decreases n
  {
    if n > 0 {
      KeepPartition(xs, sides, n - 1);
      KeepStepMultiset(xs, sides, n);
    }
  }

  /** An element whose side is `want` is kept on that side. */
  lemma KeepHas<T>(xs: seq<T>, sides: seq<bool>, want: bool, i: int)
    requires |xs| == |sides| && 0 <= i < |xs| && sides[i] == want
    ensures xs[i] in Keep(xs, sides, want)
  {
    KeepIsChosen(xs, sides, want, |xs|);
    var idx := Chosen(sides, want, |xs|);
    var k :| 0 <= k < |idx| && idx[k] == i;
    assert Keep(xs, sides, want)[k] == xs[i];
  }

  /** When only the first position is on the `true` side, that side keeps just the first
      element and the other side keeps the rest, in order. */
  lemma {:induction false} KeepOnlyFirst<T>(xs: seq<T>, sides: seq<bool>, n: nat)
    requires |xs| == |sides| && 0 < n <= |xs|
    requires forall i :: 0 <= i < n ==> (sides[i] <==> i == 0)
    ensures KeepPrefix(xs, sides, true, n) == xs[..1]
    ensures KeepPrefix(xs, sides, false, n) == xs[1..n]
    decreases n
  {
    if n > 1 {
      KeepOnlyFirst(xs, sides, n - 1);
      assert xs[1..n - 1] + [xs[n - 1]] == xs[1..n];
    }
  }

  /** The sum of the players' scores. */
  function Total(ps: seq<PlayerRecord>): int
    decreases |ps|
  {
    if ps == [] then 0 else Total(ps[..|ps| - 1]) + ps[|ps| - 1].score
  }

  /** Pushing a player adds its score to the total. */
  lemma TotalAppend(ps: seq<PlayerRecord>, p: PlayerRecord)
    ensures Total(ps + [p]) == Total(ps) + p.score
  {
    assert (ps + [p])[..|ps|] == ps;
  }

  /** The total of a prefix grows by the next player's score. */
  lemma PrefixTotal(ps: seq<PlayerRecord>, n: nat)
    requires 0 < n <= |ps|
    ensures Total(ps[..n]) == Total(ps[..n - 1]) + ps[n - 1].score
  {
    assert ps[..n][..n - 1] == ps[..n - 1];
  }

  /** Pushing a player onto one of two lists adds its score to their combined total. */
  lemma TotalSnoc(left: seq<PlayerRecord>, right: seq<PlayerRecord>, p: PlayerRecord)
    ensures Total(left + [p]) + Total(right) == Total(left) + Total(right) + p.score
    ensures Total(left) + Total(right + [p]) == Total(left) + Total(right) + p.score
  {
    TotalAppend(left, p);
    TotalAppend(right, p);
  }

  /** Conservation: the two sides' totals add up to the total of the first `n` players. */
  lemma {:induction false} TotalPartition(ps: seq<PlayerRecord>, sides: seq<bool>, n: nat)
    requires |ps| == |sides| && n <= |ps|
    ensures Total(KeepPrefix(ps, sides, true, n)) + Total(KeepPrefix(ps, sides, false, n)) == Total(ps[..n])
    decreases n
  {
    if n > 0 {
      TotalPartition(ps, sides, n - 1);
      KeepStep(ps, sides, n);
      PrefixTotal(ps, n);
      TotalSnoc(KeepPrefix(ps, sides, true, n - 1), KeepPrefix(ps, sides, false, n - 1), ps[n - 1]);
    }
  }

  /** The player records of a game's scores, in order. */
  function Records(scores: seq<Score>, userMap: map<int, Profile>): (recs: seq<PlayerRecord>)
    ensures |recs| == |scores|
    decreases |scores|
  {
    if scores == [] then []
    else Records(scores[..|scores| - 1], userMap) + [RecordOf(scores[|scores| - 1], userMap)]
  }

  /** The record at each position is the record of the score at that position. */
  lemma {:induction false} RecordsAt(scores: seq<Score>, userMap: map<int, Profile>, i: int)
    requires 0 <= i < |scores|
    ensures Records(scores, userMap)[i] == RecordOf(scores[i], userMap)
    decreases |scores|
  {
    var n := |scores| - 1;
    if i < n {
      RecordsAt(scores[..n], userMap, i);
    }
  }

  /** The sides the rule picks for the first `n` scores of a game: true for red. */
  function SidesPrefix(g: Game, userMap: map<int, Profile>, rule: Rule, n: nat): (sides: seq<bool>)
    requires n <= |g.scores|
    ensures |sides| == n
    decreases n
  {
    if n == 0 then []
    else
      var s := g.scores[n - 1];
      SidesPrefix(g, userMap, rule, n - 1) + [IsRed(rule, g.teamMode, s.team, n - 1, Resolve(userMap, s.userId).name)]
  }

  /** The side of each score under `rule`. */
  function Sides(g: Game, userMap: map<int, Profile>, rule: Rule): (sides: seq<bool>)
    ensures |sides| == |g.scores|
  {
    SidesPrefix(g, userMap, rule, |g.scores|)
  }

  /** The side at each position is the rule applied to the score at that position, with its
      position and its player's name. */
  lemma {:induction false} SidesAt(g: Game, userMap: map<int, Profile>, rule: Rule, n: nat, i: int)
    requires 0 <= i < n <= |g.scores|
    ensures SidesPrefix(g, userMap, rule, n)[i]
      == IsRed(rule, g.teamMode, g.scores[i].team, i, Resolve(userMap, g.scores[i].userId).name)
    decreases n
  {
    if i < n - 1 {
      SidesAt(g, userMap, rule, n - 1, i);
    }
  }

  /** The summary of one game under `rule`: the players split into the two sides, in order,
      each side's total, the labels and the winner. */
  function SummaryOf(g: Game, userMap: map<int, Profile>, rule: Rule): GameSummary {
    var recs := Records(g.scores, userMap);
    var sides := Sides(g, userMap, rule);
    var reds := Keep(recs, sides, true);
    var blues := Keep(recs, sides, false);
    GameSummary(
      g.beatmapsetTitle + " [" + g.beatmapVersion + "]",
      "https://assets.ppy.sh/beatmaps/" + g.beatmapsetId + "/covers/cover.jpg",
      RulesetLabel(g.rulesetId),
      TeamModeLabel(g.teamMode),
      Total(reds), Total(blues),
      Winner(Total(reds), Total(blues)),
      reds, blues)
  }

  /** A game summary splits all the game's players between the sides, each side's total is
      the sum of its players' scores, and the two totals add up to the sum of all scores. */
  lemma SummarySplitsPlayers(g: Game, userMap: map<int, Profile>, rule: Rule)
    ensures var s := SummaryOf(g, userMap, rule);
      && |s.redPlayers| + |s.bluePlayers| == |g.scores|
      && multiset(s.redPlayers) + multiset(s.bluePlayers) == multiset(Records(g.scores, userMap))
      && s.red == Total(s.redPlayers) && s.blue == Total(s.bluePlayers)
      && s.red + s.blue == Total(Records(g.scores, userMap))
  {
    var recs := Records(g.scores, userMap);
    KeepLengths(recs, Sides(g, userMap, rule), |recs|);
    KeepPartition(recs, Sides(g, userMap, rule), |recs|);
    PrefixBagAll(recs, |recs|);
    TotalPartition(recs, Sides(g, userMap, rule), |recs|);
    assert recs[..|recs|] == recs;
  }

  /** One pass of the score loop keeps its invariant: the next record joins the end of its
      side's list and its score that side's total, and the other side stays as it was. */
  lemma TallyStep(recs: seq<PlayerRecord>, sides: seq<bool>, n: nat, reds: seq<PlayerRecord>, blues: seq<PlayerRecord>)
    requires |recs| == |sides| && n < |recs|
    requires reds == KeepPrefix(recs, sides, true, n) && blues == KeepPrefix(recs, sides, false, n)
    ensures sides[n] ==> (reds + [recs[n]] == KeepPrefix(recs, sides, true, n + 1)
      && blues == KeepPrefix(recs, sides, false, n + 1)
      && Total(reds + [recs[n]]) == Total(reds) + recs[n].score)
    ensures !sides[n] ==> (reds == KeepPrefix(recs, sides, true, n + 1)
      && blues + [recs[n]] == KeepPrefix(recs, sides, false, n + 1)
      && Total(blues + [recs[n]]) == Total(blues) + recs[n].score)
  {
    KeepStep(recs, sides, n + 1);
    TotalAppend(reds, recs[n]);
    TotalAppend(blues, recs[n]);
  }

  /** The side of the score at position `idx`, decided step by step as the handlers do: the
      name-aware rule starts from the team tag and, outside the team modes, lets the red term,
      then the blue term, then the position override it; the team-tag rule is one test. */
  method PickSide(g: Game, userMap: map<int, Profile>, rule: Rule, idx: nat) returns (isRed: bool)
    requires idx < |g.scores|
    ensures isRed == Sides(g, userMap, rule)[idx]
  {
    var s := g.scores[idx];
    var u := Resolve(userMap, s.userId);
    SidesAt(g, userMap, rule, |g.scores|, idx);
    match rule
    case NameAware(search) =>
      isRed := s.team == Some(2);
      if g.teamMode < 2 {
        if search.Some? && Contains(Lower(u.name), search.value.red) {
          isRed := true;
        } else if search.Some? && Contains(Lower(u.name), search.value.blue) {
          isRed := false;
        } else {
          isRed := idx == 0;
        }
      }
    case TagOrFirst =>
      isRed := s.team == Some(2) || (g.teamMode < 2 && idx == 0);
  }

  /** The `forEach` over a game's scores: each player is pushed onto its side's list and its
      score added to that side's running total. The lists are the players of each side in
      score order, and the totals are their sums. */
  method TallyScores(g: Game, userMap: map<int, Profile>, rule: Rule)
    returns (rScore: int, bScore: int, rPlayers: seq<PlayerRecord>, bPlayers: seq<PlayerRecord>)
    ensures rPlayers == Keep(Records(g.scores, userMap), Sides(g, userMap, rule), true)
    ensures bPlayers == Keep(Records(g.scores, userMap), Sides(g, userMap, rule), false)
    ensures rScore == Total(rPlayers) && bScore == Total(bPlayers)
  {
    ghost var recs := Records(g.scores, userMap);
    ghost var sides := Sides(g, userMap, rule);
    rScore, bScore := 0, 0;
    rPlayers, bPlayers := [], [];
    var idx := 0;
    while idx < |g.scores|
      invariant 0 <= idx <= |g.scores|
      invariant rPlayers == KeepPrefix(recs, sides, true, idx)
      invariant bPlayers == KeepPrefix(recs, sides, false, idx)
      invariant rScore == Total(rPlayers) && bScore == Total(bPlayers)
    {
      var s := g.scores[idx];
      var pObj := RecordOf(s, userMap);
      var isRed := PickSide(g, userMap, rule, idx);
      RecordsAt(g.scores, userMap, idx);
      TallyStep(recs, sides, idx, rPlayers, bPlayers);
      if isRed {
        rScore := rScore + pObj.score;
        rPlayers := rPlayers + [pObj];
      } else {
        bScore := bScore + pObj.score;
        bPlayers := bPlayers + [pObj];
      }
      idx := idx + 1;
    }
  }

  /** The `map` callback over one game: the score loop, then the summary object. */
  method SummarizeGame(g: Game, userMap: map<int, Profile>, rule: Rule) returns (summary: GameSummary)
    ensures summary == SummaryOf(g, userMap, rule)
  {
    var rScore, bScore, rPlayers, bPlayers := TallyScores(g, userMap, rule);
    summary := GameSummary(
      g.beatmapsetTitle + " [" + g.beatmapVersion + "]",
      "https://assets.ppy.sh/beatmaps/" + g.beatmapsetId + "/covers/cover.jpg",
      RulesetLabel(g.rulesetId),
      TeamModeLabel(g.teamMode),
      rScore, bScore,
      Winner(rScore, bScore),
      rPlayers, bPlayers);
  }

  /** In a team mode both rules summarise a game identically. */
  lemma RulesAgreeOnTeamGames(g: Game, userMap: map<int, Profile>, search: Option<TeamNames>)
    requires g.teamMode >= 2
    ensures SummaryOf(g, userMap, NameAware(search)) == SummaryOf(g, userMap, TagOrFirst)
  {
    SidesAgreeOnTeamGames(g, userMap, search, |g.scores|);
  }

  /** In a team mode the two rules pick the same side for every score. */
  lemma {:induction false} SidesAgreeOnTeamGames(g: Game, userMap: map<int, Profile>, search: Option<TeamNames>, n: nat)
    requires g.teamMode >= 2 && n <= |g.scores|
    ensures SidesPrefix(g, userMap, NameAware(search), n) == SidesPrefix(g, userMap, TagOrFirst, n)
    decreases n
  {
    if n > 0 {
      SidesAgreeOnTeamGames(g, userMap, search, n - 1);
      var s := g.scores[n - 1];
      RulesAgreeInTeamModes(search, g.teamMode, s.team, n - 1, Resolve(userMap, s.userId).name);
    }
  }
}
