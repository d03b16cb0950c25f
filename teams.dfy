/** The two team-assignment rules: which side, red or blue, a score goes to. */
module Teams {
  import opened Wrappers
  import opened Text
  import opened TeamTitle

  /** The rule a handler applies: the name-aware rule with the search terms taken from the
      match title, or the team-tag rule with the index-0 fallback. */
  datatype Rule = NameAware(search: Option<TeamNames>) | TagOrFirst

  /** The lower-cased `name` contains `term` somewhere. */
  ghost predicate Mentions(name: string, term: string) {
    exists i :: OccursAt(Lower(name), term, i)
  }

  /** The name-aware rule, as the handler's chain of conditions: in a team mode the team tag,
      otherwise the red term, then the blue term, then the position. */
  function IsRedNameAware(search: Option<TeamNames>, teamMode: int, team: Option<int>, idx: int, name: string): bool {
    if teamMode < 2 then
      if search.Some? && Contains(Lower(name), search.value.red) then true
      else if search.Some? && Contains(Lower(name), search.value.blue) then false
      else idx == 0
    else team == Some(2)
  }

  /** What the name-aware rule decides. In a team mode only the team tag counts. Otherwise a
      name that mentions the red term is red, even if it also mentions the blue term; else a
      name that mentions the blue term is blue; else only the first score is red. */
  lemma IsRedNameAwareSpec(search: Option<TeamNames>, teamMode: int, team: Option<int>, idx: int, name: string)
    ensures var red := IsRedNameAware(search, teamMode, team, idx, name);
      && (teamMode >= 2 ==> (red <==> team == Some(2)))
      && (teamMode < 2 && search.None? ==> (red <==> idx == 0))
      && (teamMode < 2 && search.Some? && Mentions(name, search.value.red) ==> red)
      && ((teamMode < 2 && search.Some? && !Mentions(name, search.value.red)
           && Mentions(name, search.value.blue)) ==> !red)
      && ((teamMode < 2 && search.Some? && !Mentions(name, search.value.red)
           && !Mentions(name, search.value.blue)) ==> (red <==> idx == 0))
  {
    if search.Some? {
      ContainsIffOccurs(Lower(name), search.value.red);
      ContainsIffOccurs(Lower(name), search.value.blue);
    }
  }

  /** The team-tag rule: a score tagged team 2 is red whatever the mode, and outside team
      modes the first score is red as well. */
  function IsRedTagOrFirst(teamMode: int, team: Option<int>, idx: int): (red: bool)
    ensures team == Some(2) ==> red
    ensures teamMode < 2 && idx == 0 ==> red
    ensures teamMode >= 2 || idx != 0 ==> (red <==> team == Some(2))
  {
    team == Some(2) || (teamMode < 2 && idx == 0)
  }

  function IsRed(rule: Rule, teamMode: int, team: Option<int>, idx: int, name: string): bool {
    match rule
    case NameAware(search) => IsRedNameAware(search, teamMode, team, idx, name)
    case TagOrFirst => IsRedTagOrFirst(teamMode, team, idx)
  }

  /** In a team mode the two rules agree: red exactly when the score is tagged team 2. */
  lemma RulesAgreeInTeamModes(search: Option<TeamNames>, teamMode: int, team: Option<int>, idx: int, name: string)
    requires teamMode >= 2
    ensures IsRedNameAware(search, teamMode, team, idx, name) == IsRedTagOrFirst(teamMode, team, idx)
    ensures IsRedNameAware(search, teamMode, team, idx, name) <==> team == Some(2)
  {
  }

  /** Outside team modes they differ: under the name-aware rule a later score tagged team 2
      whose name mentions only the blue term is blue, where the team-tag rule makes it red. */
  lemma RulesDifferInHeadToHead(t: TeamNames, teamMode: int, idx: int, name: string)
    requires teamMode < 2 && idx != 0
    requires !Mentions(name, t.red) && Mentions(name, t.blue)
    ensures !IsRedNameAware(Some(t), teamMode, Some(2), idx, name)
    ensures IsRedTagOrFirst(teamMode, Some(2), idx)
  {
    IsRedNameAwareSpec(Some(t), teamMode, Some(2), idx, name);
  }
}
