/** The text tables of a game summary and the winner text. */
module Labels {
  import opened Wrappers
  import opened Payload

  const Rulesets: seq<string> := ["Osu", "Taiko", "Catch", "Mania"]
  const TeamModes: seq<string> := ["Head-to-Head", "Tag Co-op", "Team Vs", "Tag Team Vs"]

  /** `table[i]`: undefined outside the table. */
  function Entry(table: seq<string>, i: int): Option<string> {
    if 0 <= i < |table| then Some(table[i]) else None
  }

  /** `rulesets[ruleset_id] || "Osu"`. */
  function RulesetLabel(id: int): (text: string)
    ensures 0 <= id < 4 ==> text == Rulesets[id]
    ensures id < 0 || 4 <= id ==> text == "Osu"
    ensures text in Rulesets
  {
    StrOr(Entry(Rulesets, id), "Osu")
  }

  /** `teamModes[team_mode] || "Standard"`. */
  function TeamModeLabel(mode: int): (text: string)
    ensures 0 <= mode < 4 ==> text == TeamModes[mode]
    ensures mode < 0 || 4 <= mode ==> text == "Standard"
    ensures text in TeamModes || text == "Standard"
  {
    StrOr(Entry(TeamModes, mode), "Standard")
  }

  /** The three-way winner text: each outcome holds exactly when its comparison does. */
  function Winner(red: int, blue: int): (w: string)
    ensures w == "Red Wins" <==> red > blue
    ensures w == "Blue Wins" <==> blue > red
    ensures w == "Draw" <==> red == blue
  {
    if red > blue then "Red Wins" else if blue > red then "Blue Wins" else "Draw"
  }
}
