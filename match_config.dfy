/** The new-match form (frontend/src/pages/MatchConfig.jsx): editing the two
    rosters, choosing captains and checking the form before it is sent. */
module MatchConfig {
  import opened Models

  datatype ConfigPlayer = ConfigPlayer(name: string, isCaptain: bool)

  datatype ConfigTeam = ConfigTeam(name: string, players: seq<ConfigPlayer>)

  /** The form's state; `customOvers` is `None` for an empty or unreadable
      overs field. */
  datatype Config = Config(customOvers: Option<int>, lastManStanding: bool, teamA: ConfigTeam, teamB: ConfigTeam)

  datatype Side = SideA | SideB

  function TeamOf(c: Config, side: Side): ConfigTeam {
    match side
    case SideA => c.teamA
    case SideB => c.teamB
  }

  function WithPlayers(c: Config, side: Side, players: seq<ConfigPlayer>): (r: Config)
    ensures TeamOf(r, side) == ConfigTeam(TeamOf(c, side).name, players)
    ensures side == SideA ==> r.teamB == c.teamB
    ensures side == SideB ==> r.teamA == c.teamA
    ensures r.customOvers == c.customOvers && r.lastManStanding == c.lastManStanding
  {
    match side
    case SideA => c.(teamA := c.teamA.(players := players))
    case SideB => c.(teamB := c.teamB.(players := players))
  }

  /** The form as first shown: 20 overs for a T20, no overs otherwise, last
      man standing off, both rosters empty. */
  function InitialConfig(format: Format): Config {
    Config(if format == T20 then Some(20) else None, false, ConfigTeam("", []), ConfigTeam("", []))
  }

  /** The characters `String.prototype.trim` removes. */
  predicate IsSpace(ch: char) {
    || ch in {' ', '\t', '\n', '\r', '\U{000B}', '\U{000C}', '\U{00A0}', '\U{1680}', '\U{2028}', '\U{2029}',
              '\U{202F}', '\U{205F}', '\U{3000}', '\U{FEFF}'}
    || ('\U{2000}' <= ch <= '\U{200A}')
  }

  /** Empty once trimmed. */
  predicate Blank(s: string) {
    forall k :: 0 <= k < |s| ==> IsSpace(s[k])
  }

  /** `addPlayer`: a blank name changes nothing; any other name is appended,
      as typed and not captain, to that side, and the input is cleared.
      The result is the new form and the new text of the input. */
  function AddPlayer(c: Config, side: Side, name: string): (Config, string) {
    if Blank(name) then (c, name)
    else (WithPlayers(c, side, TeamOf(c, side).players + [ConfigPlayer(name, false)]), "")
  }

  /** The list without the entry at `index` (every entry when `index` is
      out of range). */
  function WithoutIndex<T>(s: seq<T>, index: int): seq<T> {
    if s == [] then [] else WithoutIndex(s[..|s| - 1], index) + (if |s| - 1 == index then [] else [s[|s| - 1]])
  }

  /** `removePlayer`. */
  function RemovePlayer(c: Config, side: Side, index: int): Config {
    WithPlayers(c, side, WithoutIndex(TeamOf(c, side).players, index))
  }

  /** `toggleCaptain`: the entry at the index becomes captain, every other
      entry stops being one. */
  function ToggleCaptain(c: Config, side: Side, index: int): Config {
    var ps := TeamOf(c, side).players;
    WithPlayers(c, side, seq(|ps|, i requires 0 <= i < |ps| => ConfigPlayer(ps[i].name, i == index)))
  }

  /** What is sent to create the match. */
  datatype Payload = Payload(format: Format, customOvers: Option<int>, lastManStanding: bool, teamA: ConfigTeam, teamB: ConfigTeam)

  datatype SubmitResult = Rejected(message: string) | Submitted(payload: Payload)

  predicate EnoughPlayers(c: Config) {
    |c.teamA.players| >= 4 && |c.teamB.players| >= 4
  }

  predicate Named(c: Config) {
    c.teamA.name != "" && c.teamB.name != ""
  }

  predicate OversValid(c: Config, format: Format) {
    format == T20 ==> c.customOvers.Some? && c.customOvers.value > 0
  }

  /** `handleSubmit`: the roster sizes, then the names, then (for a T20)
      the overs; the first that fails gives its message and nothing is sent. */
  function HandleSubmit(c: Config, format: Format): SubmitResult {
    if |c.teamA.players| < 4 || |c.teamB.players| < 4 then Rejected("Both teams must have at least 4 players.")
    else if c.teamA.name == "" || c.teamB.name == "" then Rejected("Please enter team names.")
    else if format == T20 && (c.customOvers.None? || c.customOvers.value <= 0) then
      Rejected("Please set a valid number of overs.")
    else Submitted(Payload(format, c.customOvers, c.lastManStanding, c.teamA, c.teamB))
  }

  // ---------------------------------------------------------------- properties

  /** The form is sent exactly when every check passes, and then carries
      the format, the overs, the last-man-standing choice and both teams
      unchanged; otherwise the message is that of the first failing check. */
  lemma SubmitIff(c: Config, format: Format)
    ensures HandleSubmit(c, format).Submitted? <==> EnoughPlayers(c) && Named(c) && OversValid(c, format)
    ensures HandleSubmit(c, format).Submitted? ==>
      HandleSubmit(c, format).payload == Payload(format, c.customOvers, c.lastManStanding, c.teamA, c.teamB)
    ensures !EnoughPlayers(c) ==> HandleSubmit(c, format) == Rejected("Both teams must have at least 4 players.")
    ensures EnoughPlayers(c) && !Named(c) ==> HandleSubmit(c, format) == Rejected("Please enter team names.")
    ensures EnoughPlayers(c) && Named(c) && !OversValid(c, format) ==>
      HandleSubmit(c, format) == Rejected("Please set a valid number of overs.")
  {
  }

  /** The form as first shown cannot be sent, and for a T20 its overs
      already pass. */
  lemma InitialConfigRejected(format: Format)
    ensures HandleSubmit(InitialConfig(format), format) == Rejected("Both teams must have at least 4 players.")
    ensures OversValid(InitialConfig(format), T20) <==> format == T20
    ensures !InitialConfig(format).lastManStanding
  {
  }

  /** Adding a name that is not blank puts it last on that side, as typed
      and not captain, leaves the other side and the settings alone, and
      clears the input; a blank name changes nothing. */
  lemma AddPlayerAppends(c: Config, side: Side, name: string)
    ensures Blank(name) ==> AddPlayer(c, side, name) == (c, name)
    ensures !Blank(name) ==>
      var (r, input) := AddPlayer(c, side, name);
      && input == ""
      && TeamOf(r, side).name == TeamOf(c, side).name
      && |TeamOf(r, side).players| == |TeamOf(c, side).players| + 1
      && TeamOf(r, side).players[..|TeamOf(c, side).players|] == TeamOf(c, side).players
      && TeamOf(r, side).players[|TeamOf(c, side).players|] == ConfigPlayer(name, false)
      && (side == SideA ==> r.teamB == c.teamB) && (side == SideB ==> r.teamA == c.teamA)
      && r.customOvers == c.customOvers && r.lastManStanding == c.lastManStanding
  {
  }

  /** Filtering out one index deletes exactly that entry and keeps the
      others in order; an index out of range deletes nothing. */
  lemma {:induction false} WithoutIndexDeletes<T>(s: seq<T>, index: int)
    ensures 0 <= index < |s| ==> WithoutIndex(s, index) == s[..index] + s[index + 1..]
    ensures !(0 <= index < |s|) ==> WithoutIndex(s, index) == s
  {
    if s != [] {
      var init := s[..|s| - 1];
      WithoutIndexDeletes(init, index);
      if index == |s| - 1 {
        assert init == s[..index] + s[index + 1..];
      } else if 0 <= index < |s| - 1 {
        assert s[..index] + s[index + 1..] == (init[..index] + init[index + 1..]) + [s[|s| - 1]];
      } else {
        assert init + [s[|s| - 1]] == s;
      }
    }
  }

  /** Removing deletes exactly the entry at the index of that side only;
      removing the player just added gives back the form. */
  lemma RemovePlayerDeletes(c: Config, side: Side, index: int, name: string)
    ensures var ps := TeamOf(c, side).players;
      0 <= index < |ps| ==> TeamOf(RemovePlayer(c, side, index), side).players == ps[..index] + ps[index + 1..]
    ensures !(0 <= index < |TeamOf(c, side).players|) ==> RemovePlayer(c, side, index) == c
    ensures side == SideA ==> RemovePlayer(c, side, index).teamB == c.teamB
    ensures side == SideB ==> RemovePlayer(c, side, index).teamA == c.teamA
    ensures !Blank(name) ==> RemovePlayer(AddPlayer(c, side, name).0, side, |TeamOf(c, side).players|) == c
  {
    var ps := TeamOf(c, side).players;
    WithoutIndexDeletes(ps, index);
    if !(0 <= index < |ps|) {
      assert WithPlayers(c, side, ps) == c;
    }
    if !Blank(name) {
      var added := ps + [ConfigPlayer(name, false)];
      assert TeamOf(AddPlayer(c, side, name).0, side).players == added;
      WithoutIndexDeletes(added, |ps|);
      assert added[..|ps|] + added[|ps| + 1..] == ps;
    }
  }

  /** After a toggle exactly the entry at the index is captain (none when
      the index is out of range), names and order are kept, the other side
      is untouched, and toggling again changes nothing. */
  lemma ToggleCaptainOnlyOne(c: Config, side: Side, index: int)
    ensures var ps, qs := TeamOf(c, side).players, TeamOf(ToggleCaptain(c, side, index), side).players;
      && |qs| == |ps|
      && (forall i :: 0 <= i < |qs| ==> qs[i].name == ps[i].name && (qs[i].isCaptain <==> i == index))
    ensures side == SideA ==> ToggleCaptain(c, side, index).teamB == c.teamB
    ensures side == SideB ==> ToggleCaptain(c, side, index).teamA == c.teamA
    ensures ToggleCaptain(ToggleCaptain(c, side, index), side, index) == ToggleCaptain(c, side, index)
  {
  }
}
