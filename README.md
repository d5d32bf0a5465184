# Cricket scorer — a Dafny model

This project models the core of a two-part cricket scorer:

- a Django REST backend that keeps matches, innings and deliveries;
- a React client that scores a match ball by ball.

The backend's `MatchViewSet` becomes the class `Views.Match`. It creates a match, runs the toss and opens the first innings. Its `bowl` refuses the previous over's bowler at the start of a new over, stores the delivery and updates the cached totals of the innings. It then ends the innings on all out, the overs cap, a passed target or a declaration. A T20 first innings is followed by the second. The end of the second innings finishes the match, with its winner and the three awards: best batsman, best bowler and man of the match. `undo` drops the last delivery, subtracts it and reopens the innings, and the match too, when nothing ends it any more.

The client's live scoreboard becomes the class `Scoreboard.Crease`:

- who is at the crease and who bowls;
- how a ball is numbered from the legal balls before it;
- strike rotation, and the vacancy a wicket leaves;
- the "on fire" and "hat-trick" banners.

The client's read-only views become functions over the delivery log, each tied by lemmas to the one definition of batting and bowling figures in `Stats`:

- the batting and bowling cards;
- the history page: dismissal text, scorecards, fall of wickets and result line;
- the match summary;
- the chase figures and the recent-ball labels.

The new-match form is `MatchConfig`: roster editing, captains and the submit checks. The control panel's three ball constructors fix the input domain (`ControlPanel`).

Modules (one file each):

- `Text`: decimal rendering;
- `Models`: the records of `models.py`;
- `Stats`: the shared figures;
- `Awards`;
- `Views`;
- `ControlPanel`;
- `Scoreboard`;
- `History`;
- `BattingCard`;
- `BowlingCard`;
- `MatchSummary`;
- `MatchConfig`.

The model keeps three behaviours of the client code as written:

- An undo on the scoreboard does not put the crease back. Only the banners are cleared.
- A ball posted without a non-striker carries the striker's id as its non-striker.
- On odd runs off the last ball of an over, the client exchanges the batters once, not twice (`Scoreboard.Exchange`). The crease model does the same. The rotation the two rules evidently mean is `Scoreboard.Crossings`, and the difference is recorded under Findings.

## Model

| member | source | states |
|---|---|---|
| Text.NatToString | frontend/src/components/Scoreboard.jsx:241 | `String(n)` of a count is a non-empty string of digits, one digit exactly below 10 |
| Text.NatToStringRoundTrip | frontend/src/pages/History.jsx:105 | the rendered count reads back as the same number |
| Text.NatToStringInjective | frontend/src/components/BowlingCard.jsx:27 | different counts never render the same |
| Text.IntToString | frontend/src/pages/History.jsx:84 | a signed margin renders non-empty, with a leading '-' exactly when negative |
| Models.DefaultDelivery | backend/api/models.py:100-107 | a delivery left at every default is legal, adds no runs and is no wicket, and keeps its crease ids |
| Models.OrderedBeforeTotalPreorder | backend/api/models.py:112-113 | the (over, ball) ordering of deliveries is reflexive, total and transitive |
| Stats.ReversedAt | frontend/src/pages/History.jsx:19 | reversal keeps the length and puts element k at position len-1-k |
| Stats.AppendOne | backend/api/views.py:102-120 | one more ball adds its runs, its wicket and its legality to the innings totals |
| Stats.TotalsAppend | frontend/src/components/MatchSummary.jsx:11 | runs, wickets and legal balls of joined logs are the sums of the parts |
| Stats.LastLegal | frontend/src/components/BowlingCard.jsx:13 | no last legal ball exactly when no legal ball was bowled; otherwise a legal ball of the log with no legal ball after it |
| Stats.OversOf | backend/api/views.py:117-120 | the stored overs are whole overs plus fewer than six balls, adding back to the legal count |
| Stats.OversTextZero | frontend/src/components/BowlingCard.jsx:25-27 | the overs text reads "0.0" exactly when no legal ball was bowled |
| Stats.BattingBounds | frontend/src/pages/History.jsx:50-58 | a batter's runs never exceed the innings total, balls never exceed the log, fours and sixes fit inside the runs |
| Stats.BowlingBounds | frontend/src/pages/History.jsx:60-73 | a bowler's legal balls, runs conceded and credited wickets never exceed the innings' |
| Stats.BattingAppend | frontend/src/components/MatchSummary.jsx:11-20 | batting figures over joined logs are the sums of the parts |
| Stats.BowlingAppend | frontend/src/components/MatchSummary.jsx:21-36 | bowling figures over joined logs are the sums of the parts |
| Stats.NeverBatted | backend/api/views.py:168-174 | a player who never took strike has no batting figures |
| Stats.NeverBowled | backend/api/views.py:185-199 | a player who never bowled has no bowling figures |
| Stats.FirstSeenSpec | backend/api/views.py:169-171 | the stats dictionary's keys: every id once, no id missing |
| Stats.BowlerWicketsSum | backend/api/views.py:190-191 | bowler wickets over distinct bowlers never exceed the credited wickets, and add up to them over every bowler |
| Stats.BatterRunsSum | backend/api/views.py:102 | the innings total is runs off the bat plus extras, and batters' runs add up to the bat runs |
| Stats.StrikeRateCell | frontend/src/pages/History.jsx:56 | the strike rate is "0.0" exactly when no ball was faced, otherwise a quotient over the balls faced |
| Stats.EconomyCell | frontend/src/pages/History.jsx:71 | the economy is "0.00" exactly when no legal ball was bowled, otherwise a quotient over the legal balls |
| Awards.FirstMin | backend/api/views.py:178-181 | the head of a stable sort: the first smallest key |
| Awards.BestBatsmanIsBest | backend/api/views.py:167-182 | chosen exactly when a ball was bowled; the most runs of anyone who batted, fewest balls among equals |
| Awards.BestBowlerIsBest | backend/api/views.py:184-207 | chosen exactly when a ball was bowled; the most credited wickets of anyone who bowled, fewest runs among equals |
| Awards.ManOfMatchIsBest | backend/api/views.py:209-218 | chosen exactly when a ball was bowled; the most of runs plus 20 per wicket among batters and bowlers |
| Awards.BatsmenStats | backend/api/views.py:168-174 | the dictionary loop leaves, for every batter in first-seen order, runs and balls as the batting figures |
| Awards.BowlerStats | backend/api/views.py:185-199 | the dictionary loop leaves, for every bowler in first-seen order, credited wickets and runs conceded |
| Awards.MomPointsTable | backend/api/views.py:210-214 | the points table holds every batter then every new bowler, each with runs plus 20 per wicket |
| Awards.ComputeAwards | backend/api/views.py:165-218 | the loops pick exactly the best batsman, best bowler and man of the match of the specification |
| Views.NewInnings | backend/api/models.py:54-66 | a new innings row has no deliveries, zero totals and consistent caches, and is open |
| Views.RequestDelivery | backend/api/views.py:84-99 | a missing key of the request takes the model default: no runs, legal, no wicket |
| Views.FirstBatting | backend/api/views.py:53 | the toss winner bats when choosing to bat; otherwise the other side bats |
| Views.OtherTeam | backend/api/views.py:54 | the bowling side is the other of the two teams |
| Views.AllOutThreshold | backend/api/views.py:126 | all out is the whole side with last man standing, one fewer otherwise |
| Views.MaxOvers | backend/api/views.py:130 | unset or 0 custom overs mean 20, otherwise the custom value |
| Views.OversReachedExactly | backend/api/views.py:132-133 | the float comparison of overs with the cap holds exactly when the legal balls fill the capped overs |
| Views.InningsEndsByLog | backend/api/views.py:124-142 | with consistent caches, the end of an innings is a statement about its deliveries alone |
| Views.Winner | backend/api/views.py:156-162 | no winner exactly on equal runs; otherwise the side with strictly more runs |
| Views.ConsecutiveOverOnlyRefusesPrevious | backend/api/views.py:74-81 | the over-change rule never refuses the first bowler or anyone inside an over, and only refuses someone who bowled a legal ball |
| Views.UndoSubtracts | backend/api/views.py:244-246 | undo subtracts the last ball from consistent totals, and the floor at 0 never applies |
| Views.Record | backend/api/views.py:84-122 | the stored ball is appended, and the identity and flags of the innings are kept |
| Views.RecordKeepsCached | backend/api/views.py:101-122 | recording a ball keeps the cached runs, wickets and overs equal to the ones derived from the log |
| Views.Unrecord | backend/api/views.py:244-252 | the last ball is dropped, and the identity and flags of the innings are kept |
| Views.UnrecordKeepsCached | backend/api/views.py:244-252 | dropping the last ball keeps the caches consistent and subtracts exactly that ball |
| Views.UnrecordUndoesRecord | backend/api/views.py:234-252 | undo after bowl gives back the innings row as it was |
| Views.Match.constructor | backend/api/views.py:13-39 | a new match is in SETUP with no innings, with its format, overs and teams, and last man standing off by default |
| Views.Match.Toss | backend/api/views.py:42-61 | the match goes LIVE with one fresh innings; the winner bats exactly when choosing to; the two sides differ |
| Views.Match.Bowl | backend/api/views.py:65-223 | refuses with no open innings, then refuses the previous over's bowler at an over's start, then a missing non-striker; otherwise the innings records the ball and settles (see Accept) |
| Views.Match.Accept | backend/api/views.py:101-220 | the latest innings records the ball and closes exactly when the end rule holds; a T20 first innings opens the second; a T20 second innings finishes the match with winner and awards; the rest is unchanged |
| Views.Match.OpenSecondInnings | backend/api/views.py:147-153 | the second innings opens with the sides swapped |
| Views.Match.FinishMatch | backend/api/views.py:154-218 | the match is COMPLETED with the winner and the three awards computed from both innings' deliveries |
| Views.Match.Reopen | backend/api/views.py:267-273 | the match is LIVE again with no winner and no awards |
| Views.Match.Undo | backend/api/views.py:234-276 | refuses without innings or without deliveries; otherwise drops the last ball, subtracts it, keeps the innings closed only while the end rule still holds, and clears the result when the match reopens |
| ControlPanel.PanelDomain | frontend/src/components/ControlPanel.jsx:7-27 | the three constructors build exactly the inputs of the stated domain |
| ControlPanel.PanelInputShape | frontend/src/components/ControlPanel.jsx:33-47 | every panel input has runs or one extra, never both, at most six runs and never five, and a wicket is a legal ball with no runs |
| Scoreboard.NumberingRoundTrip | frontend/src/components/Scoreboard.jsx:82-84 | the over and ball numbers are a one-to-one encoding of the legal count, the ball between 1 and 6 |
| Scoreboard.NumberingFollowsLog | frontend/src/components/Scoreboard.jsx:82-84 | in a client-numbered log the (over, ball) order agrees with the log order, strictly after a legal ball |
| Scoreboard.NumberingExtends | frontend/src/components/Scoreboard.jsx:82-84 | numbering the next ball from the log keeps the log client-numbered |
| Scoreboard.SoloAllowedThreshold | frontend/src/components/Scoreboard.jsx:50-57 | solo batting is allowed exactly when last man standing is on and the wickets reach the server's normal all-out threshold |
| Scoreboard.RefusalMatchesServer | frontend/src/components/Scoreboard.jsx:62-71 | for a real player the client refuses exactly the bowlers the server refuses |
| Scoreboard.CrossingsParity | frontend/src/components/Scoreboard.jsx:106-121 | the intended rotation changes strike exactly when one of odd runs and over end applies |
| Scoreboard.ExchangeDiffersOnlyOnOddLastBall | frontend/src/components/Scoreboard.jsx:106-121 | the client's rotation differs from the intended one exactly on odd runs off the over's last ball |
| Scoreboard.AfterWicketVacancy | frontend/src/components/Scoreboard.jsx:88-102 | a wicket leaves an end vacant, brings nobody in, removes the batter out and keeps the other |
| Scoreboard.OnFireStep | frontend/src/components/Scoreboard.jsx:143-149 | only a legal six by the batter lights the banner, exactly after two earlier legal sixes; other balls leave it as it was |
| Scoreboard.HatTrickStep | frontend/src/components/Scoreboard.jsx:150-156 | only a legal credited wicket by the bowler completes a hat-trick, exactly after two earlier ones; other balls leave it as it was |
| Scoreboard.ChaseMatchesServer | frontend/src/components/Scoreboard.jsx:189-196 | runs needed reach 0 exactly when the server's target check passes; in T20 the client's cap is the server's and balls left reach 0 exactly at the server's overs limit |
| Scoreboard.BallLabelReadsBack | frontend/src/components/Scoreboard.jsx:235-241 | the label is "W" exactly for a wicket; a runs label reads back as the runs; an extra's label is not a number |
| Scoreboard.LabelsAt | frontend/src/components/Scoreboard.jsx:234-241 | one label per ball, in order |
| Scoreboard.RecentLabelsAt | frontend/src/components/Scoreboard.jsx:234 | the strip shows the last twelve balls (or all), newest first |
| Scoreboard.CurrentIsLatest | frontend/src/components/Scoreboard.jsx:8 | with every innings but the last completed, the scoreboard shows the latest innings |
| Scoreboard.RequestStores | frontend/src/components/Scoreboard.jsx:73-84 | the stored ball carries the panel's fields, the crease and the client's numbering; the striker stands in for a missing non-striker |
| Scoreboard.Crease.constructor | frontend/src/components/Scoreboard.jsx:13-20 | the crease starts empty with every banner down |
| Scoreboard.Crease.HandleBowl | frontend/src/components/Scoreboard.jsx:48-163 | refuses a missing crease (allowing solo batting) and then the previous over's bowler, changing nothing; otherwise posts the numbered request and, when accepted, settles the crease (single exchange) and banners; batters stay distinct |
| Scoreboard.Crease.MoveCrease | frontend/src/components/Scoreboard.jsx:88-129 | a wicket vacates an end; otherwise, with a non-striker, odd runs or the over's last ball exchange the batters once, and the over's last ball clears the bowler and shows the end-of-over banner |
| Scoreboard.Crease.RaiseBanners | frontend/src/components/Scoreboard.jsx:131-156 | the banners rise, named, exactly when the streak holds on the log with the new ball |
| Scoreboard.Crease.HandleUndo | frontend/src/components/Scoreboard.jsx:165-176 | an accepted undo lowers every banner and leaves the crease as it was |
| History.FindPlayer | frontend/src/pages/History.jsx:35 | the player found has the id; nothing is found exactly when no player has it |
| History.FirstOutBallIsFirst | frontend/src/pages/History.jsx:32 | no wicket ball exactly when the player was never out; otherwise the first ball that put the player out |
| History.HowOutCredits | frontend/src/pages/History.jsx:39-47 | the text ends "b" and the bowler's name exactly when the bowler is credited; it never reads "not out" |
| History.DismissalTextCredits | frontend/src/pages/History.jsx:31-48 | "not out" exactly when the player was never out; otherwise the wicket text of the first dismissal |
| History.CalcBattingAddsUp | frontend/src/pages/History.jsx:50-58 | a row never exceeds the innings; the strike rate is "0.0" exactly with no ball faced; rows of a complete side add up to the total less extras |
| History.BowlingOfOwnBalls | frontend/src/pages/History.jsx:61 | filtering to the bowler's own balls does not change the figures |
| History.CalcBowling | frontend/src/pages/History.jsx:60-73 | the loop's wickets, runs, overs, economy and legal balls are the bowler's figures |
| History.TallyBowling | frontend/src/pages/History.jsx:62-69 | over the bowler's own balls the three counters end at the bowling figures |
| History.RowsShown | frontend/src/pages/History.jsx:156-157 | a dismissed batter always has a row; a bowler has one exactly when the overs do not read "0.0" |
| History.FallOfWickets | frontend/src/pages/History.jsx:95-109 | the loop's entries are the texts of the specified falls |
| History.FallsProperties | frontend/src/pages/History.jsx:95-109 | falls are numbered 1, 2, …; scores never go down or pass the total; no more falls than wickets; a log ending on a named wicket ends on its total |
| History.FindInnings | frontend/src/pages/History.jsx:76-77 | nothing is found exactly when no innings has the number; otherwise the first innings that has it |
| History.ResultMatchesWinner | frontend/src/pages/History.jsx:75-93 | with the server's winner the line is the tie, the runs ahead when defending or the wickets in hand when chasing |
| History.CompletedAppend | frontend/src/pages/History.jsx:18 | the filter keeps fetch order: filtering joined lists joins the filtered parts |
| History.CompletedMembers | frontend/src/pages/History.jsx:18 | the filter keeps exactly the completed matches |
| History.HistoryListed | frontend/src/pages/History.jsx:18-19 | exactly the completed matches are listed, in reverse order |
| BattingCard.OutPlayerIdsAppend | frontend/src/components/BattingCard.jsx:44-46 | the list keeps delivery order: the players out of more balls follow those already out |
| BattingCard.OutPlayerIdsMatchFalls | frontend/src/components/BattingCard.jsx:44-46 | one id per fall of wicket, never more than the wickets; a player is listed exactly when some ball put them out |
| BattingCard.DismissalAgrees | frontend/src/components/BattingCard.jsx:11-32 | a dismissal is shown exactly for a listed player, and reads as the history page's |
| BattingCard.GetStatsAgrees | frontend/src/components/BattingCard.jsx:34-42 | the figures are the history page's; the strike rate is "0.0" exactly with no ball faced; no list gives zeros |
| BattingCard.SelectionKeepsCreaseApart | frontend/src/components/BattingCard.jsx:118-142 | two menu picks are different players not out, and "Batting" labels exactly them |
| BowlingCard.SelectableMembers | frontend/src/components/BowlingCard.jsx:87-89 | the menu offers every player except the previous over's bowler at an over's start |
| BowlingCard.SelectableAppend | frontend/src/components/BowlingCard.jsx:87-89 | the menu keeps team order: the offers from joined lists are the offers from each, in order |
| BowlingCard.WithheldMatchesRefusals | frontend/src/components/BowlingCard.jsx:11-16 | the menu withholds exactly the bowler the scoreboard refuses, and for a real id the one the server refuses |
| BowlingCard.FiguresOfIsBowling | frontend/src/components/BowlingCard.jsx:21-37 | the card's own pass over the balls gives the shared bowling figures |
| BowlingCard.GetStatsAgrees | frontend/src/components/BowlingCard.jsx:18-40 | with a list the card shows the bowler's figures and no maiden; without one every cell is 0 |
| BowlingCard.RowHiddenIff | frontend/src/components/BowlingCard.jsx:59 | no row is hidden without a list; with one, exactly bowlers with no legal ball other than the current bowler |
| MatchSummary.PooledOverTwoInnings | frontend/src/components/MatchSummary.jsx:11 | the pool of both innings is the server's award log, and pooled figures are the sums of the innings' |
| MatchSummary.BowlerStats | frontend/src/components/MatchSummary.jsx:21-36 | the loop's wickets, runs, overs and economy are the pooled bowling figures |
| MatchSummary.ShowSummary | frontend/src/components/MatchSummary.jsx:7-63 | shown exactly when completed; the margin is the history page's result line; an award line exactly for a present holder, with the pooled figures |
| MatchSummary.AwardLinesShowBest | frontend/src/components/MatchSummary.jsx:37-43 | with the server's holders the lines show the most runs, the most wickets and the most points |
| MatchConfig.WithPlayers | frontend/src/pages/MatchConfig.jsx:24-30 | one side's roster is replaced and everything else is kept |
| MatchConfig.SubmitIff | frontend/src/pages/MatchConfig.jsx:57-86 | sent exactly when all three checks pass, with the form's fields; otherwise the first failing check's message |
| MatchConfig.InitialConfigRejected | frontend/src/pages/MatchConfig.jsx:11-16 | the initial form cannot be sent; its overs pass for a T20; last man standing is off |
| MatchConfig.AddPlayerAppends | frontend/src/pages/MatchConfig.jsx:21-32 | a blank name changes nothing; otherwise the name is appended as non-captain to that side alone and the input is cleared |
| MatchConfig.WithoutIndexDeletes | frontend/src/pages/MatchConfig.jsx:39 | the filter deletes exactly the entry at the index, or nothing when it is out of range |
| MatchConfig.RemovePlayerDeletes | frontend/src/pages/MatchConfig.jsx:34-42 | removing deletes exactly that entry of that side; removing the player just added gives back the form |
| MatchConfig.ToggleCaptainOnlyOne | frontend/src/pages/MatchConfig.jsx:44-55 | exactly the entry at the index is captain, names and order are kept, the other side is untouched, and toggling is idempotent |

## Left out

- HTTP, the ORM, transactions and serializers are left out. A match is one object, and a database id is a positive integer.
- Views.Match.Toss requires a match in SETUP and a winner that is one of its teams, because the only caller offers just those. With any other id, views.py would store a first innings for an unknown side.
- Database ordering ties are left out. The log order is the (over, ball) order, as `Scoreboard.NumberingFollowsLog` justifies.
- Views.Match.Undo does not state that awards computed before an undo that keeps the match COMPLETED go stale. The backend leaves them unchanged.
- Negative runs or extras are left out (`nat`), because the only client sends 0 to 6 runs and 0 or 1 extra.
- Test-format progression is left out. views.py has no logic for innings after the first of a Test match, so the model keeps at most two innings.
- Floating point is left out. `overs_bowled` is kept as whole overs and balls, and its float comparison is proved exact. Strike rate and economy stay as quotients (`RateCell`), without `toFixed` rounding.
- Alerts, modals, `setTimeout` banner timers, console logging, navigation and rendering are left out.
- The scoreboard's `useEffect` (Scoreboard.jsx:23-46) is left out, because it changes no state.
- The run-rate display is left out.
- `BattingCard`'s loose `==` between a menu value and a player id is modelled as exact equality.
- The dashboard, the landing page, the toss and wicket modals, serializers, URLs and settings are not part of this model.

## Findings

| source | as written | input that shows it | evidently intended | confidence | as-written member | corrected member |
|---|---|---|---|---|---|---|
| frontend/src/components/Scoreboard.jsx:106-121 | both swap blocks assign the striker and non-striker captured before the ball, so odd runs off the over's last ball exchange the batters once | striker A, non-striker B, 1 run off the 6th legal ball: the client makes B the striker for the next over | the batters cross on the single and change ends at the over, so A faces the next over | high, not executed | Scoreboard.ExchangeDiffersOnlyOnOddLastBall | Scoreboard.CrossingsParity |
