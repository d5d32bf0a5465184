/** The scoring buttons of the control panel
    (frontend/src/components/ControlPanel.jsx): every ball the scorer can
    enter is built by one of three constructors, and this fixes the input
    domain of the whole system. */
module ControlPanel {
  import opened Models

  /** What a button hands to the scoreboard. `None` marks a key the record
      literal leaves out (a run or an extra carries no wicket fields). */
  datatype BallInput = BallInput(
    runsBatter: nat,
    extras: nat,
    extraType: ExtraType,
    isWicket: bool,
    wicketType: Option<WicketType>,
    playerOut: Option<Id>,
    incomingEnd: Option<End>,
    catcher: Option<Id>)

  /** The run buttons, in screen order. */
  const RunButtons: seq<nat> := [0, 1, 2, 3, 4, 6]

  /** The extra buttons: wide, no-ball, bye, leg bye. */
  const ExtraButtons: seq<ExtraType> := [WD, NB, B, LB]

  /** `handleRun`: runs off the bat, nothing else. */
  function HandleRun(runs: nat): BallInput {
    BallInput(runs, 0, NoExtra, false, None, None, None, None)
  }

  /** `handleExtra`: one extra of the given kind, nothing off the bat. */
  function HandleExtra(kind: ExtraType): BallInput {
    BallInput(0, 1, kind, false, None, None, None, None)
  }

  /** `confirmWicket`: a wicket ball with no runs, carrying the modal's choices. */
  function ConfirmWicket(kind: WicketType, playerOut: Option<Id>, incomingEnd: Option<End>, catcher: Option<Id>): BallInput {
    BallInput(0, 0, NoExtra, true, Some(kind), playerOut, incomingEnd, catcher)
  }

  /** Built by one of the panel's buttons. */
  ghost predicate FromPanel(i: BallInput) {
    || (exists r :: r in RunButtons && i == HandleRun(r))
    || (exists t :: t in ExtraButtons && i == HandleExtra(t))
    || (exists w, out, end, c :: i == ConfirmWicket(w, out, end, c))
  }

  /** The input domain, field by field. */
  predicate InDomain(i: BallInput) {
    if i.isWicket then
      i.runsBatter == 0 && i.extras == 0 && i.extraType == NoExtra && i.wicketType.Some?
    else
      && i.wicketType == None && i.playerOut == None && i.incomingEnd == None && i.catcher == None
      && ((i.runsBatter in RunButtons && i.extras == 0 && i.extraType == NoExtra)
          || (i.runsBatter == 0 && i.extras == 1 && i.extraType in ExtraButtons))
  }

  /** The panel builds exactly the inputs of the domain. */
  lemma PanelDomain(i: BallInput)
    ensures FromPanel(i) <==> InDomain(i)
  {
    if InDomain(i) {
      if i.isWicket {
        assert i == ConfirmWicket(i.wicketType.value, i.playerOut, i.incomingEnd, i.catcher);
      } else if i.extras == 0 {
        assert i == HandleRun(i.runsBatter);
      } else {
        assert i == HandleExtra(i.extraType);
      }
    }
  }

  /** What every panel input satisfies: runs and extras never together, at
      most six runs, at most one extra, and a wicket is always a legal ball. */
  lemma PanelInputShape(i: BallInput)
    requires FromPanel(i)
    ensures !(i.runsBatter > 0 && i.extras > 0)
    ensures i.runsBatter <= 6 && i.runsBatter != 5 && i.extras <= 1
    ensures i.extras == 1 <==> i.extraType != NoExtra
    ensures i.isWicket ==> IsLegalType(i.extraType) && i.runsBatter == 0 && i.extras == 0
    ensures i.isWicket <==> i.wicketType.Some?
  {
    PanelDomain(i);
  }
}
