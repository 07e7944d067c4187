/**
 * The game as the user drives it: clicks on the primary button run whichever
 * handler it is bound to, the exit button and the window's close gesture
 * release the audio and end the session.
 */
module Session {
  import opened Wrappers
  import opened Audio
  import opened Game

  /** User input. A click on the primary button carries the media library's answer to the sound it plays. */
  datatype Event = PrimaryClick(outcome: MediaOutcome) | ExitClick | CloseRequest

  /** A running game, or one that has been shut down (the process is gone). */
  datatype Session = Running(game: GameState) | Ended(game: GameState)

  datatype Transition = Transition(session: Session, ops: seq<AudioOp>)

  predicate SessionInv(s: Session, existing: set<string>) {
    Inv(s.game, existing) && (s.Ended? ==> s.game.audio.None?)
  }

  /** One event. An ended session receives no more events. */
  function Dispatch(s: Session, ev: Event, existing: set<string>): (r: Transition)
    ensures Disciplined(s.game.audio, r.ops, r.session.game.audio)
    ensures s.Ended? ==> r == Transition(s, [])
    ensures s.Running? && !ev.PrimaryClick? ==>
      && r.session == Ended(s.game.(audio := None))
      && r.ops == (if s.game.audio.Some? then [Release(s.game.audio.value)] else [])
    ensures s.Running? && ev.PrimaryClick? ==> r.session.Running?
    ensures Releases(r.ops) <= 1
  {
    match s
    case Ended(_) => Transition(s, [])
    case Running(g) =>
      match ev
      case PrimaryClick(outcome) =>
        var step := match g.primaryAction
          case Advance => ShowNext(g, existing, outcome)
          case Replay => Restart(g, existing, outcome);
        Transition(Running(step.state), step.ops)
      case ExitClick =>
        var step := Shutdown(g);
        Transition(Ended(step.state), step.ops)
      case CloseRequest =>
        var step := Shutdown(g);
        Transition(Ended(step.state), step.ops)
  }

  /** A sequence of events, one after the other; the audio events are concatenated. */
  function Run(s: Session, evs: seq<Event>, existing: set<string>): Transition
    decreases |evs|
  {
    if |evs| == 0 then Transition(s, [])
    else
      var first := Dispatch(s, evs[0], existing);
      var rest := Run(first.session, evs[1..], existing);
      Transition(rest.session, first.ops + rest.ops)
  }

  /** `|outcomes|` clicks on the primary button. */
  function Clicks(outcomes: seq<MediaOutcome>): seq<Event> {
    seq(|outcomes|, i requires 0 <= i < |outcomes| => PrimaryClick(outcomes[i]))
  }

  /**
   * In the completion display a click on the primary button is a replay, never an
   * advance: it returns to the start display.
   */
  lemma ClickAtCompletionReplays(g: GameState, outcome: MediaOutcome, existing: set<string>)
    requires Inv(g, existing)
    requires g.current == Complete
    ensures Dispatch(Running(g), PrimaryClick(outcome), existing).session == Running(Start(existing, outcome).state)
  {
    RestartIsStart(g, existing, outcome);
  }

  /** Every event keeps the invariant. */
  lemma DispatchPreservesInv(s: Session, ev: Event, existing: set<string>)
    requires SessionInv(s, existing)
    ensures SessionInv(Dispatch(s, ev, existing).session, existing)
  {
    match s
    case Ended(_) =>
    case Running(g) =>
      match ev
      case PrimaryClick(outcome) =>
        if g.primaryAction == Advance {
          ShowNextPreservesInv(g, existing, outcome);
        } else {
          RestartPreservesInv(g, existing, outcome);
        }
      case ExitClick => ShutdownPreservesInv(g, existing);
      case CloseRequest => ShutdownPreservesInv(g, existing);
  }

  /** Any sequence of events keeps the invariant. */
  lemma {:induction false} RunPreservesInv(s: Session, evs: seq<Event>, existing: set<string>)
    requires SessionInv(s, existing)
    ensures SessionInv(Run(s, evs, existing).session, existing)
    decreases |evs|
  {
    if |evs| > 0 {
      DispatchPreservesInv(s, evs[0], existing);
      RunPreservesInv(Dispatch(s, evs[0], existing).session, evs[1..], existing);
    }
  }

  /** Over any sequence of events the audio handle is owned by at most one player at a time. */
  lemma {:induction false} RunDisciplined(s: Session, evs: seq<Event>, existing: set<string>)
    ensures Disciplined(s.game.audio, Run(s, evs, existing).ops, Run(s, evs, existing).session.game.audio)
    decreases |evs|
  {
    if |evs| > 0 {
      var first := Dispatch(s, evs[0], existing);
      var rest := Run(first.session, evs[1..], existing);
      RunDisciplined(first.session, evs[1..], existing);
      DisciplinedAppend(s.game.audio, first.ops, first.session.game.audio, rest.ops, rest.session.game.audio);
    }
  }

  /** `k` clicks from a counting state with room for them count `k` up. */
  lemma {:induction false} ClicksCountUp(g: GameState, outcomes: seq<MediaOutcome>, existing: set<string>)
    requires Inv(g, existing)
    requires g.current as int + |outcomes| <= Complete as int
    ensures Run(Running(g), Clicks(outcomes), existing).session.Running?
    ensures Run(Running(g), Clicks(outcomes), existing).session.game.current as int == g.current as int + |outcomes|
    decreases |outcomes|
  {
    if |outcomes| > 0 {
      var evs := Clicks(outcomes);
      assert g.primaryAction == Advance;
      var first := Dispatch(Running(g), evs[0], existing);
      ShowNextPreservesInv(g, existing, outcomes[0]);
      assert evs[1..] == Clicks(outcomes[1..]);
      ClicksCountUp(first.session.game, outcomes[1..], existing);
    }
  }

  /**
   * The whole round: nine clicks after start show number 10, the tenth shows the
   * completion display, and one more click is a replay back to the start display.
   */
  lemma PlayThrough(start: MediaOutcome, outcomes: seq<MediaOutcome>, replay: MediaOutcome, existing: set<string>)
    requires |outcomes| == 10
    ensures var s9 := Run(Running(Start(existing, start).state), Clicks(outcomes[..9]), existing).session;
      && s9.Running? && s9.game.current == 10
      && ShowsNumber(s9.game, 10, existing)
      && s9.game.statusText == "This is number 10"
    ensures var s10 := Run(Running(Start(existing, start).state), Clicks(outcomes), existing).session;
      && s10.Running? && s10.game.current == Complete
      && ShowsCompletion(s10.game)
      && Dispatch(s10, PrimaryClick(replay), existing).session == Running(Start(existing, replay).state)
  {
    var g0 := Start(existing, start).state;
    ClicksCountUp(g0, outcomes[..9], existing);
    ClicksCountUp(g0, outcomes, existing);
    RunPreservesInv(Running(g0), Clicks(outcomes[..9]), existing);
    RunPreservesInv(Running(g0), Clicks(outcomes), existing);
    var s10 := Run(Running(g0), Clicks(outcomes), existing).session;
    RestartIsStart(s10.game, existing, replay);
    assert Decimal.NatToString(10) == Decimal.NatToString(1) + [Decimal.DigitChar(0)];
  }
}
