/**
 * The game controller: the counter, the visible state of every widget the
 * game touches, the binding of the primary button and the single audio
 * handle, with the transitions that the button handlers perform.
 */
module Game {
  import opened Wrappers
  import Decimal
  import opened Resources
  import opened Audio

  /** Java's `int`. */
  newtype int32 = x: int | -0x8000_0000 <= x < 0x8000_0000

  const MaxInt32: int32 := 0x7fff_ffff
  const MinInt32: int32 := -0x8000_0000

  /** Java's `++` on an `int`: wraps from the largest value to the smallest. */
  function Inc32(x: int32): int32 {
    if x == MaxInt32 then MinInt32 else x + 1
  }

  /** The last number that is counted; the counter reaches `LastNumber + 1` at completion. */
  const LastNumber: int32 := 10
  const Complete: int32 := LastNumber + 1

  /** Button styles: neutral while counting, green for replay, blue for exit. */
  datatype Style = Base | Green | Blue

  /** Which handler the primary button runs when clicked. */
  datatype Action = Advance | Replay

  const CountLabel := "Click to Count"
  const ReplayLabel := "Play Again"
  const StatusPrefix := "This is number "
  const BackgroundName := "bluesparklesbackground.png"

  function StatusText(number: int): string {
    StatusPrefix + Decimal.IntToString(number)
  }

  function ImageName(number: int): string {
    Decimal.IntToString(number) + ".png"
  }

  /**
   * Everything the controller reads or writes. `image` is the picture in the
   * number view; the "GOOD JOB !" label and the "Let's Play Again:" prompt are
   * represented by their visibility, since their texts never change.
   */
  datatype GameState = GameState(
    current: int32,
    background: Option<Image>,
    image: Option<Image>,
    statusVisible: bool,
    statusText: string,
    goodJobVisible: bool,
    promptVisible: bool,
    primaryLabel: string,
    primaryStyle: Style,
    primaryAction: Action,
    exitStyle: Style,
    exitVisible: bool,
    audio: Option<Handle>)

  /** A transition's resulting state and the audio ownership events it performed. */
  datatype Step = Step(state: GameState, ops: seq<AudioOp>)

  /** The counting display for `number`. */
  predicate ShowsNumber(g: GameState, number: int32, existing: set<string>) {
    && g.image == LoadImage(existing, ImageName(number as int))
    && g.statusVisible
    && g.statusText == StatusText(number as int)
    && !g.goodJobVisible
    && !g.promptVisible
    && g.primaryStyle == Base
  }

  /** The completion display: no number, congratulations and prompt shown, button repurposed. */
  predicate ShowsCompletion(g: GameState) {
    && g.image.None?
    && !g.statusVisible
    && g.goodJobVisible
    && g.promptVisible
    && g.primaryLabel == ReplayLabel
    && g.primaryStyle == Green
    && g.primaryAction == Replay
    && g.exitVisible
  }

  /** The number whose media belongs to counter value `c`: at completion, still the last one. */
  function Shown(c: int32): int32 {
    if c <= LastNumber then c else LastNumber
  }

  /**
   * The invariant of every reachable state: the counter stays in [1, 11], and
   * every widget and the audio handle agree with it.
   */
  predicate Inv(g: GameState, existing: set<string>) {
    && 1 <= g.current <= Complete
    && g.background == LoadImage(existing, BackgroundName)
    && g.image == (if g.current <= LastNumber then LoadImage(existing, ImageName(g.current as int)) else None)
    && (g.statusVisible <==> g.current <= LastNumber)
    && g.statusText == StatusText(Shown(g.current) as int)
    && (g.goodJobVisible <==> g.current == Complete)
    && (g.promptVisible <==> g.current == Complete)
    && (g.primaryAction == Replay <==> g.current == Complete)
    && g.primaryLabel == (if g.current == Complete then ReplayLabel else CountLabel)
    && g.primaryStyle == (if g.current == Complete then Green else Base)
    && g.exitStyle == Blue
    && g.exitVisible
    && (g.audio.Some? ==> FindOnClasspath(existing, SoundName(Shown(g.current) as int)) == Some(g.audio.value.source))
  }

  /** The widgets as the application builds them, before the first number is shown. */
  function Built(existing: set<string>): GameState {
    GameState(1, LoadImage(existing, BackgroundName), None, true, "", false, false,
              CountLabel, Base, Advance, Blue, true, None)
  }

  /**
   * Shows `number`: its image (or none when it does not resolve), the status
   * line, completion labels hidden, button style reset, and its sound. The
   * button's label and handler are left as they are.
   */
  function ShowNumber(g: GameState, number: int32, existing: set<string>, outcome: MediaOutcome): (r: Step)
    ensures ShowsNumber(r.state, number, existing)
    ensures r.state.image.Some? <==> FindOnClasspath(existing, ImageName(number as int)).Some?
    ensures r.state.current == g.current && r.state.background == g.background
    ensures r.state.primaryLabel == g.primaryLabel && r.state.primaryAction == g.primaryAction
    ensures r.state.exitStyle == g.exitStyle && r.state.exitVisible == g.exitVisible
    ensures PlayedSound(g.audio, r.ops, r.state.audio, existing, number as int, outcome)
  {
    var sound := PlaySound(g.audio, existing, number as int, outcome);
    var shown := g.(image := LoadImage(existing, ImageName(number as int)),
                    statusVisible := true,
                    statusText := StatusText(number as int),
                    goodJobVisible := false,
                    promptVisible := false,
                    primaryStyle := Base,
                    audio := sound.live);
    Step(shown, sound.ops)
  }

  /** The Advance handler: count one up, or enter the completion display after the last number. */
  function ShowNext(g: GameState, existing: set<string>, outcome: MediaOutcome): (r: Step)
    ensures Disciplined(g.audio, r.ops, r.state.audio)
    ensures 1 <= g.current < LastNumber ==>
      && r.state.current as int == g.current as int + 1
      && ShowsNumber(r.state, r.state.current, existing)
      && (r.state.image.Some? <==> FindOnClasspath(existing, ImageName(g.current as int + 1)).Some?)
      && r.state.primaryLabel == g.primaryLabel
      && r.state.primaryAction == g.primaryAction
      && PlayedSound(g.audio, r.ops, r.state.audio, existing, g.current as int + 1, outcome)
    ensures g.current == LastNumber ==>
      && r.state.current == Complete
      && ShowsCompletion(r.state)
      && r.state.audio == g.audio
      && r.ops == []
      && r.state.statusText == g.statusText
      && r.state.background == g.background
    ensures g.current == MaxInt32 ==> r.state.current == MinInt32
  {
    var next := Inc32(g.current);
    var g' := g.(current := next);
    if next <= LastNumber then
      ShowNumber(g', next, existing, outcome)
    else
      var done := g'.(image := None,
                      statusVisible := false,
                      goodJobVisible := true,
                      promptVisible := true,
                      primaryLabel := ReplayLabel,
                      primaryStyle := Green,
                      primaryAction := Replay,
                      exitVisible := true);
      Step(done, [])
  }

  /** The Replay handler: back to 1 with the button restored to counting. */
  function Restart(g: GameState, existing: set<string>, outcome: MediaOutcome): (r: Step)
    ensures r.state.current == 1
    ensures ShowsNumber(r.state, 1, existing)
    ensures r.state.primaryLabel == CountLabel && r.state.primaryAction == Advance
    ensures PlayedSound(g.audio, r.ops, r.state.audio, existing, 1, outcome)
  {
    var reset := g.(current := 1,
                    goodJobVisible := false,
                    promptVisible := false,
                    primaryLabel := CountLabel,
                    primaryStyle := Base,
                    primaryAction := Advance,
                    statusVisible := true);
    ShowNumber(reset, 1, existing, outcome)
  }

  /** Application start: build the widgets, then show number 1. */
  function Start(existing: set<string>, outcome: MediaOutcome): (r: Step)
    ensures Inv(r.state, existing)
    ensures r.state.current == 1
    ensures ShowsNumber(r.state, 1, existing)
    ensures r.state.primaryLabel == CountLabel && r.state.primaryAction == Advance
    ensures PlayedSound(None, r.ops, r.state.audio, existing, 1, outcome)
  {
    ShowNumber(Built(existing), 1, existing, outcome)
  }

  /** The exit and close-request handlers: stop and dispose the player if there is one. */
  function Shutdown(g: GameState): (r: Step)
    ensures r.state.audio.None?
    ensures r.state == g.(audio := None)
    ensures Disciplined(g.audio, r.ops, r.state.audio)
    ensures Releases(r.ops) == (if g.audio.Some? then 1 else 0)
    ensures g.audio.None? ==> r.ops == []
  {
    var released := ReleaseAudio(g.audio);
    Step(g.(audio := released.live), released.ops)
  }

  /** Advancing while the button is bound to Advance keeps the invariant. */
  lemma ShowNextPreservesInv(g: GameState, existing: set<string>, outcome: MediaOutcome)
    requires Inv(g, existing)
    requires g.primaryAction == Advance
    ensures Inv(ShowNext(g, existing, outcome).state, existing)
  {
  }

  /** Replaying from any reachable state keeps the invariant. */
  lemma RestartPreservesInv(g: GameState, existing: set<string>, outcome: MediaOutcome)
    requires Inv(g, existing)
    ensures Inv(Restart(g, existing, outcome).state, existing)
  {
  }

  /** Shutting down keeps the display as it was. */
  lemma ShutdownPreservesInv(g: GameState, existing: set<string>)
    requires Inv(g, existing)
    ensures Inv(Shutdown(g).state, existing)
  {
  }

  /** Replay brings back exactly the display the game starts with. */
  lemma RestartIsStart(g: GameState, existing: set<string>, outcome: MediaOutcome)
    requires Inv(g, existing)
    ensures Restart(g, existing, outcome).state == Start(existing, outcome).state
  {
  }

  /**
   * The presentation is derived: two reachable states with the same counter and
   * the same audio handle are the same state.
   */
  lemma PresentationIsDerived(g1: GameState, g2: GameState, existing: set<string>)
    requires Inv(g1, existing) && Inv(g2, existing)
    requires g1.current == g2.current && g1.audio == g2.audio
    ensures g1 == g2
  {
  }

  /** The status line names the number it shows, and different numbers give different lines. */
  lemma StatusTextNamesNumber(m: int, n: int)
    ensures StatusText(m) == StatusText(n) <==> m == n
    ensures |StatusText(n)| > |StatusPrefix| && StatusText(n)[..|StatusPrefix|] == StatusPrefix
    ensures Decimal.ParseInt(StatusText(n)[|StatusPrefix|..]) == Some(n)
  {
    assert StatusText(n)[|StatusPrefix|..] == Decimal.IntToString(n);
    assert StatusText(m)[|StatusPrefix|..] == Decimal.IntToString(m);
    Decimal.ParseIntToString(n);
    Decimal.IntToStringInjective(m, n);
  }
}
