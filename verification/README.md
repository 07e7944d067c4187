# Counting game — Dafny model

A model of the logic inside the single-screen JavaFX "Toddler Counting Game"
(`src/countinggame/CountingGame.java`): the child clicks "Click to Count" to
step through the numbers 1 to 10, each shown with its picture and sound; after
10 the screen shows "GOOD JOB !", a "Let's Play Again:" prompt and a green
"Play Again" button, which starts over at 1. An "Exit Game" button and the
window's close gesture stop the sound and end the game.

Two pieces are modelled:

- **The asset resolver** (`resources.dfy`, module `Resources`). A logical file
  name is looked up under the four classpath prefixes `/countinggame/resources/`,
  `/countinggame/`, `/resources/` and `/`, in that order; the first path that
  exists wins, and a name that exists nowhere is "not found" (Java `null`).
  Which paths exist is a parameter, a `set<string>`. `Resolve` is the pure
  first-match search over any list of prefixes, `FindOnClasspath` is that search
  over the game's prefixes (its contract spells out the four-way cascade), and
  `SearchClasspath` is `CountingGame.findOnClasspath`'s loop with early return, proved equal to it.
- **The game controller** (`game.dfy`, module `Game`; `audio.dfy`, module
  `Audio`; `session.dfy`, module `Session`). `GameState` holds the counter, the
  background and number images, the status line's visibility and text, the
  visibility of the congratulation and prompt labels, the primary button's
  label, style and bound handler (`Advance` or `Replay`), the exit button's
  style and visibility, and the single audio handle. `ShowNumber`, `ShowNext`,
  `Restart`, `Start` and `Shutdown` are `CountingGame`'s handlers as pure functions
  returning the new state and the audio ownership events (`Release`, `Acquire`)
  they performed. `Session.Dispatch` runs an event: a click on the primary
  button runs whichever handler is bound to it, the exit click and the close
  request release the audio and end the session.

The invariant `Game.Inv` holds in every reachable state: the counter stays in
[1, 11]; "GOOD JOB !" visible, prompt visible, counter = 11 and the button bound
to Replay are all equivalent; the status line is visible exactly while the
counter is at most 10; every widget agrees with the counter; and any audio
handle was opened on the resolved sound of the number last shown. The audio
discipline `Audio.Disciplined` says that, replayed in order, the ownership
events release only the live handle and acquire only when none is live, so at
most one handle is ever live.

The media library's behaviour is an input: `MediaOutcome` says whether creating
the player throws (no handle), starting it throws (the handle exists but is not
playing: `CountingGame.playSound` assigns the player before calling `play()`), or it plays.

The counter is Java's `int`, modelled as `Game.int32` with `++` wrapping from
the largest to the smallest value; under the invariant the wrap never happens.

Behaviour worth noting:
- showing a number resets only the button's style; its label and handler are
  restored only by the replay handler (they are already right in every
  reachable state, which `Game.Inv` proves);
- at completion the status line is hidden but keeps its text, "This is number 10";
- the window close handler only releases the audio; the window then closes and
  the platform ends the application, which the model records as the session
  ending, the same as the exit button.

## Model

| member | source | states |
|---|---|---|
| Resources.Resolve | src/countinggame/CountingGame.java:394-400 | Not-found exactly when no prefix followed by the name exists; otherwise the result is `base + name` for the first prefix whose path exists, and no earlier prefix has a match. |
| Resources.FindOnClasspath | src/countinggame/CountingGame.java:91-96 | The game's lookup tries `/countinggame/resources/`, `/countinggame/`, `/resources/`, `/` in that order and returns the first existing `prefix + name`, or not-found when none exists. |
| Resources.SearchClasspath | src/countinggame/CountingGame.java:394-400 | The loop with early return computes the same answer as the first-match search: not-found exactly when all four paths are missing, otherwise the first existing one. |
| Resources.LoadImage | src/countinggame/CountingGame.java:381-385 | There is no image exactly when the name does not resolve; otherwise the image is loaded from the resolved path. |
| Resources.FirstMatchUnique | src/countinggame/CountingGame.java:395-397 | The position of the first match is unique. |
| Resources.ResolvePrefersEarlier | src/countinggame/CountingGame.java:395-398 | If the name exists under some prefix, resolution succeeds and answers from that prefix or an earlier one. |
| Resources.SecondBaseBeatsThird | src/countinggame/CountingGame.java:91-96 | A name present under both `/countinggame/` and `/resources/` (and not under the first prefix) resolves to the `/countinggame/` copy. |
| Decimal.ParseNatToString | src/countinggame/CountingGame.java:252 | The digits produced for a number parse back to that number. |
| Decimal.ParseIntToString | src/countinggame/CountingGame.java:252 | Java's decimal rendering of an `int`, minus sign included, parses back to the same number. |
| Decimal.IntToStringInjective | src/countinggame/CountingGame.java:242 | Two numbers render to the same text exactly when they are equal, so each number has its own `n.png` and `n.mp3`. |
| Audio.ReleaseAudio | src/countinggame/CountingGame.java:272-276 | Afterwards no handle is live; the live handle, if any, is released exactly once, and nothing happens when none is live. |
| Audio.PlaySound | src/countinggame/CountingGame.java:271-291 | Any previous handle is released first and exactly once; a handle is held afterwards exactly when `n.mp3` resolves and creating the player does not throw; it is opened on the resolved path and is playing exactly when starting did not throw. |
| Audio.DisciplinedAppend | src/countinggame/CountingGame.java:123-127 | Ownership-respecting event sequences compose, and their release counts add up. |
| Game.ShowNumber | src/countinggame/CountingGame.java:241-261 | Shows `n`: image exactly when `n.png` resolves, status visible with "This is number " and `n`, completion labels hidden, button style reset while its label and handler stay as they were; the prior handle is released first and exactly once, and a handle is held afterwards exactly when `n.mp3` resolves and the player is created, opened on the resolved path and playing exactly when starting it did not throw. |
| Game.ShowNext | src/countinggame/CountingGame.java:325-343 | From 1..9 the counter goes up by one and shows the new number, releasing the prior handle exactly once and playing `(n+1).mp3` (a handle exactly when it resolves and the player is created); from 10 it reaches 11 with image cleared, status hidden, "GOOD JOB !" and prompt shown, button "Play Again", green, bound to Replay, exit visible, audio handle and status text untouched; at the `int` maximum the counter wraps. |
| Game.Restart | src/countinggame/CountingGame.java:356-368 | Counter 1, showing number 1 with completion labels hidden, button labelled "Click to Count", base style, bound to Advance; the prior handle is released first and exactly once, and `1.mp3` is played (a handle exactly when it resolves and the player is created). |
| Game.Start | src/countinggame/CountingGame.java:142-220 | The first display satisfies the invariant, shows number 1 with "This is number 1", button "Click to Count" bound to Advance, releases nothing, and plays `1.mp3` (a handle exactly when it resolves and the player is created). |
| Game.Shutdown | src/countinggame/CountingGame.java:144-150 | Afterwards no handle is live and nothing else changes; the live handle is released exactly once and nothing is released when none is live. |
| Game.ShowNextPreservesInv | src/countinggame/CountingGame.java:325-342 | An advance from a reachable state bound to Advance keeps the invariant. |
| Game.RestartPreservesInv | src/countinggame/CountingGame.java:356-367 | A replay from a reachable state keeps the invariant. |
| Game.ShutdownPreservesInv | src/countinggame/CountingGame.java:191-197 | Releasing the audio keeps the invariant. |
| Game.RestartIsStart | src/countinggame/CountingGame.java:356-367 | Replay from any reachable state yields exactly the start display. |
| Game.PresentationIsDerived | src/countinggame/CountingGame.java:102-127 | In reachable states every widget is determined by the counter: two states with the same counter and audio handle are equal. |
| Game.StatusTextNamesNumber | src/countinggame/CountingGame.java:252 | The status line is "This is number " followed by text that parses back to the number, and different numbers give different lines. |
| Session.Dispatch | src/countinggame/CountingGame.java:182-198 | Every event respects single ownership of the audio handle and releases at most once; a primary click keeps the game running; the exit click and the close request release the live handle (if any) and end the session with nothing else changed; an ended session ignores events. |
| Session.ClickAtCompletionReplays | src/countinggame/CountingGame.java:336-338 | At completion a primary click is a replay, never an advance: it returns to the start display. |
| Session.DispatchPreservesInv | src/countinggame/CountingGame.java:325-367 | Every event keeps the invariant, and an ended session holds no audio handle. |
| Session.RunPreservesInv | src/countinggame/CountingGame.java:325-367 | Any sequence of events keeps the invariant. |
| Session.RunDisciplined | src/countinggame/CountingGame.java:271-276 | Over any sequence of events, handles are released only while live and acquired only when none is live, so at most one handle is live at any time. |
| Session.ClicksCountUp | src/countinggame/CountingGame.java:325-328 | `k` clicks from a reachable state with counter `c` and `c + k <= 11` leave the game running with counter `c + k`. |
| Session.PlayThrough | src/countinggame/CountingGame.java:219-220 | From the start, nine clicks show number 10 with "This is number 10"; the tenth shows the completion display; one more click returns to the start display. |

## Left out

- The twirl animation (rotate and scale over one second): timing and floating point, with no effect on the state.
- Widget construction, layout coordinates, fonts and the CSS strings: styles are the enum `Style` and visibility is a boolean.
- The class loader's `getResource` and the construction of `Image`, `Media` and `MediaPlayer`: resource existence is a set of paths, and the media library's result is the input `MediaOutcome`.
- Audio playback itself: a handle records only the path it was opened on and whether starting it succeeded.
- `System.out` diagnostics for missing images and sounds and for playback failures: output only.
- `System.exit` and the platform closing the window: both are the session becoming `Ended`.
- `main` and `launch`: framework start-up.
- Game.ShowNext: the contract covers counter values 1 to 10 and the `int` maximum; for other values (unreachable, as `Game.Inv` shows) it states only the audio discipline.
