/**
 * The single audio handle and its ownership discipline. A handle is acquired
 * only when none is live and released only while it is the live one, so at
 * most one handle is ever live. Playback itself happens in the media library;
 * whether it succeeds is an input (`MediaOutcome`).
 */
module Audio {
  import opened Wrappers
  import Decimal
  import Resources

  /** What the media library does with a resolved sound. */
  datatype MediaOutcome =
    | Plays              // the player is created and starts
    | ConstructionFails  // creating the media or the player throws: no player exists
    | PlayFails          // the player exists but starting it throws

  /** A media player: the classpath path it was opened on and whether it started playing. */
  datatype Handle = Handle(source: string, playing: bool)

  /** The ownership events: stop-and-dispose of a player, creation of a player. */
  datatype AudioOp = Release(h: Handle) | Acquire(h: Handle)

  /** The live handle after an operation, and the ownership events it performed. */
  datatype AudioStep = AudioStep(live: Option<Handle>, ops: seq<AudioOp>)

  /**
   * Replaying `ops` from the live handle `before` respects single ownership
   * (release only the live handle, acquire only when none is live) and ends in `after`.
   */
  predicate Disciplined(before: Option<Handle>, ops: seq<AudioOp>, after: Option<Handle>)
    decreases |ops|
  {
    if |ops| == 0 then before == after
    else match ops[0]
      case Release(h) => before == Some(h) && Disciplined(None, ops[1..], after)
      case Acquire(h) => before == None && Disciplined(Some(h), ops[1..], after)
  }

  /** Number of releases in `ops`. */
  function Releases(ops: seq<AudioOp>): nat
    decreases |ops|
  {
    if |ops| == 0 then 0
    else (if ops[0].Release? then 1 else 0) + Releases(ops[1..])
  }

  /** The logical name of the sound for `number`. */
  function SoundName(number: int): string {
    Decimal.IntToString(number) + ".mp3"
  }

  /** Stops and disposes the live player, if any, leaving none. */
  function ReleaseAudio(live: Option<Handle>): (r: AudioStep)
    ensures r.live.None?
    ensures Disciplined(live, r.ops, r.live)
    ensures Releases(r.ops) == (if live.Some? then 1 else 0)
    ensures live.None? ==> r.ops == []
  {
    match live
    case None => AudioStep(None, [])
    case Some(h) => AudioStep(None, [Release(h)])
  }

  /**
   * What playing the clip for `number` does to the handle: the live handle, if
   * any, is released first and exactly once, ownership is respected throughout,
   * and afterwards a handle is held exactly when `number.mp3` resolves and the
   * player could be created; that handle is opened on the resolved path and is
   * playing exactly when starting it did not throw.
   */
  predicate PlayedSound(before: Option<Handle>, ops: seq<AudioOp>, after: Option<Handle>,
                        existing: set<string>, number: int, outcome: MediaOutcome)
  {
    && Disciplined(before, ops, after)
    && (before.Some? ==> |ops| > 0 && ops[0] == Release(before.value))
    && Releases(ops) == (if before.Some? then 1 else 0)
    && (after.Some? <==> Resources.FindOnClasspath(existing, SoundName(number)).Some? && outcome != ConstructionFails)
    && (after.Some? ==> after.value.source == Resources.FindOnClasspath(existing, SoundName(number)).value)
    && (after.Some? ==> (after.value.playing <==> outcome == Plays))
  }

  /**
   * Plays the clip for `number`: the previous player is released first, always;
   * then a new player is created on the resolved path unless the name does not
   * resolve or creation throws.
   */
  function PlaySound(live: Option<Handle>, existing: set<string>, number: int, outcome: MediaOutcome): (r: AudioStep)
    ensures PlayedSound(live, r.ops, r.live, existing, number, outcome)
  {
    var released := ReleaseAudio(live);
    match Resources.FindOnClasspath(existing, SoundName(number))
    case None => released
    case Some(url) =>
      if outcome == ConstructionFails then released
      else
        var h := Handle(url, outcome == Plays);
        AudioStep(Some(h), released.ops + [Acquire(h)])
  }

  /** Ownership steps compose: a disciplined run followed by a disciplined run is disciplined. */
  lemma {:induction false} DisciplinedAppend(a: Option<Handle>, ops1: seq<AudioOp>, b: Option<Handle>,
                                             ops2: seq<AudioOp>, c: Option<Handle>)
    requires Disciplined(a, ops1, b)
    requires Disciplined(b, ops2, c)
    ensures Disciplined(a, ops1 + ops2, c)
    ensures Releases(ops1 + ops2) == Releases(ops1) + Releases(ops2)
    decreases |ops1|
  {
    if |ops1| == 0 {
      assert ops1 + ops2 == ops2;
    } else {
      assert (ops1 + ops2)[1..] == ops1[1..] + ops2;
      match ops1[0]
      case Release(h) => DisciplinedAppend(None, ops1[1..], b, ops2, c);
      case Acquire(h) => DisciplinedAppend(Some(h), ops1[1..], b, ops2, c);
    }
  }
}
