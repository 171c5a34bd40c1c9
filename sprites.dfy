/**
 * The animated sprite: a frame clock over a `states x frames` sprite sheet,
 * one-shot completion detection, and a finite train of colour flashes.
 *
 * SpriteState is the sprite's state as a value, with one pure function per
 * operation; class Sprite updates the same fields in place and is proved to
 * agree with those functions. The projectile pool keeps its sprites as values
 * and uses the functions directly.
 */
module Sprites {
  import opened TimeSpans
  import opened Xna

  /** The sprite-sheet descriptor the sprite is built from. */
  datatype SpriteData = SpriteData(
    frameWidth: int, frameHeight: int,
    numFrames: int, numStates: int,
    animationRate: int,
    defaultScale: real)

  datatype SpriteState = SpriteState(
    framesPerAnimation: int, numStates: int, animationInterval: int, defaultScale: real,
    timeTillNext: int, animating: bool, animationOver: bool,
    currentFrame: int, currentState: int,
    scale: real, angle: real, shade: Color,
    flashColor: Color, flashCounter: int, currentFlashTime: int, halfFlashTime: int)
  {
    /** A sheet with at least one frame and one state, and a frame index inside it. */
    ghost predicate Valid()
    {
      framesPerAnimation > 0 && numStates > 0 && 0 <= currentFrame < framesPerAnimation
    }

    predicate OnLastFrame()
    {
      currentFrame == framesPerAnimation - 1
    }
  }

  /** The state a freshly constructed sprite is in. */
  function Created(data: SpriteData): (s: SpriteState)
    requires data.numFrames > 0 && data.numStates > 0
    ensures s.Valid()
    ensures s.currentFrame == 0 && s.currentState == 0 && s.timeTillNext == s.animationInterval
    ensures !s.animating && !s.animationOver && s.flashCounter == 0 && s.shade == White
    ensures s.framesPerAnimation == data.numFrames && s.numStates == data.numStates
    ensures s.animationInterval == data.animationRate && s.defaultScale == data.defaultScale
    ensures s.scale == data.defaultScale && s.angle == 0.0
  {
    SpriteState(
      data.numFrames, data.numStates, data.animationRate, data.defaultScale,
      data.animationRate, false, false,
      0, 0,
      data.defaultScale, 0.0, White,
      Transparent, 0, 0, 0)
  }

  /** Reset: the idle pose a pooled sprite is reused from. */
  function AfterReset(s: SpriteState): (r: SpriteState)
    requires s.Valid()
    ensures r.Valid()
    ensures r.currentFrame == 0 && r.currentState == 0 && r.timeTillNext == s.animationInterval
    ensures r.angle == 0.0 && r.scale == s.defaultScale && r.shade == White && r.flashCounter == 0
    ensures r.animating == s.animating && r.animationOver == s.animationOver
    ensures r.flashColor == s.flashColor && r.currentFlashTime == s.currentFlashTime
    ensures r.halfFlashTime == s.halfFlashTime
    ensures r.framesPerAnimation == s.framesPerAnimation && r.numStates == s.numStates
    ensures r.animationInterval == s.animationInterval && r.defaultScale == s.defaultScale
  {
    s.(timeTillNext := s.animationInterval, currentState := 0, currentFrame := 0,
       shade := White, angle := 0.0, scale := s.defaultScale, flashCounter := 0)
  }

  /** The frame-clock half of Update: count down, detect completion, advance. */
  function Clocked(s: SpriteState, elapsed: int): (r: SpriteState)
    requires s.Valid()
    ensures r.Valid()
  {
    var t := s.timeTillNext - elapsed;
    var over := s.animationOver || (s.animating && t <= 0 && s.OnLastFrame());
    if t < 0 then
      s.(animationOver := over, timeTillNext := s.animationInterval,
         currentFrame := Rem(s.currentFrame + 1, s.framesPerAnimation))
    else
      s.(animationOver := over, timeTillNext := t)
  }

  /** The flash half of Update. */
  function Flashing(s: SpriteState, elapsed: int): SpriteState
  {
    if s.flashCounter <= 0 then s
    else
      var t := s.currentFlashTime + elapsed;
      if t < s.halfFlashTime then
        s.(shade := Lerp(White, s.flashColor, t, s.halfFlashTime), currentFlashTime := t + elapsed)
      else if t >= s.halfFlashTime + s.halfFlashTime then
        s.(currentFlashTime := 0, flashCounter := s.flashCounter - 1,
           shade := if s.flashCounter - 1 == 0 then White else s.shade)
      else
        s.(shade := Lerp(s.flashColor, White, t - s.halfFlashTime, s.halfFlashTime), currentFlashTime := t)
  }

  /** Update(elapsed): the frame clock, then the flash. */
  function Updated(s: SpriteState, elapsed: int): (r: SpriteState)
    requires s.Valid()
    ensures r.Valid()
  {
    Flashing(Clocked(s, elapsed), elapsed)
  }

  /** PlayAnimation(animationNumber). */
  function Played(s: SpriteState, animationNumber: int): (r: SpriteState)
    requires s.Valid()
    ensures r.Valid()
    ensures r.animating && !r.animationOver && r.currentFrame == 0
    ensures 0 <= animationNumber ==> 0 <= r.currentState < s.numStates
    ensures animationNumber < 0 ==> r.currentState <= 0
    ensures r.timeTillNext == s.timeTillNext
    ensures r.currentState == Rem(animationNumber, s.numStates)
    ensures r == s.(animating := true, animationOver := false, currentState := r.currentState, currentFrame := 0)
  {
    s.(animating := true, animationOver := false,
       currentState := Rem(animationNumber, s.numStates), currentFrame := 0)
  }

  /** Flash(color, timePerFlash, numFlashes). */
  function Flashed(s: SpriteState, color: Color, timePerFlash: int, numFlashes: int): (r: SpriteState)
    requires s.Valid()
    ensures r.Valid()
    ensures r.flashColor == color && r.flashCounter == numFlashes && r.currentFlashTime == 0
    ensures -5000.0 <= r.halfFlashTime as real - timePerFlash as real / 2.0 <= 5000.0
    ensures r == s.(flashColor := color, flashCounter := numFlashes, currentFlashTime := 0, halfFlashTime := r.halfFlashTime)
  {
    s.(flashColor := color, flashCounter := numFlashes, currentFlashTime := 0,
       halfFlashTime := FromSeconds(Seconds(timePerFlash) / 2.0))
  }

  /** The state after a run of updates. */
  function UpdatedAll(s: SpriteState, elapsed: seq<int>): (r: SpriteState)
    requires s.Valid()
    ensures r.Valid()
    decreases |elapsed|
  {
    if elapsed == [] then s else UpdatedAll(Updated(s, elapsed[0]), elapsed[1..])
  }

  // ---------------------------------------------------------------------------
  // Frame clock

  /**
   * The countdown loses `elapsed`; only a strictly negative result moves to the
   * next frame (wrapping after the last) and restarts the countdown.
   */
  lemma UpdateAdvance(s: SpriteState, elapsed: int)
    requires s.Valid()
    ensures var r := Updated(s, elapsed);
      var t := s.timeTillNext - elapsed;
      && (t < 0 ==> r.timeTillNext == s.animationInterval
                    && r.currentFrame == (if s.OnLastFrame() then 0 else s.currentFrame + 1))
      && (0 <= t ==> r.timeTillNext == t && r.currentFrame == s.currentFrame)
      && r.currentState == s.currentState && r.animating == s.animating
  {
  }

  /**
   * AnimationOver is set exactly when an animating sprite on its last frame
   * sees its countdown reach zero or below, and is never cleared by Update.
   */
  lemma UpdateAnimationOver(s: SpriteState, elapsed: int)
    requires s.Valid()
    ensures Updated(s, elapsed).animationOver
            <==> s.animationOver || (s.animating && s.timeTillNext - elapsed <= 0 && s.OnLastFrame())
  {
  }

  /**
   * An update moves at most one frame, so a run of three or more frames
   * started on frame 0 is not over after two updates, whatever their lengths.
   */
  lemma FreshRunOutlastsTwoUpdates(s: SpriteState, e1: int, e2: int)
    requires s.Valid() && s.framesPerAnimation >= 3 && s.currentFrame == 0 && !s.animationOver
    ensures !Updated(Updated(s, e1), e2).animationOver
  {
    var s1 := Updated(s, e1);
    UpdateAdvance(s, e1);
    UpdateAnimationOver(s, e1);
    assert s1.framesPerAnimation == s.framesPerAnimation;
    assert s1.currentFrame <= 1 && !s1.animationOver;
    UpdateAnimationOver(s1, e2);
  }

  /**
   * The completion test uses `<=` and the advance `<`: a countdown landing exactly
   * on zero ends the animation while the frame stays where it is.
   */
  lemma OverWithoutAdvance(s: SpriteState)
    requires s.Valid() && s.animating && s.OnLastFrame()
    ensures Updated(s, s.timeTillNext).animationOver
    ensures Updated(s, s.timeTillNext).currentFrame == s.currentFrame
  {
  }

  /** Once set, AnimationOver survives any run of updates. */
  lemma {:induction false} OverIsSticky(s: SpriteState, elapsed: seq<int>)
    requires s.Valid() && s.animationOver
    ensures UpdatedAll(s, elapsed).animationOver
    decreases |elapsed|
  {
    if elapsed != [] {
      OverIsSticky(Updated(s, elapsed[0]), elapsed[1..]);
    }
  }

  /** Update never touches the animation row, the play-once flag or the pose. */
  lemma {:induction false} UpdatesKeepRow(s: SpriteState, elapsed: seq<int>)
    requires s.Valid()
    ensures var r := UpdatedAll(s, elapsed);
      r.currentState == s.currentState && r.animating == s.animating
      && r.scale == s.scale && r.angle == s.angle
    decreases |elapsed|
  {
    if elapsed != [] {
      UpdatesKeepRow(Updated(s, elapsed[0]), elapsed[1..]);
    }
  }

  // ---------------------------------------------------------------------------
  // Flash

  /**
   * While flashes remain, an update takes exactly one off the counter when the
   * accumulated flash time reaches twice the half-time, and none otherwise; the
   * shade returns to White when the last one ends. With no flash left, nothing
   * about the flash changes.
   */
  lemma FlashCountdown(s: SpriteState, elapsed: int)
    requires s.Valid()
    ensures var r := Updated(s, elapsed);
      var t := s.currentFlashTime + elapsed;
      && (s.flashCounter > 0 && s.halfFlashTime <= t && 2 * s.halfFlashTime <= t ==>
            r.flashCounter == s.flashCounter - 1 && r.currentFlashTime == 0)
      && (s.flashCounter > 0 && (t < s.halfFlashTime || t < 2 * s.halfFlashTime) ==>
            r.flashCounter == s.flashCounter)
      && (s.flashCounter > 0 && r.flashCounter == 0 ==> r.shade == White)
      && (s.flashCounter <= 0 ==>
            r.flashCounter == s.flashCounter && r.currentFlashTime == s.currentFlashTime && r.shade == s.shade)
  {
  }

  /** In the first half of a flash the flash time advances by twice the elapsed time. */
  lemma FlashFirstHalfRunsDouble(s: SpriteState, elapsed: int)
    requires s.Valid() && s.flashCounter > 0 && s.currentFlashTime + elapsed < s.halfFlashTime
    ensures Updated(s, elapsed).currentFlashTime == s.currentFlashTime + 2 * elapsed
    ensures Updated(s, elapsed).shade == Lerp(White, s.flashColor, s.currentFlashTime + elapsed, s.halfFlashTime)
  {
  }

  /** A non-negative flash counter stays non-negative and never grows, over any run of updates. */
  lemma {:induction false} FlashCounterBounded(s: SpriteState, elapsed: seq<int>)
    requires s.Valid() && s.flashCounter >= 0
    ensures 0 <= UpdatedAll(s, elapsed).flashCounter <= s.flashCounter
    decreases |elapsed|
  {
    if elapsed != [] {
      FlashCountdown(s, elapsed[0]);
      FlashCounterBounded(Updated(s, elapsed[0]), elapsed[1..]);
    }
  }

  /** `Flash(c, t, k)` with `k >= 0` followed by any run of updates leaves a counter in [0, k]. */
  lemma FlashThenUpdates(s: SpriteState, color: Color, timePerFlash: int, numFlashes: int, elapsed: seq<int>)
    requires s.Valid() && numFlashes >= 0
    ensures 0 <= UpdatedAll(Flashed(s, color, timePerFlash, numFlashes), elapsed).flashCounter <= numFlashes
  {
    FlashCounterBounded(Flashed(s, color, timePerFlash, numFlashes), elapsed);
  }

  // ---------------------------------------------------------------------------
  // The class

  class Sprite {
    const framesPerAnimation: int
    const numStates: int
    const animationInterval: int
    const defaultScale: real

    var timeTillNext: int
    var animating: bool
    var animationOver: bool
    var currentFrame: int
    var currentState: int
    var scale: real
    var angle: real
    var shade: Color
    var flashColor: Color
    var flashCounter: int
    var currentFlashTime: int
    var halfFlashTime: int

    function State(): SpriteState
      reads this
    {
      SpriteState(
        framesPerAnimation, numStates, animationInterval, defaultScale,
        timeTillNext, animating, animationOver,
        currentFrame, currentState,
        scale, angle, shade,
        flashColor, flashCounter, currentFlashTime, halfFlashTime)
    }

    ghost predicate Valid()
      reads this
    {
      State().Valid()
    }

    constructor (data: SpriteData)
      requires data.numFrames > 0 && data.numStates > 0
      ensures Valid() && State() == Created(data)
    {
      framesPerAnimation := data.numFrames;
      numStates := data.numStates;
      defaultScale := data.defaultScale;
      scale := data.defaultScale;
      animationInterval := data.animationRate;
      timeTillNext := data.animationRate;
      shade := White;
      animating, animationOver := false, false;
      currentFrame, currentState := 0, 0;
      angle := 0.0;
      flashColor := Transparent;
      flashCounter, currentFlashTime, halfFlashTime := 0, 0, 0;
    }

    method Reset()
      requires Valid()
      modifies this
      ensures Valid() && State() == AfterReset(old(State()))
    {
      timeTillNext := animationInterval;
      currentState := 0;
      currentFrame := 0;
      shade := White;
      angle := 0.0;
      scale := defaultScale;
      flashCounter := 0;
    }

    method Update(elapsed: int)
      requires Valid()
      modifies this
      ensures Valid() && State() == Updated(old(State()), elapsed)
    {
      Tick(elapsed);
      FlashTick(elapsed);
    }

    /** The frame-clock half of Update. */
    method Tick(elapsed: int)
      requires Valid()
      modifies this
      ensures Valid() && State() == Clocked(old(State()), elapsed)
    {
      timeTillNext := timeTillNext - elapsed;
      if animating && timeTillNext <= 0 && currentFrame == framesPerAnimation - 1 {
        animationOver := true;
      }
      if timeTillNext < 0 {
        timeTillNext := animationInterval;
        currentFrame := Rem(currentFrame + 1, framesPerAnimation);
      }
    }

    /** The flash half of Update. */
    method FlashTick(elapsed: int)
      requires Valid()
      modifies this
      ensures Valid() && State() == Flashing(old(State()), elapsed)
    {
      if flashCounter > 0 {
        currentFlashTime := currentFlashTime + elapsed;
        if currentFlashTime < halfFlashTime {
          shade := Lerp(White, flashColor, currentFlashTime, halfFlashTime);
          currentFlashTime := currentFlashTime + elapsed;
        } else if currentFlashTime >= halfFlashTime + halfFlashTime {
          currentFlashTime := 0;
          flashCounter := flashCounter - 1;
          if flashCounter == 0 {
            shade := White;
          }
        } else {
          shade := Lerp(flashColor, White, currentFlashTime - halfFlashTime, halfFlashTime);
        }
      }
    }

    method PlayAnimation(animationNumber: int)
      requires Valid()
      modifies this
      ensures Valid() && State() == Played(old(State()), animationNumber)
    {
      animating := true;
      animationOver := false;
      currentState := Rem(animationNumber, numStates);
      currentFrame := 0;
    }

    method Flash(color: Color, timePerFlash: int, numFlashes: int)
      requires Valid()
      modifies this
      ensures Valid() && State() == Flashed(old(State()), color, timePerFlash, numFlashes)
    {
      flashColor := color;
      flashCounter := numFlashes;
      currentFlashTime := 0;
      halfFlashTime := FromSeconds(Seconds(timePerFlash) / 2.0);
    }

    /**
     * FullAnimationTime: one pass through the frames, rounded to the millisecond
     * by TimeSpan.FromSeconds.
     */
    function FullAnimationTime(): (t: int)
      ensures t % TicksPerMillisecond == 0
      ensures -5000 <= t - animationInterval * framesPerAnimation <= 5000
    {
      FromSeconds(Seconds(animationInterval) * framesPerAnimation as real)
    }
  }
}
