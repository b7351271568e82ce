/** The animation engine's supporting classes: grid sprite sheets, the
    frame-counting animation, property tweens, timelines and the texture
    atlas's shelf packing. Drawing, images and callbacks are not modelled;
    callbacks become the indices or flags a method reports. */
module AnimationClasses {
  import opened Wrappers
  import opened Text

  // ---------------------------------------------------------------------
  // Sprite sheets

  /** One frame of a sprite sheet. */
  datatype Frame = Frame(id: string, x: int, y: int, width: int, height: int)

  /** `count || (columns * rows)`: a missing or zero count uses the grid. */
  function GridFrameCount(count: Option<int>, columns: int, rows: int): int {
    if count.None? || count.value == 0 then columns * rows else count.value
  }

  /** Frame `i` of a grid sheet: column `i % columns`, row `i / columns`. */
  function GridFrame(i: nat, frameWidth: int, frameHeight: int, columns: int): Frame
    requires columns > 0
  {
    Frame("frame_" + NatToString(i), (i % columns) * frameWidth, (i / columns) * frameHeight, frameWidth, frameHeight)
  }

  lemma MulMonotone(a: int, b: int, k: int)
    requires a <= b && k >= 0
    ensures a * k <= b * k
  {
  }

  lemma MulStrict(a: int, b: int, k: int)
    requires a < b && k > 0
    ensures a * k < b * k
  {
  }

  /** Row `i / columns` of a frame in a full grid is one of its rows. */
  lemma GridRow(i: nat, columns: int, rows: int)
    requires columns > 0 && i < columns * rows
    ensures 0 <= i % columns < columns && 0 <= i / columns < rows
  {
    if i / columns >= rows {
      MulMonotone(rows, i / columns, columns);
    }
  }

  /** In a full grid every frame lies inside the sheet. */
  lemma GridInside(i: nat, frameWidth: int, frameHeight: int, columns: int, rows: int)
    requires columns > 0 && frameWidth >= 0 && frameHeight >= 0
    requires i < columns * rows
    ensures var f := GridFrame(i, frameWidth, frameHeight, columns);
      0 <= f.x && f.x + frameWidth <= columns * frameWidth && 0 <= f.y && f.y + frameHeight <= rows * frameHeight
  {
    GridRow(i, columns, rows);
    CellInside(i % columns, columns, frameWidth);
    CellInside(i / columns, rows, frameHeight);
  }

  /** Cell `c` of `n` cells of size `w` lies within the `n * w` span. */
  lemma CellInside(c: int, n: int, w: int)
    requires 0 <= c < n && w >= 0
    ensures 0 <= c * w && c * w + w <= n * w
  {
    MulMonotone(0, c, w);
    MulMonotone(c + 1, n, w);
    assert (c + 1) * w == c * w + w;
  }

  /** A frame's column and row give back its index. */
  lemma CellIndex(i: nat, columns: int)
    requires columns > 0
    ensures i == (i / columns) * columns + i % columns
  {
  }

  /** Two different frames never share a cell. */
  lemma GridCellsDistinct(i: nat, j: nat, columns: int)
    requires columns > 0 && i != j
    ensures (i % columns, i / columns) != (j % columns, j / columns)
  {
    CellIndex(i, columns);
    CellIndex(j, columns);
  }

  /** Two different frames never share an id. */
  lemma GridIdsDistinct(i: nat, j: nat, frameWidth: int, frameHeight: int, columns: int)
    requires columns > 0 && i != j
    ensures GridFrame(i, frameWidth, frameHeight, columns).id != GridFrame(j, frameWidth, frameHeight, columns).id
  {
    var f := GridFrame(i, frameWidth, frameHeight, columns);
    var g := GridFrame(j, frameWidth, frameHeight, columns);
    if f.id == g.id {
      assert f.id[6..] == NatToString(i) && g.id[6..] == NatToString(j);
      NatToStringInjective(i, j);
    }
  }

  /** With positive frame sizes, two different frames never share a
      position. */
  lemma GridPositionsDistinct(i: nat, j: nat, frameWidth: int, frameHeight: int, columns: int)
    requires columns > 0 && i != j && frameWidth > 0 && frameHeight > 0
    ensures (GridFrame(i, frameWidth, frameHeight, columns).x, GridFrame(i, frameWidth, frameHeight, columns).y)
            != (GridFrame(j, frameWidth, frameHeight, columns).x, GridFrame(j, frameWidth, frameHeight, columns).y)
  {
    GridCellsDistinct(i, j, columns);
    var a, b := i % columns, j % columns;
    var c, d := i / columns, j / columns;
    if a < b {
      MulStrict(a, b, frameWidth);
    } else if a > b {
      MulStrict(b, a, frameWidth);
    } else if c < d {
      MulStrict(c, d, frameHeight);
    } else {
      MulStrict(d, c, frameHeight);
    }
  }

  /** A named frame sequence: `frameRate` defaults to 12 (also for 0) and
      `loop` to true. */
  datatype Sequence = Sequence(frames: seq<int>, frameRate: real, loop: bool)

  function SequenceOf(frames: seq<int>, frameRate: Option<real>, loop: Option<bool>): (s: Sequence)
    ensures s.frameRate != 0.0
    ensures s.loop <==> loop != Some(false)
  {
    Sequence(frames, if frameRate.None? || frameRate.value == 0.0 then 12.0 else frameRate.value, loop != Some(false))
  }

  /** An `animations` entry of the frame data, before the defaults apply. */
  datatype RawSequence = RawSequence(frames: seq<int>, frameRate: Option<real>, loop: Option<bool>)

  /** The animation parse of `parseFrameData`: every entry through `SequenceOf`. */
  function ParseSequences(raw: map<string, RawSequence>): (m: map<string, Sequence>)
    ensures m.Keys == raw.Keys
    ensures forall name :: name in m ==> m[name].frames == raw[name].frames && m[name].frameRate != 0.0
    ensures forall name :: name in m ==> (m[name].loop <==> raw[name].loop != Some(false))
  {
    map name | name in raw :: SequenceOf(raw[name].frames, raw[name].frameRate, raw[name].loop)
  }

  class SpriteSheet {
    var frames: seq<Frame>
    var animations: map<string, Sequence>

    /** A grid sheet: `parseFrameData` with no frame list. */
    constructor Grid(frameWidth: int, frameHeight: int, columns: int, rows: int, count: Option<int>,
                     animations: map<string, RawSequence>)
      requires columns > 0
      ensures |frames| == if GridFrameCount(count, columns, rows) > 0 then GridFrameCount(count, columns, rows) else 0
      ensures forall i :: 0 <= i < |frames| ==> frames[i] == GridFrame(i, frameWidth, frameHeight, columns)
      ensures this.animations == ParseSequences(animations)
      ensures RatesSet(View())
    {
      var parsed := [];
      var totalFrames := GridFrameCount(count, columns, rows);
      var i := 0;
      while i < totalFrames
        invariant 0 <= i && (totalFrames > 0 ==> i <= totalFrames) && (totalFrames <= 0 ==> i == 0)
        invariant |parsed| == i
        invariant forall k :: 0 <= k < i ==> parsed[k] == GridFrame(k, frameWidth, frameHeight, columns)
        decreases totalFrames - i
      {
        var col := i % columns;
        var row := i / columns;
        parsed := parsed + [Frame("frame_" + NatToString(i), col * frameWidth, row * frameHeight, frameWidth, frameHeight)];
        i := i + 1;
      }
      frames := parsed;
      this.animations := ParseSequences(animations);
    }

    /** `getFrame`: the frame, or null for an index out of range. */
    function GetFrame(index: int): (r: Option<Frame>)
      reads this
      ensures r.Some? <==> 0 <= index < |frames|
      ensures r.Some? ==> r.value == frames[index]
    {
      if 0 <= index < |frames| then Some(frames[index]) else None
    }

    /** `getFrameByName`: the first frame with that id. */
    function GetFrameByName(name: string): (r: Option<Frame>)
      reads this
      ensures r.Some? ==> r.value in frames && r.value.id == name
      ensures r.Some? ==> exists k :: 0 <= k < |frames| && frames[k] == r.value && forall i :: 0 <= i < k ==> frames[i].id != name
      ensures r.None? <==> forall i :: 0 <= i < |frames| ==> frames[i].id != name
    {
      FirstNamed(frames, name)
    }

    /** What an animation needs from its sprite. */
    function View(): SheetView
      reads this
    {
      SheetView(|frames|, animations)
    }
  }

  /** The first frame with that id. */
  function FirstNamed(frames: seq<Frame>, name: string): (r: Option<Frame>)
    ensures r.Some? ==> r.value in frames && r.value.id == name
    ensures r.Some? ==> exists k :: 0 <= k < |frames| && frames[k] == r.value && forall i :: 0 <= i < k ==> frames[i].id != name
    ensures r.None? <==> forall i :: 0 <= i < |frames| ==> frames[i].id != name
  {
    if frames == [] then None
    else if frames[0].id == name then Some(frames[0])
    else
      var r := FirstNamed(frames[1..], name);
      assert forall i :: 1 <= i < |frames| ==> frames[i] == frames[1..][i - 1];
      r
  }

  // ---------------------------------------------------------------------
  // Sprite animations

  /** What an animation reads from its sprite sheet. */
  datatype SheetView = SheetView(frameCount: nat, animations: map<string, Sequence>)

  /** Every named sequence of a sheet has a non-zero rate, as `SequenceOf`
      gives it when the sheet is parsed. */
  predicate RatesSet(v: SheetView) {
    forall name :: name in v.animations ==> v.animations[name].frameRate != 0.0
  }

  /** The options an animation is created with. */
  datatype AnimConfig = AnimConfig(spriteId: string, animationName: Option<string>, startFrame: int,
                                   frameRate: Option<real>, loop: Option<bool>, autoStart: Option<bool>,
                                   frames: Option<seq<int>>)

  /** The frame sequence, rate, loop flag, frame count and duration
      `initialize` settles on. */
  datatype Setup = Setup(frameSequence: Option<seq<int>>, frameRate: real, loop: bool, totalFrames: nat, duration: real)

  /** `0, 1, ..., n - 1`. */
  function Range(n: nat): (r: seq<int>)
    ensures |r| == n && forall i :: 0 <= i < n ==> r[i] == i
  {
    seq(n, i => i)
  }

  /** The constructor's defaults followed by `initialize`: a missing sprite
      stops before the sequence is set; a named sequence the sprite knows
      replaces the rate and the loop flag; with no sequence, every frame of
      the sprite in order. */
  function InitialSetup(config: AnimConfig, sprite: Option<SheetView>): (s: Setup)
    requires sprite.Some? ==> RatesSet(sprite.value)
    ensures s.frameRate != 0.0
  {
    var rate := if config.frameRate.None? || config.frameRate.value == 0.0 then 12.0 else config.frameRate.value;
    var loop := config.loop != Some(false);
    if sprite.None? then Setup(config.frames, rate, loop, 0, 0.0)
    else
      var named := config.animationName.Some? && config.animationName.value != ""
                   && config.animationName.value in sprite.value.animations;
      var anim := if named then Some(sprite.value.animations[config.animationName.value]) else None;
      var frames := if anim.Some? then Some(anim.value.frames) else config.frames;
      var rate' := if anim.Some? then anim.value.frameRate else rate;
      var loop' := if anim.Some? then anim.value.loop else loop;
      var sequence := if frames.Some? then frames.value else Range(sprite.value.frameCount);
      Setup(Some(sequence), rate', loop', |sequence|, (|sequence| as real) / rate')
  }

  /** Without a sequence of its own or a named one, an animation plays the
      sprite's frames 0..n-1; its frame count is always its sequence's
      length, and its duration that count over the rate. */
  lemma SetupSequence(config: AnimConfig, sprite: SheetView)
    requires RatesSet(sprite)
    ensures var s := InitialSetup(config, Some(sprite));
      && s.frameSequence.Some? && s.totalFrames == |s.frameSequence.value|
      && s.duration == (s.totalFrames as real) / s.frameRate
      && (config.frames.None? && (config.animationName.None? || config.animationName.value !in sprite.animations) ==>
            s.frameSequence == Some(Range(sprite.frameCount)) && s.totalFrames == sprite.frameCount)
  {
  }

  /** The fields `update`, the playback controls and `getProgress` use. */
  datatype Playback = Playback(currentFrame: int, currentTime: real, isActive: bool, isPaused: bool, isComplete: bool)

  /** `update(deltaTime)` on the frame counter. */
  function Advance(p: Playback, s: Setup, deltaTime: real): Playback
  {
    if !p.isActive || p.isPaused then p
    else
      var time := p.currentTime + deltaTime;
      var frame := (time * s.frameRate).Floor;
      if frame >= s.totalFrames then
        if s.loop then p.(currentFrame := 0, currentTime := 0.0)
        else p.(currentFrame := s.totalFrames - 1, currentTime := time, isComplete := true, isActive := false)
      else p.(currentFrame := frame, currentTime := time)
  }

  /** A running animation with a positive rate, moved forward from a
      non-negative time, lands on a frame of its sequence; a non-looping
      one that passes its last frame stops on it, complete and inactive; a
      looping one starts over at frame 0 and time 0. */
  lemma AdvanceFacts(p: Playback, s: Setup, deltaTime: real)
    requires p.isActive && !p.isPaused
    ensures var q := Advance(p, s, deltaTime);
      var passed := ((p.currentTime + deltaTime) * s.frameRate).Floor >= s.totalFrames;
      && (passed && !s.loop ==> q.currentFrame == s.totalFrames - 1 && q.isComplete && !q.isActive)
      && (passed && s.loop ==> q.currentFrame == 0 && q.currentTime == 0.0 && q.isActive)
      && (!passed ==> q.currentTime == p.currentTime + deltaTime && q.isActive && q.isComplete == p.isComplete)
    ensures s.totalFrames > 0 && s.frameRate > 0.0 && p.currentTime >= 0.0 && deltaTime >= 0.0 ==>
      var q := Advance(p, s, deltaTime);
      0 <= q.currentFrame < s.totalFrames && q.currentTime >= 0.0
  {
    var time := p.currentTime + deltaTime;
    if s.totalFrames > 0 && s.frameRate > 0.0 && p.currentTime >= 0.0 && deltaTime >= 0.0 {
      ProductNonNegative(time, s.frameRate);
      var frame := (time * s.frameRate).Floor;
      assert frame >= 0;
      if frame < s.totalFrames {
        assert Advance(p, s, deltaTime) == p.(currentFrame := frame, currentTime := time);
      }
    }
  }

  lemma ProductNonNegative(a: real, b: real)
    requires a >= 0.0 && b >= 0.0
    ensures a * b >= 0.0 && (a * b).Floor >= 0
  {
  }

  /** A paused or inactive animation does not move. */
  lemma AdvanceIdle(p: Playback, s: Setup, deltaTime: real)
    requires !p.isActive || p.isPaused
    ensures Advance(p, s, deltaTime) == p
  {
  }

  /** `getProgress`: the fraction of the frames played. */
  function Progress(p: Playback, s: Setup): real {
    if s.totalFrames > 0 then (p.currentFrame as real) / (s.totalFrames as real) else 0.0
  }

  /** On a frame of the sequence, progress lies in [0, 1). */
  lemma ProgressBounds(p: Playback, s: Setup)
    requires 0 <= p.currentFrame < s.totalFrames
    ensures 0.0 <= Progress(p, s) < 1.0
  {
    var n := s.totalFrames as real;
    assert (p.currentFrame as real) < n;
    assert (p.currentFrame as real) / n * n == p.currentFrame as real;
  }

  class Animation {
    const spriteId: string
    var currentFrame: int
    var currentTime: real
    var isActive: bool
    var isPaused: bool
    var isComplete: bool
    const frameSequence: Option<seq<int>>
    const frameRate: real
    const loop: bool
    const totalFrames: nat
    const duration: real

    function PlaybackOf(): Playback
      reads this
    {
      Playback(currentFrame, currentTime, isActive, isPaused, isComplete)
    }

    function SetupOf(): Setup
      reads this
    {
      Setup(frameSequence, frameRate, loop, totalFrames, duration)
    }

    /** The rate is never 0, as `initialize` and the defaults make it. */
    predicate Valid()
      reads this
    {
      frameRate != 0.0
    }

    /** `new Animation(id, config, engine)`: `sprite` is the engine's sheet
        for the sprite id, if it has one. */
    constructor(config: AnimConfig, sprite: Option<SheetView>)
      requires sprite.Some? ==> RatesSet(sprite.value)
      ensures spriteId == config.spriteId
      ensures PlaybackOf() == Playback(config.startFrame, 0.0, config.autoStart != Some(false), false, false)
      ensures SetupOf() == InitialSetup(config, sprite)
      ensures Valid()
    {
      spriteId := config.spriteId;
      currentFrame := config.startFrame;
      currentTime := 0.0;
      isActive := config.autoStart != Some(false);
      isPaused := false;
      isComplete := false;
      var rate := if config.frameRate.None? || config.frameRate.value == 0.0 then 12.0 else config.frameRate.value;
      var looping := config.loop != Some(false);
      var sequence := config.frames;
      var count: nat, length := 0, 0.0;
      if sprite.Some? {
        if config.animationName.Some? && config.animationName.value != "" {
          if config.animationName.value in sprite.value.animations {
            var animData := sprite.value.animations[config.animationName.value];
            sequence := Some(animData.frames);
            rate := animData.frameRate;
            looping := animData.loop;
          }
        }
        if sequence.None? {
          sequence := Some(Range(sprite.value.frameCount));
        }
        count := |sequence.value|;
        length := (count as real) / rate;
      }
      frameSequence, frameRate, loop, totalFrames, duration := sequence, rate, looping, count, length;
    }

    method Play()
      modifies this
      ensures PlaybackOf() == old(PlaybackOf()).(isActive := true, isPaused := false, isComplete := false)
    {
      isActive := true;
      isPaused := false;
      isComplete := false;
    }

    method Pause()
      modifies this
      ensures PlaybackOf() == old(PlaybackOf()).(isPaused := true)
    {
      isPaused := true;
    }

    /** `stop`: back to the start, inactive and not paused. */
    method Stop()
      modifies this
      ensures PlaybackOf() == Playback(0, 0.0, false, false, false)
    {
      isPaused := false;
      isActive := false;
      currentTime := 0.0;
      currentFrame := 0;
      isComplete := false;
    }

    /** `reset`: back to the start, still running or not. */
    method Reset()
      modifies this
      ensures PlaybackOf() == old(PlaybackOf()).(currentFrame := 0, currentTime := 0.0, isComplete := false)
    {
      currentTime := 0.0;
      currentFrame := 0;
      isComplete := false;
    }

    method GotoAndPlay(frame: int)
      requires Valid()
      modifies this
      ensures PlaybackOf() == Playback(frame, (frame as real) / frameRate, true, false, false)
    {
      currentFrame := frame;
      currentTime := (frame as real) / frameRate;
      Play();
    }

    /** `gotoAndStop`: sets the frame, then `stop` sets it back to 0. */
    method GotoAndStop(frame: int)
      requires Valid()
      modifies this
      ensures PlaybackOf() == Playback(0, 0.0, false, false, false)
    {
      currentFrame := frame;
      currentTime := (frame as real) / frameRate;
      Stop();
    }

    /** `update(deltaTime)` on the frame counter; `frameChanged`,
        `looped` and `completed` say which callbacks fire. */
    method Update(deltaTime: real) returns (frameChanged: bool, looped: bool, completed: bool)
      modifies this
      ensures PlaybackOf() == Advance(old(PlaybackOf()), SetupOf(), deltaTime)
      ensures var running := old(isActive) && !old(isPaused);
        var frame := ((old(currentTime) + deltaTime) * frameRate).Floor;
        && (frameChanged <==> running && frame != old(currentFrame))
        && (looped <==> running && frame >= totalFrames && loop)
        && (completed <==> running && frame >= totalFrames && !loop)
      ensures completed ==> !isActive && isComplete && currentFrame == totalFrames - 1
      ensures looped ==> currentFrame == 0 && currentTime == 0.0
      ensures !(looped && completed)
    {
      frameChanged, looped, completed := false, false, false;
      if !isActive || isPaused {
        return;
      }
      currentTime := currentTime + deltaTime;
      var expectedFrame := (currentTime * frameRate).Floor;
      if expectedFrame != currentFrame {
        currentFrame := expectedFrame;
        frameChanged := true;
      }
      if currentFrame >= totalFrames {
        if loop {
          currentFrame := 0;
          currentTime := 0.0;
          looped := true;
        } else {
          currentFrame := totalFrames - 1;
          isComplete := true;
          isActive := false;
          completed := true;
        }
      }
    }

    /** `getCurrentFrameIndex`: the sheet frame on show; None where
        JavaScript reads past the sequence and gets `undefined`. */
    function CurrentFrameIndex(): (r: Option<int>)
      reads this
      ensures frameSequence.None? ==> r == Some(currentFrame)
      ensures frameSequence.Some? ==> (r.Some? <==> 0 <= currentFrame < |frameSequence.value|)
    {
      if frameSequence.None? then Some(currentFrame)
      else if 0 <= currentFrame < |frameSequence.value| then Some(frameSequence.value[currentFrame])
      else None
    }
  }

  // ---------------------------------------------------------------------
  // Property animations

  /** `Math.min(currentTime / duration, 1)`. */
  function TweenProgress(currentTime: real, duration: real): (r: real)
    requires duration > 0.0
    ensures r <= 1.0
    ensures r == 1.0 <==> currentTime >= duration
    ensures currentTime >= 0.0 ==> r >= 0.0
  {
    var q := currentTime / duration;
    assert currentTime >= duration <==> q >= 1.0 by {
      assert q * duration == currentTime;
    }
    assert currentTime >= 0.0 ==> q >= 0.0;
    if q < 1.0 then q else 1.0
  }

  /** The properties a tween has written into its target. */
  function Interpolated(startValues: map<string, real>, targetValues: map<string, real>, eased: real): (r: map<string, real>)
    requires targetValues.Keys <= startValues.Keys
    ensures r.Keys == targetValues.Keys
  {
    map p | p in targetValues :: startValues[p] + (targetValues[p] - startValues[p]) * eased
  }

  class PropertyAnimation {
    const duration: real
    const startValues: map<string, real>
    const targetValues: map<string, real>
    var currentTime: real
    var isComplete: bool
    /** The target's animated properties, as last written. */
    var values: map<string, real>

    /** `new PropertyAnimation(target, properties, duration, ...)`:
        `current` holds the target's present values. */
    constructor(current: map<string, real>, properties: map<string, real>, duration: real)
      requires duration > 0.0 && properties.Keys <= current.Keys
      ensures this.duration == duration && targetValues == properties
      ensures startValues == map p | p in properties :: current[p]
      ensures currentTime == 0.0 && !isComplete && values == startValues
    {
      this.duration := duration;
      targetValues := properties;
      startValues := map p | p in properties :: current[p];
      values := map p | p in properties :: current[p];
      currentTime := 0.0;
      isComplete := false;
    }

    /** `update(deltaTime)` with the easing function the engine looks up. */
    method Update(deltaTime: real, easing: real -> real)
      requires duration > 0.0 && targetValues.Keys <= startValues.Keys
      modifies this
      ensures old(isComplete) ==> currentTime == old(currentTime) && isComplete && values == old(values)
      ensures !old(isComplete) ==>
        && currentTime == old(currentTime) + deltaTime
        && values == Interpolated(startValues, targetValues, easing(TweenProgress(currentTime, duration)))
        && (isComplete <==> currentTime >= duration)
      ensures !old(isComplete) && isComplete && easing(1.0) == 1.0 ==> values == targetValues
    {
      if isComplete {
        return;
      }
      currentTime := currentTime + deltaTime;
      var progress := if currentTime / duration < 1.0 then currentTime / duration else 1.0;
      assert progress == TweenProgress(currentTime, duration);
      var eased := easing(progress);
      values := Interpolated(startValues, targetValues, eased);
      if progress >= 1.0 {
        isComplete := true;
      }
    }
  }

  // ---------------------------------------------------------------------
  // Timelines

  /** One entry of a timeline. The animation it drives is referred to by
      its position. */
  datatype Entry = Entry(startTime: real, duration: real, hasStarted: bool, isComplete: bool)

  function EndTime(e: Entry): real {
    e.startTime + e.duration
  }

  /** The latest end time, and 0 when there is none above 0. */
  function LatestEnd(entries: seq<Entry>): real
  {
    if entries == [] then 0.0
    else
      var rest := LatestEnd(entries[..|entries| - 1]);
      var last := EndTime(entries[|entries| - 1]);
      if last > rest then last else rest
  }

  /** The duration is at least 0, at least every entry's end, and either 0
      or one of the ends. */
  lemma {:induction false} LatestEndFacts(entries: seq<Entry>)
    ensures LatestEnd(entries) >= 0.0
    ensures forall i :: 0 <= i < |entries| ==> EndTime(entries[i]) <= LatestEnd(entries)
    ensures LatestEnd(entries) == 0.0 || exists i :: 0 <= i < |entries| && EndTime(entries[i]) == LatestEnd(entries)
  {
    if entries != [] {
      var init := entries[..|entries| - 1];
      LatestEndFacts(init);
      assert forall i :: 0 <= i < |init| ==> entries[i] == init[i];
    }
  }

  /** `addAnimation`: a zero duration becomes 1. */
  function NewEntry(animationDuration: real, startTime: real): Entry {
    Entry(startTime, if animationDuration == 0.0 then 1.0 else animationDuration, false, false)
  }

  /** Adding an entry raises the duration to its end if that is later. */
  lemma LatestEndAppend(entries: seq<Entry>, e: Entry)
    ensures LatestEnd(entries + [e]) == if EndTime(e) > LatestEnd(entries) then EndTime(e) else LatestEnd(entries)
  {
    assert (entries + [e])[..|entries|] == entries;
  }

  /** Whether an entry starts or ends at time `t`. */
  predicate Starts(e: Entry, t: real) { t >= e.startTime && !e.hasStarted }
  predicate Ends(e: Entry, t: real) { t >= EndTime(e) && !e.isComplete }

  /** The entry after the step to time `t`. */
  function Stepped(e: Entry, t: real): (r: Entry)
    ensures r.startTime == e.startTime && r.duration == e.duration
    ensures r.hasStarted <==> e.hasStarted || t >= e.startTime
    ensures r.isComplete <==> e.isComplete || t >= EndTime(e)
  {
    e.(hasStarted := e.hasStarted || Starts(e, t), isComplete := e.isComplete || Ends(e, t))
  }

  /** The positions of the entries that start (when `starting`) or end at
      time `t`, in order. */
  function Firing(entries: seq<Entry>, t: real, starting: bool): (r: seq<nat>)
    ensures forall k :: 0 <= k < |r| ==> r[k] < |entries|
  {
    if entries == [] then []
    else
      var n := |entries| - 1;
      var fires := if starting then Starts(entries[n], t) else Ends(entries[n], t);
      Firing(entries[..n], t, starting) + (if fires then [n] else [])
  }

  /** A position is listed exactly when that entry fires, and the list is
      strictly increasing. */
  lemma {:induction false} FiringMembers(entries: seq<Entry>, t: real, starting: bool)
    ensures forall i :: 0 <= i < |entries| ==>
      (i in Firing(entries, t, starting) <==> if starting then Starts(entries[i], t) else Ends(entries[i], t))
    ensures forall a, b :: 0 <= a < b < |Firing(entries, t, starting)| ==>
      Firing(entries, t, starting)[a] < Firing(entries, t, starting)[b]
  {
    if entries != [] {
      var n := |entries| - 1;
      FiringMembers(entries[..n], t, starting);
      assert forall i :: 0 <= i < n ==> entries[..n][i] == entries[i];
    }
  }

  /** An entry with its flags cleared. */
  function Rewound(e: Entry): Entry {
    e.(hasStarted := false, isComplete := false)
  }

  class Timeline {
    var entries: seq<Entry>
    var currentTime: real
    var duration: real
    var isActive: bool
    var isPaused: bool
    var isComplete: bool
    var loop: bool

    constructor(entries: seq<Entry>)
      ensures this.entries == entries && duration == LatestEnd(entries)
      ensures currentTime == 0.0 && !isActive && !isPaused && !isComplete && !loop
    {
      this.entries := entries;
      currentTime := 0.0;
      isActive, isPaused, isComplete, loop := false, false, false, false;
      duration := 0.0;
      new;
      CalculateDuration();
    }

    /** `calculateDuration`. */
    method CalculateDuration()
      modifies this
      ensures duration == LatestEnd(entries)
      ensures entries == old(entries) && currentTime == old(currentTime) && isActive == old(isActive)
      ensures isPaused == old(isPaused) && isComplete == old(isComplete) && loop == old(loop)
    {
      var latest := 0.0;
      var i := 0;
      while i < |entries|
        invariant 0 <= i <= |entries|
        invariant latest == LatestEnd(entries[..i])
      {
        assert entries[..i + 1][..i] == entries[..i];
        var endTime := entries[i].startTime + entries[i].duration;
        if endTime > latest {
          latest := endTime;
        }
        i := i + 1;
      }
      assert entries[..i] == entries;
      duration := latest;
    }

    /** `addAnimation(animation, startTime)`. */
    method AddAnimation(animationDuration: real, startTime: real)
      modifies this
      ensures entries == old(entries) + [NewEntry(animationDuration, startTime)]
      ensures duration == LatestEnd(entries)
      ensures currentTime == old(currentTime) && isActive == old(isActive)
      ensures isPaused == old(isPaused) && isComplete == old(isComplete) && loop == old(loop)
    {
      entries := entries + [NewEntry(animationDuration, startTime)];
      CalculateDuration();
    }

    method Play()
      modifies this
      ensures isActive && !isPaused && !isComplete
      ensures entries == old(entries) && currentTime == old(currentTime) && duration == old(duration) && loop == old(loop)
    {
      isActive := true;
      isPaused := false;
      isComplete := false;
    }

    method Pause()
      modifies this
      ensures isPaused
      ensures entries == old(entries) && currentTime == old(currentTime) && duration == old(duration)
      ensures isActive == old(isActive) && isComplete == old(isComplete) && loop == old(loop)
    {
      isPaused := true;
    }

    /** `stop`: back to the start with every entry rewound (each entry's
        animation is reset). */
    method Stop()
      modifies this
      ensures !isActive && !isPaused && currentTime == 0.0 && !isComplete
      ensures |entries| == |old(entries)| && forall i :: 0 <= i < |entries| ==> entries[i] == Rewound(old(entries)[i])
      ensures duration == old(duration) && loop == old(loop)
    {
      isActive := false;
      isPaused := false;
      currentTime := 0.0;
      isComplete := false;
      RewindAll();
    }

    method RewindAll()
      modifies this
      ensures |entries| == |old(entries)| && forall i :: 0 <= i < |entries| ==> entries[i] == Rewound(old(entries)[i])
      ensures currentTime == old(currentTime) && duration == old(duration) && isActive == old(isActive)
      ensures isPaused == old(isPaused) && isComplete == old(isComplete) && loop == old(loop)
    {
      var rewound := [];
      var i := 0;
      while i < |entries|
        invariant 0 <= i <= |entries|
        invariant |rewound| == i && forall k :: 0 <= k < i ==> rewound[k] == Rewound(entries[k])
      {
        rewound := rewound + [Rewound(entries[i])];
        i := i + 1;
      }
      entries := rewound;
    }

    /** `update(deltaTime)`: `started` and `ended` are the entries whose
        animation is played or stopped, in order; then the timeline loops
        (rewinding every entry) or completes once its duration is reached. */
    method Update(deltaTime: real) returns (started: seq<nat>, ended: seq<nat>, looped: bool, completed: bool)
      modifies this
      ensures !old(isActive) || old(isPaused) ==>
        entries == old(entries) && currentTime == old(currentTime) && started == [] && ended == [] && !looped && !completed
      ensures old(isActive) && !old(isPaused) ==>
        var t := old(currentTime) + deltaTime;
        && started == Firing(old(entries), t, true) && ended == Firing(old(entries), t, false)
        && looped == (t >= old(duration) && old(loop)) && completed == (t >= old(duration) && !old(loop))
        && |entries| == |old(entries)|
        && (forall i :: 0 <= i < |entries| ==>
              entries[i] == if looped then Rewound(old(entries)[i]) else Stepped(old(entries)[i], t))
        && currentTime == (if looped then 0.0 else t)
        && (completed ==> isComplete && !isActive)
        && (!completed ==> isComplete == old(isComplete) && isActive)
      ensures duration == old(duration) && loop == old(loop) && isPaused == old(isPaused)
    {
      started, ended, looped, completed := [], [], false, false;
      if !isActive || isPaused {
        return;
      }
      currentTime := currentTime + deltaTime;
      var t := currentTime;
      var stepped := [];
      var i := 0;
      while i < |entries|
        invariant 0 <= i <= |entries|
        invariant |stepped| == i && forall k :: 0 <= k < i ==> stepped[k] == Stepped(entries[k], t)
        invariant started == Firing(entries[..i], t, true) && ended == Firing(entries[..i], t, false)
      {
        assert entries[..i + 1][..i] == entries[..i];
        var anim := entries[i];
        var shouldStart := t >= anim.startTime;
        var shouldEnd := t >= anim.startTime + anim.duration;
        if shouldStart && !anim.hasStarted {
          anim := anim.(hasStarted := true);
          started := started + [i];
        }
        if shouldEnd && !anim.isComplete {
          anim := anim.(isComplete := true);
          ended := ended + [i];
        }
        stepped := stepped + [anim];
        i := i + 1;
      }
      assert entries[..i] == entries;
      entries := stepped;
      if currentTime >= duration {
        if loop {
          currentTime := 0.0;
          RewindAll();
          looped := true;
        } else {
          isComplete := true;
          isActive := false;
          completed := true;
        }
      }
    }

    /** `getProgress`. */
    function GetProgress(): real
      reads this
    {
      if duration > 0.0 then (if currentTime / duration < 1.0 then currentTime / duration else 1.0) else 0.0
    }

    /** Progress lies in [0, 1] from a non-negative time, and is 1 from the
        duration on. */
    lemma ProgressBounds()
      ensures currentTime >= 0.0 ==> 0.0 <= GetProgress() <= 1.0
      ensures duration > 0.0 && currentTime >= duration ==> GetProgress() == 1.0
    {
      if duration > 0.0 {
        var p := TweenProgress(currentTime, duration);
        assert GetProgress() == p;
      }
    }
  }

  // ---------------------------------------------------------------------
  // Texture atlas

  /** A sprite to place, by its image's size. */
  datatype Sprite = Sprite(id: string, width: nat, height: nat)

  /** A placed sprite. */
  datatype Region = Region(id: string, x: int, y: int, width: nat, height: nat)

  /** The packing cursor: the next position and the current row's height. */
  datatype Cursor = Cursor(x: int, y: int, rowHeight: int)

  /** One step of `packSprites`: wrap to a new row when the sprite and the
      padding would pass the right edge, then place it if it fits above the
      bottom edge. */
  function Place(c: Cursor, s: Sprite, canvasWidth: int, canvasHeight: int, padding: nat): (Cursor, Option<Region>)
  {
    var c' := if c.x + s.width + padding > canvasWidth then Cursor(0, c.y + c.rowHeight + padding, 0) else c;
    if c'.y + s.height <= canvasHeight then
      (Cursor(c'.x + s.width + padding, c'.y, if c'.rowHeight > s.height then c'.rowHeight else s.height),
       Some(Region(s.id, c'.x, c'.y, s.width, s.height)))
    else (c', None)
  }

  /** The cursor and the regions after packing `sprites` from the top-left
      corner. */
  function Packed(sprites: seq<Sprite>, canvasWidth: int, canvasHeight: int, padding: nat): (Cursor, seq<Region>)
  {
    if sprites == [] then (Cursor(0, 0, 0), [])
    else
      var before := Packed(sprites[..|sprites| - 1], canvasWidth, canvasHeight, padding);
      var step := Place(before.0, sprites[|sprites| - 1], canvasWidth, canvasHeight, padding);
      (step.0, Extended(before.1, step.1))
  }

  /** Each placed region lies in the canvas's height and either starts a
      row or leaves the padding before the right edge; two regions placed
      one after the other sit side by side with the padding between them,
      or the second starts a new row at least the padding below the first. */
  predicate WellPacked(regions: seq<Region>, canvasWidth: int, canvasHeight: int, padding: nat) {
    && (forall k :: 0 <= k < |regions| ==>
          && regions[k].y + regions[k].height <= canvasHeight
          && (regions[k].x == 0 || regions[k].x + regions[k].width + padding <= canvasWidth))
    && (forall k :: 0 < k < |regions| ==>
          || (regions[k].y == regions[k - 1].y && regions[k].x == regions[k - 1].x + regions[k - 1].width + padding)
          || (regions[k].x == 0 && regions[k].y >= regions[k - 1].y + regions[k - 1].height + padding))
  }

  /** How the cursor relates to the last region placed. */
  predicate Follows(c: Cursor, regions: seq<Region>, padding: nat) {
    && c.rowHeight >= 0
    && (regions != [] ==>
          var last := regions[|regions| - 1];
          || (c.x == last.x + last.width + padding && c.y == last.y && c.rowHeight >= last.height)
          || (c.x == 0 && c.y >= last.y + last.height + padding))
  }

  /** The region list after one step. */
  function Extended(regions: seq<Region>, placed: Option<Region>): seq<Region> {
    regions + (if placed.Some? then [placed.value] else [])
  }

  /** One step keeps the packing well formed and the cursor after the last
      region. */
  lemma PlaceWell(c: Cursor, regions: seq<Region>, s: Sprite, canvasWidth: int, canvasHeight: int, padding: nat)
    requires WellPacked(regions, canvasWidth, canvasHeight, padding) && Follows(c, regions, padding)
    ensures var step := Place(c, s, canvasWidth, canvasHeight, padding);
      WellPacked(Extended(regions, step.1), canvasWidth, canvasHeight, padding)
      && Follows(step.0, Extended(regions, step.1), padding)
  {
    var step := Place(c, s, canvasWidth, canvasHeight, padding);
    var r := Extended(regions, step.1);
    if step.1.Some? {
      assert forall k :: 0 <= k < |regions| ==> r[k] == regions[k];
      assert r[|regions|] == step.1.value;
    }
  }

  /** Packing from the top-left corner is well formed. */
  lemma {:induction false} PackedWell(sprites: seq<Sprite>, canvasWidth: int, canvasHeight: int, padding: nat)
    ensures var p := Packed(sprites, canvasWidth, canvasHeight, padding);
      WellPacked(p.1, canvasWidth, canvasHeight, padding) && Follows(p.0, p.1, padding)
  {
    if sprites != [] {
      var before := Packed(sprites[..|sprites| - 1], canvasWidth, canvasHeight, padding);
      PackedWell(sprites[..|sprites| - 1], canvasWidth, canvasHeight, padding);
      PlaceWell(before.0, before.1, sprites[|sprites| - 1], canvasWidth, canvasHeight, padding);
    }
  }

  /** The region places that sprite, at its own size. */
  predicate PlacementOf(r: Region, s: Sprite) {
    r.id == s.id && r.width == s.width && r.height == s.height
  }

  /** The packed list keeps the sprites' order and sizes: region `k` is a
      placement of some sprite, and no more regions than sprites. */
  lemma {:induction false} PackedFromSprites(sprites: seq<Sprite>, canvasWidth: int, canvasHeight: int, padding: nat)
    ensures var regions := Packed(sprites, canvasWidth, canvasHeight, padding).1;
      && |regions| <= |sprites|
      && forall k :: 0 <= k < |regions| ==> exists i :: 0 <= i < |sprites| && PlacementOf(regions[k], sprites[i])
  {
    if sprites != [] {
      var n := |sprites| - 1;
      PackedFromSprites(sprites[..n], canvasWidth, canvasHeight, padding);
      var before := Packed(sprites[..n], canvasWidth, canvasHeight, padding);
      var regions := Packed(sprites, canvasWidth, canvasHeight, padding).1;
      forall k | 0 <= k < |regions| ensures exists i :: 0 <= i < |sprites| && PlacementOf(regions[k], sprites[i])
      {
        if k < |before.1| {
          var i :| 0 <= i < n && PlacementOf(before.1[k], sprites[..n][i]);
          assert regions[k] == before.1[k] && sprites[..n][i] == sprites[i];
        } else {
          assert PlacementOf(regions[k], sprites[n]);
        }
      }
    }
  }

  class TextureAtlas {
    var canvasWidth: int
    var canvasHeight: int
    var regions: seq<Region>
    const padding: nat := 2

    constructor(canvasWidth: int, canvasHeight: int)
      ensures this.canvasWidth == canvasWidth && this.canvasHeight == canvasHeight && regions == []
    {
      this.canvasWidth := canvasWidth;
      this.canvasHeight := canvasHeight;
      regions := [];
    }

    /** `packSprites`: the new regions are appended to those of earlier
        builds. */
    method PackSprites(sprites: seq<Sprite>)
      modifies this
      ensures regions == old(regions) + Packed(sprites, canvasWidth, canvasHeight, padding).1
      ensures canvasWidth == old(canvasWidth) && canvasHeight == old(canvasHeight)
    {
      var x, y, rowHeight := 0, 0, 0;
      var placed := [];
      var i := 0;
      while i < |sprites|
        invariant 0 <= i <= |sprites|
        invariant Packed(sprites[..i], canvasWidth, canvasHeight, padding) == (Cursor(x, y, rowHeight), placed)
      {
        assert sprites[..i + 1][..i] == sprites[..i];
        var sprite := sprites[i];
        ghost var step := Place(Cursor(x, y, rowHeight), sprite, canvasWidth, canvasHeight, padding);
        ghost var placedBefore := placed;
        if x + sprite.width + padding > canvasWidth {
          x := 0;
          y := y + rowHeight + padding;
          rowHeight := 0;
        }
        if y + sprite.height <= canvasHeight {
          placed := placed + [Region(sprite.id, x, y, sprite.width, sprite.height)];
          x := x + sprite.width + padding;
          rowHeight := if rowHeight > sprite.height then rowHeight else sprite.height;
        }
        assert step.0 == Cursor(x, y, rowHeight) && placed == Extended(placedBefore, step.1);
        i := i + 1;
      }
      assert sprites[..i] == sprites;
      regions := regions + placed;
    }

    /** `getRegion`: the first region with that id. */
    function GetRegion(id: string): (r: Option<Region>)
      reads this
      ensures r.Some? ==> r.value in regions && r.value.id == id
      ensures r.Some? ==> exists k :: 0 <= k < |regions| && regions[k] == r.value && forall j :: 0 <= j < k ==> regions[j].id != id
      ensures r.None? <==> forall k :: 0 <= k < |regions| ==> regions[k].id != id
    {
      FirstRegion(regions, id)
    }
  }

  function FirstRegion(regions: seq<Region>, id: string): (r: Option<Region>)
    ensures r.Some? ==> r.value in regions && r.value.id == id
    ensures r.Some? ==> exists k :: 0 <= k < |regions| && regions[k] == r.value && forall j :: 0 <= j < k ==> regions[j].id != id
    ensures r.None? <==> forall k :: 0 <= k < |regions| ==> regions[k].id != id
  {
    if regions == [] then None
    else if regions[0].id == id then Some(regions[0])
    else
      var r := FirstRegion(regions[1..], id);
      assert forall k :: 1 <= k < |regions| ==> regions[k] == regions[1..][k - 1];
      r
  }
}
