/**
 * AnimationSystem::Update: each system entity carries an AnimationComponent and
 * a SpriteComponent; the frame is chosen from the elapsed ticks and the sprite's
 * source rectangle is moved to that frame's column.
 */
module AnimationSystem {
  import opened Components
  import opened Sprite

  /**
   * What the update needs of one animation: the tick count has reached its start
   * time, the frame rate is not negative (the product is computed unsigned), and
   * the frame count is positive wherever the formula divides by it.
   */
  predicate Animatable(a: AnimationComponent, ticks: nat)
  {
    && 0 <= a.startTime <= ticks
    && a.frameRateSpeed >= 0
    && (a.isLooped || a.currentFrame != a.numFrames - 1 ==> a.numFrames > 0)
  }

  /** The frame a looping animation shows `ticks` milliseconds after start-up. */
  function LoopFrame(a: AnimationComponent, ticks: nat): (f: int)
    requires 0 <= a.startTime <= ticks && a.frameRateSpeed >= 0 && a.numFrames > 0
    ensures 0 <= f < a.numFrames
  {
    ((ticks - a.startTime) * a.frameRateSpeed / 1000) % a.numFrames
  }

  /**
   * The new current frame: a non-looping animation already on its last frame
   * stays there; every other animation takes the looping formula.
   */
  function NextFrame(a: AnimationComponent, ticks: nat): (f: int)
    requires Animatable(a, ticks)
    ensures a.numFrames > 0 ==> 0 <= f < a.numFrames
    ensures a.isLooped ==> f == LoopFrame(a, ticks)
    ensures !a.isLooped && a.currentFrame == a.numFrames - 1 ==> f == a.numFrames - 1
    ensures !a.isLooped && a.currentFrame != a.numFrames - 1 ==> f == LoopFrame(a, ticks)
  {
    if a.isLooped then LoopFrame(a, ticks)
    else if a.currentFrame == a.numFrames - 1 then a.numFrames - 1
    else LoopFrame(a, ticks)
  }

  /** The animation after one update: only the current frame changes. */
  function Animate(a: AnimationComponent, ticks: nat): (r: AnimationComponent)
    requires Animatable(a, ticks)
    ensures r.(currentFrame := a.currentFrame) == a
    ensures r.currentFrame == NextFrame(a, ticks)
  {
    a.(currentFrame := NextFrame(a, ticks))
  }

  /** The sprite showing `frame`: its source x is width * frame; nothing else changes. */
  function ShowFrame(s: SpriteComponent, frame: int): (r: SpriteComponent)
    ensures r.srcRect.x == s.width * frame
    ensures r.(srcRect := s.srcRect) == s && r.srcRect.(x := s.srcRect.x) == s.srcRect
  {
    s.(srcRect := s.srcRect.(x := s.width * frame))
  }

  /**
   * AnimationSystem::Update over the system's entities: animations[i] and
   * sprites[i] are the components of the i-th entity.
   */
  method Update(animations: array<AnimationComponent>, sprites: array<SpriteComponent>, ticks: nat)
    requires animations.Length == sprites.Length
    requires forall i :: 0 <= i < animations.Length ==> Animatable(animations[i], ticks)
    modifies animations, sprites
    ensures forall i :: 0 <= i < animations.Length ==>
              animations[i] == Animate(old(animations[i]), ticks)
              && sprites[i] == ShowFrame(old(sprites[i]), animations[i].currentFrame)
  {
    var i := 0;
    while i < animations.Length
      invariant 0 <= i <= animations.Length
      invariant forall k :: 0 <= k < i ==>
                  animations[k] == Animate(old(animations[k]), ticks)
                  && sprites[k] == ShowFrame(old(sprites[k]), animations[k].currentFrame)
      invariant forall k :: i <= k < animations.Length ==>
                  animations[k] == old(animations[k]) && sprites[k] == old(sprites[k])
    {
      var animation := animations[i];
      var sprite := sprites[i];
      if animation.isLooped {
        animation := animation.(currentFrame := ((ticks - animation.startTime) * animation.frameRateSpeed / 1000) % animation.numFrames);
      } else {
        if animation.currentFrame == animation.numFrames - 1 {
          animation := animation.(currentFrame := animation.numFrames - 1);
        } else {
          animation := animation.(currentFrame := ((ticks - animation.startTime) * animation.frameRateSpeed / 1000) % animation.numFrames);
        }
      }
      sprite := sprite.(srcRect := sprite.srcRect.(x := sprite.width * animation.currentFrame));
      animations[i] := animation;
      sprites[i] := sprite;
      i := i + 1;
    }
  }

  /** The animation after one update per tick count in `ticks`, in order. */
  function Run(a: AnimationComponent, ticks: seq<nat>): (r: AnimationComponent)
    requires forall k :: 0 <= k < |ticks| ==> a.startTime <= ticks[k]
    requires 0 <= a.startTime && a.frameRateSpeed >= 0 && a.numFrames > 0
    ensures r.(currentFrame := a.currentFrame) == a
    ensures 0 < |ticks| ==> 0 <= r.currentFrame < a.numFrames
  {
    if ticks == [] then a
    else Animate(Run(a, ticks[..|ticks| - 1]), ticks[|ticks| - 1])
  }

  /** A non-looping animation that has reached its last frame keeps it from then on. */
  lemma {:induction false} LastFrameIsFinal(a: AnimationComponent, ticks: seq<nat>)
    requires forall k :: 0 <= k < |ticks| ==> a.startTime <= ticks[k]
    requires 0 <= a.startTime && a.frameRateSpeed >= 0 && a.numFrames > 0
    requires !a.isLooped && a.currentFrame == a.numFrames - 1
    ensures Run(a, ticks) == a
  {
    if ticks != [] {
      LastFrameIsFinal(a, ticks[..|ticks| - 1]);
    }
  }

  /**
   * The constructor starts every animation on frame 1, so a fresh non-looping
   * animation of two frames already sits on its last frame and never leaves it.
   */
  lemma FreshTwoFrameAnimationStaysOnFrameOne(frameRateSpeed: int, start: nat, ticks: seq<nat>)
    requires frameRateSpeed >= 0
    requires forall k :: 0 <= k < |ticks| ==> start <= ticks[k]
    ensures Run(NewAnimation(2, frameRateSpeed, false, start), ticks).currentFrame == 1
  {
    LastFrameIsFinal(NewAnimation(2, frameRateSpeed, false, start), ticks);
  }
}
