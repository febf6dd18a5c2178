/**
 * KeyboardControlSystem::on_key_pressed: an arrow key sets every controlled
 * entity's velocity to the one its KeyboardControlledComponent gives for that
 * direction and turns its sprite to the matching row of the sprite sheet.
 */
module KeyboardControlSystem {
  import opened Components
  import opened Sprite

  /** SDL key codes: the arrow keys are scancodes 79-82 with bit 30 set. */
  const SDLK_RIGHT: int := 0x4000_004F
  const SDLK_LEFT: int := 0x4000_0050
  const SDLK_DOWN: int := 0x4000_0051
  const SDLK_UP: int := 0x4000_0052

  predicate IsArrowKey(symbol: int)
  {
    symbol == SDLK_UP || symbol == SDLK_RIGHT || symbol == SDLK_DOWN || symbol == SDLK_LEFT
  }

  /** The velocity an arrow key selects and the sprite-sheet row it shows. */
  function Steer(symbol: int, control: KeyboardControlledComponent, body: RigidBodyComponent, sprite: SpriteComponent)
    : (r: (RigidBodyComponent, SpriteComponent))
    ensures symbol == SDLK_UP ==> r.0.velocity == control.upVelocity && r.1.srcRect.y == 0
    ensures symbol == SDLK_RIGHT ==> r.0.velocity == control.rightVelocity && r.1.srcRect.y == sprite.height
    ensures symbol == SDLK_DOWN ==> r.0.velocity == control.downVelocity && r.1.srcRect.y == sprite.height * 2
    ensures symbol == SDLK_LEFT ==> r.0.velocity == control.leftVelocity && r.1.srcRect.y == sprite.height * 3
    ensures !IsArrowKey(symbol) ==> r == (body, sprite)
    ensures r.1.(srcRect := sprite.srcRect) == sprite && r.1.srcRect.(y := sprite.srcRect.y) == sprite.srcRect
  {
    if symbol == SDLK_UP then
      (RigidBodyComponent(control.upVelocity), sprite.(srcRect := sprite.srcRect.(y := sprite.height * 0)))
    else if symbol == SDLK_RIGHT then
      (RigidBodyComponent(control.rightVelocity), sprite.(srcRect := sprite.srcRect.(y := sprite.height * 1)))
    else if symbol == SDLK_DOWN then
      (RigidBodyComponent(control.downVelocity), sprite.(srcRect := sprite.srcRect.(y := sprite.height * 2)))
    else if symbol == SDLK_LEFT then
      (RigidBodyComponent(control.leftVelocity), sprite.(srcRect := sprite.srcRect.(y := sprite.height * 3)))
    else
      (body, sprite)
  }

  /**
   * The handler over the system's entities: controls[i], sprites[i] and
   * bodies[i] are the components of the i-th entity. The keyboard components
   * are read only.
   */
  method OnKeyPressed(symbol: int, controls: seq<KeyboardControlledComponent>,
                      sprites: array<SpriteComponent>, bodies: array<RigidBodyComponent>)
    requires |controls| == sprites.Length == bodies.Length
    modifies sprites, bodies
    ensures forall i :: 0 <= i < |controls| ==>
              (bodies[i], sprites[i]) == Steer(symbol, controls[i], old(bodies[i]), old(sprites[i]))
  {
    var i := 0;
    while i < |controls|
      invariant 0 <= i <= |controls|
      invariant forall k :: 0 <= k < i ==>
                  (bodies[k], sprites[k]) == Steer(symbol, controls[k], old(bodies[k]), old(sprites[k]))
      invariant forall k :: i <= k < |controls| ==> bodies[k] == old(bodies[k]) && sprites[k] == old(sprites[k])
    {
      var control := controls[i];
      var sprite := sprites[i];
      if symbol == SDLK_UP {
        bodies[i] := RigidBodyComponent(control.upVelocity);
        sprites[i] := sprite.(srcRect := sprite.srcRect.(y := sprite.height * 0));
      } else if symbol == SDLK_RIGHT {
        bodies[i] := RigidBodyComponent(control.rightVelocity);
        sprites[i] := sprite.(srcRect := sprite.srcRect.(y := sprite.height * 1));
      } else if symbol == SDLK_DOWN {
        bodies[i] := RigidBodyComponent(control.downVelocity);
        sprites[i] := sprite.(srcRect := sprite.srcRect.(y := sprite.height * 2));
      } else if symbol == SDLK_LEFT {
        bodies[i] := RigidBodyComponent(control.leftVelocity);
        sprites[i] := sprite.(srcRect := sprite.srcRect.(y := sprite.height * 3));
      }
      i := i + 1;
    }
  }

  /** Pressing the same arrow key twice has the effect of pressing it once. */
  lemma SteerIdempotent(symbol: int, control: KeyboardControlledComponent, body: RigidBodyComponent, sprite: SpriteComponent)
    ensures var r := Steer(symbol, control, body, sprite);
            Steer(symbol, control, r.0, r.1) == r
  {
  }

  /** The last arrow key pressed decides the state: an earlier arrow key is forgotten. */
  lemma LastArrowKeyWins(first: int, second: int, control: KeyboardControlledComponent,
                         body: RigidBodyComponent, sprite: SpriteComponent)
    requires IsArrowKey(second)
    ensures var r := Steer(first, control, body, sprite);
            Steer(second, control, r.0, r.1) == Steer(second, control, body, sprite)
  {
  }
}
