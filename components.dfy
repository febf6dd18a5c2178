/**
 * Component records the systems read and write, with integer coordinates.
 * Field layouts follow the component headers; TransformComponent,
 * RigidBodyComponent and CameraFollowComponent are reconstructed from their uses.
 */
module Components {

  datatype Vec2 = Vec2(x: int, y: int)
  {
    function Plus(other: Vec2): (r: Vec2)
      ensures r.x - x == other.x && r.y - y == other.y
    {
      Vec2(x + other.x, y + other.y)
    }
  }

  /** SDL_Rect. */
  datatype Rect = Rect(x: int, y: int, w: int, h: int)

  /** SDL_Color; a brace initialiser with three values leaves the alpha at 0. */
  datatype Color = Color(r: int, g: int, b: int, a: int)

  datatype TransformComponent = TransformComponent(position: Vec2, scale: Vec2, rotation: int)

  datatype RigidBodyComponent = RigidBodyComponent(velocity: Vec2)

  datatype BoxColliderComponent = BoxColliderComponent(width: int, height: int, offset: Vec2, isColliding: bool)

  datatype AnimationComponent = AnimationComponent(
    numFrames: int, currentFrame: int, frameRateSpeed: int, isLooped: bool, startTime: int)

  /**
   * The AnimationComponent constructor: the current frame starts at 1 (not 0),
   * and the start time is the tick count at construction.
   */
  function NewAnimation(numFrames: int, frameRateSpeed: int, isLooped: bool, ticks: nat): (a: AnimationComponent)
    ensures a.currentFrame == 1 && a.startTime == ticks
    ensures a.numFrames == numFrames && a.frameRateSpeed == frameRateSpeed && a.isLooped == isLooped
  {
    AnimationComponent(numFrames, 1, frameRateSpeed, isLooped, ticks)
  }

  /** healthPercentage is read by the health-bar system; health_component.h does not declare it. */
  datatype HealthComponent = HealthComponent(
    currentHealth: int, maxHealth: int, isGodMode: bool, healthPercentage: int)

  datatype TextLabelComponent = TextLabelComponent(
    position: Vec2, text: string, assetId: string, color: Color, isFixed: bool)

  datatype KeyboardControlledComponent = KeyboardControlledComponent(
    upVelocity: Vec2, rightVelocity: Vec2, downVelocity: Vec2, leftVelocity: Vec2)

  /** hitPercentDamage is read by the emitter system; projectile_emitter_component.h does not declare it. */
  datatype ProjectileEmitterComponent = ProjectileEmitterComponent(
    projectileVelocity: Vec2, repeatFrequency: int, projectileDuration: int, hitDamage: int,
    isFriendly: bool, lastEmissionTime: int, hitPercentDamage: int)

  datatype ProjectileComponent = ProjectileComponent(
    isFriendly: bool, hitDamage: int, duration: int, startTime: int)

  /** The ProjectileComponent constructor: start time is the tick count at construction. */
  function NewProjectile(isFriendly: bool, hitDamage: int, duration: int, ticks: nat): (p: ProjectileComponent)
    ensures p.startTime == ticks && p.isFriendly == isFriendly
    ensures p.hitDamage == hitDamage && p.duration == duration
  {
    ProjectileComponent(isFriendly, hitDamage, duration, ticks)
  }
}
