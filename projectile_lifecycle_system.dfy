/**
 * ProjectileLifecycleSystem::Update: a projectile is killed once it leaves the
 * area the camera can show or once it has lived longer than its duration. The
 * kill requests are collected as a set of entities; no component changes.
 */
module ProjectileLifecycleSystem {
  import opened Components
  import opened Ecs
  import Utils

  /** The screen test: off the left, right, top or bottom edge, camera included. */
  predicate OffScreen(position: Vec2, camera: Rect)
  {
    position.x < 0 - camera.x || position.x > camera.x + camera.w ||
    position.y < 0 - camera.y || position.y > camera.y + camera.h
  }

  /**
   * The age test, on the elapsed milliseconds since the projectile was made. The
   * elapsed time is a Uint32, so the int duration is compared as a Uint32: a
   * negative duration reads as a very long one.
   */
  predicate Expired(projectile: ProjectileComponent, ticks: nat)
  {
    ticks - projectile.startTime > Utils.AsUint32(projectile.duration)
  }

  predicate Doomed(projectile: ProjectileComponent, position: Vec2, camera: Rect, ticks: nat)
  {
    OffScreen(position, camera) || Expired(projectile, ticks)
  }

  /**
   * ProjectileLifecycleSystem::Update over the system's entities: projectiles[i]
   * and positions[i] belong to entities[i]. The result is the set of entities
   * on which Kill is called.
   */
  method Update(entities: seq<Entity>, projectiles: seq<ProjectileComponent>, positions: seq<Vec2>,
                camera: Rect, ticks: nat)
    returns (killed: set<Entity>)
    requires |entities| == |projectiles| == |positions|
    requires ticks < Utils.UINT32_LIMIT
    requires forall i :: 0 <= i < |projectiles| ==> 0 <= projectiles[i].startTime <= ticks
    ensures forall e :: e in killed <==>
              exists i :: 0 <= i < |entities| && entities[i] == e && Doomed(projectiles[i], positions[i], camera, ticks)
  {
    killed := {};
    var i := 0;
    while i < |entities|
      invariant 0 <= i <= |entities|
      invariant forall e :: e in killed <==>
                  exists k :: 0 <= k < i && entities[k] == e && Doomed(projectiles[k], positions[k], camera, ticks)
    {
      var projectile := projectiles[i];
      var position := positions[i];
      if position.x < 0 - camera.x || position.x > camera.x + camera.w ||
         position.y < 0 - camera.y || position.y > camera.y + camera.h {
        killed := killed + {entities[i]};
      }
      if ticks - projectile.startTime > Utils.AsUint32(projectile.duration) {
        killed := killed + {entities[i]};
      }
      i := i + 1;
    }
  }

  /** A projectile on screen and within its lifetime is kept. */
  lemma InsideAndYoungSurvives(projectile: ProjectileComponent, position: Vec2, camera: Rect, ticks: nat)
    requires 0 - camera.x <= position.x <= camera.x + camera.w
    requires 0 - camera.y <= position.y <= camera.y + camera.h
    requires 0 <= projectile.duration < Utils.UINT32_LIMIT && ticks - projectile.startTime <= projectile.duration
    ensures !Doomed(projectile, position, camera, ticks)
  {
  }

  /**
   * Once a projectile is expired, it stays expired at every later tick, so a
   * kill request for age is never withdrawn by waiting.
   */
  lemma ExpiryIsPermanent(projectile: ProjectileComponent, ticks: nat, later: nat)
    requires ticks <= later
    requires Expired(projectile, ticks)
    ensures Expired(projectile, later)
  {
  }
}
