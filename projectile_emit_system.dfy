/**
 * ProjectileEmitSystem: emitters fire on a timer in Update and, for the entity
 * tagged "player", on the space key. Each shot is a new registry entity fitted
 * out by projectile_do.
 */
module ProjectileEmitSystem {
  import opened Wrappers
  import opened Components
  import opened Sprite
  import opened Ecs
  import Utils

  const SDLK_SPACE: int := 32

  /** A new projectile entity with the components projectile_do attaches. */
  datatype Projectile = Projectile(
    entity: Entity, group: string, transform: TransformComponent, body: RigidBodyComponent,
    sprite: SpriteComponent, collider: BoxColliderComponent, projectile: ProjectileComponent)

  /**
   * projectile_do: group "projectiles", a unit-scale transform at `position`, a
   * rigid body with `velocity`, a 4x4 "bullet-image" sprite on the bullet layer,
   * a 4x4 collider and a projectile component started at `ticks`.
   */
  function ProjectileDo(entity: Entity, position: Vec2, velocity: Vec2, isFriendly: bool,
                        hitPercentDamage: int, duration: int, ticks: nat): (p: Projectile)
    ensures p.entity == entity && p.group == "projectiles"
    ensures p.transform == TransformComponent(position, Vec2(1, 1), 0) && p.body.velocity == velocity
    ensures p.sprite.assetId == "bullet-image" && p.sprite.width == 4 && p.sprite.height == 4
    ensures p.sprite.layer == BulletLayer && !p.sprite.isFixed && p.sprite.srcRect == Rect(0, 0, 4, 4)
    ensures p.collider == BoxColliderComponent(4, 4, Vec2(0, 0), false)
    ensures p.projectile.startTime == ticks && p.projectile.isFriendly == isFriendly
    ensures p.projectile.hitDamage == hitPercentDamage && p.projectile.duration == duration
  {
    Projectile(entity, "projectiles",
               TransformComponent(position, Vec2(1, 1), 0),
               RigidBodyComponent(velocity),
               NewSprite("bullet-image", 4, 4, BulletLayer, 0, 0),
               BoxColliderComponent(4, 4, Vec2(0, 0), false),
               NewProjectile(isFriendly, hitPercentDamage, duration, ticks))
  }

  /**
   * Where a shot starts: the shooter's position, moved to the centre of its
   * scaled sprite when it has one (half extents with integer division).
   */
  function Muzzle(transform: TransformComponent, sprite: Option<SpriteComponent>): (p: Vec2)
    ensures sprite.None? ==> p == transform.position
    ensures sprite.Some? ==> p == Vec2(transform.position.x + Utils.TruncDiv(transform.scale.x * sprite.value.width, 2),
                                       transform.position.y + Utils.TruncDiv(transform.scale.y * sprite.value.height, 2))
  {
    match sprite
    case None => transform.position
    case Some(s) => Vec2(transform.position.x + Utils.TruncDiv(transform.scale.x * s.width, 2),
                         transform.position.y + Utils.TruncDiv(transform.scale.y * s.height, 2))
  }

  // Timed emission (Update).

  /** The timer test of Update: a zero frequency never fires. */
  predicate Fires(emitter: ProjectileEmitterComponent, ticks: nat)
  {
    emitter.repeatFrequency != 0 && ticks - emitter.lastEmissionTime > Utils.AsUint32(emitter.repeatFrequency)
  }

  /** The emitter after Update: a firing emitter records the current tick count. */
  function AfterUpdate(emitter: ProjectileEmitterComponent, ticks: nat): (r: ProjectileEmitterComponent)
    ensures Fires(emitter, ticks) ==> r.lastEmissionTime == ticks
    ensures !Fires(emitter, ticks) ==> r == emitter
    ensures r.(lastEmissionTime := emitter.lastEmissionTime) == emitter
  {
    if Fires(emitter, ticks) then emitter.(lastEmissionTime := ticks) else emitter
  }

  /** The projectiles Update creates for the first n emitters, with ids from firstId on. */
  function Emitted(emitters: seq<ProjectileEmitterComponent>, transforms: seq<TransformComponent>,
                   sprites: seq<Option<SpriteComponent>>, n: nat, ticks: nat, firstId: int): (ps: seq<Projectile>)
    requires n <= |emitters| == |transforms| == |sprites|
    ensures |ps| <= n
  {
    if n == 0 then []
    else
      var ps := Emitted(emitters, transforms, sprites, n - 1, ticks, firstId);
      ps + ShotOf(emitters[n - 1], transforms[n - 1], sprites[n - 1], ticks, firstId + |ps|)
  }

  /** One emitter's part of Update: a projectile with the given id when it fires, nothing otherwise. */
  function ShotOf(emitter: ProjectileEmitterComponent, transform: TransformComponent, sprite: Option<SpriteComponent>,
                  ticks: nat, id: int): (s: seq<Projectile>)
  {
    if Fires(emitter, ticks)
    then [ProjectileDo(Entity(id), Muzzle(transform, sprite), emitter.projectileVelocity, emitter.isFriendly,
                       emitter.hitPercentDamage, emitter.projectileDuration, ticks)]
    else []
  }

  lemma EmittedSnoc(emitters: seq<ProjectileEmitterComponent>, transforms: seq<TransformComponent>,
                    sprites: seq<Option<SpriteComponent>>, i: nat, ticks: nat, firstId: int)
    requires i < |emitters| == |transforms| == |sprites|
    ensures var ps := Emitted(emitters, transforms, sprites, i, ticks, firstId);
            Emitted(emitters, transforms, sprites, i + 1, ticks, firstId)
            == ps + ShotOf(emitters[i], transforms[i], sprites[i], ticks, firstId + |ps|)
  {
  }

  /** Update numbers its projectiles consecutively, from the registry's counter on. */
  lemma {:induction false} EmittedIds(emitters: seq<ProjectileEmitterComponent>, transforms: seq<TransformComponent>,
                                      sprites: seq<Option<SpriteComponent>>, n: nat, ticks: nat, firstId: int)
    requires n <= |emitters| == |transforms| == |sprites|
    ensures forall k :: 0 <= k < |Emitted(emitters, transforms, sprites, n, ticks, firstId)| ==>
              Emitted(emitters, transforms, sprites, n, ticks, firstId)[k].entity == Entity(firstId + k)
  {
    if n > 0 {
      EmittedIds(emitters, transforms, sprites, n - 1, ticks, firstId);
      var ps: seq<Projectile> := Emitted(emitters, transforms, sprites, n - 1, ticks, firstId);
      var shot: seq<Projectile> := ShotOf(emitters[n - 1], transforms[n - 1], sprites[n - 1], ticks, firstId + |ps|);
      assert Emitted(emitters, transforms, sprites, n, ticks, firstId) == ps + shot;
      forall k | k >= |ps| && k < |ps| + |shot|
        ensures (ps + shot)[k].entity == Entity(firstId + k)
      {
        assert (ps + shot)[k] == shot[k - |ps|];
      }
    }
  }

  function EntitiesOf(ps: seq<Projectile>): (es: seq<Entity>)
    ensures |es| == |ps| && forall k :: 0 <= k < |ps| ==> es[k] == ps[k].entity
  {
    seq(|ps|, k requires 0 <= k < |ps| => ps[k].entity)
  }

  lemma EntitiesOfSnoc(ps: seq<Projectile>, p: Projectile)
    ensures EntitiesOf(ps + [p]) == EntitiesOf(ps) + [p.entity]
    ensures (set e | e in EntitiesOf(ps + [p])) == (set e | e in EntitiesOf(ps)) + {p.entity}
  {
    assert EntitiesOf(ps + [p]) == EntitiesOf(ps) + [p.entity];
  }

  /** The registry has handed out exactly the entities of `ps`, after `created0` and `pending0`. */
  ghost predicate Extended(registry: Registry, created0: seq<Entity>, pending0: set<Entity>, ps: seq<Projectile>)
    reads registry
  {
    && registry.Valid()
    && registry.numEntities == |created0| + |ps|
    && registry.created == created0 + EntitiesOf(ps)
    && registry.entitiesToBeAdded == pending0 + set e | e in EntitiesOf(ps)
  }

  /**
   * The body of Update's loop for an emitter that fires: the projectile starts
   * at the muzzle, takes the emitter velocity and gets the next registry id.
   */
  method Emit(registry: Registry, emitter: ProjectileEmitterComponent, transform: TransformComponent,
              sprite: Option<SpriteComponent>, ticks: nat, ghost projectiles: seq<Projectile>,
              ghost created0: seq<Entity>, ghost pending0: set<Entity>)
    returns (p: Projectile)
    requires Extended(registry, created0, pending0, projectiles)
    modifies registry
    ensures p == ProjectileDo(Entity(old(registry.numEntities)), Muzzle(transform, sprite), emitter.projectileVelocity,
                              emitter.isFriendly, emitter.hitPercentDamage, emitter.projectileDuration, ticks)
    ensures Extended(registry, created0, pending0, projectiles + [p])
  {
    var position := Muzzle(transform, sprite);
    var entity := registry.CreateEntity();
    p := ProjectileDo(entity, position, emitter.projectileVelocity, emitter.isFriendly,
                      emitter.hitPercentDamage, emitter.projectileDuration, ticks);
    EntitiesOfSnoc(projectiles, p);
  }

  /** The direction on_key_pressed gives a shot along one axis: the sign of the shooter's velocity. */
  method Direction(v: int) returns (d: int)
    ensures d == Utils.Sign(v)
  {
    d := 0;
    if v > 0 { d := 1; }
    if v < 0 { d := -1; }
  }

  /** The body of on_key_pressed's loop for a player entity: one shot in the shooter's direction. */
  method Shoot(registry: Registry, emitter: ProjectileEmitterComponent, transform: TransformComponent,
               body: RigidBodyComponent, sprite: Option<SpriteComponent>, ticks: nat, ghost projectiles: seq<Projectile>,
              ghost created0: seq<Entity>, ghost pending0: set<Entity>)
    returns (p: Projectile)
    requires Extended(registry, created0, pending0, projectiles)
    modifies registry
    ensures p == Shot(Entity(old(registry.numEntities)), emitter, transform, body, sprite, ticks)
    ensures Extended(registry, created0, pending0, projectiles + [p])
  {
    var position := Muzzle(transform, sprite);
    var dirX := Direction(body.velocity.x);
    var dirY := Direction(body.velocity.y);
    var velocity := Vec2(emitter.projectileVelocity.x * dirX, emitter.projectileVelocity.y * dirY);
    var entity := registry.CreateEntity();
    p := ProjectileDo(entity, position, velocity, emitter.isFriendly,
                      emitter.hitPercentDamage, emitter.projectileDuration, ticks);
    EntitiesOfSnoc(projectiles, p);
  }

  /**
   * ProjectileEmitSystem::Update over the system's entities: emitters[i],
   * transforms[i] and sprites[i] (None when the entity has no sprite) belong to
   * the i-th entity. Each firing emitter creates one projectile entity with the
   * next registry id and remembers the tick count.
   */
  method Update(registry: Registry, emitters: array<ProjectileEmitterComponent>, transforms: seq<TransformComponent>,
                sprites: seq<Option<SpriteComponent>>, ticks: nat)
    returns (projectiles: seq<Projectile>)
    requires registry.Valid()
    requires emitters.Length == |transforms| == |sprites|
    requires ticks < Utils.UINT32_LIMIT
    requires forall i :: 0 <= i < emitters.Length ==> 0 <= emitters[i].lastEmissionTime <= ticks
    modifies registry, emitters
    ensures registry.Valid()
    ensures forall i :: 0 <= i < emitters.Length ==> emitters[i] == AfterUpdate(old(emitters[i]), ticks)
    ensures projectiles == Emitted(old(emitters[..]), transforms, sprites, emitters.Length, ticks, old(registry.numEntities))
    ensures registry.numEntities == old(registry.numEntities) + |projectiles|
    ensures registry.created == old(registry.created) + EntitiesOf(projectiles)
    ensures registry.entitiesToBeAdded == old(registry.entitiesToBeAdded) + set e | e in EntitiesOf(projectiles)
  {
    ghost var original := emitters[..];
    ghost var firstId := registry.numEntities;
    ghost var created0 := registry.created;
    ghost var pending0 := registry.entitiesToBeAdded;
    projectiles := [];
    var i := 0;
    while i < emitters.Length
      invariant 0 <= i <= emitters.Length
      invariant Extended(registry, created0, pending0, projectiles)
      invariant forall k :: 0 <= k < i ==> emitters[k] == AfterUpdate(original[k], ticks)
      invariant forall k :: i <= k < emitters.Length ==> emitters[k] == original[k]
      invariant projectiles == Emitted(original, transforms, sprites, i, ticks, firstId)
      invariant firstId == |created0|
    {
      var emitter := emitters[i];
      assert emitter == original[i];
      var shot, updated := UpdateEmitter(registry, emitter, transforms[i], sprites[i], ticks, projectiles, created0, pending0);
      EmittedSnoc(original, transforms, sprites, i, ticks, firstId);
      emitters[i] := updated;
      projectiles := projectiles + shot;
      i := i + 1;
    }
  }

  /**
   * The body of Update's loop for the i-th emitter: skip a zero frequency; when
   * the timer has run out, emit one projectile and record the tick count.
   */
  method UpdateEmitter(registry: Registry, emitter: ProjectileEmitterComponent,
                       transform: TransformComponent, sprite: Option<SpriteComponent>, ticks: nat,
                       ghost projectiles: seq<Projectile>,
              ghost created0: seq<Entity>, ghost pending0: set<Entity>)
    returns (shot: seq<Projectile>, updated: ProjectileEmitterComponent)
    requires Extended(registry, created0, pending0, projectiles)
    modifies registry
    ensures updated == AfterUpdate(emitter, ticks)
    ensures shot == ShotOf(emitter, transform, sprite, ticks, old(registry.numEntities))
    ensures Extended(registry, created0, pending0, projectiles + shot)
  {
    updated := emitter;
    if emitter.repeatFrequency == 0 {
      assert projectiles + [] == projectiles;
      return [], updated;
    }
    if ticks - emitter.lastEmissionTime > Utils.AsUint32(emitter.repeatFrequency) {
      var p := Emit(registry, emitter, transform, sprite, ticks, projectiles, created0, pending0);
      updated := emitter.(lastEmissionTime := ticks);
      shot := [p];
    } else {
      assert projectiles + [] == projectiles;
      shot := [];
    }
  }

  /** An emitter that has just fired does not fire again at the same tick count. */
  lemma FiresAtMostOncePerTick(emitter: ProjectileEmitterComponent, ticks: nat)
    ensures !Fires(AfterUpdate(emitter, ticks), ticks)
  {
  }

  /** The number of emitters among the first n that fire. */
  function FiringCount(emitters: seq<ProjectileEmitterComponent>, n: nat, ticks: nat): (c: nat)
    requires n <= |emitters|
    ensures c <= n
  {
    if n == 0 then 0 else FiringCount(emitters, n - 1, ticks) + (if Fires(emitters[n - 1], ticks) then 1 else 0)
  }

  /** Update creates exactly one projectile per firing emitter, and none for the others. */
  lemma {:induction false} EmittedCount(emitters: seq<ProjectileEmitterComponent>, transforms: seq<TransformComponent>,
                                        sprites: seq<Option<SpriteComponent>>, n: nat, ticks: nat, firstId: int)
    requires n <= |emitters| == |transforms| == |sprites|
    ensures |Emitted(emitters, transforms, sprites, n, ticks, firstId)| == FiringCount(emitters, n, ticks)
  {
    if n > 0 {
      EmittedCount(emitters, transforms, sprites, n - 1, ticks, firstId);
    }
  }

  /** With no entity firing (say, every frequency zero), Update creates nothing. */
  lemma {:induction false} SilentEmittersEmitNothing(emitters: seq<ProjectileEmitterComponent>, transforms: seq<TransformComponent>,
                                                     sprites: seq<Option<SpriteComponent>>, n: nat, ticks: nat, firstId: int)
    requires n <= |emitters| == |transforms| == |sprites|
    requires forall k :: 0 <= k < n ==> emitters[k].repeatFrequency == 0
    ensures Emitted(emitters, transforms, sprites, n, ticks, firstId) == []
  {
    if n > 0 {
      SilentEmittersEmitNothing(emitters, transforms, sprites, n - 1, ticks, firstId);
    }
  }

  // Player shots (on_key_pressed).

  /** The shot of a player entity: the emitter speed on each axis times the sign of the shooter's velocity. */
  function Shot(entity: Entity, emitter: ProjectileEmitterComponent, transform: TransformComponent,
                body: RigidBodyComponent, sprite: Option<SpriteComponent>, ticks: nat): (p: Projectile)
    ensures p.body.velocity.x == emitter.projectileVelocity.x * Utils.Sign(body.velocity.x)
    ensures p.body.velocity.y == emitter.projectileVelocity.y * Utils.Sign(body.velocity.y)
    ensures p.transform.position == Muzzle(transform, sprite)
    ensures p.projectile.duration == emitter.projectileDuration && p.projectile.hitDamage == emitter.hitPercentDamage
    ensures p.entity == entity
  {
    ProjectileDo(entity, Muzzle(transform, sprite),
                 Vec2(emitter.projectileVelocity.x * Utils.Sign(body.velocity.x),
                      emitter.projectileVelocity.y * Utils.Sign(body.velocity.y)),
                 emitter.isFriendly, emitter.hitPercentDamage, emitter.projectileDuration, ticks)
  }

  /** The shots of the first n entities on the space key, with ids from firstId on. */
  function Shots(isPlayer: seq<bool>, emitters: seq<ProjectileEmitterComponent>, transforms: seq<TransformComponent>,
                 bodies: seq<RigidBodyComponent>, sprites: seq<Option<SpriteComponent>>, n: nat, ticks: nat, firstId: int)
    : (ps: seq<Projectile>)
    requires n <= |isPlayer| == |emitters| == |transforms| == |bodies| == |sprites|
    ensures |ps| <= n
    ensures forall k :: 0 <= k < |ps| ==> ps[k].entity == Entity(firstId + k)
    ensures (forall k :: 0 <= k < n ==> !isPlayer[k]) ==> ps == []
  {
    if n == 0 then []
    else
      var ps := Shots(isPlayer, emitters, transforms, bodies, sprites, n - 1, ticks, firstId);
      if !isPlayer[n - 1] then ps
      else ps + [Shot(Entity(firstId + |ps|), emitters[n - 1], transforms[n - 1], bodies[n - 1], sprites[n - 1], ticks)]
  }

  /**
   * on_key_pressed over the system's entities: isPlayer[i] says whether the i-th
   * entity has the tag "player"; its emitter, transform, rigid body and sprite
   * are the other inputs. Only the space key shoots, and only player entities.
   */
  method OnKeyPressed(registry: Registry, symbol: int, isPlayer: seq<bool>, emitters: seq<ProjectileEmitterComponent>,
                      transforms: seq<TransformComponent>, bodies: seq<RigidBodyComponent>,
                      sprites: seq<Option<SpriteComponent>>, ticks: nat)
    returns (projectiles: seq<Projectile>)
    requires registry.Valid()
    requires |isPlayer| == |emitters| == |transforms| == |bodies| == |sprites|
    modifies registry
    ensures registry.Valid()
    ensures symbol != SDLK_SPACE ==> projectiles == []
    ensures symbol == SDLK_SPACE ==>
              projectiles == Shots(isPlayer, emitters, transforms, bodies, sprites, |isPlayer|, ticks, old(registry.numEntities))
    ensures registry.numEntities == old(registry.numEntities) + |projectiles|
    ensures registry.created == old(registry.created) + EntitiesOf(projectiles)
    ensures registry.entitiesToBeAdded == old(registry.entitiesToBeAdded) + set e | e in EntitiesOf(projectiles)
  {
    projectiles := [];
    if symbol != SDLK_SPACE {
      return;
    }
    ghost var firstId := registry.numEntities;
    ghost var created0 := registry.created;
    ghost var pending0 := registry.entitiesToBeAdded;
    var i := 0;
    while i < |isPlayer|
      invariant 0 <= i <= |isPlayer|
      invariant Extended(registry, created0, pending0, projectiles)
      invariant projectiles == Shots(isPlayer, emitters, transforms, bodies, sprites, i, ticks, firstId)
    {
      if isPlayer[i] {
        var p := Shoot(registry, emitters[i], transforms[i], bodies[i], sprites[i], ticks, projectiles, created0, pending0);
        projectiles := projectiles + [p];
      }
      i := i + 1;
    }
  }

  /** A shooter standing still shoots a projectile that stands still. */
  lemma StillShooterStillShot(entity: Entity, emitter: ProjectileEmitterComponent, transform: TransformComponent,
                              sprite: Option<SpriteComponent>, ticks: nat)
    ensures Shot(entity, emitter, transform, RigidBodyComponent(Vec2(0, 0)), sprite, ticks).body.velocity == Vec2(0, 0)
  {
  }
}
