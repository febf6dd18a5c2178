/**
 * CollisionSystem: axis-aligned box overlap between the colliders of the
 * system's entities. Update clears every collision flag, then tests each pair
 * of entries once and flags both members of every overlapping pair.
 */
module CollisionSystem {
  import opened Components
  import opened Ecs

  /** A collider box in world coordinates: top-left corner and extent. */
  datatype Box = Box(position: Vec2, width: int, height: int)

  /** The box of an entity: its position plus the collider offset, the collider size times the scale. */
  function BoxOf(transform: TransformComponent, collider: BoxColliderComponent): (b: Box)
    ensures b.position == transform.position.Plus(collider.offset)
    ensures b.width == collider.width * transform.scale.x && b.height == collider.height * transform.scale.y
  {
    Box(transform.position.Plus(collider.offset), collider.width * transform.scale.x, collider.height * transform.scale.y)
  }

  /** check_collision: strict overlap on both axes. */
  predicate CheckCollision(a: Box, b: Box)
  {
    && a.position.x < b.position.x + b.width
    && a.position.x + a.width > b.position.x
    && a.position.y < b.position.y + b.height
    && a.position.y + a.height > b.position.y
  }

  lemma CheckCollisionSymmetric(a: Box, b: Box)
    ensures CheckCollision(a, b) == CheckCollision(b, a)
  {
  }

  /** Boxes that only share an edge do not collide. */
  lemma TouchingEdgesDoNotCollide(a: Box, b: Box)
    requires b.position.x == a.position.x + a.width || b.position.y == a.position.y + a.height
    ensures !CheckCollision(a, b) && !CheckCollision(b, a)
  {
  }

  /** Entries k and m are different entities whose boxes overlap. */
  ghost predicate Overlaps(entities: seq<Entity>, boxes: seq<Box>, k: int, m: int)
    requires |entities| == |boxes|
  {
    0 <= k < |entities| && 0 <= m < |entities| && entities[k] != entities[m] && CheckCollision(boxes[k], boxes[m])
  }

  /** Entry k overlaps some other entity of the list. */
  ghost predicate Hit(entities: seq<Entity>, boxes: seq<Box>, k: int)
    requires |entities| == |boxes|
  {
    exists m :: Overlaps(entities, boxes, k, m)
  }

  /** The lower and the higher index of a pair: the row and the column of the nested loops that test it. */
  function Min(a: int, b: int): int { if a <= b then a else b }
  function Max(a: int, b: int): int { if a <= b then b else a }

  /**
   * Entry k has been flagged once the pairs (a, b) with a < i, or a == i and
   * a <= b < j, have been tested: the pairs the nested loops have visited.
   */
  ghost predicate Covered(entities: seq<Entity>, boxes: seq<Box>, k: int, i: int, j: int)
    requires |entities| == |boxes|
  {
    exists m :: Overlaps(entities, boxes, k, m) && (Min(k, m) < i || (Min(k, m) == i && Max(k, m) < j))
  }

  lemma OverlapsSymmetric(entities: seq<Entity>, boxes: seq<Box>, k: int, m: int)
    requires |entities| == |boxes|
    ensures Overlaps(entities, boxes, k, m) == Overlaps(entities, boxes, m, k)
  {
    if 0 <= k < |entities| && 0 <= m < |entities| {
      CheckCollisionSymmetric(boxes[k], boxes[m]);
    }
  }

  /** Testing pair (i, j) adds exactly its two members, when they overlap. */
  lemma CoveredStep(entities: seq<Entity>, boxes: seq<Box>, k: int, i: int, j: int)
    requires |entities| == |boxes|
    requires 0 <= i <= j
    ensures Covered(entities, boxes, k, i, j + 1)
            == (Covered(entities, boxes, k, i, j) || (Overlaps(entities, boxes, i, j) && (k == i || k == j)))
  {
    if Covered(entities, boxes, k, i, j + 1) && !Covered(entities, boxes, k, i, j) {
      var m :| Overlaps(entities, boxes, k, m) && (Min(k, m) < i || (Min(k, m) == i && Max(k, m) < j + 1));
      assert Min(k, m) == i && Max(k, m) == j;
      OverlapsSymmetric(entities, boxes, k, m);
    }
    if Overlaps(entities, boxes, i, j) && k == i {
      assert Overlaps(entities, boxes, k, j) && Min(k, j) == i && Max(k, j) == j;
    }
    if Overlaps(entities, boxes, i, j) && k == j {
      OverlapsSymmetric(entities, boxes, i, j);
      assert Overlaps(entities, boxes, k, i) && Min(k, i) == i && Max(k, i) == j;
    }
  }

  /** Finishing row i is starting row i + 1. */
  lemma CoveredRowDone(entities: seq<Entity>, boxes: seq<Box>, k: int, i: int)
    requires |entities| == |boxes|
    ensures Covered(entities, boxes, k, i, |entities|) == Covered(entities, boxes, k, i + 1, i + 1)
  {
    if Covered(entities, boxes, k, i + 1, i + 1) {
      var m :| Overlaps(entities, boxes, k, m) && (Min(k, m) < i + 1 || (Min(k, m) == i + 1 && Max(k, m) < i + 1));
      assert Min(k, m) < i || (Min(k, m) == i && Max(k, m) < |entities|);
    }
  }

  /** Once every row is done, being flagged is overlapping some other entity. */
  lemma CoveredAll(entities: seq<Entity>, boxes: seq<Box>, k: int)
    requires |entities| == |boxes|
    ensures Covered(entities, boxes, k, |entities|, |entities|) == Hit(entities, boxes, k)
  {
    if Hit(entities, boxes, k) {
      var m :| Overlaps(entities, boxes, k, m);
      assert Min(k, m) < |entities|;
    }
  }

  /** The boxes of all entries, from their transforms and colliders. */
  function Boxes(transforms: seq<TransformComponent>, colliders: seq<BoxColliderComponent>): (bs: seq<Box>)
    requires |transforms| == |colliders|
    ensures |bs| == |transforms|
    ensures forall k :: 0 <= k < |bs| ==> bs[k] == BoxOf(transforms[k], colliders[k])
  {
    seq(|transforms|, k requires 0 <= k < |transforms| => BoxOf(transforms[k], colliders[k]))
  }

  /**
   * CollisionSystem::Update over the system's entities: transforms[i] and
   * colliders[i] belong to entities[i]. Afterwards an entry is flagged exactly
   * when it overlaps a different entity of the list; nothing but the flags
   * changes.
   */
  method Update(entities: seq<Entity>, transforms: seq<TransformComponent>, colliders: array<BoxColliderComponent>)
    requires |entities| == |transforms| == colliders.Length
    modifies colliders
    ensures forall k :: 0 <= k < colliders.Length ==>
              colliders[k] == old(colliders[k]).(isColliding := Hit(entities, Boxes(transforms, old(colliders[..])), k))
  {
    ghost var boxes := Boxes(transforms, colliders[..]);
    ghost var original := colliders[..];
    var n := colliders.Length;
    var r := 0;
    while r < n
      invariant 0 <= r <= n
      invariant forall k :: 0 <= k < r ==> colliders[k] == original[k].(isColliding := false)
      invariant forall k :: r <= k < n ==> colliders[k] == original[k]
    {
      colliders[r] := colliders[r].(isColliding := false);
      r := r + 1;
    }

    var i := 0;
    while i < n
      invariant 0 <= i <= n
      invariant forall k :: 0 <= k < n ==>
                  colliders[k] == original[k].(isColliding := Covered(entities, boxes, k, i, i))
    {
      CollideRow(entities, transforms, colliders, i, boxes, original);
      forall k | 0 <= k < n
        ensures Covered(entities, boxes, k, i, n) == Covered(entities, boxes, k, i + 1, i + 1)
      {
        CoveredRowDone(entities, boxes, k, i);
      }
      i := i + 1;
    }
    forall k | 0 <= k < n
      ensures colliders[k] == original[k].(isColliding := Hit(entities, boxes, k))
    {
      CoveredAll(entities, boxes, k);
    }
  }

  /** The inner loop of Update: entry i against entries i, i + 1, ..., skipping equal entities. */
  method CollideRow(entities: seq<Entity>, transforms: seq<TransformComponent>, colliders: array<BoxColliderComponent>,
                    i: int, ghost boxes: seq<Box>, ghost original: seq<BoxColliderComponent>)
    requires |entities| == |transforms| == colliders.Length == |original|
    requires 0 <= i < colliders.Length
    requires boxes == Boxes(transforms, original)
    requires forall k :: 0 <= k < colliders.Length ==>
               colliders[k] == original[k].(isColliding := Covered(entities, boxes, k, i, i))
    modifies colliders
    ensures forall k :: 0 <= k < colliders.Length ==>
              colliders[k] == original[k].(isColliding := Covered(entities, boxes, k, i, colliders.Length))
  {
    var n := colliders.Length;
    var a := entities[i];
    var aTransform := transforms[i];
    var j := i;
    while j < n
      invariant i <= j <= n
      invariant forall k :: 0 <= k < n ==>
                  colliders[k] == original[k].(isColliding := Covered(entities, boxes, k, i, j))
    {
      var b := entities[j];
      if a == b {
        assert !Overlaps(entities, boxes, i, j);
        forall k | 0 <= k < n
          ensures Covered(entities, boxes, k, i, j + 1) == Covered(entities, boxes, k, i, j)
        {
          CoveredStep(entities, boxes, k, i, j);
        }
        j := j + 1;
        continue;
      }
      var aCollider := colliders[i];
      var bTransform := transforms[j];
      var bCollider := colliders[j];
      var collisionHappened := CheckCollision(BoxOf(aTransform, aCollider), BoxOf(bTransform, bCollider));
      assert BoxOf(aTransform, aCollider) == boxes[i] && BoxOf(bTransform, bCollider) == boxes[j];
      assert collisionHappened == Overlaps(entities, boxes, i, j);
      forall k | 0 <= k < n
        ensures Covered(entities, boxes, k, i, j + 1)
                == (Covered(entities, boxes, k, i, j) || (collisionHappened && (k == i || k == j)))
      {
        CoveredStep(entities, boxes, k, i, j);
      }
      if collisionHappened {
        colliders[i] := colliders[i].(isColliding := true);
        colliders[j] := colliders[j].(isColliding := true);
      }
      j := j + 1;
    }
  }

  /**
   * An entry is never tested against its own entity: if every entry of the list
   * is the same entity, nothing is flagged, however the boxes lie.
   */
  lemma OwnEntityNeverCollides(entities: seq<Entity>, boxes: seq<Box>, k: int)
    requires |entities| == |boxes| && 0 <= k < |entities|
    requires forall m :: 0 <= m < |entities| ==> entities[m] == entities[k]
    ensures !Hit(entities, boxes, k)
  {
  }
}
