/**
 * CameraMovementSystem::Update: the camera rectangle centres on each followed
 * entity in turn (while the centred view would not pass the map's right or
 * bottom edge) and is then kept between 0 and its own width and height.
 */
module CameraMovementSystem {
  import opened Components
  import Utils

  /** Half a camera extent, with C++ integer division (truncating toward zero). */
  function Half(extent: int): int
  {
    Utils.TruncDiv(extent, 2)
  }

  /** The camera after following one entity at `position`. */
  function Follow(camera: Rect, position: Vec2, mapWidth: int, mapHeight: int): (r: Rect)
    ensures r.w == camera.w && r.h == camera.h
    ensures camera.w >= 0 ==> r.x == Utils.Clamp(if position.x + Half(camera.w) < mapWidth
                                                 then position.x - Half(camera.w) else camera.x, 0, camera.w)
    ensures camera.h >= 0 ==> r.y == Utils.Clamp(if position.y + Half(camera.h) < mapHeight
                                                 then position.y - Half(camera.h) else camera.y, 0, camera.h)
    ensures camera.w >= 0 ==> 0 <= r.x <= camera.w
    ensures camera.h >= 0 ==> 0 <= r.y <= camera.h
  {
    var x1 := if position.x + Half(camera.w) < mapWidth then position.x - Half(camera.w) else camera.x;
    var y1 := if position.y + Half(camera.h) < mapHeight then position.y - Half(camera.h) else camera.y;
    var x2 := if x1 < 0 then 0 else x1;
    var y2 := if y1 < 0 then 0 else y1;
    var x3 := if x2 > camera.w then camera.w else x2;
    var y3 := if y2 > camera.h then camera.h else y2;
    camera.(x := x3, y := y3)
  }

  /** The camera after following every entity of the list, in order. */
  function FollowAll(camera: Rect, positions: seq<Vec2>, mapWidth: int, mapHeight: int): (r: Rect)
    ensures r.w == camera.w && r.h == camera.h
  {
    if positions == [] then camera
    else Follow(FollowAll(camera, positions[..|positions| - 1], mapWidth, mapHeight),
                positions[|positions| - 1], mapWidth, mapHeight)
  }

  /**
   * CameraMovementSystem::Update: positions[i] is the transform position of the
   * i-th followed entity; the camera passed by reference is returned.
   */
  method Update(camera: Rect, mapWidth: int, mapHeight: int, positions: seq<Vec2>) returns (c: Rect)
    ensures c == FollowAll(camera, positions, mapWidth, mapHeight)
  {
    c := camera;
    var i := 0;
    while i < |positions|
      invariant 0 <= i <= |positions|
      invariant c == FollowAll(camera, positions[..i], mapWidth, mapHeight)
    {
      var position := positions[i];
      if position.x + Utils.TruncDiv(c.w, 2) < mapWidth {
        c := c.(x := position.x - Utils.TruncDiv(c.w, 2));
      }
      if position.y + Utils.TruncDiv(c.h, 2) < mapHeight {
        c := c.(y := position.y - Utils.TruncDiv(c.h, 2));
      }
      c := c.(x := if c.x < 0 then 0 else c.x);
      c := c.(y := if c.y < 0 then 0 else c.y);
      c := c.(x := if c.x > c.w then c.w else c.x);
      c := c.(y := if c.y > c.h then c.h else c.y);
      assert positions[..i + 1][..i] == positions[..i];
      i := i + 1;
    }
    assert positions[..i] == positions;
  }

  /** With a non-negative camera size, the camera stays within [0, w] x [0, h] whatever it follows. */
  lemma {:induction false} FollowAllBounds(camera: Rect, positions: seq<Vec2>, mapWidth: int, mapHeight: int)
    requires camera.w >= 0 && camera.h >= 0
    requires 0 <= camera.x <= camera.w && 0 <= camera.y <= camera.h
    ensures var r := FollowAll(camera, positions, mapWidth, mapHeight);
            0 <= r.x <= camera.w && 0 <= r.y <= camera.h
  {
    if positions != [] {
      FollowAllBounds(camera, positions[..|positions| - 1], mapWidth, mapHeight);
    }
  }

  /**
   * A last follower whose centred view fits the map on both axes decides the
   * camera alone: what the camera followed before it makes no difference.
   */
  lemma LastFollowerDecides(camera: Rect, positions: seq<Vec2>, last: Vec2, mapWidth: int, mapHeight: int)
    requires last.x + Half(camera.w) < mapWidth && last.y + Half(camera.h) < mapHeight
    ensures FollowAll(camera, positions + [last], mapWidth, mapHeight) == Follow(camera, last, mapWidth, mapHeight)
  {
    assert (positions + [last])[..|positions|] == positions;
  }

  /** Following the same entity twice in a row moves the camera no further than once. */
  lemma FollowIdempotent(camera: Rect, position: Vec2, mapWidth: int, mapHeight: int)
    ensures var r := Follow(camera, position, mapWidth, mapHeight);
            Follow(r, position, mapWidth, mapHeight) == r
  {
  }
}
