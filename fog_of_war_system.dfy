/**
 * FogOfWarSystem: sprites near the player are revealed; far from the player,
 * actors are hidden and background scenery is dimmed, while GUI sprites are
 * left alone.
 */
module FogOfWarSystem {
  import opened Components
  import opened Sprite

  /** The reveal radius around the player's position, in pixels. */
  const RADIUS: int := 150

  /** isWithinCircle: the boundary of the circle counts as inside. */
  predicate IsWithinCircle(entityX: int, entityY: int, centerX: int, centerY: int, radius: int)
  {
    var dx := entityX - centerX;
    var dy := entityY - centerY;
    dx * dx + dy * dy <= radius * radius
  }

  /** The sprite's flags after one update, given whether it lies inside the circle. */
  function Fogged(sprite: SpriteComponent, inside: bool): (r: SpriteComponent)
    ensures inside ==> !r.isHidden && r.isRevealed && r.isVisible
    ensures !inside && sprite.layer !in {BackgroundLayer, GuiLayer, DecorationLayer} ==> r == sprite.(isHidden := true)
    ensures !inside && sprite.layer in {BackgroundLayer, DecorationLayer} ==> r == sprite.(isVisible := false)
    ensures !inside && sprite.layer == GuiLayer ==> r == sprite
    ensures r.(isHidden := sprite.isHidden, isRevealed := sprite.isRevealed, isVisible := sprite.isVisible) == sprite
    ensures sprite.isRevealed ==> r.isRevealed
  {
    if inside then sprite.(isHidden := false, isRevealed := true, isVisible := true)
    else if sprite.layer != BackgroundLayer && sprite.layer != GuiLayer && sprite.layer != DecorationLayer then
      sprite.(isHidden := true)
    else if sprite.layer == BackgroundLayer || sprite.layer == DecorationLayer then
      sprite.(isVisible := false)
    else sprite
  }

  /**
   * FogOfWarSystem::Update. The registry lookups become inputs: whether the
   * entity tagged "player" belongs to group "player", and its position.
   * positions[i] and sprites[i] belong to the i-th system entity.
   */
  method Update(playerInGroup: bool, player: Vec2, positions: seq<Vec2>, sprites: array<SpriteComponent>)
    requires |positions| == sprites.Length
    modifies sprites
    ensures !playerInGroup ==> sprites[..] == old(sprites[..])
    ensures playerInGroup ==> forall i :: 0 <= i < sprites.Length ==>
              sprites[i] == Fogged(old(sprites[i]), IsWithinCircle(positions[i].x, positions[i].y, player.x, player.y, RADIUS))
  {
    if !playerInGroup {
      return;
    }
    var centerX := player.x;
    var centerY := player.y;
    var radius := RADIUS;
    var i := 0;
    while i < sprites.Length
      invariant 0 <= i <= sprites.Length
      invariant forall k :: 0 <= k < i ==>
                  sprites[k] == Fogged(old(sprites[k]), IsWithinCircle(positions[k].x, positions[k].y, centerX, centerY, radius))
      invariant forall k :: i <= k < sprites.Length ==> sprites[k] == old(sprites[k])
    {
      var sprite := sprites[i];
      var entityX := positions[i].x;
      var entityY := positions[i].y;
      if IsWithinCircle(entityX, entityY, centerX, centerY, radius) {
        sprite := sprite.(isHidden := false, isRevealed := true, isVisible := true);
      } else if sprite.layer != BackgroundLayer && sprite.layer != GuiLayer && sprite.layer != DecorationLayer {
        sprite := sprite.(isHidden := true);
      } else if sprite.layer == BackgroundLayer || sprite.layer == DecorationLayer {
        sprite := sprite.(isVisible := false);
      }
      sprites[i] := sprite;
      i := i + 1;
    }
  }

  /** The circle test treats the sprite and the player alike. */
  lemma WithinCircleSymmetric(x1: int, y1: int, x2: int, y2: int, radius: int)
    ensures IsWithinCircle(x1, y1, x2, y2, radius) == IsWithinCircle(x2, y2, x1, y1, radius)
  {
    assert (x1 - x2) * (x1 - x2) == (x2 - x1) * (x2 - x1);
    assert (y1 - y2) * (y1 - y2) == (y2 - y1) * (y2 - y1);
  }

  /** A point on an axis at exactly the radius is inside; one pixel further is not. */
  lemma CircleBoundary(x: int, y: int)
    ensures IsWithinCircle(x + RADIUS, y, x, y, RADIUS)
    ensures !IsWithinCircle(x + RADIUS + 1, y, x, y, RADIUS)
  {
  }

  /** Running the update twice with the same inputs changes nothing the first run did not. */
  lemma FoggedIdempotent(sprite: SpriteComponent, inside: bool)
    ensures Fogged(Fogged(sprite, inside), inside) == Fogged(sprite, inside)
  {
  }

  /** Once a sprite has been revealed it stays revealed, whatever positions follow. */
  lemma {:induction false} RevealedStaysRevealed(sprite: SpriteComponent, insides: seq<bool>)
    requires sprite.isRevealed
    ensures FogRun(sprite, insides).isRevealed
  {
    if insides != [] {
      RevealedStaysRevealed(sprite, insides[..|insides| - 1]);
    }
  }

  /** The sprite after one update per frame, given each frame's circle test. */
  function FogRun(sprite: SpriteComponent, insides: seq<bool>): (r: SpriteComponent)
    ensures r.layer == sprite.layer
    ensures (exists k :: 0 <= k < |insides| && insides[k]) ==> r.isRevealed
  {
    if insides == [] then sprite
    else
      var prev := FogRun(sprite, insides[..|insides| - 1]);
      assert forall k :: 0 <= k < |insides| - 1 ==> insides[..|insides| - 1][k] == insides[k];
      Fogged(prev, insides[|insides| - 1])
  }
}
