/** Sprite layers and the sprite component (src/components/sprite_component.h). */
module Sprite {
  import opened Components

  /**
   * Draw layers, from the back to the front. The C++ type is a plain enum, so a
   * layer is its enumerator value.
   */
  newtype SpriteLayer = n: int | 0 <= n < 7
  {
    /** The enumerator's value: its position in the declaration. */
    function Value(): (n: nat)
      ensures n < NUM_LAYERS
      ensures LayerOf(n) == this
    {
      this as nat
    }
  }

  const NUM_LAYERS: nat := 7

  const BackgroundLayer: SpriteLayer := 0
  const DecorationLayer: SpriteLayer := 1
  const GroundLayer: SpriteLayer := 2
  const AirLayer: SpriteLayer := 3
  const BulletLayer: SpriteLayer := 4
  const PlayerLayer: SpriteLayer := 5
  const GuiLayer: SpriteLayer := 6

  /** The layer whose enumerator value is n. */
  function LayerOf(n: nat): (l: SpriteLayer)
    requires n < NUM_LAYERS
  {
    n as SpriteLayer
  }

  lemma ValueOfLayerOf(n: nat)
    requires n < NUM_LAYERS
    ensures LayerOf(n).Value() == n
  {
  }

  /** The order in which layers are drawn: by enumerator value. */
  predicate DrawnBefore(a: SpriteLayer, b: SpriteLayer)
  {
    a.Value() < b.Value()
  }

  /** The layers form a strict total order, with BACKGROUND first and GUI last. */
  lemma LayerOrderIsTotal(a: SpriteLayer, b: SpriteLayer, c: SpriteLayer)
    ensures !DrawnBefore(a, a)
    ensures a != b ==> DrawnBefore(a, b) || DrawnBefore(b, a)
    ensures DrawnBefore(a, b) && DrawnBefore(b, c) ==> DrawnBefore(a, c)
    ensures a != BackgroundLayer ==> DrawnBefore(BackgroundLayer, a)
    ensures a != GuiLayer ==> DrawnBefore(a, GuiLayer)
  {
  }

  /** SDL_RendererFlip. */
  datatype Flip = FlipNone | FlipHorizontal | FlipVertical

  /**
   * The sprite component. isHidden, isRevealed and isVisible are read and written
   * by the fog-of-war system; sprite_component.h does not declare them.
   */
  datatype SpriteComponent = SpriteComponent(
    assetId: string,
    width: int,
    height: int,
    layer: SpriteLayer,
    flip: Flip,
    isFixed: bool,
    srcRect: Rect,
    hitFlash: int,
    isHidden: bool,
    isRevealed: bool,
    isVisible: bool)

  /**
   * The SpriteComponent constructor: fixed (drawn without the camera offset)
   * exactly on the GUI layer, source rectangle at (srcRectX, srcRectY) with the
   * sprite's size, no flip and no hit flash pending.
   */
  function NewSprite(assetId: string, width: int, height: int, layer: SpriteLayer,
                     srcRectX: int, srcRectY: int): (s: SpriteComponent)
    ensures s.isFixed <==> layer == GuiLayer
    ensures s.srcRect == Rect(srcRectX, srcRectY, width, height)
    ensures s.hitFlash == 0 && s.flip == FlipNone
    ensures s.assetId == assetId && s.width == width && s.height == height && s.layer == layer
    ensures !s.isHidden && !s.isRevealed && s.isVisible
  {
    SpriteComponent(assetId, width, height, layer, FlipNone, layer == GuiLayer,
                    Rect(srcRectX, srcRectY, width, height), 0, false, false, true)
  }

  /** The constructor's defaults: no asset, size 0, background layer, source at the origin. */
  function DefaultSprite(): (s: SpriteComponent)
    ensures s.assetId == "" && s.width == 0 && s.height == 0 && s.layer == BackgroundLayer
    ensures s.srcRect == Rect(0, 0, 0, 0) && !s.isFixed && s.hitFlash == 0
  {
    NewSprite("", 0, 0, BackgroundLayer, 0, 0)
  }
}
