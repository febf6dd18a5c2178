/**
 * RenderSystem::Render: counts down every sprite's hit flash, sorts the system's
 * entities into one bucket per sprite layer (keeping list order inside each
 * bucket), and draws the buckets from the lowest layer to the highest, with a
 * white overlay for sprites that are still flashing. A draw call is modelled by
 * the Draw record it would issue.
 */
module RenderSystem {
  import opened Wrappers
  import opened Components
  import opened Sprite
  import opened Ecs
  import opened Assets

  /** What the first loop snapshots for one entity: its transform and its (counted-down) sprite. */
  datatype Renderable = Renderable(entity: Entity, transform: TransformComponent, sprite: SpriteComponent)

  /**
   * One SDL_RenderCopyEx call of the base texture (which may be null), with a
   * second copy of the overlay drawn after it unless the overlay is null.
   */
  datatype Draw = Draw(entity: Entity, texture: Texture, overlay: Texture,
                       src: Rect, dst: Rect, rotation: int)

  /** The hit-flash countdown: one frame less while positive. */
  function CountDown(sprite: SpriteComponent): (r: SpriteComponent)
    ensures sprite.hitFlash > 0 ==> r.hitFlash == sprite.hitFlash - 1
    ensures sprite.hitFlash <= 0 ==> r.hitFlash == sprite.hitFlash
    ensures r.hitFlash >= 0 || r.hitFlash == sprite.hitFlash
    ensures r.(hitFlash := sprite.hitFlash) == sprite
  {
    if sprite.hitFlash > 0 then sprite.(hitFlash := sprite.hitFlash - 1) else sprite
  }

  /**
   * The draw for one entity: the base texture under the sprite's asset id, the
   * white texture when the counted-down hit flash is still positive, the
   * sprite's source rectangle, and the destination moved by the camera unless
   * the sprite is fixed to the screen.
   */
  function DrawOf(item: Renderable, textures: map<string, Texture>, camera: Rect): (d: Draw)
    ensures d.entity == item.entity && d.src == item.sprite.srcRect && d.rotation == item.transform.rotation
    ensures d.texture == Lookup(textures, item.sprite.assetId)
    ensures d.overlay != Null <==> (item.sprite.hitFlash > 0 && WhiteId(item.sprite.assetId) in textures
                                    && textures[WhiteId(item.sprite.assetId)] != Null)
    ensures d.overlay != Null ==> d.overlay == textures[WhiteId(item.sprite.assetId)]
    ensures item.sprite.isFixed ==> d.dst.x == item.transform.position.x && d.dst.y == item.transform.position.y
    ensures !item.sprite.isFixed ==> (d.dst.x == item.transform.position.x - camera.x
                                      && d.dst.y == item.transform.position.y - camera.y)
    ensures d.dst.w == item.sprite.width * item.transform.scale.x && d.dst.h == item.sprite.height * item.transform.scale.y
  {
    var overlay := if item.sprite.hitFlash > 0 then Lookup(textures, WhiteId(item.sprite.assetId)) else Null;
    var dst := Rect(item.transform.position.x - (if item.sprite.isFixed then 0 else camera.x),
                    item.transform.position.y - (if item.sprite.isFixed then 0 else camera.y),
                    item.sprite.width * item.transform.scale.x,
                    item.sprite.height * item.transform.scale.y);
    Draw(item.entity, Lookup(textures, item.sprite.assetId), overlay, item.sprite.srcRect, dst, item.transform.rotation)
  }

  function DrawsOf(items: seq<Renderable>, textures: map<string, Texture>, camera: Rect): (ds: seq<Draw>)
    ensures |ds| == |items| && forall k :: 0 <= k < |items| ==> ds[k] == DrawOf(items[k], textures, camera)
  {
    seq(|items|, k requires 0 <= k < |items| => DrawOf(items[k], textures, camera))
  }

  /** The entries of one layer's bucket, in list order. */
  function InLayer(items: seq<Renderable>, layer: SpriteLayer): (r: seq<Renderable>)
    ensures |r| <= |items|
    ensures forall k :: 0 <= k < |r| ==> r[k].sprite.layer == layer
  {
    if items == [] then []
    else
      var init := InLayer(items[..|items| - 1], layer);
      var last := items[|items| - 1];
      if last.sprite.layer == layer then init + [last] else init
  }

  /** The buckets of the v lowest layers, concatenated from the lowest up. */
  function ByLayer(items: seq<Renderable>, v: nat): (r: seq<Renderable>)
    requires v <= NUM_LAYERS
  {
    if v == 0 then [] else ByLayer(items, v - 1) + InLayer(items, LayerOf(v - 1))
  }

  /** The entries in the order Render draws them. */
  function DrawOrder(items: seq<Renderable>): seq<Renderable>
  {
    ByLayer(items, NUM_LAYERS)
  }

  /** The Renderable snapshots of a list of entities. */
  function Items(entities: seq<Entity>, transforms: seq<TransformComponent>, sprites: seq<SpriteComponent>)
    : (items: seq<Renderable>)
    requires |entities| == |transforms| == |sprites|
    ensures |items| == |entities|
    ensures forall k :: 0 <= k < |items| ==> items[k] == Renderable(entities[k], transforms[k], sprites[k])
  {
    seq(|entities|, k requires 0 <= k < |entities| => Renderable(entities[k], transforms[k], sprites[k]))
  }

  lemma InLayerSnoc(items: seq<Renderable>, x: Renderable, layer: SpriteLayer)
    ensures InLayer(items + [x], layer) == InLayer(items, layer) + (if x.sprite.layer == layer then [x] else [])
  {
    assert (items + [x])[..|items|] == items;
  }

  /**
   * RenderSystem::Render over the system's entities: transforms[i] and
   * sprites[i] belong to entities[i]. Every sprite's hit flash is counted down in
   * place, and the draws issued are those of the counted-down entries in layer
   * order.
   */
  method Render(store: AssetStore, entities: seq<Entity>, transforms: seq<TransformComponent>,
                sprites: array<SpriteComponent>, camera: Rect)
    returns (draws: seq<Draw>)
    requires |entities| == |transforms| == sprites.Length
    modifies sprites
    ensures forall i :: 0 <= i < sprites.Length ==> sprites[i] == CountDown(old(sprites[i]))
    ensures draws == DrawsOf(DrawOrder(Items(entities, transforms, sprites[..])), store.textures, camera)
  {
    var layerMap, items := FillLayers(entities, transforms, sprites);
    draws := DrawLayers(store, layerMap, items, camera);
  }

  /** The first loop of Render: count down each hit flash and append the entry to its layer's bucket. */
  method FillLayers(entities: seq<Entity>, transforms: seq<TransformComponent>, sprites: array<SpriteComponent>)
    returns (layerMap: seq<seq<Renderable>>, ghost items: seq<Renderable>)
    requires |entities| == |transforms| == sprites.Length
    modifies sprites
    ensures forall i :: 0 <= i < sprites.Length ==> sprites[i] == CountDown(old(sprites[i]))
    ensures items == Items(entities, transforms, sprites[..])
    ensures |layerMap| == NUM_LAYERS
    ensures forall v :: 0 <= v < NUM_LAYERS ==> layerMap[v] == InLayer(items, LayerOf(v))
  {
    var n := sprites.Length;
    layerMap := seq(NUM_LAYERS, _ => []);
    items := [];
    var i := 0;
    while i < n
      invariant 0 <= i <= n
      invariant forall k :: 0 <= k < i ==> sprites[k] == CountDown(old(sprites[k]))
      invariant forall k :: i <= k < n ==> sprites[k] == old(sprites[k])
      invariant |items| == i && forall k :: 0 <= k < i ==> items[k] == Renderable(entities[k], transforms[k], sprites[k])
      invariant |layerMap| == NUM_LAYERS
      invariant forall v :: 0 <= v < NUM_LAYERS ==> layerMap[v] == InLayer(items, LayerOf(v))
    {
      CountDownAt(sprites, i);
      var renderable := Renderable(entities[i], transforms[i], sprites[i]);
      var v := renderable.sprite.layer.Value();
      BucketsSnoc(layerMap, items, renderable);
      layerMap := layerMap[v := layerMap[v] + [renderable]];
      items := items + [renderable];
      i := i + 1;
    }
    assert items == Items(entities, transforms, sprites[..]);
  }

  /** The hit-flash countdown of one sprite, in place. */
  method CountDownAt(sprites: array<SpriteComponent>, i: int)
    requires 0 <= i < sprites.Length
    modifies sprites
    ensures sprites[i] == CountDown(old(sprites[i]))
    ensures forall k :: 0 <= k < sprites.Length && k != i ==> sprites[k] == old(sprites[k])
  {
    var sprite := sprites[i];
    if sprite.hitFlash > 0 {
      sprites[i] := sprite.(hitFlash := sprite.hitFlash - 1);
    }
  }

  /** Appending an entry to its own layer's bucket keeps every bucket equal to its layer's entries. */
  lemma BucketsSnoc(layerMap: seq<seq<Renderable>>, items: seq<Renderable>, x: Renderable)
    requires |layerMap| == NUM_LAYERS
    requires forall v :: 0 <= v < NUM_LAYERS ==> layerMap[v] == InLayer(items, LayerOf(v))
    ensures var n := x.sprite.layer.Value();
            forall v :: 0 <= v < NUM_LAYERS ==>
              layerMap[n := layerMap[n] + [x]][v] == InLayer(items + [x], LayerOf(v))
  {
    var n := x.sprite.layer.Value();
    forall v | 0 <= v < NUM_LAYERS
      ensures layerMap[n := layerMap[n] + [x]][v] == InLayer(items + [x], LayerOf(v))
    {
      InLayerSnoc(items, x, LayerOf(v));
      ValueOfLayerOf(v);
    }
  }

  /** The second loop of Render: the buckets from the lowest layer up, each in its own order. */
  method DrawLayers(store: AssetStore, layerMap: seq<seq<Renderable>>, ghost items: seq<Renderable>, camera: Rect)
    returns (draws: seq<Draw>)
    requires |layerMap| == NUM_LAYERS
    requires forall v :: 0 <= v < NUM_LAYERS ==> layerMap[v] == InLayer(items, LayerOf(v))
    ensures draws == DrawsOf(DrawOrder(items), store.textures, camera)
  {
    draws := [];
    var layer := 0;
    while layer < NUM_LAYERS
      invariant 0 <= layer <= NUM_LAYERS
      invariant draws == DrawsOf(ByLayer(items, layer), store.textures, camera)
    {
      var bucketDraws := DrawBucket(store, layerMap[layer], camera);
      DrawsOfByLayerStep(items, layer, store.textures, camera);
      draws := draws + bucketDraws;
      layer := layer + 1;
    }
  }

  /** Drawing the first v + 1 buckets is drawing the first v, then bucket v. */
  lemma DrawsOfByLayerStep(items: seq<Renderable>, v: nat, textures: map<string, Texture>, camera: Rect)
    requires v < NUM_LAYERS
    ensures DrawsOf(ByLayer(items, v + 1), textures, camera)
            == DrawsOf(ByLayer(items, v), textures, camera) + DrawsOf(InLayer(items, LayerOf(v)), textures, camera)
  {
    var a := ByLayer(items, v);
    var b := InLayer(items, LayerOf(v));
    assert ByLayer(items, v + 1) == a + b;
    DrawsOfAppend(a, b, textures, camera);
  }

  lemma DrawsOfAppend(a: seq<Renderable>, b: seq<Renderable>, textures: map<string, Texture>, camera: Rect)
    ensures DrawsOf(a + b, textures, camera) == DrawsOf(a, textures, camera) + DrawsOf(b, textures, camera)
  {
    assert forall k :: 0 <= k < |a + b| ==> (a + b)[k] == if k < |a| then a[k] else b[k - |a|];
  }

  /** The draws of one bucket, in the bucket's order. */
  method DrawBucket(store: AssetStore, bucket: seq<Renderable>, camera: Rect) returns (draws: seq<Draw>)
    ensures draws == DrawsOf(bucket, store.textures, camera)
  {
    draws := [];
    var j := 0;
    while j < |bucket|
      invariant 0 <= j <= |bucket|
      invariant draws == DrawsOf(bucket[..j], store.textures, camera)
    {
      var entry := bucket[j];
      var baseTexture := store.GetTexture(entry.sprite.assetId);
      var whiteTexture := Null;
      if entry.sprite.hitFlash > 0 {
        whiteTexture := store.GetTexture(WhiteId(entry.sprite.assetId));
      }
      var src := entry.sprite.srcRect;
      var dst := Rect(entry.transform.position.x - (if entry.sprite.isFixed then 0 else camera.x),
                      entry.transform.position.y - (if entry.sprite.isFixed then 0 else camera.y),
                      entry.sprite.width * entry.transform.scale.x,
                      entry.sprite.height * entry.transform.scale.y);
      var d := Draw(entry.entity, baseTexture, whiteTexture, src, dst, entry.transform.rotation);
      assert d == DrawOf(entry, store.textures, camera);
      assert bucket[..j + 1] == bucket[..j] + [entry];
      draws := draws + [d];
      j := j + 1;
    }
    assert bucket[..j] == bucket;
  }

  /** A layer's bucket holds only entries of that layer. */
  lemma {:induction false} InLayerOnLayer(items: seq<Renderable>, layer: SpriteLayer)
    ensures forall k :: 0 <= k < |InLayer(items, layer)| ==> InLayer(items, layer)[k].sprite.layer == layer
  {
    if items != [] {
      InLayerOnLayer(items[..|items| - 1], layer);
    }
  }

  // Properties of the draw order.

  /** Every entry of ByLayer(items, v) is on a layer below v. */
  lemma {:induction false} ByLayerBelow(items: seq<Renderable>, v: nat)
    requires v <= NUM_LAYERS
    ensures forall k :: 0 <= k < |ByLayer(items, v)| ==> ByLayer(items, v)[k].sprite.layer.Value() < v
  {
    if v > 0 {
      ByLayerBelow(items, v - 1);
      InLayerOnLayer(items, LayerOf(v - 1));
      ValueOfLayerOf(v - 1);
    }
  }

  /** Layers never decrease along the draw order. */
  lemma {:induction false} ByLayerSorted(items: seq<Renderable>, v: nat)
    requires v <= NUM_LAYERS
    ensures forall p, q :: 0 <= p < q < |ByLayer(items, v)| ==>
              ByLayer(items, v)[p].sprite.layer.Value() <= ByLayer(items, v)[q].sprite.layer.Value()
  {
    if v > 0 {
      ByLayerSorted(items, v - 1);
      ByLayerBelow(items, v - 1);
      InLayerOnLayer(items, LayerOf(v - 1));
      ValueOfLayerOf(v - 1);
      var lower: seq<Renderable> := ByLayer(items, v - 1);
      var bucket: seq<Renderable> := InLayer(items, LayerOf(v - 1));
      assert ByLayer(items, v) == lower + bucket;
      forall p, q | 0 <= p < q < |lower + bucket|
        ensures (lower + bucket)[p].sprite.layer.Value() <= (lower + bucket)[q].sprite.layer.Value()
      {
        if q < |lower| {
        } else if p < |lower| {
          assert (lower + bucket)[q] == bucket[q - |lower|];
        } else {
          assert (lower + bucket)[p] == bucket[p - |lower|];
          assert (lower + bucket)[q] == bucket[q - |lower|];
        }
      }
    }
  }

  lemma DrawOrderSorted(items: seq<Renderable>)
    ensures forall p, q :: 0 <= p < q < |DrawOrder(items)| ==>
              DrawnBefore(DrawOrder(items)[p].sprite.layer, DrawOrder(items)[q].sprite.layer)
              || DrawOrder(items)[p].sprite.layer == DrawOrder(items)[q].sprite.layer
  {
    ByLayerSorted(items, NUM_LAYERS);
    forall p, q | 0 <= p < q < |DrawOrder(items)|
      ensures DrawnBefore(DrawOrder(items)[p].sprite.layer, DrawOrder(items)[q].sprite.layer)
              || DrawOrder(items)[p].sprite.layer == DrawOrder(items)[q].sprite.layer
    {
      var a := DrawOrder(items)[p].sprite.layer;
      var b := DrawOrder(items)[q].sprite.layer;
      if a.Value() == b.Value() {
        ValueOfLayerOf(a.Value());
      }
    }
  }

  lemma {:induction false} InLayerAppend(a: seq<Renderable>, b: seq<Renderable>, layer: SpriteLayer)
    ensures InLayer(a + b, layer) == InLayer(a, layer) + InLayer(b, layer)
  {
    if b == [] {
      assert a + b == a;
    } else {
      var init := b[..|b| - 1];
      var last := b[|b| - 1];
      assert a + b == (a + init) + [last];
      assert b == init + [last];
      InLayerAppend(a, init, layer);
      InLayerSnoc(a + init, last, layer);
      InLayerSnoc(init, last, layer);
    }
  }

  lemma {:induction false} InLayerOfBucket(items: seq<Renderable>, layer: SpriteLayer, other: SpriteLayer)
    ensures InLayer(InLayer(items, other), layer) == if layer == other then InLayer(items, layer) else []
  {
    if items != [] {
      var init := items[..|items| - 1];
      var last := items[|items| - 1];
      InLayerOfBucket(init, layer, other);
      if last.sprite.layer == other {
        InLayerSnoc(InLayer(init, other), last, layer);
      }
    }
  }

  /** Filtering the first v buckets by a layer below v gives that layer's whole bucket. */
  lemma {:induction false} ByLayerInLayer(items: seq<Renderable>, v: nat, layer: SpriteLayer)
    requires layer.Value() < v <= NUM_LAYERS
    ensures InLayer(ByLayer(items, v), layer) == InLayer(items, layer)
  {
    ByLayerStep(items, v, layer);
    if layer.Value() == v - 1 {
      ByLayerAbove(items, v - 1, layer);
      assert [] + InLayer(items, layer) == InLayer(items, layer);
    } else {
      ByLayerInLayer(items, v - 1, layer);
    }
  }

  /** Filtering the first v buckets by a layer at or above v gives nothing. */
  lemma {:induction false} ByLayerAbove(items: seq<Renderable>, v: nat, layer: SpriteLayer)
    requires v <= layer.Value() && v <= NUM_LAYERS
    ensures InLayer(ByLayer(items, v), layer) == []
  {
    if v > 0 {
      ByLayerAbove(items, v - 1, layer);
      ByLayerStep(items, v, layer);
    }
  }

  /** Bucket v - 1 adds the layer's entries to the filter when the layer's value is v - 1, and nothing otherwise. */
  lemma ByLayerStep(items: seq<Renderable>, v: nat, layer: SpriteLayer)
    requires 0 < v <= NUM_LAYERS
    ensures layer.Value() == v - 1 ==>
              InLayer(ByLayer(items, v), layer) == InLayer(ByLayer(items, v - 1), layer) + InLayer(items, layer)
    ensures layer.Value() != v - 1 ==> InLayer(ByLayer(items, v), layer) == InLayer(ByLayer(items, v - 1), layer)
  {
    var lower := ByLayer(items, v - 1);
    var bucket := InLayer(items, LayerOf(v - 1));
    InLayerAppend(lower, bucket, layer);
    InLayerOfBucket(items, layer, LayerOf(v - 1));
    if layer.Value() != v - 1 {
      assert InLayer(lower, layer) + [] == InLayer(lower, layer);
    }
  }

  /** Within one layer, entries are drawn in entity-list order: the draw order filtered by a layer is that layer's bucket. */
  lemma DrawOrderStable(items: seq<Renderable>, layer: SpriteLayer)
    ensures InLayer(DrawOrder(items), layer) == InLayer(items, layer)
  {
    ByLayerInLayer(items, NUM_LAYERS, layer);
  }

  /** How many times x occurs in items. */
  function Count(items: seq<Renderable>, x: Renderable): nat
  {
    if items == [] then 0
    else Count(items[..|items| - 1], x) + (if items[|items| - 1] == x then 1 else 0)
  }

  lemma {:induction false} CountAppend(a: seq<Renderable>, b: seq<Renderable>, x: Renderable)
    ensures Count(a + b, x) == Count(a, x) + Count(b, x)
  {
    if b == [] {
      assert a + b == a;
    } else {
      var init := b[..|b| - 1];
      assert (a + b)[..|a + b| - 1] == a + init;
      CountAppend(a, init, x);
    }
  }

  /** A layer's bucket holds every occurrence of an entry of that layer, and none of any other. */
  lemma {:induction false} CountInLayer(items: seq<Renderable>, layer: SpriteLayer, x: Renderable)
    ensures Count(InLayer(items, layer), x) == if x.sprite.layer == layer then Count(items, x) else 0
  {
    if items != [] {
      var init := items[..|items| - 1];
      var last := items[|items| - 1];
      CountInLayer(init, layer, x);
      if last.sprite.layer == layer {
        CountAppend(InLayer(init, layer), [last], x);
      }
    }
  }

  /** The first v buckets hold every occurrence of an entry on a layer below v, and none of any other. */
  lemma {:induction false} CountByLayer(items: seq<Renderable>, v: nat, x: Renderable)
    requires v <= NUM_LAYERS
    ensures Count(ByLayer(items, v), x) == if x.sprite.layer.Value() < v then Count(items, x) else 0
  {
    if v > 0 {
      CountByLayer(items, v - 1, x);
      CountStep(items, v, x);
    }
  }

  /** Bucket v - 1 adds the occurrences of x exactly when x is on the layer with value v - 1. */
  lemma CountStep(items: seq<Renderable>, v: nat, x: Renderable)
    requires 0 < v <= NUM_LAYERS
    ensures Count(ByLayer(items, v), x)
            == Count(ByLayer(items, v - 1), x) + if x.sprite.layer.Value() == v - 1 then Count(items, x) else 0
  {
    CountAppend(ByLayer(items, v - 1), InLayer(items, LayerOf(v - 1)), x);
    CountInLayer(items, LayerOf(v - 1), x);
  }

  /** A multiset's multiplicity is the occurrence count. */
  lemma {:induction false} MultiplicityIsCount(items: seq<Renderable>, x: Renderable)
    ensures multiset(items)[x] == Count(items, x)
  {
    if items != [] {
      var init := items[..|items| - 1];
      assert items == init + [items[|items| - 1]];
      MultiplicityIsCount(init, x);
    }
  }

  /** Every entry is drawn exactly once: the draw order is a permutation of the entity list. */
  lemma DrawOrderPermutes(items: seq<Renderable>)
    ensures multiset(DrawOrder(items)) == multiset(items)
  {
    forall x
      ensures multiset(DrawOrder(items))[x] == multiset(items)[x]
    {
      CountByLayer(items, NUM_LAYERS, x);
      MultiplicityIsCount(DrawOrder(items), x);
      MultiplicityIsCount(items, x);
    }
  }
}
