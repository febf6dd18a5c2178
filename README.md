# 2D game engine ECS core in Dafny

This project models the entity-component-system core of a small SDL2 2D game engine. It covers:

- the ECS kernel: component signatures, entity handles, the per-system entity list, and the registry's entity counter with its pending-add set;
- the per-frame rules of the concrete systems: animation, rendering order and hit flash, keyboard control, health labels, camera following, fog of war, box collision, projectile emission and projectile expiry;
- the pieces those systems rely on: the type-indexed event bus, the asset store with its "make white" pixel pass, the CSV tile-map loader, and the sprite component with its layer order.

Each system is modelled as an operation over the component records of its entities, one record per entity and in the order of the system's entity list:

- a component the system writes through a reference is an `array` element that a method updates in place;
- a component it only reads is a `seq` element.

Every such method is proved against a per-record function (for example `AnimationSystem.Animate`, `FogOfWarSystem.Fogged`, `HealthBarSystem.Label`). The properties of each system are lemmas about those functions. Registry look-ups the systems make are inputs of the model:

- `has_component<SpriteComponent>` becomes an `Option`;
- `HasTag("player")` becomes a boolean per entity;
- "the player is in group player" becomes one boolean.

The tick counter (`SDL_GetTicks`), the pressed key, the camera rectangle and the map size are parameters. Entity creation goes through the modelled `Registry`. Where a system creates entities, its result is the sequence of new entities with the components `projectile_do` or the tile loader attaches. `Kill` requests are returned as a set of entities.

Modules, one per source file:

| module | file |
|---|---|
| `Ecs` | `ecs.dfy` |
| `Utils` | `utils.dfy` |
| `Sprite` | `sprite.dfy` |
| `Components` | `components.dfy` (value records of the other component headers) |
| `Events` | `event_bus.dfy` |
| `Assets` | `asset_store.dfy` |
| `Text` | `text.dfy` (`std::getline`, `std::stoi`, `std::to_string`) |
| `LevelLoader` | `level_loader.dfy` |
| `AnimationSystem` | `animation_system.dfy` |
| `RenderSystem` | `render_system.dfy` |
| `KeyboardControlSystem` | `keyboard_control_system.dfy` |
| `HealthBarSystem` | `health_bar_system.dfy` |
| `CameraMovementSystem` | `camera_movement_system.dfy` |
| `FogOfWarSystem` | `fog_of_war_system.dfy` |
| `CollisionSystem` | `collision_system.dfy` |
| `ProjectileEmitSystem` | `projectile_emit_system.dfy` |
| `ProjectileLifecycleSystem` | `projectile_lifecycle_system.dfy` |

`Wrappers` (`wrappers.dfy`) holds `Option` and `Result`.

`SpriteLayer` is a plain C++ enum, so the model makes it an integer newtype over 0..6: a layer is its enumerator value, and the render system's array of seven buckets is indexed by that value.

Where the ECS kernel is incomplete or inconsistent; the model follows the code:

- **Registry.** The code has no component pools, no id free-list, no tag or group indices, and no system matching in `Registry::Update`. `Registry` is a TODO in `src/ecs/ecs.h:51-53` and `Registry::Update` is empty. The model's `Registry` holds only the counter and the pending-add set that `create_entity` uses.
- **Names.** The header and the .cpp come from different revisions; the model uses the .cpp names.

## Model

| member | source | states |
|---|---|---|
| Ecs.EmptySignature | src/ecs/ecs.h:36-42 | a default-constructed signature has every one of its 32 bits clear |
| Ecs.And | src/ecs/ecs.h:12-16 | bit i of the bitwise and is set exactly when bit i is set in both signatures |
| Ecs.MaskTestIsMatchRule | src/ecs/ecs.h:12-13 | the mask test (entity & system) == system holds exactly when every bit the system requires is set in the entity's signature |
| Ecs.EmptySignatureMatchesAll | src/ecs/ecs.h:12-16 | every entity signature passes the mask test of a system that requires nothing |
| Ecs.Entity.GetId | src/ecs/ecs.cpp:4-6 | an entity reports the id it was constructed with |
| Ecs.RemoveAll | src/ecs/ecs.cpp:11-15 | erase-remove never makes the list longer |
| Ecs.RemoveAllMembers | src/ecs/ecs.cpp:11-15 | an entity is still in the list after removal exactly when it was there and is not the removed entity |
| Ecs.RemoveAllRemoves | src/ecs/ecs.cpp:11-15 | after removal the removed entity does not occur in the list |
| Ecs.RemoveAllAbsent | src/ecs/ecs.cpp:12-14 | removing an entity that is not present leaves the list unchanged |
| Ecs.RemoveAllAppend | src/ecs/ecs.cpp:12-14 | removal distributes over concatenation, so the survivors keep their relative order (remove_if is stable) |
| Ecs.RemoveAllCounts | src/ecs/ecs.cpp:11-15 | every occurrence of the entity is deleted and every other entity keeps its number of occurrences |
| Ecs.AddThenRemove | src/ecs/ecs.cpp:8-15 | appending an absent entity and then removing it gives back the original list |
| Ecs.System.constructor | src/ecs/ecs.h:36-42 | a new system has the all-zero signature and an empty entity list |
| Ecs.System.AddEntityToSystem | src/ecs/ecs.cpp:8-10 | the entity is appended at the end and the earlier entries are unchanged |
| Ecs.System.RemoveEntityFromSystem | src/ecs/ecs.cpp:11-15 | the list becomes the old list without any element equal to the entity; the entity is absent afterwards; an absent entity changes nothing |
| Ecs.System.GetSystemEntities | src/ecs/ecs.cpp:16-18 | returns the current entity list and changes nothing |
| Ecs.System.GetComponentSignature | src/ecs/ecs.cpp:19-21 | returns the system's signature and changes nothing |
| Ecs.Registry.CreateEntity | src/ecs/ecs.cpp:23-33 | the new id is the old counter; the counter grows by exactly one; the entity is new and joins the pending-add set; nothing else changes |
| Ecs.Registry.Update | src/ecs/ecs.cpp:35-37 | the counter and the pending-add set are unchanged |
| Ecs.CreatedIdsDistinct | src/ecs/ecs.cpp:23-27 | the entities a registry hands out have ids 0, 1, 2, ... and are pairwise distinct |
| Utils.Sign | src/utils/utils.cpp:13-15 | 1 for a positive value, -1 for a negative one, 0 for zero, and sign times value is the absolute value |
| Utils.Clamp | src/utils/utils.cpp:27-35 | below min gives min even when min > max; with min <= max the result lies in [min, max]; a value already inside is returned unchanged; one above max gives max |
| Utils.ClampIdempotent | src/utils/utils.cpp:27-35 | with min <= max, clamping twice equals clamping once |
| Utils.AsUint32 | src/systems/projectile_emit_system.h:66 | an int compared against the Uint32 tick difference is reduced modulo 2^32; a non-negative int keeps its value and a negative one reads as value + 2^32 |
| Utils.TruncDivRem | src/game/level_loader.cpp:60-61 | C++ integer `/` and `%` by a positive divisor: quotient times divisor plus remainder is the dividend, and the remainder takes the dividend's sign and is smaller than the divisor; on a non-negative dividend both agree with the Euclidean operators |
| Sprite.SpriteLayer.Value | src/components/sprite_component.h:7-15 | each layer's enumerator value is below 7, and mapping the value back gives the same layer |
| Sprite.ValueOfLayerOf | src/components/sprite_component.h:7-15 | the values 0..6 are exactly the layers, in declaration order |
| Sprite.LayerOrderIsTotal | src/components/sprite_component.h:7-15 | the draw order of layers is a strict total order, with BACKGROUND first and GUI last |
| Sprite.NewSprite | src/components/sprite_component.h:27-36 | fixed exactly on the GUI layer; source rectangle at (src_rect_x, src_rect_y) with the sprite's size; no flip; no hit flash; the arguments are stored |
| Sprite.DefaultSprite | src/components/sprite_component.h:27 | the defaults are an empty asset id, size 0, the background layer, source at the origin, not fixed |
| Components.NewAnimation | src/components/animation_component.h:13-19 | a new animation starts on frame 1 with the current tick count as its start time |
| Components.NewProjectile | src/components/projectile_component.h:12-17 | a new projectile stores its arguments and starts at the current tick count |
| Events.Dispatch | src/event_bus/event_bus.h:83-89 | emitting calls each handler of the list exactly once, in list order, with the event |
| Events.DispatchCounts | src/event_bus/event_bus.h:83-89 | a handler is called as many times as it occurs in the list |
| Events.DispatchCountsDuplicates | src/event_bus/event_bus.h:67-89 | one more subscription of a handler adds one more call to it, after all earlier calls: subscriptions are not merged |
| Events.EventBus.constructor | src/event_bus/event_bus.h:48-50 | a new bus has no subscriptions |
| Events.EventBus.Reset | src/event_bus/event_bus.h:56-58 | after reset no event type has a handler |
| Events.EventBus.SubscribeToEvent | src/event_bus/event_bus.h:66-73 | the callback is appended at the end of its event type's list, which is created when missing or null; every other type's list is unchanged |
| Events.EventBus.EmitEvent | src/event_bus/event_bus.h:81-91 | the calls are the dispatch of the event over its type's handlers; a type with no list calls nothing and gets a null entry; no handler list changes |
| Events.SubscribeTwiceThenEmit | src/event_bus/event_bus.h:67-89 | a callback subscribed twice is called twice, after the handlers subscribed before it |
| Events.ResetThenEmit | src/event_bus/event_bus.h:56-91 | after reset, emitting any event calls nothing |
| Assets.Whiten | src/asset_store/asset_store.cpp:59-61 | a pixel whose top byte is 0 is kept; any other becomes white or'ed with its own top byte |
| Assets.WhitenKeepsTransparency | src/asset_store/asset_store.cpp:59-61 | whitening keeps a pixel's top byte zero exactly when it was zero |
| Assets.WhitenColour | src/asset_store/asset_store.cpp:59-61 | an opaque pixel takes white's low 24 bits and keeps every set bit of its top byte |
| Assets.WhitenIdempotent | src/asset_store/asset_store.cpp:59-61 | whitening a whitened pixel changes nothing |
| Assets.WhitenFirst | src/asset_store/asset_store.cpp:58-63 | exactly the first n pixels are whitened and the rest are unchanged |
| Assets.ConvertToWhite | src/asset_store/asset_store.cpp:48-66 | on a failed conversion the result is null and no pixel is touched; otherwise the first w*h pixels of the copy are whitened; the original's pixels are not modified |
| Assets.Emplace | src/asset_store/asset_store.cpp:41-45 | map emplace adds the key; an existing entry keeps its value; other keys are unchanged |
| Assets.EmplaceFirstWins | src/asset_store/asset_store.cpp:45 | emplacing under the same id twice keeps the first value |
| Assets.Lookup | src/asset_store/asset_store.cpp:78-91 | the lookup yields the stored handle (which may itself be null) when the id is present, and the null handle when it is absent |
| Assets.WhiteId | src/asset_store/asset_store.cpp:41 | the white id extends the asset id by the six characters "_white" |
| Assets.WhiteIdDiffers | src/asset_store/asset_store.cpp:41 | the white id never coincides with the asset id, so both entries of add_texture are stored |
| Assets.AssetStore.constructor | src/asset_store/asset_store.cpp:5-7 | a new store has no textures and no fonts |
| Assets.AssetStore.ClearAssets | src/asset_store/asset_store.cpp:14-28 | both the texture map and the font map end empty |
| Assets.AssetStore.AddTexture | src/asset_store/asset_store.cpp:30-46 | with get_white, the white handle is emplaced under id + "_white" and then the base handle under id; without it, only the id is added; an id already present keeps its entry; a null handle is stored like any other |
| Assets.AssetStore.AddFont | src/asset_store/asset_store.cpp:68-76 | the font handle is emplaced under its id |
| Assets.AssetStore.GetTexture | src/asset_store/asset_store.cpp:86-92 | returns the stored texture handle when the id is present and the null handle when it is absent; the store is unchanged |
| Assets.AssetStore.GetFont | src/asset_store/asset_store.cpp:78-84 | returns the stored font handle when the id is present and the null handle when it is absent; the store is unchanged |
| Text.SplitFieldsLackDelimiter | src/game/level_loader.cpp:42-48 | no field that getline produces contains the delimiter |
| Text.JoinSplit | src/game/level_loader.cpp:42-50 | the getline fields joined back with the delimiter give the input, less a trailing delimiter |
| Text.ParseInt | src/game/level_loader.cpp:47 | a value std::stoi accepts lies within the int range |
| Text.IntToStringRoundTrip | src/systems/health_bar_system.h:47 | std::stoi reads back what std::to_string wrote, for every int |
| LevelLoader.MapAll | src/game/level_loader.cpp:42-50 | a successful pass has one result per input, each the parse of its field |
| LevelLoader.MapAllFailurePersists | src/game/level_loader.cpp:46-47 | once a std::stoi call throws, the whole read fails with that exception |
| LevelLoader.MapAllFirstFailure | src/game/level_loader.cpp:46-47 | a failed read reports the exception of the first field that fails, every earlier field having parsed |
| LevelLoader.ParseGridRows | src/game/level_loader.cpp:42-50 | one row per line, made of the line's ','-separated fields parsed as integers, in order |
| LevelLoader.ReadTileData | src/game/level_loader.cpp:40-50 | the reading loops produce the parsed grid, or the first parse error |
| LevelLoader.ReadRow | src/game/level_loader.cpp:43-48 | the inner reading loop produces the parsed row, or the first parse error |
| LevelLoader.RowCells | src/game/level_loader.cpp:56-57 | row y gives cells (x, y, tile id) for x from 0 to its width |
| LevelLoader.CellsLength | src/game/level_loader.cpp:55-56 | a grid of rows of width w has rows * w cells |
| LevelLoader.CellsRowMajor | src/game/level_loader.cpp:55-57 | on a rectangular grid, cell (x, y) is visited at position y * w + x: row-major order |
| LevelLoader.MakeTile | src/game/level_loader.cpp:57-71 | a tile joins group "tiles", is placed at (x, y) times tile_size * tile_scale with scale tile_scale, and gets a background sprite of the tile size cut from column id % 10 and row id / 10 (C++ truncation) |
| LevelLoader.TileSourceOfNonNegativeId | src/game/level_loader.cpp:60-66 | a non-negative tile id t is cut at ((t % 10) * tile_size, (t / 10) * tile_size) |
| LevelLoader.TilesFor | src/game/level_loader.cpp:55-71 | one tile per cell, with consecutive entity ids |
| LevelLoader.CreateRowTiles | src/game/level_loader.cpp:56-72 | one new entity per cell of the row, left to right, with the next registry ids; the registry records exactly those entities |
| LevelLoader.CreateTiles | src/game/level_loader.cpp:55-73 | one new entity per grid cell in row-major order, with consecutive ids; the registry records exactly those entities |
| LevelLoader.LoadTileMap | src/game/level_loader.cpp:36-74 | a parse error or an empty file is an error that creates no entity; otherwise the map is (first row width, rows) times the scale and the tiles are one per cell, in row-major order |
| AnimationSystem.LoopFrame | src/systems/animation_system.h:21 | the looping frame is always in [0, num_frames) |
| AnimationSystem.NextFrame | src/systems/animation_system.h:20-28 | a looped animation takes the elapsed-time formula; a non-looped one on its last frame stays there; any other takes the formula; the frame is in range when num_frames > 0 |
| AnimationSystem.Animate | src/systems/animation_system.h:20-28 | only current_frame changes, to the next frame |
| AnimationSystem.ShowFrame | src/systems/animation_system.h:29 | src_rect.x becomes width * frame and no other sprite field changes |
| AnimationSystem.Update | src/systems/animation_system.h:16-31 | each entity's animation is advanced and its sprite shows its new frame |
| AnimationSystem.Run | src/systems/animation_system.h:16-31 | over many updates only the frame changes, and after any update it is in range |
| AnimationSystem.LastFrameIsFinal | src/systems/animation_system.h:22-24 | a non-looped animation on its last frame keeps it through every later update |
| AnimationSystem.FreshTwoFrameAnimationStaysOnFrameOne | src/components/animation_component.h:13-19 | a new non-looped two-frame animation starts on frame 1 and never leaves it |
| RenderSystem.CountDown | src/systems/render_system.h:28-30 | a positive hit_flash drops by one; any other is kept; nothing else changes |
| RenderSystem.DrawOf | src/systems/render_system.h:39-66 | the base texture is the asset-id lookup (null when absent); the white overlay is drawn exactly when hit_flash > 0 and a non-null handle is stored under id + "_white", and it is that handle; the destination ignores the camera for fixed sprites and subtracts it otherwise; the size is sprite size times scale |
| RenderSystem.DrawsOf | src/systems/render_system.h:38-58 | one draw per renderable, in order |
| RenderSystem.InLayer | src/systems/render_system.h:34 | a layer's bucket is no longer than the entity list |
| RenderSystem.InLayerOnLayer | src/systems/render_system.h:34 | every entry of a layer's bucket is on that layer |
| RenderSystem.CountDownAt | src/systems/render_system.h:28-30 | the hit flash of one sprite counts down in place and every other sprite is unchanged |
| RenderSystem.BucketsSnoc | src/systems/render_system.h:31-34 | pushing an entry onto the bucket of its own layer keeps every bucket equal to that layer's entries of the extended list |
| RenderSystem.Items | src/systems/render_system.h:31-33 | the snapshot of entity i is its transform and its (decremented) sprite |
| RenderSystem.Render | src/systems/render_system.h:17-68 | every hit_flash counts down, and the draws are those of the post-decrement snapshot in layer order |
| RenderSystem.FillLayers | src/systems/render_system.h:25-35 | the first loop decrements hit flashes and fills each of the 7 layer buckets with that layer's entries, in entity order |
| RenderSystem.DrawLayers | src/systems/render_system.h:37-67 | the buckets, drawn in ascending layer order, give the draws of the whole draw order |
| RenderSystem.DrawBucket | src/systems/render_system.h:38-58 | a bucket is drawn entry by entry |
| RenderSystem.ByLayerBelow | src/systems/render_system.h:37 | the first v buckets hold only layers below v |
| RenderSystem.ByLayerSorted | src/systems/render_system.h:37 | the concatenation of the first v buckets is ordered by layer |
| RenderSystem.DrawOrderSorted | src/systems/render_system.h:37-38 | in the draw order, a lower layer is never drawn after a higher one |
| RenderSystem.ByLayerStep | src/systems/render_system.h:37 | adding bucket v - 1 to the draw order adds that layer's entries at the end and leaves the other layers' entries as they were |
| RenderSystem.ByLayerAbove | src/systems/render_system.h:37 | the first v buckets hold no entry of a layer v or above |
| RenderSystem.ByLayerInLayer | src/systems/render_system.h:34-37 | once the buckets up to a layer are drawn, the entries of that layer in the draw order are its bucket, in entity-list order |
| RenderSystem.DrawOrderStable | src/systems/render_system.h:34-38 | within a layer, entities are drawn in their order in the system's entity list |
| RenderSystem.CountAppend | src/systems/render_system.h:37 | the number of copies of an entry in a concatenation is the sum over the parts |
| RenderSystem.CountInLayer | src/systems/render_system.h:34 | a layer's bucket has every copy of an entry on that layer and none of the others |
| RenderSystem.CountStep | src/systems/render_system.h:37 | drawing bucket v - 1 adds the copies of the entries on layer v - 1 and no others |
| RenderSystem.CountByLayer | src/systems/render_system.h:34-37 | the first v buckets hold every copy of each entry on a layer below v, and no copy of any other entry |
| RenderSystem.MultiplicityIsCount | src/systems/render_system.h:25-38 | the number of copies of an entry is its multiplicity in the list's multiset |
| RenderSystem.DrawOrderPermutes | src/systems/render_system.h:25-38 | the draw order is a permutation of the entity list: every entity is drawn exactly once |
| KeyboardControlSystem.Steer | src/systems/keyboard_control_system.h:33-50 | UP, RIGHT, DOWN and LEFT set the matching velocity and src_rect.y to height times 0, 1, 2 and 3; any other key changes nothing; no other sprite field changes |
| KeyboardControlSystem.OnKeyPressed | src/systems/keyboard_control_system.h:23-52 | the rule is applied to every entity; the keyboard components are read only |
| KeyboardControlSystem.SteerIdempotent | src/systems/keyboard_control_system.h:33-50 | pressing the same key twice has the effect of pressing it once |
| KeyboardControlSystem.LastArrowKeyWins | src/systems/keyboard_control_system.h:33-50 | after two key presses ending with an arrow key, the state is what that arrow key alone gives |
| HealthBarSystem.HealthColor | src/systems/health_bar_system.h:37-42 | red exactly below 30, yellow exactly from 30 to below 60, green exactly from 60 |
| HealthBarSystem.Label | src/systems/health_bar_system.h:44-48 | position is the transform position plus (10, -10); text is the decimal health percentage; colour by threshold; asset id and fixed flag kept |
| HealthBarSystem.Update | src/systems/health_bar_system.h:30-50 | every label is rewritten from its entity's transform and health, which are read only |
| HealthBarSystem.LabelTextReadsBack | src/systems/health_bar_system.h:47 | the label text parses back to the health percentage |
| HealthBarSystem.ColorMonotone | src/systems/health_bar_system.h:37-42 | lower health never gives a cooler colour |
| CameraMovementSystem.Follow | src/systems/camera_movement_system.h:21-30 | x centres on the entity only when the centred view ends before map_width, otherwise it keeps its value; the same for y with map_height; both are then clamped to [0, w] and [0, h]; w and h never change |
| CameraMovementSystem.FollowAll | src/systems/camera_movement_system.h:17-34 | following a list of entities never changes the camera size |
| CameraMovementSystem.Update | src/systems/camera_movement_system.h:16-35 | the camera follows every entity in list order |
| CameraMovementSystem.FollowAllBounds | src/systems/camera_movement_system.h:27-30 | with a non-negative size, the camera ends within [0, w] x [0, h] whatever it follows |
| CameraMovementSystem.LastFollowerDecides | src/systems/camera_movement_system.h:17-33 | a last follower whose centred view fits the map decides the camera alone |
| CameraMovementSystem.FollowIdempotent | src/systems/camera_movement_system.h:21-30 | following the same entity again does not move the camera |
| FogOfWarSystem.Fogged | src/systems/fog_of_war_system.h:54-62 | inside the circle a sprite is shown and revealed; outside, other layers are hidden, background and decoration are not visible, GUI is unchanged; only the three flags change; is_revealed is never cleared |
| FogOfWarSystem.Update | src/systems/fog_of_war_system.h:27-64 | nothing changes unless the player is in group "player"; otherwise every sprite is fogged by the radius-150 circle around the player |
| FogOfWarSystem.WithinCircleSymmetric | src/systems/fog_of_war_system.h:21-25 | the circle test is symmetric in the entity and the centre |
| FogOfWarSystem.CircleBoundary | src/systems/fog_of_war_system.h:21-25 | a point exactly at the radius is inside; one pixel further is outside |
| FogOfWarSystem.FoggedIdempotent | src/systems/fog_of_war_system.h:54-62 | a second update with the same inputs changes nothing |
| FogOfWarSystem.RevealedStaysRevealed | src/systems/fog_of_war_system.h:54-62 | once revealed, a sprite stays revealed through every later update |
| FogOfWarSystem.FogRun | src/systems/fog_of_war_system.h:42-63 | over many updates the layer never changes, and a sprite that was inside the circle once is revealed |
| CollisionSystem.BoxOf | src/systems/collision_system.h:51-58 | an entity's box starts at its position plus the collider offset and is collider width times scale.x wide and collider height times scale.y high |
| CollisionSystem.CheckCollisionSymmetric | src/systems/collision_system.h:19-26 | the overlap test is symmetric in its two boxes |
| CollisionSystem.TouchingEdgesDoNotCollide | src/systems/collision_system.h:21-24 | boxes that only share an edge do not collide |
| CollisionSystem.Boxes | src/systems/collision_system.h:51-58 | entry k's box is built from its transform and collider |
| CollisionSystem.Update | src/systems/collision_system.h:28-70 | afterwards an entry is flagged exactly when its box overlaps the box of a different entity of the list; nothing but the flags changes |
| CollisionSystem.CollideRow | src/systems/collision_system.h:41-68 | the inner loop flags both members of every overlapping pair (i, j) with j >= i and different entities |
| CollisionSystem.OwnEntityNeverCollides | src/systems/collision_system.h:44-46 | an entity is never tested against itself, so a list of one entity flags nothing |
| ProjectileEmitSystem.ProjectileDo | src/systems/projectile_emit_system.h:82-89 | group "projectiles"; unit-scale transform at the position; the velocity; a 4x4 "bullet-image" sprite on the bullet layer; a 4x4 collider; a projectile started now |
| ProjectileEmitSystem.Muzzle | src/systems/projectile_emit_system.h:34-39 | without a sprite the shot starts at the shooter's position; with one it starts at the position plus half the scaled sprite size on each axis |
| ProjectileEmitSystem.AfterUpdate | src/systems/projectile_emit_system.h:63-78 | a firing emitter records the tick count; any other is unchanged; nothing else changes |
| ProjectileEmitSystem.Emitted | src/systems/projectile_emit_system.h:58-80 | at most one projectile per emitter |
| ProjectileEmitSystem.EmittedIds | src/systems/projectile_emit_system.h:73 | the projectiles of Update get consecutive ids, starting at the registry's counter |
| ProjectileEmitSystem.Emit | src/systems/projectile_emit_system.h:67-74 | the projectile gets the next registry id, starts at the muzzle and takes the emitter's velocity, friendliness, damage and duration |
| ProjectileEmitSystem.UpdateEmitter | src/systems/projectile_emit_system.h:60-78 | an emitter with frequency 0, or whose timer has not run out, creates nothing and is unchanged; otherwise it creates one projectile with the next registry id and records the tick count; the registry records exactly what was created |
| ProjectileEmitSystem.Update | src/systems/projectile_emit_system.h:58-80 | every emitter is updated; the new entities are exactly the projectiles of the firing emitters, in order, with the next ids; the registry records exactly them |
| ProjectileEmitSystem.FiresAtMostOncePerTick | src/systems/projectile_emit_system.h:66-77 | an emitter that has just fired does not fire again at the same tick count |
| ProjectileEmitSystem.EmittedCount | src/systems/projectile_emit_system.h:59-79 | Update creates exactly one projectile per firing emitter |
| ProjectileEmitSystem.SilentEmittersEmitNothing | src/systems/projectile_emit_system.h:63 | emitters of frequency 0 never emit |
| ProjectileEmitSystem.Shot | src/systems/projectile_emit_system.h:34-52 | a player shot's velocity on each axis is the emitter velocity times the sign of the shooter's velocity; it starts at the muzzle |
| ProjectileEmitSystem.Direction | src/systems/projectile_emit_system.h:42-47 | a shot's direction on one axis is the sign of the shooter's velocity: +1, -1, or 0 when it stands still on that axis |
| ProjectileEmitSystem.Shoot | src/systems/projectile_emit_system.h:30-52 | one shot with the next registry id |
| ProjectileEmitSystem.Shots | src/systems/projectile_emit_system.h:28-54 | one shot per player entity in order, with consecutive ids; none when no entity is a player |
| ProjectileEmitSystem.OnKeyPressed | src/systems/projectile_emit_system.h:26-56 | only the space key shoots, and only player entities; the registry records exactly the new shots |
| ProjectileEmitSystem.StillShooterStillShot | src/systems/projectile_emit_system.h:42-49 | a shooter standing still fires a shot that stands still |
| ProjectileLifecycleSystem.Update | src/systems/projectile_lifecycle_system.h:16-33 | an entity is killed exactly when it is off the camera's area or older than its duration; an entity meeting both appears once; no component changes |
| ProjectileLifecycleSystem.InsideAndYoungSurvives | src/systems/projectile_lifecycle_system.h:24-31 | a projectile inside the bounds and within its lifetime is not killed |
| ProjectileLifecycleSystem.ExpiryIsPermanent | src/systems/projectile_lifecycle_system.h:29-31 | an expired projectile stays expired at every later tick |

## Left out

- SDL, SDL_image, SDL_ttf and ImGui calls (drawing, texture creation, surface loading, font loading): handles are opaque addresses or the null handle, and the results of these calls are parameters. In particular `SDL_CreateTextureFromSurface` is not modelled: `AddTexture` receives the handles it returned, the base handle being null when `IMG_Load` failed and the white handle null when `SDL_ConvertSurface` failed inside `ConvertToWhite`, and stores them as they are. `RenderSystem.Render` returns the sequence of draw calls instead of drawing. The colour and alpha modulation of the overlay is not modelled.
- Logging (`Logger::Log`, `Logger::Err`): console output and the wall clock.
- Floating point: positions, scales, velocities and the `double` widths of `check_collision` are integers. The float-to-int casts of the render destination are not modelled.
- The float helpers `Distance`, `Lerp`, `InvLerp`, `Remap` and the float `Clamp` in `src/utils/utils.cpp` and `src/systems/health_bar_system.h` are left out for the same reason.
- ProjectileEmitSystem.Muzzle: the source adds scale * size / 2 in floating point; the model's contract states the offset with integer division truncating toward zero.
- The 32-bit width of `int` (overflow of products and sums) is not modelled, except where an int is converted to Uint32 for a tick comparison (`Utils.AsUint32`).
- AnimationSystem.LoopFrame: the Uint32 wrap-around of (ticks - start_time) * frame_rate_speed is not modelled. The model also requires a non-negative frame rate and a positive frame count where the formula divides by it, instead of the unsigned reinterpretation the source applies to negative values.
- The source calls `SDL_GetTicks()` once per entity in the animation and projectile lifecycle systems, and twice per emission in the emitter system (the timer test and the recorded emission time). The model reads the clock once per update: one `ticks` parameter for the whole pass, so time passing during a pass is not modelled.
- Events.EventBus.EmitEvent: the source walks the `std::list` of handlers while they run, so a handler that subscribes to the same event type during emission is called in the same pass. The model returns the calls for the list as it was when emission started; handlers that subscribe while they run are not modelled.
- ProjectileEmitSystem.Update, ProjectileLifecycleSystem.Update and AnimationSystem.Update require the tick count to be at least the recorded start or emission time, so the Uint32 wrap-around of the tick subtraction is not modelled.
- Registry component access (`get_component`, `has_component`, `HasTag`, `BelongsToGroup`, `Group`, `add_component`, `Kill`): `src/ecs/ecs.h` declares none of them, and `Registry` is a TODO there (lines 51-53). Component records are inputs. Tags and groups are booleans. Group membership and attached components are fields of the returned projectile and tile records. Kill requests are a returned set.
- Aliasing: two entries of a system's list that name the same entity share components in the source; in the model each entry has its own record.
- `src/components/transform_component.h`, `rigid_body_component.h` and `camera_follow_component.h` are not part of this model. Their fields are inferred from their uses.
- `health_percentage`, `hit_percent_damage` and the sprite's `is_hidden`, `is_revealed` and `is_visible` are read by the systems, but `src/components/health_component.h`, `src/components/projectile_emitter_component.h` and `src/components/sprite_component.h` do not declare them. The model declares them as plain fields; the fog flags of a new sprite are taken as not hidden, not revealed, visible.
- `Registry` is a TODO in `src/ecs/ecs.h:51-53`, so it has no constructor; the model starts the counter at 0 with an empty pending-add set.
- KeyboardControlSystem::Update is an empty TODO and is not modelled as a member.
- The subscribe_to_events wrappers of the systems are not modelled as members; they are one subscription each (`Events.EventBus.SubscribeToEvent`).
- The collision system's log line and its TODO event are left out, as is its `Debug` drawing.
- The std::map layer buckets of the render system are a sequence of 7 buckets, one per layer value; iterating the map visits only non-empty buckets, which draws the same sequence.
- `LevelLoader::LoadTileMap` reads `tile_data[0]` without checking that the file had a line. The model returns the `NoRows` error for an empty file instead of modelling undefined behaviour. A file that cannot be opened is modelled as empty content.
- Assets.ConvertToWhite takes a non-null original surface. With `get_white` set, a failed `IMG_Load` makes the source pass a null surface, which `asset_store.cpp:49` dereferences; that undefined behaviour is not modelled.
- Assets.ConvertToWhite assumes a 32-bit pixel format: it requires the copy to hold at least w*h `Uint32` pixels and not to share the original's buffer. `SDL_ConvertSurface` keeps the original's format (`asset_store.cpp:49`), so for a 24-bit or palettised surface the source loop reads and writes past the buffer; that undefined behaviour is not modelled.
- `load_level` (Lua), audio, scripting, damage, movement, radar and the text and GUI render systems are outside the modelled core.
