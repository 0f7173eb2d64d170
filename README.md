# Roguelike tutorial: tile map and player movement

A Dafny model of the two pieces of game logic in a small Rust roguelike
built on rltk and specs:

- **The tile map** (`src/map.rs`). An 80 x 50 grid stored row-major as a
  4000-tile sequence. `xy_idx` gives a cell's index. `new_map` builds the
  map in three steps: all Floor, then Wall on the four outer rows and
  columns, then Wall on 400 random cells, never touching the spawn cell
  (40, 25). `draw_map` walks the tiles with a column and a row counter and
  draws `.` for Floor and `#` for Wall.
- **Player movement** (`src/player.rs`). `try_move_player` moves every
  entity that has both a `Player` and a `Position` component. The
  unclamped destination tile is looked up first. On a Wall the move is
  rejected. Otherwise the new position is clamped to the grid.
  `player_input` maps four groups of keys (arrows, numpad, WASD, vi keys) to
  the four unit steps. Any other key, or no key, does nothing.

Files:
- `wrappers.dfy` has `Option`.
- `components.dfy` has `Position`.
- `map.dfy` is module `Map`.
- `player.dfy` is module `Player`. It holds the movement and key-table
  functions and the `World` class, which owns the tiles and the position
  storage.

The random number generator becomes a parameter: the 400 rolled `(x, y)`
pairs, each in the range of `roll_dice(1, 79)` and `roll_dice(1, 49)`. The
specs position/player join becomes a sequence of `Entity` records, each
with a player flag.

Notes on the code as written:
- The rolls range over `[1, 79] x [1, 49]`. So a splat can land on the
  right column or the bottom row. That tile is already Wall, so nothing
  changes.
- Nothing checks the destination's x against the width. A player at
  x = 79 stepping right looks up index `y*80 + 80`, which is cell
  (0, y + 1). If that tile is not a Wall, the clamp keeps the player at
  x = 79. On a generated map, (0, y + 1) is on the border and therefore
  a Wall.
- Down is bound to Numpad5. Numpad2 is not bound to anything.

## Model

| member | source | states |
|---|---|---|
| Map.XyIdx | src/map.rs:17-19 | for non-negative coordinates: an in-bounds cell gets an index below 4000, and `% 80` and `/ 80` of that index give the cell back |
| Map.IdxRoundTrip | src/map.rs:14-19 | every index in [0, 4000) is the index of the in-bounds cell (i % 80, i / 80), so the index map is onto the tiles |
| Map.XyIdxInjective | src/map.rs:14-19 | two in-bounds cells have the same index only when they are the same cell |
| Map.NewMap | src/map.rs:21-53 | the result has 80*50 tiles. Each cell is Wall on the border. Each interior cell is Wall where a roll landed, except the spawn cell. Every other cell is Floor. The border is all Wall and the spawn tile is Floor, whatever the rolls |
| Map.SplatterMapFloorIff | src/map.rs:25-49 | on a generated map, tile i is Floor exactly when its cell is off the border and either it is the spawn index or no roll landed on it |
| Map.Glyph | src/map.rs:61-80 | Floor is drawn as '.', Wall as '#', and these are the only tiles with those glyphs |
| Map.DrawMap | src/map.rs:55-89 | one cell per tile. The i-th tile is drawn at (i % 80, i / 80) with its glyph. So the cell at xy_idx(x, y) is drawn at (x, y), which reverses the index map |
| Player.KeyDelta | src/player.rs:25-50 | Left/Numpad4/A/H give (-1,0), Right/Numpad6/D/L give (1,0), Up/Numpad8/W/K give (0,-1), Down/Numpad5/S/J give (0,1), each in both directions. Every other key, Numpad2 included, gives nothing. Every produced step is a unit cardinal step |
| Player.Clamp | src/player.rs:14-15 | min(hi, max(lo, v)) lies in [lo, hi]: it is v inside the range, lo below it and hi above it |
| Player.MovePosition | src/player.rs:12-16 | if the unclamped destination tile is Wall, the position is unchanged. Otherwise the position becomes (clamp(x+dx, 0, 79), clamp(y+dy, 0, 49)). That lies on the grid, and it is exactly the destination when the destination is on the grid |
| Player.MoveEntity | src/player.rs:11-16 | a non-player is left exactly as it was. A player keeps its flag and its position moves as MovePosition says |
| Player.InteriorPreserved | src/player.rs:12-15 | on a map whose border is all Wall, a unit step from strictly inside has an in-range destination index and ends strictly inside |
| Player.PlayableLooksUp | src/player.rs:11-13 | on such a map, with every player strictly inside, every player's destination index for a unit step is in range, so the lookup cannot fail |
| Player.SpawnPlayable | src/main.rs:69-81 | on a generated map the border is all Wall and the player created at (40, 25) stands strictly inside, on a Floor tile |
| Player.World.constructor | src/main.rs:61-69 | the world holds exactly the given map and position storage |
| Player.World.TryMovePlayer | src/player.rs:6-18 | the map is unchanged and the storage keeps its length. Every entry becomes MoveEntity of its old value with the same (dx, dy). A world with a walled border and all players strictly inside stays so after a unit step |
| Player.World.PlayerInput | src/player.rs:23-52 | no key, or a key bound to nothing, changes nothing. A bound key applies TryMovePlayer with the step KeyDelta gives, and keeps the world playable |

## Left out

- Rendering: `ctx.set`, `ctx.cls`, the RGB colours (floating point) and the rltk context. `DrawMap` returns the `(x, y, glyph)` cells that would be drawn.
- The random number generator: it is replaced by the caller-supplied rolls.
- The specs ECS internals (`World::new`, `register`, storages, `fetch`, `join`, `maintain`) and `run_systems`, which only calls `maintain`. The position/player join is a sequence of `Entity` records.
- `main`, `RltkBuilder`, `main_loop` and `tick` in `src/main.rs`: window and event-loop plumbing and calls into rltk.
- The `Renderable` and `Player` components in `src/components.rs`: derive-macro data. A player is a flag on the entity record.
- Map.XyIdx: negative coordinates are a precondition rather than the wrap-around of Rust's `as usize` cast. Positions are unbounded integers rather than `i32`. 32-bit overflow is not modelled. It cannot arise in a playable world: there, unit steps keep every player in [1, 78] x [1, 48] (`Player.InteriorPreserved`, `Player.World.TryMovePlayer`).
- Player.MovePosition: `map[destination_idx]` panics when the index is past the end of the map. For example, a player at (x, 49) stepping down on a map whose bottom row is not Wall looks up index 4000 + x. Here that panic is a precondition instead (`CanLookUp`, and `LookUpsInRange` for `Player.World.TryMovePlayer`). `Player.PlayableLooksUp` shows that it never arises from a playable world under a unit step.
- Player.MovePosition: the lower clamp `max(0, ...)` is kept as written, but it never has an effect here. The precondition that the destination can be looked up already makes both coordinates non-negative.
- Rooms-and-corridors generation and the `Rect` type: no such code exists in the source. Only the `Rect` imports remain, commented out (src/map.rs:2, src/main.rs:10-11). `src/rect.rs` is not part of this model.
