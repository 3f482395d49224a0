# go-2d-rpg: the game loop in Dafny

go-2d-rpg is a small top-down game built on the ebiten engine. It has a
player sprite moved by the arrow keys, skeleton enemies, some of which
chase the player, potions that heal the player, and a tile map read from
JSON and drawn from a 22-column tileset image. This project models the
game object's two per-frame operations:

- **`Update`** moves the player 2 pixels per pressed arrow key. Every enemy
  whose `FollowsPlayer` flag is set then steps 1 pixel per axis toward the
  player's new position. Finally every potion strictly left of the player
  adds its heal amount to the player's `uint` health. That last step
  happens on every frame, because potions are never consumed.
- **`Draw`** issues one tile blit per cell of every map layer, then one
  blit for the player, one per enemy and one per potion. The cell's screen
  position and the tile's place in the tileset come from Go's truncating
  integer `%` and `/`.

The project has four modules:

- `Numeric` (numeric.dfy) holds `Abs`, which the other modules share.
- `Tiles` (tiles.dfy) holds the integer arithmetic of the tile loop. It
  defines Go's truncating quotient and remainder (`GoDiv`, `GoMod`), the
  grid cell of a flat index, and the source rectangle of a tile id.
- `Entities` (entities.dfy) describes the game's entities as values.
  - `Frame` is a pure function giving one frame of `Update`.
  - `Run` gives a sequence of frames driven by a sequence of key states.
  - Lemmas prove what follows from them: movement, chasing, and
    wrap-around of the health counter.
- `GameLoop` (game.dfy) holds the class `Game`. Its player field and its
  enemy array are updated in place by `Update`, which is proved equal to
  `Frame`. Its `Draw` returns the blit list, and that list is proved equal
  to a specification built from `LayerBlits`, `EnemyBlits` and
  `PotionBlits`.

Some modelling choices:

- Positions are integers. In Go they are `float64`, but every start
  position is a whole number (main.go:169-208) and every step is ±1 or ±2,
  so they stay whole.
- Go's `uint` is 64 bits wide on 64-bit platforms, which is what the model
  assumes. Health and heal amounts are the subset type `Uint`
  (0 ≤ x < 2^64), and `+=` is `AddUint`, an addition that wraps around.
- Tile id 0, which maps use for "no tile", is not special-cased in the
  source. It yields the rectangle (-16, 0, 0, 16), left of the tileset.
  `Tiles.EmptyTileSource` states this.

## Model

| member | source | states |
|---|---|---|
| Tiles.GoDiv | main.go:95 | Go's `/` (also the tileset row at line 103) truncates toward zero: `Abs(b)*Abs(q) <= Abs(a) < Abs(b)*(Abs(q)+1)`, and a non-zero quotient is negative exactly when the operands' signs differ |
| Tiles.GoMod | main.go:94-95 | Go's `%` with the truncated quotient: `a == b*q + r`, `Abs(r) < Abs(b)`, and a non-zero `r` has the sign of the dividend |
| Tiles.QuotientTimesDivisor | main.go:95 | the truncated quotient times the divisor has the dividend's sign and the magnitude `Abs(b) * (Abs(a) / Abs(b))` |
| Tiles.GoDivModNatural | main.go:94-95 | for a non-negative index and a positive width, Go's `/` and `%` agree with Euclidean division |
| Tiles.CellColumn | main.go:94 | `index == width*row + col` for any non-zero width; for a non-negative index and a positive width, `0 <= col < width` |
| Tiles.CellRow | main.go:95 | the row of a non-negative index in a positive-width layer is never negative |
| Tiles.CellDest | main.go:94-99 | the destination pixel is on the 16-pixel grid and divides back to the cell's column and row |
| Tiles.CellGrid | main.go:94-99 | a cell of a non-negative index lies in a column `0 <= col < width`, its row and column give the index back, an index below `width*height` lies in a row `< height`, its pixel x lies in `[0, 16*(width-1)]` and, inside the layer, its pixel y in `[0, 16*(height-1)]` |
| Tiles.CellIndexRoundTrip | main.go:94-95 | for a cell of the grid, column and row of `row*width + col` are `col` and `row` |
| Tiles.TileSource | main.go:102-106 | the source rectangle of any tile id is exactly one 16x16 tile |
| Tiles.TileSourceInSheet | main.go:102-106 | a tile id >= 1 selects a rectangle in one of the tileset's 22 columns, on the 16-pixel grid, and the id can be read back as `1 + col + 22*row` |
| Tiles.EmptyTileSource | main.go:102-106 | tile id 0 gives the rectangle (-16, 0, 0, 16), one tile left of the tileset |
| Entities.AddUint | main.go:77 | unsigned `+=` on a 64-bit `uint`: the result is below the old health exactly when the sum overflowed |
| Entities.AddUintIsWrap | main.go:77 | the wrapping addition is addition modulo 2^64 |
| Entities.Move | main.go:44-55 | health is unchanged; x changes by exactly +2 when right is pressed without left, by exactly -2 when left is pressed without right, and not at all otherwise; y likewise, +2 for down and -2 for up (screen y grows downward); no axis moves by more than 2 |
| Entities.ChaseAxis | main.go:61-71 | a chasing coordinate moves by at most 1 toward the target, never past it, and the distance drops by exactly 1 unless already 0 |
| Entities.Chase | main.go:58-73 | the flag is kept; an enemy without the flag is unchanged; a following enemy's coordinates each take one chase step |
| Entities.ChaseClosesGap | main.go:58-73 | a following enemy's Chebyshev distance to the player falls by exactly 1 per frame, down to 0 |
| Entities.ChaseAll | main.go:58 | every enemy is chased in place: same length, element i is enemy i chased |
| Entities.Gain | main.go:76-77 | a potion strictly left of the player gives its heal amount, any other gives nothing |
| Entities.HealFold | main.go:75-80 | the in-order wrapping sum: health is unchanged when no potion is left of the player, and is the exact sum of old health and gains when that sum fits in 64 bits |
| Entities.HealFoldIsWrappedTotal | main.go:75-80 | adding each potion's gain with wrap-around ends at (health + exact total gain) mod 2^64 |
| Entities.HealFoldFromZero | main.go:75-80 | a frame's potions add the same amount whatever the health they start from |
| Entities.HealTotalAppend | main.go:75 | the heal total is additive over a split of the potion slice |
| Entities.HealTotalMonotone | main.go:76 | the further right the player stands, the larger the heal total |
| Entities.Frame | main.go:42-82 | one frame: the player moves by the keys; each enemy is chased toward the player's new position; enemy count and potions are unchanged |
| Entities.FrameHeals | main.go:75-80 | a frame's health is (old health + heal of every potion left of the new x) mod 2^64 |
| Entities.HealthNeverDecreases | main.go:20 | when the counter does not overflow, a frame never lowers health |
| Entities.HealthWrapsAround | main.go:77 | a player at health 2^64-1 picking up a potion of 1 ends at health 0 |
| Entities.RunKeepsStillEnemies | main.go:58-73 | over any run of frames, no enemy is added, removed, reordered or changes its flag, an enemy without the flag never moves, and potions are unchanged |
| Entities.AddTimesIsWrapped | main.go:75-80 | n wrapping additions of g equal one addition of n*g modulo 2^64 |
| Entities.AddTimesRepeated | main.go:75-80 | n wrapping additions of g equal (h + g added n times) mod 2^64 |
| Entities.IdleFrame | main.go:44-55 | with no net key on either axis the player stays put, and the frame adds the heal it would add from zero health |
| Entities.IdleRunHeals | main.go:75-80 | a standing player is healed again by the same amount on every frame: n idle frames add the heal n times |
| Entities.PickupRepeats | main.go:75-80 | a player one pixel right of a potion, with no key pressed, gains the amount after one frame and twice the amount after two |
| Entities.ChaserReachesIdlePlayer | main.go:58-73 | a chasing enemy's distance to a standing player after n frames is max(distance - n, 0) |
| GameLoop.CellBlit | main.go:92-114 | a cell's blit copies one 16x16 tileset tile, `TileSource(id)`, to a point on the 16-pixel grid; for a non-negative index and a positive width its x lies inside the layer's columns and its y is non-negative |
| GameLoop.SpriteBlit | main.go:118-120 | a sprite's blit copies the 16x16 tile at the top left of its sheet to the sprite's position |
| GameLoop.TileBlits | main.go:90-116 | the tile loop over all layers issues exactly one blit per cell |
| GameLoop.LayerBlits | main.go:92-115 | one blit per cell of the layer |
| GameLoop.TileBlitsAt | main.go:90-116 | cell i of layer l is blitted at position (cells of earlier layers + i), from a 16-pixel-wide tileset rectangle, and there is one blit per cell in total |
| GameLoop.DrawLayer | main.go:92-115 | the per-layer loop, with Go's `%` and `/`, issues exactly the layer's cell blits in index order |
| GameLoop.EnemyBlits | main.go:124-128 | one enemy sprite blit per enemy |
| GameLoop.PotionBlits | main.go:131-135 | one potion sprite blit per potion |
| GameLoop.DrawPotions | main.go:131-135 | the potion loop issues exactly the potion sprite blits in slice order |
| GameLoop.Game.constructor | main.go:169-208 | a game holding the given player, enemies, potions and tile layers |
| GameLoop.Game.Update | main.go:42-82 | the new player and enemy array are exactly `Frame` of the old state and the pressed keys |
| GameLoop.Game.ChaseEnemies | main.go:58-73 | the enemy array becomes every enemy chased toward the player's current position |
| GameLoop.Game.PickUpPotions | main.go:75-80 | only the player's health changes, to the wrapping sum over the potions left of the player |
| GameLoop.Game.DrawEnemies | main.go:124-128 | the enemy loop issues exactly the enemy sprite blits in array order |
| GameLoop.Game.Draw | main.go:84-137 | the blits are every layer's cells in order, then the player, then each enemy, then each potion, picked up or not |

## Left out

- `NewTilemapJSON` (tilemap.go) is left out because it is file I/O and JSON decoding. Layers are given to the `Game` constructor as values.
- `Layout` and `main` are left out: window setup, image loading, `log.Fatal` and `RunGame`. Their initial values only justify integer positions.
- The ebiten calls of `Draw` are not modelled: `Fill` with colour (120, 180, 255, 255), `DrawImage`, `SubImage` and the `GeoM` translate and reset. `Draw` returns the list of blits it would issue, each a sheet tag, a source rectangle and a destination.
- The `Printf` pickup message is left out because it is console output.
- Arrow-key state comes from `ebiten.IsKeyPressed`, which is an input device. It is a parameter of `Update`.
- `Update` always returns `nil`, so the model's `Update` returns nothing.
- Positions are `float64` in Go and integers here. This holds only while they stay whole numbers, as they do from the starting values.
- Go's `int` in the tile arithmetic is modelled as unbounded. Map indices and tile ids never come near its limit on any platform.
- 32-bit targets are not modelled. There Go's `uint` is 32 bits wide and `Health += AmountHeal` wraps at 2^32, not at 2^64 as `AddUint` does.
- A layer with cells and width 0 makes Go panic on the division. `Draw`, `DrawLayer` and `LayerBlits` require every layer to have a non-zero width or no cells.
- Sprites are held through pointers in Go. The model's enemies are distinct array elements and its player is one field, so no two entities share a sprite.
- The loops of `Update` and `Draw` are helper methods (`ChaseEnemies`, `PickUpPotions`, `DrawLayer`, `DrawEnemies`, `DrawPotions`), each with its own contract. Their bodies follow the source's branches.
