/** The game object: its per-frame Update, which moves the player, the
    chasing enemies and the player's health in place, and its Draw, which
    is given here as the list of blits it issues. */
module GameLoop {
  import opened Tiles
  import opened Entities

  /** The image a blit copies from. */
  datatype Sheet = TilesetSheet | PlayerSheet | EnemySheet | PotionSheet

  /** One image copy: a source rectangle of a sheet drawn with its top
      left corner at screen pixel (dx, dy). */
  datatype Blit = Blit(sheet: Sheet, src: Rect, dx: int, dy: int)

  /** The blit for the cell at a flat index of a layer holding tile `id`:
      one tile of the tileset, drawn on the 16-pixel grid; for a
      non-negative index and a positive width, inside the layer's
      columns. */
  function CellBlit(width: int, index: int, id: int): (r: Blit)
    requires width != 0
    ensures r.sheet == TilesetSheet && r.src == TileSource(id)
    ensures r.src.x1 - r.src.x0 == TileSize && r.src.y1 - r.src.y0 == TileSize
    ensures r.dx % TileSize == 0 && r.dy % TileSize == 0
    ensures index >= 0 && width > 0 ==> 0 <= r.dx < TileSize * width && 0 <= r.dy
  {
    Blit(TilesetSheet, TileSource(id), CellDest(index, width).0, CellDest(index, width).1)
  }

  /** A sprite's blit: the 16x16 tile at the top left of its sheet, drawn
      with its corner at the sprite's position. */
  function SpriteBlit(sheet: Sheet, x: int, y: int): (r: Blit)
    ensures r.sheet == sheet && r.dx == x && r.dy == y
    ensures r.src.x0 == 0 && r.src.y0 == 0
    ensures r.src.x1 - r.src.x0 == TileSize && r.src.y1 - r.src.y0 == TileSize
  {
    Blit(sheet, Rect(0, 0, TileSize, TileSize), x, y)
  }

  /** A layer can be drawn unless it has cells and a zero width, where
      `index % Width` is a division by zero. */
  predicate Drawable(layer: Layer) {
    layer.width != 0 || |layer.data| == 0
  }

  /** The blits of one layer, cell by cell in index order. */
  function LayerBlits(layer: Layer): (r: seq<Blit>)
    requires Drawable(layer)
    ensures |r| == |layer.data|
  {
    seq(|layer.data|, i requires 0 <= i < |layer.data| => CellBlit(layer.width, i, layer.data[i]))
  }

  /** The blits of all layers, first layer first: one per cell. */
  function TileBlits(layers: seq<Layer>): (r: seq<Blit>)
    requires forall l :: 0 <= l < |layers| ==> Drawable(layers[l])
    ensures |r| == CellCount(layers)
    decreases |layers|
  {
    if layers == [] then []
    else TileBlits(layers[..|layers| - 1]) + LayerBlits(layers[|layers| - 1])
  }

  /** Number of cells of all layers. */
  function CellCount(layers: seq<Layer>): nat
    decreases |layers|
  {
    if layers == [] then 0 else CellCount(layers[..|layers| - 1]) + |layers[|layers| - 1].data|
  }

  /** Every layer's cells come out in index order, right after the
      cells of the layers before it: the blit at position
      CellCount(layers[..l]) + i is that of cell i of layer l, a 16x16
      tile of the tileset. */
  lemma {:induction false} TileBlitsAt(layers: seq<Layer>, l: int, i: int)
    requires forall m :: 0 <= m < |layers| ==> Drawable(layers[m])
    requires 0 <= l < |layers| && 0 <= i < |layers[l].data|
    ensures |TileBlits(layers)| == CellCount(layers)
    ensures CellCount(layers[..l]) + i < CellCount(layers)
    ensures TileBlits(layers)[CellCount(layers[..l]) + i] ==
      CellBlit(layers[l].width, i, layers[l].data[i])
    ensures TileBlits(layers)[CellCount(layers[..l]) + i].src.x1 -
      TileBlits(layers)[CellCount(layers[..l]) + i].src.x0 == TileSize
    decreases |layers|
  {
    var n := |layers| - 1;
    var init := layers[..n];
    if l == n {
      assert layers[..l] == init;
    } else {
      assert init[..l] == layers[..l];
      TileBlitsAt(init, l, i);
    }
  }

  /** The tile loop for one layer: a blit per cell, in index order. */
  method DrawLayer(layer: Layer) returns (blits: seq<Blit>)
    requires Drawable(layer)
    ensures blits == LayerBlits(layer)
  {
    blits := [];
    var index := 0;
    while index < |layer.data|
      invariant 0 <= index <= |layer.data|
      invariant blits == LayerBlits(layer)[..index]
    {
      var id := layer.data[index];
      // the tile's place on screen
      var x := TileSize * GoMod(index, layer.width);
      var y := TileSize * GoDiv(index, layer.width);
      // the tile's place in the tileset
      var srcX := TileSize * GoMod(id - 1, TilesetColumns);
      var srcY := TileSize * GoDiv(id - 1, TilesetColumns);
      blits := blits + [Blit(TilesetSheet, Rect(srcX, srcY, srcX + TileSize, srcY + TileSize), x, y)];
      index := index + 1;
    }
  }

  class Game {
    var player: Player
    const enemies: array<Enemy>
    const potions: seq<Potion>
    const layers: seq<Layer>

    /** A game over the given entities and tile map. */
    constructor (player: Player, enemies: seq<Enemy>, potions: seq<Potion>, layers: seq<Layer>)
      ensures this.player == player && fresh(this.enemies) && this.enemies[..] == enemies
      ensures this.potions == potions && this.layers == layers
    {
      this.player := player;
      this.enemies := new Enemy[|enemies|](i requires 0 <= i < |enemies| => enemies[i]);
      this.potions := potions;
      this.layers := layers;
    }

    /** The game's entities as a value. */
    function State(): World
      reads this, enemies
    {
      World(player, enemies[..], potions)
    }

    /** One frame of the game with the given arrow keys pressed. It has
        no failure case. */
    method Update(right: bool, left: bool, up: bool, down: bool)
      modifies this, enemies
      ensures State() == Frame(old(State()), Keys(right, left, up, down))
    {
      // react to key presses to move the player
      if right {
        player := player.(x := player.x + PlayerStep);
      }
      if left {
        player := player.(x := player.x - PlayerStep);
      }
      if up {
        player := player.(y := player.y - PlayerStep);
      }
      if down {
        player := player.(y := player.y + PlayerStep);
      }
      ghost var moved := player;
      assert moved == Move(old(player), Keys(right, left, up, down));
      ChaseEnemies();
      PickUpPotions();
      assert Frame(old(State()), Keys(right, left, up, down)) == World(player, enemies[..], potions);
    }

    /** The chase loop of a frame: every enemy that follows the player
        steps toward the player's current position, the others stay. */
    method ChaseEnemies()
      modifies enemies
      ensures enemies[..] == ChaseAll(old(enemies[..]), player.x, player.y)
    {
      var i := 0;
      while i < enemies.Length
        invariant 0 <= i <= enemies.Length
        invariant forall j :: 0 <= j < i ==> enemies[j] == Chase(old(enemies[j]), player.x, player.y)
        invariant forall j :: i <= j < enemies.Length ==> enemies[j] == old(enemies[j])
      {
        var enemy := enemies[i];
        if enemy.followsPlayer {
          if enemy.x < player.x {
            enemy := enemy.(x := enemy.x + ChaseStep);
          } else if enemy.x > player.x {
            enemy := enemy.(x := enemy.x - ChaseStep);
          }
          if enemy.y < player.y {
            enemy := enemy.(y := enemy.y + ChaseStep);
          } else if enemy.y > player.y {
            enemy := enemy.(y := enemy.y - ChaseStep);
          }
        }
        enemies[i] := enemy;
        i := i + 1;
      }
    }

    /** The potion loop of a frame: every potion left of the player adds
        its heal amount to the player's health, on every frame. */
    method PickUpPotions()
      modifies this
      ensures player == old(player).(health := HealFold(old(player.health), potions, old(player.x)))
    {
      var k := 0;
      while k < |potions|
        invariant 0 <= k <= |potions|
        invariant player == old(player).(health := HealFold(old(player.health), potions[..k], old(player.x)))
      {
        if player.x > potions[k].x {
          player := player.(health := AddUint(player.health, potions[k].amountHeal));
        }
        assert potions[..k + 1][..k] == potions[..k];
        k := k + 1;
      }
      assert potions[..k] == potions;
    }

    /** The blits of one frame, in drawing order: every cell of every
        layer, then the player, then each enemy, then each potion, the
        potions whether or not they have been picked up. */
    method Draw() returns (calls: seq<Blit>)
      requires forall l :: 0 <= l < |layers| ==> Drawable(layers[l])
      ensures |calls| == CellCount(layers) + 1 + enemies.Length + |potions|
      ensures calls == TileBlits(layers) + [SpriteBlit(PlayerSheet, player.x, player.y)] +
        EnemyBlits(enemies[..]) + PotionBlits(potions)
    {
      calls := [];
      var l := 0;
      while l < |layers|
        invariant 0 <= l <= |layers|
        invariant calls == TileBlits(layers[..l])
      {
        var blits := DrawLayer(layers[l]);
        calls := calls + blits;
        assert layers[..l + 1][..l] == layers[..l];
        l := l + 1;
      }
      assert layers[..l] == layers;
      calls := calls + [SpriteBlit(PlayerSheet, player.x, player.y)];
      var enemyBlits := DrawEnemies();
      var potionBlits := DrawPotions(potions);
      calls := calls + enemyBlits + potionBlits;
    }

    /** The enemy loop of Draw: one sprite per enemy, in array order. */
    method DrawEnemies() returns (blits: seq<Blit>)
      ensures blits == EnemyBlits(enemies[..])
    {
      blits := [];
      var e := 0;
      while e < enemies.Length
        invariant 0 <= e <= enemies.Length
        invariant blits == EnemyBlits(enemies[..])[..e]
      {
        blits := blits + [SpriteBlit(EnemySheet, enemies[e].x, enemies[e].y)];
        e := e + 1;
      }
    }
  }

  /** The sprite blits of the enemies, one per enemy at its position. */
  function EnemyBlits(es: seq<Enemy>): (r: seq<Blit>)
    ensures |r| == |es|
  {
    seq(|es|, j requires 0 <= j < |es| => SpriteBlit(EnemySheet, es[j].x, es[j].y))
  }

  /** The sprite blits of the potions, one per potion at its position. */
  function PotionBlits(ps: seq<Potion>): (r: seq<Blit>)
    ensures |r| == |ps|
  {
    seq(|ps|, j requires 0 <= j < |ps| => SpriteBlit(PotionSheet, ps[j].x, ps[j].y))
  }

  /** The potion loop of Draw: one sprite per potion, in slice order. */
  method DrawPotions(potions: seq<Potion>) returns (blits: seq<Blit>)
    ensures blits == PotionBlits(potions)
  {
    blits := [];
    var p := 0;
    while p < |potions|
      invariant 0 <= p <= |potions|
      invariant blits == PotionBlits(potions)[..p]
    {
      blits := blits + [SpriteBlit(PotionSheet, potions[p].x, potions[p].y)];
      p := p + 1;
    }
  }
}
