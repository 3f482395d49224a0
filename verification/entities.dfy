/** The game's entities as values, and what one frame of the game does to
    them, stated as pure functions: the reference that the imperative
    `Game.Update` is proved against. Positions are integers (see README). */
module Entities {
  import opened Numeric

  /** Go's `uint` on a 64-bit platform: 64 bits wide, wrapping around. */
  const UintRange: int := 0x1_0000_0000_0000_0000
  type Uint = x: int | 0 <= x < UintRange

  /** Unsigned addition with wrap-around, as Go's `+=` on `uint`: the
      result is below the first operand exactly when the sum overflowed. */
  function AddUint(a: Uint, b: Uint): (r: Uint)
    ensures r < a <==> a + b >= UintRange
    ensures r <= a + b
  {
    if a + b < UintRange then a + b else a + b - UintRange
  }

  /** An integer reduced to 64 unsigned bits. */
  function Wrap(x: int): Uint {
    x % UintRange
  }

  /** AddUint is addition modulo 2^64. */
  lemma AddUintIsWrap(a: Uint, b: Uint)
    ensures AddUint(a, b) == Wrap(a + b)
  {
    if a + b >= UintRange {
      ModShift(a + b - UintRange, 1);
    }
  }

  lemma ModShift(x: int, k: int)
    ensures (x + k * UintRange) % UintRange == x % UintRange
  {
    var y := x + k * UintRange;
    var qx, rx := x / UintRange, x % UintRange;
    assert y == (qx + k) * UintRange + rx;
  }

  /** Wrapping a partial sum early does not change the wrapped total. */
  lemma ModAddLeft(a: int, b: int)
    ensures Wrap(Wrap(a) + b) == Wrap(a + b)
  {
    var k := a / UintRange;
    assert a == k * UintRange + a % UintRange;
    ModShift(a % UintRange + b, k);
  }

  /** Pixels the player moves per pressed arrow key. */
  const PlayerStep: int := 2
  /** Pixels a chasing enemy moves per axis per frame. */
  const ChaseStep: int := 1

  datatype Player = Player(x: int, y: int, health: Uint)
  datatype Enemy = Enemy(x: int, y: int, followsPlayer: bool)
  datatype Potion = Potion(x: int, y: int, amountHeal: Uint)

  /** The four arrow keys' pressed state in one frame. */
  datatype Keys = Keys(right: bool, left: bool, up: bool, down: bool)

  /** Everything a frame update reads and writes. */
  datatype World = World(player: Player, enemies: seq<Enemy>, potions: seq<Potion>)

  function Max(a: int, b: int): int {
    if a < b then b else a
  }

  function KeyStep(pressed: bool): int {
    if pressed then PlayerStep else 0
  }

  /** The player's position after the arrow keys of one frame: each
      pressed key adds its step, screen y growing downward. Opposite keys
      cancel, and an axis moves exactly when one of its keys is pressed
      without the other. */
  function Move(p: Player, k: Keys): (r: Player)
    ensures r.health == p.health
    ensures r.x == p.x <==> k.right == k.left
    ensures r.y == p.y <==> k.up == k.down
    ensures Abs(r.x - p.x) <= PlayerStep && Abs(r.y - p.y) <= PlayerStep
    ensures r.x > p.x <==> k.right && !k.left
    ensures r.y > p.y <==> k.down && !k.up
    ensures k.right && !k.left ==> r.x == p.x + PlayerStep
    ensures k.left && !k.right ==> r.x == p.x - PlayerStep
    ensures k.down && !k.up ==> r.y == p.y + PlayerStep
    ensures k.up && !k.down ==> r.y == p.y - PlayerStep
  {
    p.(x := p.x + KeyStep(k.right) - KeyStep(k.left),
       y := p.y - KeyStep(k.up) + KeyStep(k.down))
  }

  /** One coordinate of a chasing enemy after a frame: one step toward
      the target, never past it, and no step when already level. */
  function ChaseAxis(e: int, target: int): (r: int)
    ensures Abs(r - e) <= ChaseStep
    ensures e <= target ==> e <= r <= target
    ensures target <= e ==> target <= r <= e
    ensures Abs(target - r) == if e == target then 0 else Abs(target - e) - 1
  {
    if e < target then e + ChaseStep
    else if e > target then e - ChaseStep
    else e
  }

  /** An enemy after one frame, chasing the player at (px, py) when its
      flag says so; an enemy that does not follow keeps its position. */
  function Chase(e: Enemy, px: int, py: int): (r: Enemy)
    ensures r.followsPlayer == e.followsPlayer
    ensures !e.followsPlayer ==> r == e
    ensures e.followsPlayer ==> r.x == ChaseAxis(e.x, px) && r.y == ChaseAxis(e.y, py)
  {
    if e.followsPlayer then e.(x := ChaseAxis(e.x, px), y := ChaseAxis(e.y, py)) else e
  }

  /** Chebyshev distance between an enemy and a point. */
  function Gap(e: Enemy, px: int, py: int): nat {
    Max(Abs(px - e.x), Abs(py - e.y))
  }

  /** A chasing enemy closes its Chebyshev distance to the player by
      exactly one per frame until it stands on the player. */
  lemma ChaseClosesGap(e: Enemy, px: int, py: int)
    requires e.followsPlayer
    ensures Gap(Chase(e, px, py), px, py) == Max(Gap(e, px, py) - 1, 0)
  {
  }

  /** What one potion adds to the player's health: its heal amount when
      the player is strictly right of it, nothing otherwise. */
  function Gain(q: Potion, px: int): (g: Uint)
    ensures px > q.x ==> g == q.amountHeal
    ensures px <= q.x ==> g == 0
  {
    if px > q.x then q.amountHeal else 0
  }

  /** The player's health after the potions, in their order, each add
      their gain with unsigned wrap-around. Potions none of which is left
      of the player leave it unchanged, and without overflow it is the
      exact sum. */
  function HealFold(h: Uint, ps: seq<Potion>, px: int): (r: Uint)
    ensures (forall i :: 0 <= i < |ps| ==> px <= ps[i].x) ==> r == h
    ensures h + HealTotal(ps, px) < UintRange ==> r == h + HealTotal(ps, px)
    decreases |ps|
  {
    if ps == [] then h
    else
      var init := ps[..|ps| - 1];
      assert forall i :: 0 <= i < |init| ==> init[i] == ps[i];
      AddUint(HealFold(h, init, px), Gain(ps[|ps| - 1], px))
  }

  /** The exact total of the heal amounts of the potions left of `px`. */
  function HealTotal(ps: seq<Potion>, px: int): nat
    decreases |ps|
  {
    if ps == [] then 0
    else HealTotal(ps[..|ps| - 1], px) + Gain(ps[|ps| - 1], px)
  }

  /** Wrapping after every potion is the same as wrapping the exact sum
      once: health ends at (health + total heal) mod 2^64. */
  lemma {:induction false} HealFoldIsWrappedTotal(h: Uint, ps: seq<Potion>, px: int)
    ensures HealFold(h, ps, px) == Wrap(h + HealTotal(ps, px))
    decreases |ps|
  {
    if ps == [] {
      assert h % UintRange == h;
    } else {
      var init, g := ps[..|ps| - 1], Gain(ps[|ps| - 1], px);
      HealFoldIsWrappedTotal(h, init, px);
      AddUintIsWrap(HealFold(h, init, px), g);
      ModAddLeft(h + HealTotal(init, px), g);
    }
  }

  /** The health a frame's potions give is the same whatever the health
      they are added to: a fold from h is h plus the fold from zero. */
  lemma HealFoldFromZero(h: Uint, ps: seq<Potion>, px: int)
    ensures HealFold(h, ps, px) == AddUint(h, HealFold(0, ps, px))
  {
    var t := HealTotal(ps, px);
    HealFoldIsWrappedTotal(h, ps, px);
    HealFoldIsWrappedTotal(0, ps, px);
    AddUintIsWrap(h, Wrap(t));
    ModAddLeft(t, h);
    assert Wrap(0 + t) == Wrap(t);
    assert Wrap(h + Wrap(t)) == Wrap(Wrap(t) + h);
    assert Wrap(t + h) == Wrap(h + t);
  }

  /** Healing is additive over a split of the potion list. */
  lemma {:induction false} HealTotalAppend(ps: seq<Potion>, qs: seq<Potion>, px: int)
    ensures HealTotal(ps + qs, px) == HealTotal(ps, px) + HealTotal(qs, px)
    decreases |qs|
  {
    if qs == [] {
      assert ps + qs == ps;
    } else {
      var init := qs[..|qs| - 1];
      assert (ps + qs)[..|ps + qs| - 1] == ps + init;
      assert (ps + qs)[|ps + qs| - 1] == qs[|qs| - 1];
      HealTotalAppend(ps, init, px);
    }
  }

  /** The further right the player stands, the more potions heal it. */
  lemma {:induction false} HealTotalMonotone(ps: seq<Potion>, px: int, px': int)
    requires px <= px'
    ensures HealTotal(ps, px) <= HealTotal(ps, px')
    decreases |ps|
  {
    if ps != [] {
      HealTotalMonotone(ps[..|ps| - 1], px, px');
    }
  }

  /** Every enemy after one frame, chasing the player at (px, py). */
  function ChaseAll(es: seq<Enemy>, px: int, py: int): (r: seq<Enemy>)
    ensures |r| == |es|
    ensures forall i :: 0 <= i < |es| ==> r[i] == Chase(es[i], px, py)
  {
    seq(|es|, i requires 0 <= i < |es| => Chase(es[i], px, py))
  }

  /** One frame: the player moves by the keys, then every following enemy
      steps toward the player's NEW position, then every potion left of
      the player's new x heals it. Enemies and potions are neither added,
      removed nor reordered, and potions are never consumed. */
  function Frame(w: World, k: Keys): (r: World)
    ensures r.player.x == Move(w.player, k).x && r.player.y == Move(w.player, k).y
    ensures |r.enemies| == |w.enemies|
    ensures forall i :: 0 <= i < |w.enemies| ==>
      r.enemies[i] == Chase(w.enemies[i], r.player.x, r.player.y)
    ensures r.potions == w.potions
  {
    var p := Move(w.player, k);
    World(p.(health := HealFold(p.health, w.potions, p.x)),
          ChaseAll(w.enemies, p.x, p.y),
          w.potions)
  }

  /** A frame's health: the old health plus the heal amounts of every
      potion left of the player's new x, modulo 2^64. */
  lemma FrameHeals(w: World, k: Keys)
    ensures Frame(w, k).player.health ==
      Wrap(w.player.health + HealTotal(w.potions, Move(w.player, k).x))
  {
    HealFoldIsWrappedTotal(w.player.health, w.potions, Move(w.player, k).x);
  }

  /** The frames driven by a sequence of key states, first to last. */
  function Run(w: World, ks: seq<Keys>): World
    decreases |ks|
  {
    if ks == [] then w else Run(Frame(w, ks[0]), ks[1..])
  }

  /** Health never decreases in a frame, as long as the unsigned counter
      does not overflow. */
  lemma HealthNeverDecreases(w: World, k: Keys)
    requires w.player.health + HealTotal(w.potions, Move(w.player, k).x) < UintRange
    ensures Frame(w, k).player.health >= w.player.health
  {
    FrameHeals(w, k);
  }

  /** The counter does overflow: a player at full 64-bit health who picks
      up a potion ends with less health than before. */
  lemma HealthWrapsAround()
    ensures var w := World(Player(211, 100, UintRange - 1), [], [Potion(210, 100, 1)]);
      Frame(w, Keys(false, false, false, false)).player.health == 0
  {
    var w := World(Player(211, 100, UintRange - 1), [], [Potion(210, 100, 1)]);
    assert w.potions[..0] == [];
  }

  predicate Idle(k: Keys) {
    k.right == k.left && k.up == k.down
  }

  /** Enemies whose flag is clear never move, whatever the keys over any
      number of frames; no frame adds, removes or reorders enemies, nor
      changes their flags or the potions. */
  lemma {:induction false} RunKeepsStillEnemies(w: World, ks: seq<Keys>)
    ensures |Run(w, ks).enemies| == |w.enemies|
    ensures Run(w, ks).potions == w.potions
    ensures forall i :: 0 <= i < |w.enemies| ==>
      Run(w, ks).enemies[i].followsPlayer == w.enemies[i].followsPlayer
    ensures forall i :: 0 <= i < |w.enemies| && !w.enemies[i].followsPlayer ==>
      Run(w, ks).enemies[i] == w.enemies[i]
    decreases |ks|
  {
    if ks != [] {
      RunKeepsStillEnemies(Frame(w, ks[0]), ks[1..]);
    }
  }

  /** g added to h n times, with unsigned wrap-around. */
  function AddTimes(h: Uint, g: Uint, n: nat): Uint
    decreases n
  {
    if n == 0 then h else AddTimes(AddUint(h, g), g, n - 1)
  }

  /** n wrapping additions of g are one addition of n * g, modulo 2^64. */
  lemma AddTimesIsWrapped(h: Uint, g: Uint, n: nat)
    ensures AddTimes(h, g, n) == Wrap(h + n * g)
  {
    AddTimesRepeated(h, g, n);
    RepeatedIsProduct(g, n);
  }

  /** g added to itself n times. */
  function Repeated(g: nat, n: nat): nat {
    if n == 0 then 0 else Repeated(g, n - 1) + g
  }

  lemma {:induction false} RepeatedIsProduct(g: nat, n: nat)
    ensures Repeated(g, n) == n * g
  {
    if n > 0 {
      RepeatedIsProduct(g, n - 1);
      MulSucc(n - 1, g);
    }
  }

  lemma MulSucc(a: int, b: int)
    ensures b + a * b == (a + 1) * b
  {
  }

  lemma {:induction false} AddTimesRepeated(h: Uint, g: Uint, n: nat)
    ensures AddTimes(h, g, n) == Wrap(h + Repeated(g, n))
    decreases n
  {
    if n == 0 {
      assert h % UintRange == h;
    } else {
      AddTimesRepeated(AddUint(h, g), g, n - 1);
      AddUintIsWrap(h, g);
      ModAddLeft(h + g, Repeated(g, n - 1));
      assert h + g + Repeated(g, n - 1) == h + Repeated(g, n);
    }
  }

  /** A frame with an idle pair of keys on each axis leaves the player in
      place and adds the same heal as from zero health. */
  lemma IdleFrame(w: World, k: Keys)
    requires Idle(k)
    ensures Frame(w, k).player.x == w.player.x && Frame(w, k).player.y == w.player.y
    ensures Frame(w, k).potions == w.potions
    ensures Frame(w, k).player.health ==
      AddUint(w.player.health, HealFold(0, w.potions, w.player.x))
  {
    HealFoldFromZero(w.player.health, w.potions, w.player.x);
  }

  /** Pickup is not one-shot: while the player stands still, every frame
      heals it again by the same amount. */
  lemma {:induction false} IdleRunHeals(w: World, ks: seq<Keys>)
    requires forall j :: 0 <= j < |ks| ==> Idle(ks[j])
    ensures Run(w, ks).player.x == w.player.x && Run(w, ks).player.y == w.player.y
    ensures Run(w, ks).potions == w.potions
    ensures Run(w, ks).player.health ==
      AddTimes(w.player.health, HealFold(0, w.potions, w.player.x), |ks|)
    decreases |ks|
  {
    if ks != [] {
      var w1 := Frame(w, ks[0]);
      var rest := ks[1..];
      assert forall j :: 0 <= j < |rest| ==> Idle(rest[j]) by {
        forall j | 0 <= j < |rest| ensures Idle(rest[j]) {
          assert rest[j] == ks[j + 1];
        }
      }
      IdleFrame(w, ks[0]);
      IdleRunHeals(w1, rest);
    }
  }

  /** A player one pixel right of a potion, with no key pressed, is
      healed by the potion's amount on each of two frames in a row. */
  lemma PickupRepeats(h: Uint, amount: Uint)
    requires h + 2 * amount < UintRange
    ensures var w := World(Player(211, 100, h), [], [Potion(210, 100, amount)]);
      var idle := Keys(false, false, false, false);
      Run(w, [idle]).player.health == h + amount &&
      Run(w, [idle, idle]).player.health == h + 2 * amount
  {
    var w := World(Player(211, 100, h), [], [Potion(210, 100, amount)]);
    var idle := Keys(false, false, false, false);
    assert HealFold(0, w.potions, 211) == amount by {
      assert w.potions[..0] == [];
    }
    IdleRunHeals(w, [idle]);
    IdleRunHeals(w, [idle, idle]);
    assert AddTimes(h, amount, 2) == AddTimes(h + amount, amount, 1) == h + 2 * amount;
  }

  /** With the player standing still, a chasing enemy's Chebyshev
      distance to it falls by one per frame: after as many frames as the
      distance it stands on the player, and stays there. */
  lemma {:induction false} ChaserReachesIdlePlayer(w: World, ks: seq<Keys>, i: int)
    requires forall j :: 0 <= j < |ks| ==> Idle(ks[j])
    requires 0 <= i < |w.enemies| && w.enemies[i].followsPlayer
    ensures |Run(w, ks).enemies| == |w.enemies|
    ensures Run(w, ks).enemies[i].followsPlayer
    ensures Gap(Run(w, ks).enemies[i], w.player.x, w.player.y) ==
      Max(Gap(w.enemies[i], w.player.x, w.player.y) - |ks|, 0)
    decreases |ks|
  {
    if ks != [] {
      var w1 := Frame(w, ks[0]);
      ChaseClosesGap(w.enemies[i], w.player.x, w.player.y);
      ChaserReachesIdlePlayer(w1, ks[1..], i);
    }
  }
}
