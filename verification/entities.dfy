/** The records the interaction engine works on. Monster, Tower, Bullet,
    Player and Level are classes whose code is not part of this model: each
    is reduced to the fields the engine reads or writes, and their own
    behaviour (updates, overlap tests, level spawning) reaches the model as
    the function-valued fields of `Env`. */
module Entities {
  import opened Geometry
  import Rockets

  /** `HP` is written by the engine; `get_money()` and `get_path()` are read. */
  datatype Monster = Monster(shape: Shape, hp: int, money: int, path: seq<Point>)

  /** A tower's internal state is opaque to the engine. */
  datatype Tower = Tower(shape: Shape, state: seq<int>)

  /** `get_fly_dist()` and `get_dmg()` are read. */
  datatype Bullet = Bullet(shape: Shape, flyDist: real, dmg: int)

  datatype Player = Player(hp: int, coin: int)

  /** The four collections the engine owns, in insertion order. */
  datatype World = World(
    monsters: seq<Monster>,
    towers: seq<Tower>,
    bullets: seq<Bullet>,
    rockets: seq<Rockets.Rocket>)

  /** The behaviour of the classes whose code is not modelled:
      - `overlap`: Shape::overlap;
      - `monsterUpdate`: Monster::update;
      - `towerUpdate`: Tower::update, given the live monsters; it returns the
        updated tower and the bullets it appends to the bullet collection;
      - `bulletUpdate`: Bullet::update. */
  datatype Env = Env(
    overlap: (Shape, Shape) -> bool,
    monsterUpdate: Monster -> Monster,
    towerUpdate: (Tower, seq<Monster>) -> (Tower, seq<Bullet>),
    bulletUpdate: Bullet -> Bullet)

  function MonsterHp(m: Monster): int
  {
    m.hp
  }

  function BulletDmg(b: Bullet): int
  {
    b.dmg
  }

  function RocketDmg(r: Rockets.Rocket): int
  {
    r.damage
  }

  /** Two monster sequences that differ at most in hit points. */
  predicate SameButHp(a: seq<Monster>, b: seq<Monster>)
  {
    |a| == |b| && forall i :: 0 <= i < |a| ==> b[i] == a[i].(hp := b[i].hp)
  }
}
