/** The per-tick interaction engine (SourceCode/data/OperationCenter.cpp).
    Every pass over a collection is given twice: a functional definition
    saying what the pass computes, and a method that walks the collection
    with the source's index arithmetic (erase, step the index back, advance,
    `break`) and is proved to compute the same thing. */
module OperationCenter {
  import opened Seqs
  import opened Geometry
  import opened Entities
  import Rockets

  // ---------------------------------------------------------------------
  // Erase-and-step-back
  // ---------------------------------------------------------------------

  /** The source's expiry loop: walk the vector by index; on an element to
      drop, erase it and step the index back so that the element shifted
      into its slot is examined next. What remains is the order-preserving
      filter by `keep`. */
  method EraseUnless<T>(s: seq<T>, keep: T -> bool) returns (r: seq<T>)
    ensures r == Filter(s, keep)
  {
    r := s;
    var i: int := 0;
    ghost var k: int := 0;
    while i < |r|
      invariant 0 <= i <= |r| && 0 <= k <= |s|
      invariant r[..i] == Filter(s[..k], keep)
      invariant r[i..] == s[k..]
      decreases |r| - i
    {
      assert r[i] == s[k];
      FilterSnoc(s, k, keep);
      if !keep(r[i]) {
        assert r[i + 1..] == r[i..][1..];
        r := Erase(r, i);
        i := i - 1;
      } else {
        assert r[..i + 1] == r[..i] + [r[i]];
      }
      i := i + 1;
      k := k + 1;
    }
    assert s[..k] == s;
  }

  // ---------------------------------------------------------------------
  // Entity updates and expiry
  // ---------------------------------------------------------------------

  /** A bullet survives expiry while its fly distance is positive. */
  predicate BulletLive(b: Bullet)
  {
    b.flyDist > 0.0
  }

  /** A rocket survives expiry while its remaining range is positive. */
  predicate RocketLive(r: Rockets.Rocket)
  {
    r.range > 0.0
  }

  /** _update_tower: each tower in turn, given the monsters; the bullets they
      spawn are appended in tower order. */
  function UpdateTowers(ts: seq<Tower>, ms: seq<Monster>, tu: (Tower, seq<Monster>) -> (Tower, seq<Bullet>))
    : (r: (seq<Tower>, seq<Bullet>))
    ensures |r.0| == |ts|
    ensures forall i :: 0 <= i < |ts| ==> r.0[i] == tu(ts[i], ms).0
  {
    if ts == [] then ([], [])
    else
      var rest := UpdateTowers(ts[1..], ms, tu);
      ([tu(ts[0], ms).0] + rest.0, tu(ts[0], ms).1 + rest.1)
  }

  /** Towers are visited in order: updating a run of towers is updating its
      first part and then its second, and the bullets the first part spawns
      come before those of the second. */
  lemma {:induction false} UpdateTowersAppend(a: seq<Tower>, b: seq<Tower>, ms: seq<Monster>,
                                              tu: (Tower, seq<Monster>) -> (Tower, seq<Bullet>))
    ensures UpdateTowers(a + b, ms, tu).0 == UpdateTowers(a, ms, tu).0 + UpdateTowers(b, ms, tu).0
    ensures UpdateTowers(a + b, ms, tu).1 == UpdateTowers(a, ms, tu).1 + UpdateTowers(b, ms, tu).1
  {
    if a == [] {
      assert a + b == b;
    } else {
      assert (a + b)[0] == a[0] && (a + b)[1..] == a[1..] + b;
      UpdateTowersAppend(a[1..], b, ms, tu);
      var ra, rb := UpdateTowers(a[1..], ms, tu), UpdateTowers(b, ms, tu);
      AppendAssoc([tu(a[0], ms).0], ra.0, rb.0);
      AppendAssoc(tu(a[0], ms).1, ra.1, rb.1);
    }
  }

  /** A single tower contributes its own update and exactly the bullets it
      spawns. */
  lemma UpdateTowersSingle(t: Tower, ms: seq<Monster>, tu: (Tower, seq<Monster>) -> (Tower, seq<Bullet>))
    ensures UpdateTowers([t], ms, tu) == ([tu(t, ms).0], tu(t, ms).1)
  {
    assert [t][1..] == [];
    assert UpdateTowers([], ms, tu) == ([], []);
    assert [tu(t, ms).0] + [] == [tu(t, ms).0];
    assert tu(t, ms).1 + [] == tu(t, ms).1;
  }

  /** _update_towerBullet: update every bullet, then erase the expired ones. */
  method UpdateTowerBullets(bs: seq<Bullet>, bu: Bullet -> Bullet) returns (r: seq<Bullet>)
    ensures r == Filter(Map(bs, bu), BulletLive)
  {
    var updated := Map(bs, bu);
    r := EraseUnless(updated, BulletLive);
  }

  /** _update_rocket: update every rocket, then erase those whose remaining
      range is not positive. */
  method UpdateRockets(rs: seq<Rockets.Rocket>) returns (r: seq<Rockets.Rocket>)
    ensures r == Filter(Map(rs, Rockets.Update), RocketLive)
  {
    var updated := Map(rs, Rockets.Update);
    r := EraseUnless(updated, RocketLive);
  }

  /** Expiry removes exactly the bullets whose fly distance is not positive,
      keeps the others in their relative order, and loses nothing else. */
  lemma BulletExpiry(bs: seq<Bullet>)
    ensures forall b :: b in Filter(bs, BulletLive) <==> b in bs && b.flyDist > 0.0
    ensures forall a, b :: Filter(a + b, BulletLive) == Filter(a, BulletLive) + Filter(b, BulletLive)
    ensures multiset(Filter(bs, BulletLive)) + multiset(Filter(bs, b => !BulletLive(b))) == multiset(bs)
  {
    forall b {
      FilterMembership(bs, BulletLive, b);
    }
    forall a, b {
      FilterAppend(a, b, BulletLive);
    }
    FilterPartition(bs, BulletLive, b => !BulletLive(b));
  }

  /** Expiry removes exactly the rockets whose remaining range is not
      positive after their update, in order; a rocket whose range latched to
      0 at the top of the screen is always among them. */
  lemma RocketExpiry(rs: seq<Rockets.Rocket>)
    ensures forall r :: r in Filter(Map(rs, Rockets.Update), RocketLive)
              <==> r in Map(rs, Rockets.Update) && r.range > 0.0
    ensures forall i :: 0 <= i < |rs| && Rockets.Update(rs[i]).range == 0.0 ==>
              Rockets.Update(rs[i]) !in Filter(Map(rs, Rockets.Update), RocketLive)
  {
    forall r {
      FilterMembership(Map(rs, Rockets.Update), RocketLive, r);
    }
  }

  // ---------------------------------------------------------------------
  // Bullets against monsters
  // ---------------------------------------------------------------------

  function Hits(ov: (Shape, Shape) -> bool, s: Shape): Bullet -> bool
  {
    (b: Bullet) => ov(s, b.shape)
  }

  function Misses(ov: (Shape, Shape) -> bool, s: Shape): Bullet -> bool
  {
    (b: Bullet) => !ov(s, b.shape)
  }

  /** One monster against the live bullets: it takes the damage of every
      bullet it overlaps, and those bullets are gone. */
  function Absorb(m: Monster, bs: seq<Bullet>, ov: (Shape, Shape) -> bool): (Monster, seq<Bullet>)
  {
    (m.(hp := m.hp - Sum(Filter(bs, Hits(ov, m.shape)), BulletDmg)), Filter(bs, Misses(ov, m.shape)))
  }

  /** _update_monster_towerBullet: monsters in index order, each absorbing
      the bullets still alive when its turn comes. */
  function BulletPass(ms: seq<Monster>, bs: seq<Bullet>, ov: (Shape, Shape) -> bool)
    : (r: (seq<Monster>, seq<Bullet>))
    ensures |r.0| == |ms|
    ensures |r.1| <= |bs|
    decreases |ms|
  {
    if ms == [] then ([], bs)
    else
      var (m, rest) := Absorb(ms[0], bs, ov);
      var tail := BulletPass(ms[1..], rest, ov);
      ([m] + tail.0, tail.1)
  }

  /** The bullet pass touches nothing but hit points: the monsters keep
      their order, shapes, money and paths. */
  lemma {:induction false} BulletPassKeepsMonsters(ms: seq<Monster>, bs: seq<Bullet>, ov: (Shape, Shape) -> bool)
    ensures SameButHp(ms, BulletPass(ms, bs, ov).0)
    decreases |ms|
  {
    if ms != [] {
      var (m, rest) := Absorb(ms[0], bs, ov);
      BulletPassKeepsMonsters(ms[1..], rest, ov);
      var r := BulletPass(ms, bs, ov).0;
      forall i | 0 <= i < |ms| ensures r[i] == ms[i].(hp := r[i].hp) {
        if i > 0 {
          assert r[i] == BulletPass(ms[1..], rest, ov).0[i - 1];
          assert ms[i] == ms[1..][i - 1];
        }
      }
    }
  }

  /** One more bullet examined by the inner loop. */
  lemma AbsorbStep(bs: seq<Bullet>, k: nat, s: Shape, ov: (Shape, Shape) -> bool)
    requires k < |bs|
    ensures ov(s, bs[k].shape) ==> Filter(bs[..k + 1], Misses(ov, s)) == Filter(bs[..k], Misses(ov, s))
    ensures !ov(s, bs[k].shape) ==> Filter(bs[..k + 1], Misses(ov, s)) == Filter(bs[..k], Misses(ov, s)) + [bs[k]]
    ensures ov(s, bs[k].shape) ==>
              Sum(Filter(bs[..k + 1], Hits(ov, s)), BulletDmg) == Sum(Filter(bs[..k], Hits(ov, s)), BulletDmg) + bs[k].dmg
    ensures !ov(s, bs[k].shape) ==>
              Sum(Filter(bs[..k + 1], Hits(ov, s)), BulletDmg) == Sum(Filter(bs[..k], Hits(ov, s)), BulletDmg)
  {
    FilterSnoc(bs, k, Misses(ov, s));
    FilterSnoc(bs, k, Hits(ov, s));
    var tail := if ov(s, bs[k].shape) then [bs[k]] else [];
    SumAppend(Filter(bs[..k], Hits(ov, s)), tail, BulletDmg);
    if ov(s, bs[k].shape) {
      assert Sum(tail, BulletDmg) == bs[k].dmg + Sum(tail[1..], BulletDmg);
    }
  }

  /** The inner loop of _update_monster_towerBullet for one monster: each
      bullet it overlaps takes its damage off the monster's HP and is erased,
      and `j` steps back. */
  method AbsorbBullets(m: Monster, bs: seq<Bullet>, ov: (Shape, Shape) -> bool)
    returns (m': Monster, bs': seq<Bullet>)
    ensures (m', bs') == Absorb(m, bs, ov)
  {
    m' := m;
    bs' := bs;
    var j: int := 0;
    ghost var k: int := 0;
    while j < |bs'|
      invariant 0 <= j <= |bs'| && 0 <= k <= |bs|
      invariant bs'[..j] == Filter(bs[..k], Misses(ov, m.shape))
      invariant bs'[j..] == bs[k..]
      invariant m' == m.(hp := m'.hp)
      invariant m'.hp == m.hp - Sum(Filter(bs[..k], Hits(ov, m.shape)), BulletDmg)
      decreases |bs'| - j
    {
      WalkStep(bs', j, bs, k);
      AbsorbStep(bs, k, m.shape, ov);
      if ov(m'.shape, bs'[j].shape) {
        m' := m'.(hp := m'.hp - bs'[j].dmg);
        bs' := Erase(bs', j);
        j := j - 1;
      }
      j := j + 1;
      k := k + 1;
    }
    assert bs[..k] == bs;
    assert bs'[..j] == bs';
    assert m' == Absorb(m, bs, ov).0;
    assert bs' == Absorb(m, bs, ov).1;
  }

  /** The pass over the monsters from index `i` on handles monster `i` first. */
  lemma BulletPassStep(ms: seq<Monster>, i: nat, done: seq<Monster>, bs: seq<Bullet>, m: Monster,
                        left: seq<Bullet>, ov: (Shape, Shape) -> bool)
    requires i < |ms| && (m, left) == Absorb(ms[i], bs, ov)
    ensures done + BulletPass(ms[i..], bs, ov).0 == (done + [m]) + BulletPass(ms[i + 1..], left, ov).0
    ensures BulletPass(ms[i..], bs, ov).1 == BulletPass(ms[i + 1..], left, ov).1
  {
    assert ms[i..][0] == ms[i] && ms[i..][1..] == ms[i + 1..];
    var tail := BulletPass(ms[i + 1..], left, ov).0;
    AppendAssoc(done, [m], tail);
  }

  /** The outer loop of _update_monster_towerBullet: monsters in index order. */
  method MonsterBulletPass(ms: seq<Monster>, bs: seq<Bullet>, ov: (Shape, Shape) -> bool)
    returns (ms': seq<Monster>, bs': seq<Bullet>)
    ensures (ms', bs') == BulletPass(ms, bs, ov)
  {
    ms' := ms;
    bs' := bs;
    var i := 0;
    while i < |ms'|
      invariant 0 <= i <= |ms'| == |ms|
      invariant ms'[i..] == ms[i..]
      invariant ms'[..i] + BulletPass(ms[i..], bs', ov).0 == BulletPass(ms, bs, ov).0
      invariant BulletPass(ms[i..], bs', ov).1 == BulletPass(ms, bs, ov).1
    {
      assert ms'[i] == ms[i];
      var m, left := AbsorbBullets(ms'[i], bs', ov);
      BulletPassStep(ms, i, ms'[..i], bs', m, left, ov);
      SetStep(ms', i, m);
      ms' := ms'[i := m];
      bs' := left;
      i := i + 1;
    }
    assert ms'[..i] == ms' && ms[i..] == [];
    assert BulletPass(ms[i..], bs', ov) == ([], bs');
    assert ms' == BulletPass(ms, bs, ov).0;
    assert bs' == BulletPass(ms, bs, ov).1;
  }

  /** The bullets left after the pass are exactly those no monster overlaps,
      in their original order. */
  function Unhit(ov: (Shape, Shape) -> bool, ms: seq<Monster>): Bullet -> bool
  {
    (b: Bullet) => forall k :: 0 <= k < |ms| ==> !ov(ms[k].shape, b.shape)
  }

  lemma {:induction false} BulletSurvivors(ms: seq<Monster>, bs: seq<Bullet>, ov: (Shape, Shape) -> bool)
    ensures BulletPass(ms, bs, ov).1 == Filter(bs, Unhit(ov, ms))
    decreases |ms|
  {
    if ms == [] {
      FilterKeepsAll(bs, Unhit(ov, ms));
    } else {
      var rest := Filter(bs, Misses(ov, ms[0].shape));
      BulletSurvivors(ms[1..], rest, ov);
      forall i | 0 <= i < |bs|
        ensures Unhit(ov, ms)(bs[i]) == (Misses(ov, ms[0].shape)(bs[i]) && Unhit(ov, ms[1..])(bs[i]))
      {
        if Misses(ov, ms[0].shape)(bs[i]) && Unhit(ov, ms[1..])(bs[i]) {
          forall k | 0 <= k < |ms| ensures !ov(ms[k].shape, bs[i].shape) {
            if k > 0 {
              assert ms[k] == ms[1..][k - 1];
            }
          }
        }
      }
      FilterFilter(bs, Misses(ov, ms[0].shape), Unhit(ov, ms[1..]), Unhit(ov, ms));
    }
  }

  /** Bullet `b` is charged to monster `i` when `i` is the first monster, in
      index order, that it overlaps. */
  function FirstHitBy(ov: (Shape, Shape) -> bool, ms: seq<Monster>, i: nat): Bullet -> bool
    requires i < |ms|
  {
    (b: Bullet) => ov(ms[i].shape, b.shape) && forall k :: 0 <= k < i ==> !ov(ms[k].shape, b.shape)
  }

  /** A bullet is charged to at most one monster. */
  lemma FirstHitUnique(ov: (Shape, Shape) -> bool, ms: seq<Monster>, i: nat, j: nat, b: Bullet)
    requires i < |ms| && j < |ms|
    requires FirstHitBy(ov, ms, i)(b) && FirstHitBy(ov, ms, j)(b)
    ensures i == j
  {
  }

  /** A bullet charged to monster `i > 0` misses monster 0 and is charged to
      monster `i - 1` of the rest. */
  lemma FirstHitSplit(ov: (Shape, Shape) -> bool, ms: seq<Monster>, i: nat, b: Bullet)
    requires 0 < i < |ms|
    ensures FirstHitBy(ov, ms, i)(b) == (Misses(ov, ms[0].shape)(b) && FirstHitBy(ov, ms[1..], i - 1)(b))
  {
    if Misses(ov, ms[0].shape)(b) && FirstHitBy(ov, ms[1..], i - 1)(b) {
      forall k | 0 <= k < i ensures !ov(ms[k].shape, b.shape) {
        if k > 0 {
          assert ms[k] == ms[1..][k - 1];
        }
      }
    }
    if FirstHitBy(ov, ms, i)(b) {
      forall k | 0 <= k < i - 1 ensures !ov(ms[1..][k].shape, b.shape) {
        assert ms[1..][k] == ms[k + 1];
      }
    }
  }

  /** Every monster loses exactly the damage of the bullets charged to it;
      several bullets may land on one monster in one call. */
  lemma {:induction false} BulletDamageLands(ms: seq<Monster>, bs: seq<Bullet>, ov: (Shape, Shape) -> bool, i: nat)
    requires i < |ms|
    ensures BulletPass(ms, bs, ov).0[i].hp == ms[i].hp - Sum(Filter(bs, FirstHitBy(ov, ms, i)), BulletDmg)
    decreases |ms|
  {
    if i == 0 {
      FilterExt(bs, Hits(ov, ms[0].shape), FirstHitBy(ov, ms, 0));
    } else {
      var rest := Filter(bs, Misses(ov, ms[0].shape));
      BulletDamageLands(ms[1..], rest, ov, i - 1);
      assert ms[1..][i - 1] == ms[i];
      forall x | 0 <= x < |bs|
        ensures FirstHitBy(ov, ms, i)(bs[x])
             == (Misses(ov, ms[0].shape)(bs[x]) && FirstHitBy(ov, ms[1..], i - 1)(bs[x]))
      {
        FirstHitSplit(ov, ms, i, bs[x]);
      }
      FilterFilter(bs, Misses(ov, ms[0].shape), FirstHitBy(ov, ms[1..], i - 1), FirstHitBy(ov, ms, i));
    }
  }

  /** Damage is conserved: the hit points the monsters lose add up to the
      damage of the bullets the pass removes, so each removed bullet lands
      exactly once. */
  lemma {:induction false} BulletDamageConserved(ms: seq<Monster>, bs: seq<Bullet>, ov: (Shape, Shape) -> bool)
    ensures var r := BulletPass(ms, bs, ov);
      Sum(ms, MonsterHp) - Sum(r.0, MonsterHp) == Sum(bs, BulletDmg) - Sum(r.1, BulletDmg)
    decreases |ms|
  {
    if ms != [] {
      var (m, rest) := Absorb(ms[0], bs, ov);
      BulletDamageConserved(ms[1..], rest, ov);
      SumPartition(bs, Hits(ov, ms[0].shape), Misses(ov, ms[0].shape), BulletDmg);
      var r := BulletPass(ms, bs, ov);
      assert r.0 == [m] + BulletPass(ms[1..], rest, ov).0;
    }
  }

  // ---------------------------------------------------------------------
  // The kill / path sweep
  // ---------------------------------------------------------------------

  /** What the sweep leaves: the monsters kept, the player HP it costs and
      the coins it pays. */
  datatype SweepResult = SweepResult(kept: seq<Monster>, lost: nat, bounty: int)

  /** _update_monster_player: in index order, a monster with HP <= 0 is
      removed, pays its money, and ends the sweep; otherwise a monster whose
      path is empty is removed and costs one HP. */
  function Sweep(ms: seq<Monster>): (r: SweepResult)
    ensures |r.kept| <= |ms|
    decreases |ms|
  {
    if ms == [] then SweepResult([], 0, 0)
    else if ms[0].hp <= 0 then SweepResult(ms[1..], 0, ms[0].money)
    else
      var rest := Sweep(ms[1..]);
      if |ms[0].path| == 0 then rest.(lost := rest.lost + 1)
      else rest.(kept := [ms[0]] + rest.kept)
  }

  /** One monster examined by the sweep. */
  lemma SweepSuffix(s: seq<Monster>, i: nat)
    requires i < |s|
    ensures s[i].hp <= 0 ==> Sweep(s[i..]) == SweepResult(s[i + 1..], 0, s[i].money)
    ensures s[i].hp > 0 && |s[i].path| == 0 ==>
              Sweep(s[i..]) == Sweep(s[i + 1..]).(lost := Sweep(s[i + 1..]).lost + 1)
    ensures s[i].hp > 0 && |s[i].path| > 0 ==>
              Sweep(s[i..]) == Sweep(s[i + 1..]).(kept := [s[i]] + Sweep(s[i + 1..]).kept)
  {
    assert s[i..][0] == s[i] && s[i..][1..] == s[i + 1..];
  }

  /** The loop of _update_monster_player at index `i` of the current
      sequence `s`: what is already behind `i`, followed by the sweep of
      what is still ahead, is the same before and after the visit. */
  lemma SweepVisit(s: seq<Monster>, i: nat)
    requires i < |s|
    ensures s[i].hp <= 0 ==>
              && Erase(s, i) == s[..i] + Sweep(s[i..]).kept
              && Sweep(s[i..]).lost == 0 && Sweep(s[i..]).bounty == s[i].money
    ensures s[i].hp > 0 && |s[i].path| == 0 ==>
              var e := Erase(s, i);
              && e[..i] + Sweep(e[i..]).kept == s[..i] + Sweep(s[i..]).kept
              && Sweep(s[i..]).lost == Sweep(e[i..]).lost + 1
              && Sweep(s[i..]).bounty == Sweep(e[i..]).bounty
    ensures s[i].hp > 0 && |s[i].path| > 0 ==>
              && s[..i + 1] + Sweep(s[i + 1..]).kept == s[..i] + Sweep(s[i..]).kept
              && Sweep(s[i..]).lost == Sweep(s[i + 1..]).lost
              && Sweep(s[i..]).bounty == Sweep(s[i + 1..]).bounty
  {
    SweepSuffix(s, i);
    if s[i].hp > 0 && |s[i].path| > 0 {
      assert s[..i + 1] == s[..i] + [s[i]];
      AppendAssoc(s[..i], [s[i]], Sweep(s[i + 1..]).kept);
    }
  }

  /** The loop of _update_monster_player, with its erase, step-back and
      `break`. */
  method MonsterPlayerPass(ms: seq<Monster>, player: Player) returns (ms': seq<Monster>, player': Player)
    ensures ms' == Sweep(ms).kept
    ensures player'.hp == player.hp - Sweep(ms).lost
    ensures player'.coin == player.coin + Sweep(ms).bounty
  {
    ms' := ms;
    player' := player;
    var i: int := 0;
    while i < |ms'|
      invariant 0 <= i <= |ms'|
      invariant ms'[..i] + Sweep(ms'[i..]).kept == Sweep(ms).kept
      invariant (player.hp - player'.hp) + Sweep(ms'[i..]).lost == Sweep(ms).lost
      invariant (player'.coin - player.coin) + Sweep(ms'[i..]).bounty == Sweep(ms).bounty
      decreases |ms'| - i
    {
      SweepVisit(ms', i);
      if ms'[i].hp <= 0 {
        player' := player'.(coin := player'.coin + ms'[i].money);
        ms' := Erase(ms', i);
        i := i - 1;
        break;
      }
      if |ms'[i].path| == 0 {
        ms' := Erase(ms', i);
        player' := player'.(hp := player'.hp - 1);
        i := i - 1;
      }
      i := i + 1;
    }
  }

  predicate HasPath(m: Monster)
  {
    |m.path| > 0
  }

  /** The index of the first monster with HP <= 0, or the length if none. */
  function FirstKilled(ms: seq<Monster>): (k: nat)
    ensures k <= |ms|
    ensures forall i :: 0 <= i < k ==> ms[i].hp > 0
    ensures k < |ms| ==> ms[k].hp <= 0
    decreases |ms|
  {
    if ms == [] then 0 else if ms[0].hp <= 0 then 0 else 1 + FirstKilled(ms[1..])
  }

  /** The sweep in closed form. With `k` the first killed monster: every
      monster before `k` whose path is empty is removed and costs one HP;
      monster `k`, if any, is removed and pays its money, whether or not its
      path is empty; every monster after `k` is left untouched. */
  lemma SweepCharacterized(ms: seq<Monster>)
    ensures var k := FirstKilled(ms);
      var r := Sweep(ms);
      && r.kept == Filter(ms[..k], HasPath) + (if k < |ms| then ms[k + 1..] else [])
      && r.lost == k - |Filter(ms[..k], HasPath)|
      && r.bounty == (if k < |ms| then ms[k].money else 0)
  {
    SweepKept(ms);
    SweepLost(ms);
    SweepBounty(ms);
  }

  /** The monsters after the first kill, or none when nobody is killed. */
  function AfterKill(ms: seq<Monster>): seq<Monster>
  {
    var k := FirstKilled(ms);
    if k < |ms| then ms[k + 1..] else []
  }

  /** The first monster's step of the closed form, for a monster still alive. */
  lemma AliveHead(ms: seq<Monster>)
    requires ms != [] && ms[0].hp > 0
    ensures FirstKilled(ms) == FirstKilled(ms[1..]) + 1
    ensures ms[..FirstKilled(ms)] == [ms[0]] + ms[1..][..FirstKilled(ms[1..])]
    ensures AfterKill(ms) == AfterKill(ms[1..])
  {
  }

  lemma {:induction false} SweepKept(ms: seq<Monster>)
    ensures Sweep(ms).kept == Filter(ms[..FirstKilled(ms)], HasPath) + AfterKill(ms)
    decreases |ms|
  {
    if ms != [] && ms[0].hp > 0 {
      SweepKept(ms[1..]);
      SweepKeptStep(ms);
    } else if ms != [] {
      assert ms[..0] == [];
    }
  }

  /** The inductive step of `SweepKept` for a live first monster. */
  lemma SweepKeptStep(ms: seq<Monster>)
    requires ms != [] && ms[0].hp > 0
    requires Sweep(ms[1..]).kept == Filter(ms[1..][..FirstKilled(ms[1..])], HasPath) + AfterKill(ms[1..])
    ensures Sweep(ms).kept == Filter(ms[..FirstKilled(ms)], HasPath) + AfterKill(ms)
  {
    var tail := ms[1..];
    var pre := tail[..FirstKilled(tail)];
    var after := AfterKill(tail);
    var head := if HasPath(ms[0]) then [ms[0]] else [];
    AliveHead(ms);
    FilterCons(ms[0], pre, HasPath);
    assert Sweep(ms).kept == head + Sweep(tail).kept;
    AppendAssoc(head, Filter(pre, HasPath), after);
  }

  lemma {:induction false} SweepLost(ms: seq<Monster>)
    ensures Sweep(ms).lost == FirstKilled(ms) - |Filter(ms[..FirstKilled(ms)], HasPath)|
    decreases |ms|
  {
    if ms != [] && ms[0].hp > 0 {
      var tail := ms[1..];
      SweepLost(tail);
      AliveHead(ms);
      FilterCons(ms[0], tail[..FirstKilled(tail)], HasPath);
    } else if ms != [] {
      assert ms[..0] == [];
    }
  }

  lemma {:induction false} SweepBounty(ms: seq<Monster>)
    ensures Sweep(ms).bounty == (if FirstKilled(ms) < |ms| then ms[FirstKilled(ms)].money else 0)
    decreases |ms|
  {
    if ms != [] && ms[0].hp > 0 {
      SweepBounty(ms[1..]);
      AliveHead(ms);
    }
  }

  /** At most one killed monster leaves per sweep: the monsters removed are
      the HP-costing ones plus at most one more. */
  lemma SweepRemovesAtMostOneKill(ms: seq<Monster>)
    ensures |ms| - |Sweep(ms).kept| == Sweep(ms).lost + (if FirstKilled(ms) < |ms| then 1 else 0)
  {
    SweepCharacterized(ms);
    var k := FirstKilled(ms);
    if k < |ms| {
      assert |ms[k + 1..]| == |ms| - k - 1;
    }
  }

  /** Because of the `break`, a second killed monster waits for the next
      sweep, and so does an exhausted-path monster behind the first kill. */
  lemma SweepStopsAtFirstKill(a: Monster, b: Monster, c: Monster)
    requires a.hp <= 0 && b.hp <= 0 && c.hp > 0 && |c.path| == 0
    ensures Sweep([a, b, c]) == SweepResult([b, c], 0, a.money)
    ensures Sweep(Sweep([a, b, c]).kept) == SweepResult([c], 0, b.money)
  {
    assert [a, b, c][1..] == [b, c];
  }

  /** A killed monster whose path is also empty pays its money and costs no HP. */
  lemma KillBeatsPathEnd(m: Monster, rest: seq<Monster>)
    requires m.hp <= 0 && |m.path| == 0
    ensures Sweep([m] + rest) == SweepResult(rest, 0, m.money)
  {
    assert ([m] + rest)[1..] == rest;
  }

  // ---------------------------------------------------------------------
  // The sweep with `continue` in place of `break`
  // ---------------------------------------------------------------------

  /** The comment on the `break` of _update_monster_player says the sweep
      goes on to the next monster once a killed one is removed; the `break`
      ends the sweep instead. `SweepContinue` is the sweep that comment
      describes: every killed monster is removed and pays, every live
      monster at the end of its path is removed and costs one HP. */
  predicate Killed(m: Monster)
  {
    m.hp <= 0
  }

  predicate Stays(m: Monster)
  {
    m.hp > 0 && |m.path| > 0
  }

  predicate Escapes(m: Monster)
  {
    m.hp > 0 && |m.path| == 0
  }

  function MonsterMoney(m: Monster): int
  {
    m.money
  }

  function SweepContinue(ms: seq<Monster>): (r: SweepResult)
    ensures |r.kept| <= |ms|
    decreases |ms|
  {
    if ms == [] then SweepResult([], 0, 0)
    else
      var rest := SweepContinue(ms[1..]);
      if ms[0].hp <= 0 then rest.(bounty := rest.bounty + ms[0].money)
      else if |ms[0].path| == 0 then rest.(lost := rest.lost + 1)
      else rest.(kept := [ms[0]] + rest.kept)
  }

  /** The corrected sweep in closed form: it keeps exactly the live monsters
      with a path left, in order, charges one HP per live monster at the end
      of its path, and pays the money of every killed monster. */
  lemma {:induction false} SweepContinueCharacterized(ms: seq<Monster>)
    ensures SweepContinue(ms).kept == Filter(ms, Stays)
    ensures SweepContinue(ms).lost == |Filter(ms, Escapes)|
    ensures SweepContinue(ms).bounty == Sum(Filter(ms, Killed), MonsterMoney)
    decreases |ms|
  {
    if ms != [] {
      SweepContinueCharacterized(ms[1..]);
      var rest := Filter(ms[1..], Killed);
      if Killed(ms[0]) {
        assert Filter(ms, Killed) == [ms[0]] + rest;
        SumCons(ms[0], rest, MonsterMoney);
      } else {
        assert Filter(ms, Killed) == rest;
      }
    }
  }

  /** Every monster the corrected sweep removes is accounted for: it either
      cost one HP or was killed. */
  lemma {:induction false} SweepContinueCounts(ms: seq<Monster>)
    ensures |ms| == |SweepContinue(ms).kept| + SweepContinue(ms).lost + |Filter(ms, Killed)|
    decreases |ms|
  {
    if ms != [] {
      SweepContinueCounts(ms[1..]);
    }
  }

  /** The corrected sweep's running totals over a prefix one monster longer. */
  lemma ContinueVisit(ms: seq<Monster>, k: nat)
    requires k < |ms|
    ensures var kept, lost, paid := Filter(ms[..k], Stays), |Filter(ms[..k], Escapes)|,
                                   Sum(Filter(ms[..k], Killed), MonsterMoney);
      && (ms[k].hp <= 0 ==>
            && Filter(ms[..k + 1], Stays) == kept && |Filter(ms[..k + 1], Escapes)| == lost
            && Sum(Filter(ms[..k + 1], Killed), MonsterMoney) == paid + ms[k].money)
      && (ms[k].hp > 0 && |ms[k].path| == 0 ==>
            && Filter(ms[..k + 1], Stays) == kept && |Filter(ms[..k + 1], Escapes)| == lost + 1
            && Sum(Filter(ms[..k + 1], Killed), MonsterMoney) == paid)
      && (ms[k].hp > 0 && |ms[k].path| > 0 ==>
            && Filter(ms[..k + 1], Stays) == kept + [ms[k]] && |Filter(ms[..k + 1], Escapes)| == lost
            && Sum(Filter(ms[..k + 1], Killed), MonsterMoney) == paid)
  {
    FilterSnoc(ms, k, Stays);
    FilterSnoc(ms, k, Escapes);
    SumFilterSnoc(ms, k, Killed, MonsterMoney);
  }

  /** _update_monster_player with `continue` for `break`: after an erase the
      step-back and the loop's increment cancel, so the index stays. */
  method MonsterPlayerPassContinue(ms: seq<Monster>, player: Player) returns (ms': seq<Monster>, player': Player)
    ensures ms' == Filter(ms, Stays)
    ensures player'.hp == player.hp - |Filter(ms, Escapes)|
    ensures player'.coin == player.coin + Sum(Filter(ms, Killed), MonsterMoney)
  {
    ms' := ms;
    player' := player;
    var i := 0;
    ghost var k := 0;
    while i < |ms'|
      invariant 0 <= i <= |ms'| && 0 <= k <= |ms|
      invariant ms'[..i] == Filter(ms[..k], Stays)
      invariant ms'[i..] == ms[k..]
      invariant player'.hp == player.hp - |Filter(ms[..k], Escapes)|
      invariant player'.coin == player.coin + Sum(Filter(ms[..k], Killed), MonsterMoney)
      decreases |ms'| - i
    {
      WalkStep(ms', i, ms, k);
      ContinueVisit(ms, k);
      if ms'[i].hp <= 0 {
        player' := player'.(coin := player'.coin + ms'[i].money);
        ms' := Erase(ms', i);
        k := k + 1;
        continue;
      }
      if |ms'[i].path| == 0 {
        ms' := Erase(ms', i);
        player' := player'.(hp := player'.hp - 1);
        k := k + 1;
        continue;
      }
      i := i + 1;
      k := k + 1;
    }
    assert ms[..k] == ms;
  }

  /** Two killed monsters ahead of a live one at the end of its path: the
      sweep as written removes only the first and charges nothing, while the
      corrected sweep removes all three, pays both bounties and charges one HP. */
  lemma SweepBreakVersusContinue(a: Monster, b: Monster, c: Monster)
    requires a.hp <= 0 && b.hp <= 0 && c.hp > 0 && |c.path| == 0
    ensures Sweep([a, b, c]) == SweepResult([b, c], 0, a.money)
    ensures SweepContinue([a, b, c]) == SweepResult([], 1, a.money + b.money)
    ensures Sweep([a, b, c]) != SweepContinue([a, b, c])
  {
    assert [a, b, c][1..] == [b, c];
    assert [b, c][1..] == [c];
    assert [c][1..] == [];
    assert SweepContinue([c]) == SweepResult([], 1, 0);
    assert SweepContinue([b, c]) == SweepResult([], 1, b.money);
  }

  // ---------------------------------------------------------------------
  // Hero against monsters
  // ---------------------------------------------------------------------

  function Touching(ov: (Shape, Shape) -> bool, hero: Shape): Monster -> bool
  {
    (m: Monster) => ov(m.shape, hero)
  }

  function Untouched(ov: (Shape, Shape) -> bool, hero: Shape): Monster -> bool
  {
    (m: Monster) => !ov(m.shape, hero)
  }

  /** _update_hero_monster: every monster touching the hero is removed,
      whatever its HP, at one player HP each. */
  function HeroContact(ms: seq<Monster>, player: Player, hero: Shape, ov: (Shape, Shape) -> bool)
    : (r: (seq<Monster>, Player))
  {
    (Filter(ms, Untouched(ov, hero)), player.(hp := player.hp - |Filter(ms, Touching(ov, hero))|))
  }

  /** The while loop of _update_hero_monster: erase without advancing on
      contact, advance otherwise. */
  method HeroMonsterPass(ms: seq<Monster>, player: Player, hero: Shape, ov: (Shape, Shape) -> bool)
    returns (ms': seq<Monster>, player': Player)
    ensures ms' == Filter(ms, Untouched(ov, hero))
    ensures player'.hp == player.hp - (|ms| - |ms'|)
    ensures player'.coin == player.coin
    ensures (ms', player') == HeroContact(ms, player, hero, ov)
  {
    ms' := ms;
    player' := player;
    var i := 0;
    ghost var k := 0;
    while i < |ms'|
      invariant 0 <= i <= |ms'| && 0 <= k <= |ms|
      invariant ms'[..i] == Filter(ms[..k], Untouched(ov, hero))
      invariant ms'[i..] == ms[k..]
      invariant player'.hp == player.hp - |Filter(ms[..k], Touching(ov, hero))|
      invariant player'.coin == player.coin
      decreases |ms'| - i
    {
      WalkStep(ms', i, ms, k);
      FilterSnoc(ms, k, Untouched(ov, hero));
      FilterSnoc(ms, k, Touching(ov, hero));
      if ov(ms'[i].shape, hero) {
        player' := player'.(hp := player'.hp - 1);
        ms' := Erase(ms', i);
      } else {
        i := i + 1;
      }
      k := k + 1;
    }
    assert ms[..k] == ms;
    FilterPartition(ms, Untouched(ov, hero), Touching(ov, hero));
  }

  /** Contact removes exactly the monsters touching the hero, keeps the
      others in order, and charges one HP per monster removed. */
  lemma HeroContactRemovesTouching(ms: seq<Monster>, player: Player, hero: Shape, ov: (Shape, Shape) -> bool)
    ensures var (kept, p) := HeroContact(ms, player, hero, ov);
      && (forall m :: m in kept <==> m in ms && !ov(m.shape, hero))
      && p.hp == player.hp - (|ms| - |kept|)
      && p.coin == player.coin
  {
    forall m {
      FilterMembership(ms, Untouched(ov, hero), m);
    }
    FilterPartition(ms, Untouched(ov, hero), Touching(ov, hero));
  }

  // ---------------------------------------------------------------------
  // Rockets against monsters
  // ---------------------------------------------------------------------

  /** The index of the first rocket overlapping `s`, or the length if none. */
  function FirstOverlap(s: Shape, rs: seq<Rockets.Rocket>, ov: (Shape, Shape) -> bool): (k: nat)
    ensures k <= |rs|
    ensures forall j :: 0 <= j < k ==> !ov(s, rs[j].Shape())
    ensures k < |rs| ==> ov(s, rs[k].Shape())
    decreases |rs|
  {
    if rs == [] then 0 else if ov(s, rs[0].Shape()) then 0 else 1 + FirstOverlap(s, rs[1..], ov)
  }

  /** One monster against the rockets: the first rocket it overlaps, if any,
      takes its damage off the monster's HP and is removed. */
  function RocketHit(m: Monster, rs: seq<Rockets.Rocket>, ov: (Shape, Shape) -> bool)
    : (r: (Monster, seq<Rockets.Rocket>))
  {
    var k := FirstOverlap(m.shape, rs, ov);
    if k < |rs| then (m.(hp := m.hp - rs[k].damage), Erase(rs, k)) else (m, rs)
  }

  /** _update_monster_rocket: monsters in index order, each meeting the
      rockets still alive when its turn comes. */
  function RocketPass(ms: seq<Monster>, rs: seq<Rockets.Rocket>, ov: (Shape, Shape) -> bool)
    : (r: (seq<Monster>, seq<Rockets.Rocket>))
    ensures |r.0| == |ms|
    ensures |r.1| <= |rs|
    decreases |ms|
  {
    if ms == [] then ([], rs)
    else
      var (m, left) := RocketHit(ms[0], rs, ov);
      var tail := RocketPass(ms[1..], left, ov);
      ([m] + tail.0, tail.1)
  }

  /** The rocket pass touches nothing but hit points. */
  lemma {:induction false} RocketPassKeepsMonsters(ms: seq<Monster>, rs: seq<Rockets.Rocket>, ov: (Shape, Shape) -> bool)
    ensures SameButHp(ms, RocketPass(ms, rs, ov).0)
    decreases |ms|
  {
    if ms != [] {
      var (m, rest) := RocketHit(ms[0], rs, ov);
      RocketPassKeepsMonsters(ms[1..], rest, ov);
      var r := RocketPass(ms, rs, ov).0;
      forall i | 0 <= i < |ms| ensures r[i] == ms[i].(hp := r[i].hp) {
        if i > 0 {
          assert r[i] == RocketPass(ms[1..], rest, ov).0[i - 1];
          assert ms[i] == ms[1..][i - 1];
        }
      }
    }
  }

  /** The inner loop of _update_monster_rocket for one monster, which stops
      with `break` at the first hit. */
  method HitByRocket(m: Monster, rs: seq<Rockets.Rocket>, ov: (Shape, Shape) -> bool)
    returns (m': Monster, rs': seq<Rockets.Rocket>)
    ensures (m', rs') == RocketHit(m, rs, ov)
  {
    m' := m;
    rs' := rs;
    var j: int := 0;
    while j < |rs'|
      invariant 0 <= j <= |rs'|
      invariant rs' == rs && m' == m
      invariant forall l :: 0 <= l < j ==> !ov(m.shape, rs[l].Shape())
      decreases |rs'| - j
    {
      if ov(m'.shape, rs'[j].Shape()) {
        assert FirstOverlap(m.shape, rs, ov) == j;
        m' := m'.(hp := m'.hp - rs'[j].damage);
        rs' := Erase(rs', j);
        j := j - 1;
        break;
      }
      j := j + 1;
    }
  }

  /** The pass over the monsters from index `i` on handles monster `i` first. */
  lemma RocketPassStep(ms: seq<Monster>, i: nat, done: seq<Monster>, rs: seq<Rockets.Rocket>, m: Monster,
                        left: seq<Rockets.Rocket>, ov: (Shape, Shape) -> bool)
    requires i < |ms| && (m, left) == RocketHit(ms[i], rs, ov)
    ensures done + RocketPass(ms[i..], rs, ov).0 == (done + [m]) + RocketPass(ms[i + 1..], left, ov).0
    ensures RocketPass(ms[i..], rs, ov).1 == RocketPass(ms[i + 1..], left, ov).1
  {
    assert ms[i..][0] == ms[i] && ms[i..][1..] == ms[i + 1..];
    var tail := RocketPass(ms[i + 1..], left, ov).0;
    AppendAssoc(done, [m], tail);
  }

  /** The outer loop of _update_monster_rocket: monsters in index order. */
  method MonsterRocketPass(ms: seq<Monster>, rs: seq<Rockets.Rocket>, ov: (Shape, Shape) -> bool)
    returns (ms': seq<Monster>, rs': seq<Rockets.Rocket>)
    ensures (ms', rs') == RocketPass(ms, rs, ov)
  {
    ms' := ms;
    rs' := rs;
    var i := 0;
    while i < |ms'|
      invariant 0 <= i <= |ms'| == |ms|
      invariant ms'[i..] == ms[i..]
      invariant ms'[..i] + RocketPass(ms[i..], rs', ov).0 == RocketPass(ms, rs, ov).0
      invariant RocketPass(ms[i..], rs', ov).1 == RocketPass(ms, rs, ov).1
    {
      assert ms'[i] == ms[i];
      var m, left := HitByRocket(ms'[i], rs', ov);
      RocketPassStep(ms, i, ms'[..i], rs', m, left, ov);
      SetStep(ms', i, m);
      ms' := ms'[i := m];
      rs' := left;
      i := i + 1;
    }
    assert ms'[..i] == ms' && ms[i..] == [];
    assert RocketPass(ms[i..], rs', ov) == ([], rs');
    assert ms' == RocketPass(ms, rs, ov).0;
    assert rs' == RocketPass(ms, rs, ov).1;
  }

  /** A monster takes the damage of at most one rocket per call: its HP is
      unchanged or lower by the damage of a single rocket. */
  lemma {:induction false} RocketAtMostOnce(ms: seq<Monster>, rs: seq<Rockets.Rocket>, ov: (Shape, Shape) -> bool, i: nat)
    requires i < |ms|
    ensures var h := RocketPass(ms, rs, ov).0[i].hp;
      h == ms[i].hp || exists j :: 0 <= j < |rs| && h == ms[i].hp - rs[j].damage
    decreases |ms|
  {
    if i > 0 {
      var k := FirstOverlap(ms[0].shape, rs, ov);
      var left := RocketHit(ms[0], rs, ov).1;
      RocketAtMostOnce(ms[1..], left, ov, i - 1);
      var h := RocketPass(ms, rs, ov).0[i].hp;
      assert ms[1..][i - 1] == ms[i];
      if h != ms[i].hp {
        var j :| 0 <= j < |left| && h == ms[i].hp - left[j].damage;
        if k < |rs| {
          if j < k {
            assert left[j] == rs[j];
          } else {
            assert left[j] == rs[j + 1];
          }
        }
      }
    }
  }

  /** Rockets only leave, never appear; at most one leaves per monster; and
      the HP the monsters lose adds up to the damage of the rockets removed. */
  lemma {:induction false} RocketPassAccounting(ms: seq<Monster>, rs: seq<Rockets.Rocket>, ov: (Shape, Shape) -> bool)
    ensures var r := RocketPass(ms, rs, ov);
      && multiset(r.1) <= multiset(rs)
      && |rs| - |r.1| <= |ms|
      && Sum(ms, MonsterHp) - Sum(r.0, MonsterHp) == Sum(rs, RocketDmg) - Sum(r.1, RocketDmg)
    decreases |ms|
  {
    if ms != [] {
      var k := FirstOverlap(ms[0].shape, rs, ov);
      var (m, left) := RocketHit(ms[0], rs, ov);
      RocketPassAccounting(ms[1..], left, ov);
      var r := RocketPass(ms, rs, ov);
      assert r.0 == [m] + RocketPass(ms[1..], left, ov).0;
      if k < |rs| {
        EraseSum(rs, k, RocketDmg);
        EraseMultiset(rs, k);
      }
    }
  }

  /** When no rocket overlaps any monster, the pass changes nothing. */
  lemma {:induction false} RocketPassMisses(ms: seq<Monster>, rs: seq<Rockets.Rocket>, ov: (Shape, Shape) -> bool)
    requires forall i, j :: 0 <= i < |ms| && 0 <= j < |rs| ==> !ov(ms[i].shape, rs[j].Shape())
    ensures RocketPass(ms, rs, ov) == (ms, rs)
    decreases |ms|
  {
    if ms != [] {
      var k := FirstOverlap(ms[0].shape, rs, ov);
      assert k == |rs|;
      assert RocketHit(ms[0], rs, ov) == (ms[0], rs);
      forall i, j | 0 <= i < |ms[1..]| && 0 <= j < |rs| ensures !ov(ms[1..][i].shape, rs[j].Shape()) {
        assert ms[1..][i] == ms[i + 1];
      }
      RocketPassMisses(ms[1..], rs, ov);
      assert ms == [ms[0]] + ms[1..];
    }
  }

  // ---------------------------------------------------------------------
  // One call of OperationCenter::update
  // ---------------------------------------------------------------------

  /** The monsters and bullets after the first four passes: monster update,
      tower update, bullet update and expiry, bullets against monsters. */
  function Shoot(w: World, env: Env): (r: (seq<Monster>, seq<Tower>, seq<Bullet>))
    ensures |r.0| == |w.monsters| && |r.1| == |w.towers|
  {
    var ms1 := Map(w.monsters, env.monsterUpdate);
    var (ts, spawned) := UpdateTowers(w.towers, ms1, env.towerUpdate);
    var bs1 := Filter(Map(w.bullets + spawned, env.bulletUpdate), BulletLive);
    var (ms2, bs2) := BulletPass(ms1, bs1, env.overlap);
    (ms2, ts, bs2)
  }

  /** The last four passes: the sweep, hero contact, rocket update and
      expiry, and rockets against monsters. */
  function Resolve(ms: seq<Monster>, rs: seq<Rockets.Rocket>, p: Player, hero: Shape,
                   ov: (Shape, Shape) -> bool)
    : (r: (seq<Monster>, seq<Rockets.Rocket>, Player))
  {
    var sw := Sweep(ms);
    var p1 := p.(hp := p.hp - sw.lost, coin := p.coin + sw.bounty);
    var (ms3, p2) := HeroContact(sw.kept, p1, hero, ov);
    var rs1 := Filter(Map(rs, Rockets.Update), RocketLive);
    var (ms4, rs2) := RocketPass(ms3, rs1, ov);
    (ms4, rs2, p2)
  }

  /** OperationCenter::update: the eight passes in the source's order. The
      hero's shape is the one `Hero::update` left earlier in the same tick. */
  function Step(w: World, p: Player, hero: Shape, env: Env): (r: (World, Player))
    ensures |r.0.towers| == |w.towers|
  {
    var (ms2, ts, bs2) := Shoot(w, env);
    var (ms4, rs2, p2) := Resolve(ms2, w.rockets, p, hero, env.overlap);
    (World(ms4, ts, bs2, rs2), p2)
  }

  /** The last four passes with the corrected sweep. */
  function ResolveContinue(ms: seq<Monster>, rs: seq<Rockets.Rocket>, p: Player, hero: Shape,
                           ov: (Shape, Shape) -> bool)
    : (r: (seq<Monster>, seq<Rockets.Rocket>, Player))
  {
    var sw := SweepContinue(ms);
    var p1 := p.(hp := p.hp - sw.lost, coin := p.coin + sw.bounty);
    var (ms3, p2) := HeroContact(sw.kept, p1, hero, ov);
    var rs1 := Filter(Map(rs, Rockets.Update), RocketLive);
    var (ms4, rs2) := RocketPass(ms3, rs1, ov);
    (ms4, rs2, p2)
  }

  /** OperationCenter::update with the corrected sweep. */
  function StepContinue(w: World, p: Player, hero: Shape, env: Env): (r: (World, Player))
    ensures |r.0.towers| == |w.towers|
  {
    var (ms2, ts, bs2) := Shoot(w, env);
    var (ms4, rs2, p2) := ResolveContinue(ms2, w.rockets, p, hero, env.overlap);
    (World(ms4, ts, bs2, rs2), p2)
  }

  /** With the corrected sweep, every monster removed costs the player one
      HP unless it was killed, and the coins grow by the money of every
      killed monster; no monster with HP <= 0 survives the sweep. */
  lemma ResolveContinueAccounting(ms: seq<Monster>, rs: seq<Rockets.Rocket>, p: Player, hero: Shape,
                                  ov: (Shape, Shape) -> bool)
    ensures var (ms', _, p') := ResolveContinue(ms, rs, p, hero, ov);
      && |ms| - |ms'| == (p.hp - p'.hp) + |Filter(ms, Killed)|
      && p'.coin == p.coin + Sum(Filter(ms, Killed), MonsterMoney)
      && forall i :: 0 <= i < |SweepContinue(ms).kept| ==> SweepContinue(ms).kept[i].hp > 0
  {
    var sw := SweepContinue(ms);
    SweepContinueCharacterized(ms);
    SweepContinueCounts(ms);
    var p1 := p.(hp := p.hp - sw.lost, coin := p.coin + sw.bounty);
    HeroContactRemovesTouching(sw.kept, p1, hero, ov);
  }

  /** The same accounting for a whole call with the corrected sweep. */
  lemma StepContinueAccounting(w: World, p: Player, hero: Shape, env: Env)
    ensures var (w', p') := StepContinue(w, p, hero, env);
      var shot := Shoot(w, env).0;
      && |w.monsters| - |w'.monsters| == (p.hp - p'.hp) + |Filter(shot, Killed)|
      && p'.coin == p.coin + Sum(Filter(shot, Killed), MonsterMoney)
  {
    ResolveContinueAccounting(Shoot(w, env).0, w.rockets, p, hero, env.overlap);
  }

  /** The eight passes in the source's order, loops and all. */
  method Update(w: World, p: Player, hero: Shape, env: Env) returns (w': World, p': Player)
    ensures (w', p') == Step(w, p, hero, env)
  {
    var ms, ts, bs := ShootPasses(w, env);
    var rs', player;
    ms, rs', player := ResolvePasses(ms, w.rockets, p, hero, env.overlap);
    w' := World(ms, ts, bs, rs');
    p' := player;
  }

  /** The first four passes of OperationCenter::update. */
  method ShootPasses(w: World, env: Env) returns (ms: seq<Monster>, ts: seq<Tower>, bs: seq<Bullet>)
    ensures (ms, ts, bs) == Shoot(w, env)
  {
    ms := Map(w.monsters, env.monsterUpdate);
    var towers := UpdateTowers(w.towers, ms, env.towerUpdate);
    ts := towers.0;
    bs := UpdateTowerBullets(w.bullets + towers.1, env.bulletUpdate);
    ms, bs := MonsterBulletPass(ms, bs, env.overlap);
  }

  /** The last four passes of OperationCenter::update: the sweep, hero
      contact, rocket update and rockets against monsters. */
  method ResolvePasses(ms: seq<Monster>, rs: seq<Rockets.Rocket>, p: Player, hero: Shape,
                       ov: (Shape, Shape) -> bool)
    returns (ms': seq<Monster>, rs': seq<Rockets.Rocket>, p': Player)
    ensures (ms', rs', p') == Resolve(ms, rs, p, hero, ov)
  {
    ghost var sw := Sweep(ms);
    ghost var p1 := p.(hp := p.hp - sw.lost, coin := p.coin + sw.bounty);
    ms', p' := MonsterPlayerPass(ms, p);
    assert ms' == sw.kept && p' == p1;
    ms', p' := HeroMonsterPass(ms', p', hero, ov);
    assert (ms', p') == HeroContact(sw.kept, p1, hero, ov);
    rs' := UpdateRockets(rs);
    ms', rs' := MonsterRocketPass(ms', rs', ov);
  }

  /** The last three passes never add monsters. Every monster they remove
      costs the player one HP, except at most one killed monster, which pays
      its money instead; coins change by nothing else. */
  lemma ResolveAccounting(ms: seq<Monster>, rs: seq<Rockets.Rocket>, p: Player, hero: Shape,
                          ov: (Shape, Shape) -> bool)
    ensures var (ms', _, p') := Resolve(ms, rs, p, hero, ov);
      var removed := |ms| - |ms'|;
      var k := FirstKilled(ms);
      && 0 <= removed
      && (k == |ms| ==> p.hp - p'.hp == removed && p'.coin == p.coin)
      && (k < |ms| ==> p.hp - p'.hp == removed - 1 && p'.coin == p.coin + ms[k].money)
  {
    var sw := Sweep(ms);
    SweepRemovesAtMostOneKill(ms);
    SweepCharacterized(ms);
    var p1 := p.(hp := p.hp - sw.lost, coin := p.coin + sw.bounty);
    HeroContactRemovesTouching(sw.kept, p1, hero, ov);
  }

  /** A step never adds monsters; every monster it removes costs one player
      HP, except at most one killed monster, which pays its money instead. */
  lemma StepAccounting(w: World, p: Player, hero: Shape, env: Env)
    ensures var (w', p') := Step(w, p, hero, env);
      var shot := Shoot(w, env).0;
      var removed := |w.monsters| - |w'.monsters|;
      var k := FirstKilled(shot);
      && 0 <= removed
      && (k == |shot| ==> p.hp - p'.hp == removed && p'.coin == p.coin)
      && (k < |shot| ==> p.hp - p'.hp == removed - 1 && p'.coin == p.coin + shot[k].money)
  {
    ResolveAccounting(Shoot(w, env).0, w.rockets, p, hero, env.overlap);
  }

  /** A step changes the player's coins by nothing, or by the money of one
      of the monsters it started with (as Monster::update left it). */
  lemma StepBounty(w: World, p: Player, hero: Shape, env: Env)
    ensures var p' := Step(w, p, hero, env).1;
      || p'.coin == p.coin
      || exists i :: 0 <= i < |w.monsters| && p'.coin == p.coin + env.monsterUpdate(w.monsters[i]).money
  {
    StepAccounting(w, p, hero, env);
    var ms1 := Map(w.monsters, env.monsterUpdate);
    var spawned := UpdateTowers(w.towers, ms1, env.towerUpdate).1;
    var bs1 := Filter(Map(w.bullets + spawned, env.bulletUpdate), BulletLive);
    BulletPassKeepsMonsters(ms1, bs1, env.overlap);
    var shot := Shoot(w, env).0;
    var k := FirstKilled(shot);
    if k < |shot| {
      assert shot[k].money == ms1[k].money == env.monsterUpdate(w.monsters[k]).money;
    }
  }

  /** The rocket pass comes after the sweep: the monsters a step leaves are,
      but for HP, exactly those that survived hero contact, so a monster a
      rocket kills is still present until the next step. */
  lemma RocketKillsWaitForNextSweep(ms: seq<Monster>, rs: seq<Rockets.Rocket>, p: Player, hero: Shape,
                                    ov: (Shape, Shape) -> bool)
    ensures var sw := Sweep(ms);
      var p1 := p.(hp := p.hp - sw.lost, coin := p.coin + sw.bounty);
      SameButHp(HeroContact(sw.kept, p1, hero, ov).0, Resolve(ms, rs, p, hero, ov).0)
  {
    var sw := Sweep(ms);
    var p1 := p.(hp := p.hp - sw.lost, coin := p.coin + sw.bounty);
    RocketPassKeepsMonsters(HeroContact(sw.kept, p1, hero, ov).0, Filter(Map(rs, Rockets.Update), RocketLive), ov);
  }

  /** With nothing on the field a step changes nothing. */
  lemma EmptyWorldIdles(p: Player, hero: Shape, env: Env)
    ensures Step(World([], [], [], []), p, hero, env) == (World([], [], [], []), p)
  {
    assert Map([], env.monsterUpdate) == [];
    assert Map([], env.bulletUpdate) == [];
    assert Map([], Rockets.Update) == [];
  }

  /** Two steps on a field with one monster (10 HP, worth 7 coins), one
      bullet and one rocket (6 damage each) over it, the hero elsewhere. The
      first step lands both hits and leaves the monster at -2 HP, still on
      the field, since the rocket hits after the sweep; the second step's
      sweep removes it and pays its money. */
  lemma RocketKillScenario(p: Player)
    ensures var m := Monster(Circle(0.0, 50.0, 10.0), 10, 7, [Point(0.0, 0.0)]);
      var env := Env((a: Shape, b: Shape) => b.Circle?, (x: Monster) => x,
                     (t: Tower, ms: seq<Monster>) => (t, []), (b: Bullet) => b);
      var hero := Rect(0.0, 0.0, 1.0, 1.0);
      var w := World([m], [], [Bullet(Circle(0.0, 50.0, 1.0), 1.0, 6)],
                     [Rockets.Rocket(0.0, 100.0, 1.0, 0.0, -200.0, 5.0, 10.0, 6, 0.2)]);
      var (w1, p1) := Step(w, p, hero, env);
      && w1 == World([m.(hp := -2)], [], [], [])
      && p1 == p
      && Step(w1, p1, hero, env) == (World([], [], [], []), p.(coin := p.coin + 7))
  {
    var m := Monster(Circle(0.0, 50.0, 10.0), 10, 7, [Point(0.0, 0.0)]);
    var env := Env((a: Shape, b: Shape) => b.Circle?, (x: Monster) => x,
                   (t: Tower, ms: seq<Monster>) => (t, []), (b: Bullet) => b);
    var hero := Rect(0.0, 0.0, 1.0, 1.0);
    var b := Bullet(Circle(0.0, 50.0, 1.0), 1.0, 6);
    var r := Rockets.Rocket(0.0, 100.0, 1.0, 0.0, -200.0, 5.0, 10.0, 6, 0.2);
    var w := World([m], [], [b], [r]);
    // first step
    assert Map([m], env.monsterUpdate) == [m];
    assert Map([b], env.bulletUpdate) == [b];
    assert Filter([b], BulletLive) == [b];
    var hit := Absorb(m, [b], env.overlap);
    assert Filter([b], Hits(env.overlap, m.shape)) == [b];
    assert Filter([b], Misses(env.overlap, m.shape)) == [];
    assert Sum([b], BulletDmg) == BulletDmg(b) + Sum([b][1..], BulletDmg) == 6;
    assert hit == (m.(hp := 4), []);
    assert UpdateTowers([], [m], env.towerUpdate) == ([], []);
    assert [b] + [] == [b];
    assert [m][1..] == [];
    assert BulletPass([], [], env.overlap) == ([], []);
    assert BulletPass([m], [b], env.overlap) == ([hit.0] + BulletPass([], hit.1, env.overlap).0, []);
    assert Map(w.monsters, env.monsterUpdate) == [m];
    assert Filter(Map(w.bullets + [], env.bulletUpdate), BulletLive) == [b];
    assert Shoot(w, env).0 == [m.(hp := 4)];
    assert Shoot(w, env).1 == [];
    assert Shoot(w, env).2 == [];
    assert Shoot(w, env) == ([m.(hp := 4)], [], []);
    var r1 := Rockets.Update(r);
    assert r1.range == 5.0;
    assert Map([r], Rockets.Update) == [r1];
    assert Filter([r1], RocketLive) == [r1];
    assert Sweep([m.(hp := 4)]) == SweepResult([m.(hp := 4)], 0, 0);
    assert Filter([m.(hp := 4)], Untouched(env.overlap, hero)) == [m.(hp := 4)];
    assert Filter([m.(hp := 4)], Touching(env.overlap, hero)) == [];
    assert FirstOverlap(m.shape, [r1], env.overlap) == 0;
    assert RocketHit(m.(hp := 4), [r1], env.overlap) == (m.(hp := -2), []);
    var (w1, p1) := Step(w, p, hero, env);
    assert w1 == World([m.(hp := -2)], [], [], []);
    // second step
    assert Map([m.(hp := -2)], env.monsterUpdate) == [m.(hp := -2)];
    assert Map([], env.bulletUpdate) == [];
    assert Map([], Rockets.Update) == [];
    assert Shoot(w1, env) == ([m.(hp := -2)], [], []);
    assert Sweep([m.(hp := -2)]) == SweepResult([], 0, 7);
  }
}
