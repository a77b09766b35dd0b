/** The hero's rocket (SourceCode/hero/Rocket.cpp): a circle that flies
    straight up at a fixed velocity and whose `range` drops to 0, for good,
    once it reaches the top of the screen. */
module Rockets {
  import opened Geometry
  import DataCenter

  /** The velocity every rocket gets, whatever direction and speed it is built with. */
  const LaunchVx: real := 0.0
  const LaunchVy: real := -200.0

  /** How far a flying rocket rises in one tick. */
  const Rise: real := 200.0 / 60.0

  /** Scale factor used when the constructor's last argument is omitted. */
  const DefaultScale: real := 0.2

  datatype Rocket = Rocket(
    cx: real, cy: real, radius: real,
    vx: real, vy: real,
    range: real, speed: real, damage: int, scale: real)
  {
    function Shape(): Shape
    {
      Circle(cx, cy, radius)
    }
  }

  function Min(a: int, b: int): int
  {
    if a <= b then a else b
  }

  /** Rocket::Rocket. The loaded bitmap enters as its width and height. */
  function New(start: Point, direction: Point, speed: real, damage: int, range: real,
               scale: real, bitmapWidth: int, bitmapHeight: int): (r: Rocket)
    ensures r.range == range && r.damage == damage
    ensures r.vx == LaunchVx && r.vy == LaunchVy
    ensures r.Shape().CenterX() == start.x && r.Shape().CenterY() == start.y
  {
    var rad := (Min(bitmapWidth, bitmapHeight) as real) * scale * 0.8;
    Rocket(start.x, start.y, rad, 0.0, -200.0, range, speed, damage, scale)
  }

  /** A rocket carries the launch velocity; construction establishes it and
      nothing changes it. */
  predicate Launched(r: Rocket)
  {
    r.vx == LaunchVx && r.vy == LaunchVy
  }

  /** Rocket::update: nothing once `range` is 0; otherwise one tick of flight
      and `range` set to 0 when the centre reaches the top edge. */
  function Update(r: Rocket): (u: Rocket)
    ensures r.range == 0.0 ==> u == r
    ensures r.range != 0.0 ==> u.cx == r.cx + r.vx / DataCenter.Fps
    ensures r.range != 0.0 ==> u.cy == r.cy + r.vy / DataCenter.Fps
    ensures r.range != 0.0 ==> (u.range == 0.0 <==> u.cy <= 0.0)
    ensures u.range == 0.0 || u.range == r.range
    ensures u.damage == r.damage && u.radius == r.radius && u.vx == r.vx && u.vy == r.vy
  {
    if r.range == 0.0 then r
    else
      var moved := r.Shape().WithCenterX(r.cx + r.vx / DataCenter.Fps)
                            .WithCenterY(r.cy + r.vy / DataCenter.Fps);
      var r1 := r.(cx := moved.cx, cy := moved.cy);
      if r1.cy <= 0.0 then r1.(range := 0.0) else r1
  }

  /** `n` successive updates. */
  function Iterate(r: Rocket, n: nat): Rocket
    decreases n
  {
    if n == 0 then r else Iterate(Update(r), n - 1)
  }

  /** The flight of a launched rocket: x never moves, y rises by exactly
      200/60 per tick while `range` is non-zero. */
  lemma UpdateLaunched(r: Rocket)
    requires Launched(r)
    ensures Launched(Update(r))
    ensures Update(r).cx == r.cx
    ensures r.range != 0.0 ==> Update(r).cy == r.cy - Rise
  {
  }

  /** The velocity does not depend on the constructor's direction and speed. */
  lemma NewIsLaunched(start: Point, direction: Point, speed: real, damage: int, range: real,
                      scale: real, bitmapWidth: int, bitmapHeight: int)
    ensures Launched(New(start, direction, speed, damage, range, scale, bitmapWidth, bitmapHeight))
  {
  }

  /** Two rockets built from the same start, damage, range and bitmap fly
      identically, whatever direction and speed they were given. */
  lemma {:induction false} FlightIgnoresDirection(start: Point, d1: Point, d2: Point, s1: real, s2: real,
                                                 damage: int, range: real, scale: real,
                                                 bw: int, bh: int, n: nat)
    ensures var a := Iterate(New(start, d1, s1, damage, range, scale, bw, bh), n);
            var b := Iterate(New(start, d2, s2, damage, range, scale, bw, bh), n);
            a.Shape() == b.Shape() && a.range == b.range
  {
    var a := New(start, d1, s1, damage, range, scale, bw, bh);
    var b := New(start, d2, s2, damage, range, scale, bw, bh);
    assert a == b.(speed := s1);
    SameFlight(a, b, n);
  }

  /** Rockets differing only in their unused `speed` field fly alike. */
  lemma {:induction false} SameFlight(a: Rocket, b: Rocket, n: nat)
    requires a == b.(speed := a.speed)
    ensures Iterate(a, n) == Iterate(b, n).(speed := a.speed)
    decreases n
  {
    if n > 0 {
      assert Update(a) == Update(b).(speed := a.speed);
      SameFlight(Update(a), Update(b), n - 1);
    }
  }

  /** A range of 0 latches: every later update leaves it at 0. */
  lemma {:induction false} RangeLatches(r: Rocket, n: nat, m: nat)
    requires Iterate(r, n).range == 0.0
    ensures Iterate(r, n + m).range == 0.0
    decreases n
  {
    if n == 0 {
      assert Iterate(r, m) == r by { StaysAtZero(r, m); }
    } else {
      RangeLatches(Update(r), n - 1, m);
    }
  }

  lemma {:induction false} StaysAtZero(r: Rocket, m: nat)
    requires r.range == 0.0
    ensures Iterate(r, m) == r
    decreases m
  {
    if m > 0 {
      StaysAtZero(Update(r), m - 1);
    }
  }

  /** The x-coordinate of a launched rocket never changes. */
  lemma {:induction false} IterateKeepsX(r: Rocket, n: nat)
    requires Launched(r)
    ensures Launched(Iterate(r, n)) && Iterate(r, n).cx == r.cx
    decreases n
  {
    if n > 0 {
      UpdateLaunched(r);
      IterateKeepsX(Update(r), n - 1);
    }
  }

  /** While its range stays non-zero, a launched rocket has risen exactly
      `n` ticks' worth and its range is the one it was launched with. */
  lemma {:induction false} IterateRises(r: Rocket, n: nat)
    requires Launched(r)
    requires Iterate(r, n).range != 0.0
    ensures Iterate(r, n).cy == r.cy - (n as real) * Rise
    ensures Iterate(r, n).range == r.range
    decreases n
  {
    if n > 0 {
      UpdateLaunched(r);
      if Update(r).range == 0.0 {
        StaysAtZero(Update(r), n - 1);
        assert false;
      }
      IterateRises(Update(r), n - 1);
    }
  }

  /** A launched rocket whose centre is at most `n` ticks below the top edge
      has range 0 after `n + 1` updates: the flight always ends, with y as
      the measure. */
  lemma {:induction false} ReachesTop(r: Rocket, n: nat)
    requires Launched(r)
    requires r.cy <= (n as real) * Rise
    ensures Iterate(r, n + 1).range == 0.0
    decreases n
  {
    UpdateLaunched(r);
    if r.range == 0.0 {
      StaysAtZero(r, n + 1);
    } else if Update(r).range == 0.0 {
      StaysAtZero(Update(r), n);
    } else {
      assert n > 0;
      ReachesTop(Update(r), n - 1);
    }
  }
}
