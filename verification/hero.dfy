/** The role-based hero (SourceCode/hero/Hero.cpp): role stat profiles,
    asset paths, the hitbox, keyboard movement with W > A > S > D priority
    and the rocket launched on a fresh press of the space bar. */
module Heroes {
  import opened Geometry
  import Decimal
  import Seqs
  import DataCenter
  import Rockets

  /** HeroState: the facings below ROLESTATE_MAX. */
  datatype Facing = Left | Right

  const GifRoot: string := "./assets/image/roles"
  /** Size of the `char` buffer the asset path is printed into. */
  const PathBufferSize: nat := 50

  /** Arguments `launch_rocket` passes to the rocket constructor; the image
      path is replaced by the bitmap's size. */
  const RocketSpeed: real := 10.0
  const RocketDamage: int := 8
  const RocketRange: real := 5.0

  datatype Hero = Hero(
    facing: Facing,
    speed: real,
    hp: real,
    attack: real,
    roleId: int,
    gifPath: map<Facing, string>,
    targetWidth: int,
    targetHeight: int,
    shape: Shape)

  /** A hero as constructed, before any `init`; its shape comes from the
      object base class, which is not part of this model. The target sizes
      are left uninitialised by the source and are 0 here. */
  function Default(shape: Shape): (h: Hero)
    ensures h.facing == Left && h.speed == 5.0 && h.hp == 100.0 && h.attack == 10.0
    ensures h.roleId == 1 && h.gifPath == map[] && h.shape == shape
  {
    Hero(Left, 5.0, 100.0, 10.0, 1, map[], 0, 0, shape)
  }

  function Postfix(f: Facing): string
  {
    match f
    case Left => "left"
    case Right => "right"
  }

  /** The path `init` prints for a role and a facing. */
  function GifPath(roleId: int, f: Facing): string
  {
    GifRoot + "/role" + Decimal.IntToString(roleId) + "_" + Postfix(f) + ".png"
  }

  /** Speed and hit points of roles 1, 2 and 3; no profile for any other id. */
  predicate HasProfile(roleId: int)
  {
    1 <= roleId <= 3
  }

  function ProfileSpeed(roleId: int): real
    requires HasProfile(roleId)
  {
    if roleId == 1 then 5.0 else if roleId == 2 then 7.0 else 3.0
  }

  function ProfileHp(roleId: int): real
    requires HasProfile(roleId)
  {
    if roleId == 1 then 100.0 else if roleId == 2 then 80.0 else 150.0
  }

  /** The hitbox `init` sets when the left image loads: a square a fifth of
      the game field wide, centred on the window, with integer division at
      every step. */
  function Hitbox(): Shape
  {
    var tw := DataCenter.GameFieldLength / 5;
    var th := DataCenter.GameFieldLength / 5;
    Rect((DataCenter.WindowWidth / 2 - tw / 2) as real,
         (DataCenter.WindowHeight / 2 - th / 2) as real,
         (DataCenter.WindowWidth / 2 + tw / 2) as real,
         (DataCenter.WindowHeight / 2 + th / 2) as real)
  }

  /** Hero::init(role_id). `imageExists` tells whether the image store
      returns a bitmap for a path. */
  function Init(h: Hero, roleId: int, imageExists: string -> bool): (r: Hero)
    ensures r.roleId == roleId
    ensures HasProfile(roleId) ==> r.speed == ProfileSpeed(roleId) && r.hp == ProfileHp(roleId)
    ensures !HasProfile(roleId) ==> r.speed == h.speed && r.hp == h.hp
    ensures r.gifPath.Keys == h.gifPath.Keys + {Left, Right}
    ensures forall f :: f in r.gifPath ==> r.gifPath[f] == GifPath(roleId, f)
    ensures imageExists(GifPath(roleId, Left)) ==> r.shape == Hitbox()
    ensures !imageExists(GifPath(roleId, Left)) ==> r.shape == h.shape
    ensures r.facing == h.facing && r.attack == h.attack
  {
    var h1 := h.(roleId := roleId);
    var h2 := if roleId == 1 then h1.(speed := 5.0, hp := 100.0)
              else if roleId == 2 then h1.(speed := 7.0, hp := 80.0)
              else if roleId == 3 then h1.(speed := 3.0, hp := 150.0)
              else h1;
    var h3 := h2.(gifPath := h2.gifPath[Left := GifPath(roleId, Left)][Right := GifPath(roleId, Right)]);
    if imageExists(h3.gifPath[Left]) then
      h3.(targetWidth := DataCenter.GameFieldLength / 5,
          targetHeight := DataCenter.GameFieldLength / 5,
          shape := Hitbox())
    else h3
  }

  /** The hitbox is the square (452, 452)-(572, 572): 120 wide, centred on
      the window's centre (512, 512). */
  lemma HitboxValue()
    ensures Hitbox() == Rect(452.0, 452.0, 572.0, 572.0)
    ensures Hitbox().Width() == (DataCenter.GameFieldLength / 5) as real
    ensures Hitbox().CenterX() == (DataCenter.WindowWidth / 2) as real
    ensures Hitbox().CenterY() == (DataCenter.WindowHeight / 2) as real
  {
  }

  /** The asset paths of the three selectable roles. */
  lemma GifPathsOfRoles()
    ensures GifPath(1, Left) == "./assets/image/roles/role1_left.png"
    ensures GifPath(1, Right) == "./assets/image/roles/role1_right.png"
    ensures GifPath(2, Left) == "./assets/image/roles/role2_left.png"
    ensures GifPath(2, Right) == "./assets/image/roles/role2_right.png"
    ensures GifPath(3, Left) == "./assets/image/roles/role3_left.png"
    ensures GifPath(3, Right) == "./assets/image/roles/role3_right.png"
  {
    var stem := GifRoot + "/role";
    assert stem == "./assets/image/roles/role";
    assert Decimal.IntToString(1) == "1" && Decimal.IntToString(2) == "2" && Decimal.IntToString(3) == "3";
    assert GifPath(1, Left) == stem + "1" + "_" + "left" + ".png";
    assert GifPath(1, Right) == stem + "1" + "_" + "right" + ".png";
    assert GifPath(2, Left) == stem + "2" + "_" + "left" + ".png";
    assert GifPath(2, Right) == stem + "2" + "_" + "right" + ".png";
    assert GifPath(3, Left) == stem + "3" + "_" + "left" + ".png";
    assert GifPath(3, Right) == stem + "3" + "_" + "right" + ".png";
  }

  /** For every 32-bit role id the printed path and its terminating NUL fit
      the 50-character buffer. */
  lemma GifPathFitsBuffer(roleId: int, f: Facing)
    requires -0x8000_0000 <= roleId < 0x8000_0000
    ensures |GifPath(roleId, f)| + 1 <= PathBufferSize
  {
    Decimal.Int32StringLength(roleId);
  }

  /** A path is the fixed stem, the printed role id and a facing suffix. */
  lemma GifPathParts(roleId: int, f: Facing)
    ensures GifPath(roleId, f) == (GifRoot + "/role") + Decimal.IntToString(roleId) + ("_" + Postfix(f) + ".png")
  {
  }

  /** Distinct roles get distinct asset paths: the role id can be read back
      from the path. */
  lemma GifPathInjective(a: int, b: int, f: Facing)
    requires GifPath(a, f) == GifPath(b, f)
    ensures a == b
  {
    GifPathParts(a, f);
    GifPathParts(b, f);
    Seqs.CancelAround(GifRoot + "/role", Decimal.IntToString(a), Decimal.IntToString(b), "_" + Postfix(f) + ".png");
    Decimal.IntToStringInjective(a, b);
  }

  /** The movement and facing rule of Hero::update, applied to the keys held. */
  function Move(h: Hero, keys: DataCenter.Keys): (r: Hero)
    ensures r.speed == h.speed && r.hp == h.hp && r.roleId == h.roleId && r.gifPath == h.gifPath
    ensures r.shape.Width() == h.shape.Width() && r.shape.Height() == h.shape.Height()
  {
    if keys.w then h.(shape := h.shape.WithCenterY(h.shape.CenterY() - h.speed), facing := Left)
    else if keys.a then h.(shape := h.shape.WithCenterX(h.shape.CenterX() - h.speed), facing := Left)
    else if keys.s then h.(shape := h.shape.WithCenterY(h.shape.CenterY() + h.speed), facing := Right)
    else if keys.d then h.(shape := h.shape.WithCenterX(h.shape.CenterX() + h.speed), facing := Right)
    else h
  }

  /** W wins over A, S and D; A over S and D; S over D. Exactly one axis
      moves, by `speed`, and the facing is LEFT after W or A, RIGHT after S
      or D. */
  lemma MovePriority(h: Hero, keys: DataCenter.Keys)
    ensures var r := Move(h, keys);
      var dx := r.shape.CenterX() - h.shape.CenterX();
      var dy := r.shape.CenterY() - h.shape.CenterY();
      (keys.w ==> dx == 0.0 && dy == -h.speed && r.facing == Left)
      && (!keys.w && keys.a ==> dx == -h.speed && dy == 0.0 && r.facing == Left)
      && (!keys.w && !keys.a && keys.s ==> dx == 0.0 && dy == h.speed && r.facing == Right)
      && (!keys.w && !keys.a && !keys.s && keys.d ==> dx == h.speed && dy == 0.0 && r.facing == Right)
  {
  }

  /** With no movement key held the hero keeps its shape and its facing. */
  lemma NoKeyNoMove(h: Hero, keys: DataCenter.Keys)
    requires !keys.w && !keys.a && !keys.s && !keys.d
    ensures Move(h, keys) == h
  {
  }

  /** Holding S for a tick undoes a tick of W: the shape comes back exactly. */
  lemma UpThenDown(h: Hero, up: DataCenter.Keys, down: DataCenter.Keys)
    requires up.w
    requires !down.w && !down.a && down.s
    ensures Move(Move(h, up), down).shape == h.shape
    ensures Move(Move(h, up), down).facing == Right
  {
    CenterYRoundTrip(h.shape, h.shape.CenterY() - h.speed);
  }

  /** Hero::launch_rocket: one rocket appended at the hero's centre, flying
      up, with damage 8 and range 5. */
  function LaunchRocket(h: Hero, rockets: seq<Rockets.Rocket>, bitmapWidth: int, bitmapHeight: int)
    : (r: seq<Rockets.Rocket>)
    ensures |r| == |rockets| + 1 && r[..|rockets|] == rockets
    ensures r[|rockets|].cx == h.shape.CenterX() && r[|rockets|].cy == h.shape.CenterY()
    ensures r[|rockets|].damage == RocketDamage && r[|rockets|].range == RocketRange
    ensures Rockets.Launched(r[|rockets|])
  {
    var start := Point(h.shape.CenterX(), h.shape.CenterY());
    rockets + [Rockets.New(start, Point(0.0, -1.0), RocketSpeed, RocketDamage, RocketRange,
                           Rockets.DefaultScale, bitmapWidth, bitmapHeight)]
  }

  /** Hero::update: move by the held keys, then launch a rocket if space has
      just been pressed. The rocket bitmap enters as its width and height. */
  function Update(h: Hero, keys: DataCenter.Keys, prevKeys: DataCenter.Keys,
                  rockets: seq<Rockets.Rocket>, bitmapWidth: int, bitmapHeight: int)
    : (r: (Hero, seq<Rockets.Rocket>))
    ensures r.0 == Move(h, keys)
    ensures DataCenter.RisingEdge(keys.space, prevKeys.space) ==> |r.1| == |rockets| + 1
    ensures !DataCenter.RisingEdge(keys.space, prevKeys.space) ==> r.1 == rockets
    ensures r.1[..|rockets|] == rockets
    ensures DataCenter.RisingEdge(keys.space, prevKeys.space) ==>
              && r.1[|rockets|].cx == r.0.shape.CenterX() && r.1[|rockets|].cy == r.0.shape.CenterY()
              && r.1[|rockets|].damage == RocketDamage && r.1[|rockets|].range == RocketRange
              && Rockets.Launched(r.1[|rockets|])
    ensures DataCenter.RisingEdge(keys.space, prevKeys.space) ==>
              r.1 == LaunchRocket(r.0, rockets, bitmapWidth, bitmapHeight)
  {
    var moved := Move(h, keys);
    if DataCenter.RisingEdge(keys.space, prevKeys.space)
    then (moved, LaunchRocket(moved, rockets, bitmapWidth, bitmapHeight))
    else (moved, rockets)
  }

  /** Holding space launches one rocket on the first tick only: a second
      tick with space still held (and the previous keys copied) adds none. */
  lemma HoldSpaceLaunchesOnce(h: Hero, keys: DataCenter.Keys, prevKeys: DataCenter.Keys,
                              rockets: seq<Rockets.Rocket>, bw: int, bh: int)
    requires keys.space && !prevKeys.space
    ensures var (h1, r1) := Update(h, keys, prevKeys, rockets, bw, bh);
      var (_, r2) := Update(h1, keys, keys, r1, bw, bh);
      |r1| == |rockets| + 1 && r2 == r1
  {
  }
}
