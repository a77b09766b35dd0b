/** The older four-facing hero (SourceCode/Hero.cpp). Its `init()` takes no
    role, although its header declares `init(int)`; only its own definitions
    are modelled here. */
module LegacyHero {
  import opened Geometry
  import DataCenter

  /** HeroState: the facings below HEROSTATE_MAX. */
  datatype Facing = Left | Right | Front | Back

  const GifRoot: string := "./assets/gif/Hero"

  datatype Hero = Hero(facing: Facing, speed: real, hp: real,
                       gifPath: map<Facing, string>, shape: Shape)

  /** The header's defaults: facing FRONT, speed 5, HP 100. The shape comes
      from the object base class and is a parameter. */
  function Default(shape: Shape): (h: Hero)
    ensures h.facing == Front && h.speed == 5.0 && h.hp == 100.0
  {
    Hero(Front, 5.0, 100.0, map[], shape)
  }

  function Postfix(f: Facing): string
  {
    match f
    case Left => "left"
    case Right => "right"
    case Front => "front"
    case Back => "back"
  }

  function GifPath(f: Facing): string
  {
    GifRoot + "/dragonite_" + Postfix(f) + ".gif"
  }

  /** Hero::init(): one path per facing, and a hitbox whose minimum corner is
      the window centre and whose extent comes from the FRONT animation's
      size. The maximum x is measured from half the window HEIGHT. */
  function Init(h: Hero, windowWidth: int, windowHeight: int, gifWidth: int, gifHeight: int): (r: Hero)
    ensures r.gifPath.Keys == h.gifPath.Keys + {Left, Right, Front, Back}
    ensures forall f :: f in r.gifPath ==> r.gifPath[f] == GifPath(f)
    ensures r.shape.Rect?
    ensures r.shape.x1 == DataCenter.Half(windowWidth) as real && r.shape.y1 == DataCenter.Half(windowHeight) as real
    ensures r.shape.Height() == gifHeight as real
    ensures r.facing == h.facing && r.speed == h.speed
  {
    var paths := h.gifPath[Left := GifPath(Left)][Right := GifPath(Right)]
                          [Front := GifPath(Front)][Back := GifPath(Back)];
    var halfWidth := DataCenter.Half(windowWidth);
    var halfHeight := DataCenter.Half(windowHeight);
    h.(gifPath := paths,
       shape := Rect(halfWidth as real, halfHeight as real,
                     (halfHeight + gifWidth) as real, (halfHeight + gifHeight) as real))
  }

  /** The four asset paths. */
  lemma GifPaths()
    ensures GifPath(Left) == "./assets/gif/Hero/dragonite_left.gif"
    ensures GifPath(Right) == "./assets/gif/Hero/dragonite_right.gif"
    ensures GifPath(Front) == "./assets/gif/Hero/dragonite_front.gif"
    ensures GifPath(Back) == "./assets/gif/Hero/dragonite_back.gif"
  {
    var stem := GifRoot + "/dragonite_";
    assert stem == "./assets/gif/Hero/dragonite_";
    assert GifPath(Left) == stem + "left" + ".gif";
    assert GifPath(Right) == stem + "right" + ".gif";
    assert GifPath(Front) == stem + "front" + ".gif";
    assert GifPath(Back) == stem + "back" + ".gif";
  }

  /** The hitbox is as wide as the animation only when the window is square:
      its width is off by exactly height/2 - width/2 of the window. */
  lemma HitboxWidth(h: Hero, windowWidth: int, windowHeight: int, gifWidth: int, gifHeight: int)
    ensures Init(h, windowWidth, windowHeight, gifWidth, gifHeight).shape.Width()
         == (gifWidth + DataCenter.Half(windowHeight) - DataCenter.Half(windowWidth)) as real
    ensures windowWidth == windowHeight ==>
            Init(h, windowWidth, windowHeight, gifWidth, gifHeight).shape.Width() == gifWidth as real
  {
  }

  /** With the data store's 1024 x 1024 window the hitbox's width is the
      animation's width. */
  lemma HitboxWithDefaultWindow(h: Hero, gifWidth: int, gifHeight: int)
    ensures var r := Init(h, DataCenter.WindowWidth, DataCenter.WindowHeight, gifWidth, gifHeight);
      r.shape == Rect(512.0, 512.0, (512 + gifWidth) as real, (512 + gifHeight) as real)
  {
  }

  /** Hero::update: W moves up and faces BACK, A left / LEFT, S down / FRONT,
      D right / RIGHT, tried in that order. */
  function Update(h: Hero, keys: DataCenter.Keys): (r: Hero)
    ensures r.speed == h.speed && r.hp == h.hp && r.gifPath == h.gifPath
    ensures r.shape.Width() == h.shape.Width() && r.shape.Height() == h.shape.Height()
  {
    if keys.w then h.(shape := h.shape.WithCenterY(h.shape.CenterY() - h.speed), facing := Back)
    else if keys.a then h.(shape := h.shape.WithCenterX(h.shape.CenterX() - h.speed), facing := Left)
    else if keys.s then h.(shape := h.shape.WithCenterY(h.shape.CenterY() + h.speed), facing := Front)
    else if keys.d then h.(shape := h.shape.WithCenterX(h.shape.CenterX() + h.speed), facing := Right)
    else h
  }

  /** The key that wins by priority. */
  function Winner(keys: DataCenter.Keys): Facing
    requires keys.w || keys.a || keys.s || keys.d
  {
    if keys.w then Back else if keys.a then Left else if keys.s then Front else Right
  }

  /** Exactly one axis moves, by `speed`, in the direction the new facing
      names; with no movement key nothing changes. */
  lemma UpdateMovesOneAxis(h: Hero, keys: DataCenter.Keys)
    ensures var r := Update(h, keys);
      var dx := r.shape.CenterX() - h.shape.CenterX();
      var dy := r.shape.CenterY() - h.shape.CenterY();
      if keys.w || keys.a || keys.s || keys.d then
        r.facing == Winner(keys)
        && (r.facing == Back ==> dx == 0.0 && dy == -h.speed)
        && (r.facing == Left ==> dx == -h.speed && dy == 0.0)
        && (r.facing == Front ==> dx == 0.0 && dy == h.speed)
        && (r.facing == Right ==> dx == h.speed && dy == 0.0)
      else r == h
  {
  }

  /** Moving left then right returns the hitbox to where it was. */
  lemma LeftThenRight(h: Hero, left: DataCenter.Keys, right: DataCenter.Keys)
    requires !left.w && left.a
    requires !right.w && !right.a && !right.s && right.d
    ensures Update(Update(h, left), right).shape == h.shape
  {
    CenterXRoundTrip(h.shape, h.shape.CenterX() - h.speed);
  }
}
