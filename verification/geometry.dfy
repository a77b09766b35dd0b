/** Shapes as the entities hold them. Only the centre accessors and the
    centre mutators are modelled; the overlap test belongs to the shape
    classes and reaches the model as a parameter. */
module Geometry {

  datatype Point = Point(x: real, y: real)

  /** An axis-aligned rectangle given by its two corners, or a circle. */
  datatype Shape =
    | Rect(x1: real, y1: real, x2: real, y2: real)
    | Circle(cx: real, cy: real, r: real)
  {
    function CenterX(): real
    {
      if Rect? then (x1 + x2) / 2.0 else cx
    }

    function CenterY(): real
    {
      if Rect? then (y1 + y2) / 2.0 else cy
    }

    function Width(): real
    {
      if Rect? then x2 - x1 else 2.0 * r
    }

    function Height(): real
    {
      if Rect? then y2 - y1 else 2.0 * r
    }

    /** Moves the shape horizontally so that its centre lies at abscissa `c`. */
    function WithCenterX(c: real): (s: Shape)
      ensures s.CenterX() == c && s.CenterY() == CenterY()
      ensures s.Width() == Width() && s.Height() == Height()
      ensures s.Rect? == Rect?
    {
      match this
      case Rect(a, b, c2, d) => Rect(a + (c - CenterX()), b, c2 + (c - CenterX()), d)
      case Circle(_, y, rad) => Circle(c, y, rad)
    }

    /** Moves the shape vertically so that its centre lies at ordinate `c`. */
    function WithCenterY(c: real): (s: Shape)
      ensures s.CenterY() == c && s.CenterX() == CenterX()
      ensures s.Width() == Width() && s.Height() == Height()
      ensures s.Rect? == Rect?
    {
      match this
      case Rect(a, b, c2, d) => Rect(a, b + (c - CenterY()), c2, d + (c - CenterY()))
      case Circle(x, _, rad) => Circle(x, c, rad)
    }
  }

  /** Moving a shape's centre away and back restores the shape exactly. */
  lemma CenterXRoundTrip(s: Shape, c: real)
    ensures s.WithCenterX(c).WithCenterX(s.CenterX()) == s
  {
  }

  lemma CenterYRoundTrip(s: Shape, c: real)
    ensures s.WithCenterY(c).WithCenterY(s.CenterY()) == s
  {
  }
}
