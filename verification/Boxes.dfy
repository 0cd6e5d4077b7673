/** Axis-aligned boxes, their overlap and the two coordinate systems they are written in. */
module Boxes {
  datatype BBox = BBox(x1: real, y1: real, x2: real, y2: real)

  /** The database's constraint on a detection's box: normalised and properly ordered. */
  predicate ValidBox(b: BBox) { 0.0 <= b.x1 < b.x2 <= 1.0 && 0.0 <= b.y1 < b.y2 <= 1.0 }

  function Max(a: real, b: real): real { if a >= b then a else b }

  function Min(a: real, b: real): real { if a <= b then a else b }

  function Width(a: BBox): real { Max(0.0, a.x2 - a.x1) }

  function Height(a: BBox): real { Max(0.0, a.y2 - a.y1) }

  function Area(a: BBox): real { Width(a) * Height(a) }

  /** The common part of two boxes; its sides are clamped to zero when they do not meet. */
  function Meet(a: BBox, b: BBox): BBox {
    BBox(Max(a.x1, b.x1), Max(a.y1, b.y1), Min(a.x2, b.x2), Min(a.y2, b.y2))
  }

  function Iou(a: BBox, b: BBox): real {
    var intersection := Area(Meet(a, b));
    var union := Area(a) + Area(b) - intersection;
    if union > 0.0 then intersection / union else 0.0
  }

  lemma ProductMonotone(w: real, h: real, w': real, h': real)
    requires 0.0 <= w <= w' && 0.0 <= h <= h'
    ensures 0.0 <= w * h <= w' * h'
    ensures w * h == w' * h' > 0.0 ==> w == w' && h == h'
  {
    assert w' * h' - w * h == w' * (h' - h) + (w' - w) * h;
    if w * h == w' * h' > 0.0 {
      assert w' * (h' - h) == 0.0 && (w' - w) * h == 0.0;
      assert w' > 0.0 && h > 0.0;
    }
  }

  lemma MeetIsSmaller(a: BBox, b: BBox)
    ensures 0.0 <= Area(Meet(a, b)) <= Area(a)
    ensures Area(Meet(a, b)) == Area(a) > 0.0 ==> Width(Meet(a, b)) == Width(a) && Height(Meet(a, b)) == Height(a)
  {
    ProductMonotone(Width(Meet(a, b)), Height(Meet(a, b)), Width(a), Height(a));
  }

  lemma IouIsSymmetric(a: BBox, b: BBox)
    ensures Iou(a, b) == Iou(b, a)
  {
    assert Meet(a, b) == Meet(b, a);
  }

  lemma IouIsAFraction(a: BBox, b: BBox)
    ensures 0.0 <= Iou(a, b) <= 1.0
  {
    MeetIsSmaller(a, b);
    MeetIsSmaller(b, a);
    assert Meet(a, b) == Meet(b, a);
    var i, u := Area(Meet(a, b)), Area(a) + Area(b) - Area(Meet(a, b));
    if u > 0.0 { FractionBounds(i, u); }
  }

  lemma FractionBounds(i: real, u: real)
    requires 0.0 <= i <= u && u > 0.0
    ensures 0.0 <= i / u <= 1.0
    ensures i / u == 1.0 <==> i == u
  {
    assert i / u * u == i;
    if i / u > 1.0 { ProductMonotone(1.0, u, i / u, u); }
  }

  /** Full overlap means the very same box, and that box has area. */
  lemma IouIsOneExactlyOnEqualBoxes(a: BBox, b: BBox)
    ensures Iou(a, b) == 1.0 <==> a == b && Area(a) > 0.0
  {
    MeetIsSmaller(a, b);
    MeetIsSmaller(b, a);
    assert Meet(a, b) == Meet(b, a);
    var i, u := Area(Meet(a, b)), Area(a) + Area(b) - Area(Meet(a, b));
    if u > 0.0 { FractionBounds(i, u); }
    if Iou(a, b) == 1.0 {
      assert i == Area(a) == Area(b) > 0.0;
    } else if a == b {
      assert Meet(a, b) == a;
    }
  }

  /** A box as a label file writes it: centre and size. */
  datatype CentreBox = CentreBox(cx: real, cy: real, w: real, h: real)

  function ToCentre(b: BBox): CentreBox {
    CentreBox((b.x1 + b.x2) / 2.0, (b.y1 + b.y2) / 2.0, b.x2 - b.x1, b.y2 - b.y1)
  }

  function ToCorners(c: CentreBox): BBox {
    BBox(c.cx - c.w / 2.0, c.cy - c.h / 2.0, c.cx + c.w / 2.0, c.cy + c.h / 2.0)
  }

  function Abs(x: real): real { if x < 0.0 then -x else x }

  ghost predicate CentreWithin(c: CentreBox, d: CentreBox, eps: real) {
    Abs(c.cx - d.cx) <= eps && Abs(c.cy - d.cy) <= eps && Abs(c.w - d.w) <= eps && Abs(c.h - d.h) <= eps
  }

  ghost predicate CornersWithin(a: BBox, b: BBox, eps: real) {
    Abs(a.x1 - b.x1) <= eps && Abs(a.y1 - b.y1) <= eps && Abs(a.x2 - b.x2) <= eps && Abs(a.y2 - b.y2) <= eps
  }

  /** No tolerance is equality. */
  lemma WithinNothingIsEqual(a: BBox, b: BBox)
    ensures CornersWithin(a, b, 0.0) <==> a == b
  {
  }

  /** Perturbing centre and size by `eps` moves a corner by at most one and a half `eps`. */
  lemma CornerError(b: BBox, c: CentreBox, eps: real)
    requires CentreWithin(c, ToCentre(b), eps)
    ensures CornersWithin(ToCorners(c), b, 1.5 * eps)
  {
  }
}
