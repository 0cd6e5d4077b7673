/** What the overlap measure measures: unit cells shared by two boxes against unit cells covered by either. */
module BoxGeometry {
  import opened Boxes

  /** A box with corners on the integer grid. */
  datatype GridBox = GridBox(x1: int, y1: int, x2: int, y2: int)

  function Real(b: GridBox): BBox { BBox(b.x1 as real, b.y1 as real, b.x2 as real, b.y2 as real) }

  /** The unit cells a box covers, by their lower left corners. */
  function Cells(b: GridBox): set<(int, int)> { set i, j | b.x1 <= i < b.x2 && b.y1 <= j < b.y2 :: (i, j) }

  function Column(i: int, y1: int, y2: int): set<(int, int)> { set j | y1 <= j < y2 :: (i, j) }

  function Length(a: int, b: int): nat { if a < b then b - a else 0 }

  lemma {:induction false} ColumnSize(i: int, y1: int, y2: int)
    ensures |Column(i, y1, y2)| == Length(y1, y2)
    decreases Length(y1, y2)
  {
    if y1 < y2 {
      ColumnSize(i, y1, y2 - 1);
      assert Column(i, y1, y2) == Column(i, y1, y2 - 1) + {(i, y2 - 1)};
    } else {
      assert Column(i, y1, y2) == {};
    }
  }

  lemma {:induction false} CellsAreArea(b: GridBox)
    ensures |Cells(b)| == Length(b.x1, b.x2) * Length(b.y1, b.y2)
    decreases Length(b.x1, b.x2)
  {
    if b.x1 < b.x2 {
      var less := b.(x2 := b.x2 - 1);
      CellsAreArea(less);
      ColumnSize(b.x2 - 1, b.y1, b.y2);
      assert Cells(b) == Cells(less) + Column(b.x2 - 1, b.y1, b.y2);
      assert Cells(less) !! Column(b.x2 - 1, b.y1, b.y2);
      OneMoreColumn(Length(less.x1, less.x2), Length(b.y1, b.y2));
    } else {
      assert Cells(b) == {};
    }
  }

  lemma OneMoreColumn(w: nat, h: nat)
    ensures (w + 1) * h == w * h + h
  {
  }

  function GridMeet(a: GridBox, b: GridBox): GridBox {
    GridBox(if a.x1 >= b.x1 then a.x1 else b.x1, if a.y1 >= b.y1 then a.y1 else b.y1,
            if a.x2 <= b.x2 then a.x2 else b.x2, if a.y2 <= b.y2 then a.y2 else b.y2)
  }

  lemma {:induction false} ProductOfInts(a: nat, b: nat)
    ensures (a * b) as real == a as real * b as real
  {
    if a > 0 {
      ProductOfInts(a - 1, b);
      assert a * b == (a - 1) * b + b;
    }
  }

  lemma AreaIsCells(b: GridBox)
    ensures Area(Real(b)) == |Cells(b)| as real
  {
    CellsAreArea(b);
    assert Width(Real(b)) == Length(b.x1, b.x2) as real && Height(Real(b)) == Length(b.y1, b.y2) as real;
    ProductOfInts(Length(b.x1, b.x2), Length(b.y1, b.y2));
  }

  /** On the grid, IoU is the number of cells in both boxes over the number of cells in either. */
  lemma {:induction false} IouCountsCells(a: GridBox, b: GridBox)
    ensures var both, either := |Cells(a) * Cells(b)|, |Cells(a) + Cells(b)|;
            Iou(Real(a), Real(b)) == if either == 0 then 0.0 else both as real / either as real
  {
    AreaIsCells(a);
    AreaIsCells(b);
    AreaIsCells(GridMeet(a, b));
    assert Cells(GridMeet(a, b)) == Cells(a) * Cells(b);
    assert Real(GridMeet(a, b)) == Meet(Real(a), Real(b));
    hide Cells, Area;
    assert |Cells(a) + Cells(b)| == |Cells(a)| + |Cells(b)| - |Cells(a) * Cells(b)|;
  }

  function By(k: real, x: real): real { k * x }

  function Scaled(b: BBox, k: real): BBox { BBox(By(k, b.x1), By(k, b.y1), By(k, b.x2), By(k, b.y2)) }

  lemma ByTwice(k: real, w: real, h: real, longer: real, higher: real)
    requires longer == By(k, w) && higher == By(k, h)
    ensures longer * higher == By(By(k, k), w * h)
  {
    assert k * w * (k * h) == k * k * (w * h);
  }

  lemma ByDistributes(k: real, a: real, b: real)
    ensures By(k, b) - By(k, a) == By(k, b - a)
    ensures By(k, a) + By(k, b) == By(k, a + b)
  {
  }

  lemma ByPositive(k: real, x: real)
    requires k > 0.0
    ensures (By(k, x) > 0.0) == (x > 0.0) && (By(k, x) < 0.0) == (x < 0.0)
  {
    if x > 0.0 { assert k * x > 0.0; }
    if x < 0.0 { assert k * x < 0.0; }
  }

  lemma OrderScales(a: real, b: real, k: real)
    requires k > 0.0
    ensures Max(By(k, a), By(k, b)) == By(k, Max(a, b)) && Min(By(k, a), By(k, b)) == By(k, Min(a, b))
  {
    hide By;
    ByDistributes(k, a, b);
    ByPositive(k, b - a);
  }

  lemma LengthScales(a: real, b: real, k: real)
    requires k > 0.0
    ensures Max(0.0, By(k, b) - By(k, a)) == By(k, Max(0.0, b - a))
  {
    OrderScales(0.0, b - a, k);
    ByDistributes(k, a, b);
    assert By(k, 0.0) == 0.0;
  }

  lemma SidesScale(b: BBox, k: real)
    requires k > 0.0
    ensures Width(Scaled(b, k)) == By(k, Width(b)) && Height(Scaled(b, k)) == By(k, Height(b))
  {
    hide By, Max;
    LengthScales(b.x1, b.x2, k);
    LengthScales(b.y1, b.y2, k);
  }

  lemma AreaScales(b: BBox, k: real)
    requires k > 0.0
    ensures Area(Scaled(b, k)) == By(By(k, k), Area(b))
  {
    SidesScale(b, k);
    hide By, Width, Height, Scaled;
    ByTwice(k, Width(b), Height(b), Width(Scaled(b, k)), Height(Scaled(b, k)));
  }

  lemma MeetScales(a: BBox, b: BBox, k: real)
    requires k > 0.0
    ensures Meet(Scaled(a, k), Scaled(b, k)) == Scaled(Meet(a, b), k)
  {
    hide By, Max, Min;
    OrderScales(a.x1, b.x1, k);
    OrderScales(a.y1, b.y1, k);
    OrderScales(a.x2, b.x2, k);
    OrderScales(a.y2, b.y2, k);
  }

  lemma RatioScales(i: real, u: real, c: real)
    requires c > 0.0 && u > 0.0
    ensures By(c, u) > 0.0 && By(c, i) / By(c, u) == i / u
  {
    ByPositive(c, u);
    assert i / u * u == i;
    assert i / u * (c * u) == c * (i / u * u);
  }

  /** The unit of length does not matter, so the count above fixes IoU for all boxes with rational corners. */
  lemma {:induction false} IouScales(a: BBox, b: BBox, k: real)
    requires k > 0.0
    ensures Iou(Scaled(a, k), Scaled(b, k)) == Iou(a, b)
  {
    MeetScales(a, b, k);
    AreaScales(a, k);
    AreaScales(b, k);
    AreaScales(Meet(a, b), k);
    ByPositive(k, k);
    var c := By(k, k);
    hide Area, Meet, Scaled, By;
    var i, u := Area(Meet(a, b)), Area(a) + Area(b) - Area(Meet(a, b));
    ByDistributes(c, Area(a), Area(b));
    ByDistributes(c, i, Area(a) + Area(b));
    ByPositive(c, u);
    if u > 0.0 { RatioScales(i, u, c); }
  }
}
