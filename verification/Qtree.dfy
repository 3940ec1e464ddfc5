/** The quadtree on the heap. Each node carries the value it stands for in `model`, and every
    method is proved to do to the heap what the functions of `Quadtree` do to that value. */
module QtreeHeap {
  import opened Quadtree

  /** The slice that a search appends to. */
  class PointList {
    var items: seq<Point>

    constructor ()
      ensures items == []
    {
      items := [];
    }
  }

  class Qtree {
    const boundary: Rectangle
    const capacity: nat
    var points: seq<Point>
    var northEast: Qtree?
    var northWest: Qtree?
    var southEast: Qtree?
    var southWest: Qtree?
    var divided: bool

    ghost var Repr: set<object>
    ghost var model: Tree

    ghost predicate Valid()
      reads this, Repr
      ensures Valid() ==> this in Repr
      decreases Repr
    {
      && this in Repr
      && model.boundary == boundary && model.capacity == capacity && model.points == points
      && (divided <==> model.kids.Kids?)
      && (divided ==>
            && northEast != null && northWest != null && southEast != null && southWest != null
            && northEast in Repr && northEast.Repr <= Repr && this !in northEast.Repr
            && northWest in Repr && northWest.Repr <= Repr && this !in northWest.Repr
            && southEast in Repr && southEast.Repr <= Repr && this !in southEast.Repr
            && southWest in Repr && southWest.Repr <= Repr && this !in southWest.Repr
            && northEast.Repr !! northWest.Repr && northEast.Repr !! southEast.Repr && northEast.Repr !! southWest.Repr
            && northWest.Repr !! southEast.Repr && northWest.Repr !! southWest.Repr && southEast.Repr !! southWest.Repr
            && northEast.Valid() && northWest.Valid() && southEast.Valid() && southWest.Valid()
            && model.kids == Kids(northEast.model, northWest.model, southEast.model, southWest.model))
    }

    constructor (boundary: Rectangle, capacity: nat)
      ensures Valid() && fresh(Repr) && Repr == {this}
      ensures this.boundary == boundary && this.capacity == capacity && model == Leaf(boundary, capacity)
    {
      this.boundary := boundary;
      this.capacity := capacity;
      points := [];
      northEast, northWest, southEast, southWest := null, null, null, null;
      divided := false;
      Repr := {this};
      model := Leaf(boundary, capacity);
    }

    method Subdivide()
      requires Valid() && !divided
      modifies this
      ensures Valid() && fresh(Repr - old(Repr)) && divided && points == old(points)
      ensures model == old(model).(kids := Quarters(boundary, capacity))
    {
      var ne, nw, se, sw := NewQuarters(boundary, capacity);
      Link(ne, nw, se, sw);
    }

    static method NewQuarters(boundary: Rectangle, capacity: nat) returns (ne: Qtree, nw: Qtree, se: Qtree, sw: Qtree)
      ensures ne.Valid() && nw.Valid() && se.Valid() && sw.Valid()
      ensures ne.Repr == {ne} && nw.Repr == {nw} && se.Repr == {se} && sw.Repr == {sw}
      ensures fresh({ne, nw, se, sw}) && ne != nw && ne != se && ne != sw && nw != se && nw != sw && se != sw
      ensures Kids(ne.model, nw.model, se.model, sw.model) == Quarters(boundary, capacity)
    {
      var x, y := boundary.x, boundary.y;
      var hw, hh := boundary.hw / 2.0, boundary.hh / 2.0;
      ne := new Qtree(Rectangle(x + hw, y - hh, hw, hh), capacity);
      nw := new Qtree(Rectangle(x - hw, y - hh, hw, hh), capacity);
      se := new Qtree(Rectangle(x + hw, y + hh, hw, hh), capacity);
      sw := new Qtree(Rectangle(x - hw, y + hh, hw, hh), capacity);
    }

    /** Makes four separate trees the children of an undivided node. */
    method Link(ne: Qtree, nw: Qtree, se: Qtree, sw: Qtree)
      requires Valid() && !divided
      requires ne.Valid() && nw.Valid() && se.Valid() && sw.Valid()
      requires this !in ne.Repr && this !in nw.Repr && this !in se.Repr && this !in sw.Repr
      requires ne.Repr !! nw.Repr && ne.Repr !! se.Repr && ne.Repr !! sw.Repr
      requires nw.Repr !! se.Repr && nw.Repr !! sw.Repr && se.Repr !! sw.Repr
      modifies this
      ensures Valid() && divided && points == old(points)
      ensures Repr == old(Repr) + ne.Repr + nw.Repr + se.Repr + sw.Repr
      ensures model == old(model).(kids := Kids(ne.model, nw.model, se.model, sw.model))
    {
      northEast, northWest, southEast, southWest := ne, nw, se, sw;
      divided := true;
      model := model.(kids := Kids(ne.model, nw.model, se.model, sw.model));
      Repr := Repr + ne.Repr + nw.Repr + se.Repr + sw.Repr;
      StaysValid(ne);
      StaysValid(nw);
      StaysValid(se);
      StaysValid(sw);
    }

    /** A tree none of whose nodes has changed is as valid as before. */
    twostate lemma StaysValid(k: Qtree)
      requires old(k.Valid()) && unchanged(old(k.Repr))
      ensures k.Valid()
    {
    }

    method Insert(point: Point) returns (ok: bool)
      requires Valid() && WellFormed(model)
      modifies Repr
      ensures Valid() && fresh(Repr - old(Repr))
      ensures (model, ok) == Quadtree.Insert(old(model), point)
      ensures ok <==> Abs(point.x - boundary.x) <= boundary.hw && Abs(point.y - boundary.y) <= boundary.hh
      decreases Height(model), 0
    {
      InsertAcceptsClosePoints(model, point);
      if !Contains(boundary, point) {
        return false;
      }
      if |points| < capacity {
        points := points + [point];
        model := model.(points := points);
        return true;
      }
      KidsAreLower(model);
      if !divided {
        Subdivide();
      }
      ok := InsertBelow(point);
    }

    /** Tries the four children in turn. */
    method InsertBelow(point: Point) returns (ok: bool)
      requires Valid() && divided && KidsWellFormed(model.kids)
      modifies Repr
      ensures Valid() && fresh(Repr - old(Repr))
      ensures var (k, inside) := InsertKids(old(model).kids, point); ok == inside && model == old(model).(kids := k)
      decreases KidsHeight(model.kids), 3
    {
      ok := InsertInPair(NE, NW, point);
      if !ok {
        ok := InsertInPair(SE, SW, point);
      }
    }

    method InsertInPair(a: Turn, b: Turn, point: Point) returns (ok: bool)
      requires Valid() && divided && a != b && WellFormed(Child(model.kids, a)) && WellFormed(Child(model.kids, b))
      modifies Repr
      ensures Valid() && divided && fresh(Repr - old(Repr))
      ensures var (k, inside) := InsertPair(old(model).kids, a, b, point); ok == inside && model == old(model).(kids := k)
      decreases Max(Height(Child(model.kids, a)), Height(Child(model.kids, b))), 2
    {
      OtherChildStays(model.kids, a, b, Quadtree.Insert(Child(model.kids, a), point).0);
      ok := InsertIn(a, point);
      if !ok {
        ok := InsertIn(b, point);
      }
    }

    /** Hands the point to one child and brings this node's ghost state up to date. */
    method InsertIn(turn: Turn, point: Point) returns (ok: bool)
      requires Valid() && divided && WellFormed(Child(model.kids, turn))
      modifies Repr
      ensures Valid() && divided && fresh(Repr - old(Repr))
      ensures var (c, inside) := Quadtree.Insert(Child(old(model).kids, turn), point);
              ok == inside && model == old(model).(kids := WithChild(old(model).kids, turn, c))
      decreases Height(Child(model.kids, turn)), 1
    {
      var child := match turn case NE => northEast case NW => northWest case SE => southEast case SW => southWest;
      ok := child.Insert(point);
      model := model.(kids := WithChild(model.kids, turn, child.model));
      Repr := Repr + child.Repr;
    }

    /** Appends this node's own points that lie in the range. */
    method Collect(rangeRect: Rectangle, found: PointList)
      modifies found
      ensures found.items == old(found.items) + Within(points, rangeRect)
    {
      var i := 0;
      while i < |points|
        invariant 0 <= i <= |points|
        invariant found.items == old(found.items) + Within(points[..i], rangeRect)
      {
        WithinAppends(points[..i], [points[i]], rangeRect);
        assert points[..i + 1] == points[..i] + [points[i]];
        if Contains(rangeRect, points[i]) {
          found.items := found.items + [points[i]];
        }
        i := i + 1;
      }
      assert points[..|points|] == points;
    }

    method Query(rangeRect: Rectangle, found: PointList)
      requires Valid() && found !in Repr
      modifies found
      ensures found.items == old(found.items) + Quadtree.Query(model, rangeRect)
      ensures WellFormed(model) ==> AddsClosePoints(old(found.items), found.items, model, rangeRect)
      decreases model, 1
    {
      if WellFormed(model) {
        QueryAddsClosePoints(found.items, model, rangeRect);
      }
      if !Intersects(boundary, rangeRect) {
        return;
      }
      Collect(rangeRect, found);
      if divided {
        QueryChildren(rangeRect, found);
      }
    }

    method QueryChildren(rangeRect: Rectangle, found: PointList)
      requires Valid() && divided && found !in Repr
      modifies found
      ensures var k := model.kids;
              found.items == old(found.items)
                + (Quadtree.Query(k.ne, rangeRect) + Quadtree.Query(k.nw, rangeRect) + Quadtree.Query(k.se, rangeRect) + Quadtree.Query(k.sw, rangeRect))
      decreases model, 0
    {
      northEast.Query(rangeRect, found);
      northWest.Query(rangeRect, found);
      southEast.Query(rangeRect, found);
      southWest.Query(rangeRect, found);
    }
  }
}
