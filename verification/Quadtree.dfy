/** The quadtree as a value: geometry, insertion and range search, and what they mean
    for the points stored. Coordinates are exact reals. */
module Quadtree {
  import opened Domain

  datatype Point = Point(x: real, y: real)

  /** Centre and half extents; the borders belong to the rectangle. */
  datatype Rectangle = Rectangle(x: real, y: real, hw: real, hh: real)

  predicate Contains(r: Rectangle, p: Point) {
    p.x >= r.x - r.hw && p.x <= r.x + r.hw && p.y >= r.y - r.hh && p.y <= r.y + r.hh
  }

  predicate Intersects(r: Rectangle, other: Rectangle) {
    !(|| other.x - other.hw > r.x + r.hw
      || other.x + other.hw < r.x - r.hw
      || other.y - other.hh > r.y + r.hh
      || other.y + other.hh < r.y - r.hh)
  }

  datatype Tree = Node(boundary: Rectangle, capacity: int, points: seq<Point>, kids: Kids)
  datatype Kids = NoKids | Kids(ne: Tree, nw: Tree, se: Tree, sw: Tree)

  function Leaf(boundary: Rectangle, capacity: int): Tree {
    Node(boundary, capacity, [], NoKids)
  }

  function NorthEastOf(r: Rectangle): Rectangle { Rectangle(r.x + r.hw / 2.0, r.y - r.hh / 2.0, r.hw / 2.0, r.hh / 2.0) }

  function NorthWestOf(r: Rectangle): Rectangle { Rectangle(r.x - r.hw / 2.0, r.y - r.hh / 2.0, r.hw / 2.0, r.hh / 2.0) }

  function SouthEastOf(r: Rectangle): Rectangle { Rectangle(r.x + r.hw / 2.0, r.y + r.hh / 2.0, r.hw / 2.0, r.hh / 2.0) }

  function SouthWestOf(r: Rectangle): Rectangle { Rectangle(r.x - r.hw / 2.0, r.y + r.hh / 2.0, r.hw / 2.0, r.hh / 2.0) }

  function Quarters(r: Rectangle, capacity: int): Kids {
    Kids(Leaf(NorthEastOf(r), capacity), Leaf(NorthWestOf(r), capacity), Leaf(SouthEastOf(r), capacity), Leaf(SouthWestOf(r), capacity))
  }

  // ---- geometry ----

  function Abs(x: real): real {
    if x < 0.0 then -x else x
  }

  /** A rectangle is everything at most its half extents away from its centre, borders and corners included. */
  lemma ContainsIsCloseness(r: Rectangle, p: Point)
    ensures Contains(r, p) <==> Abs(p.x - r.x) <= r.hw && Abs(p.y - r.y) <= r.hh
  {
  }

  lemma CornersAreContained(r: Rectangle)
    requires r.hw >= 0.0 && r.hh >= 0.0
    ensures Contains(r, Point(r.x - r.hw, r.y - r.hh)) && Contains(r, Point(r.x + r.hw, r.y - r.hh))
    ensures Contains(r, Point(r.x - r.hw, r.y + r.hh)) && Contains(r, Point(r.x + r.hw, r.y + r.hh))
  {
  }

  /** A point is a rectangle without extent. */
  lemma ContainsIsIntersectionWithPoint(r: Rectangle, p: Point)
    ensures Contains(r, p) <==> Intersects(r, Rectangle(p.x, p.y, 0.0, 0.0))
  {
  }

  function Larger(a: real, b: real): real {
    if a < b then b else a
  }

  /** Rectangles intersect exactly when they share a point, be it one on their borders only. */
  lemma IntersectsIffSharedPoint(r: Rectangle, other: Rectangle)
    requires r.hw >= 0.0 && r.hh >= 0.0 && other.hw >= 0.0 && other.hh >= 0.0
    ensures Intersects(r, other) <==> exists p :: Contains(r, p) && Contains(other, p)
  {
    if Intersects(r, other) {
      var p := Point(Larger(r.x - r.hw, other.x - other.hw), Larger(r.y - r.hh, other.y - other.hh));
      assert Contains(r, p) && Contains(other, p);
    } else {
      forall p | Contains(r, p) ensures !Contains(other, p) {
        if Contains(other, p) {
          SharedPointMeansIntersection(r, other, p);
        }
      }
    }
  }

  /** Each quarter is the part of the rectangle on its side of the centre lines, the lines included. */
  lemma QuartersAreSides(r: Rectangle, p: Point)
    ensures Contains(NorthEastOf(r), p) <==> Contains(r, p) && p.x >= r.x && p.y <= r.y
    ensures Contains(NorthWestOf(r), p) <==> Contains(r, p) && p.x <= r.x && p.y <= r.y
    ensures Contains(SouthEastOf(r), p) <==> Contains(r, p) && p.x >= r.x && p.y >= r.y
    ensures Contains(SouthWestOf(r), p) <==> Contains(r, p) && p.x <= r.x && p.y >= r.y
  {
  }

  /** The four closed quarters cover their rectangle and stay inside it. */
  lemma QuartersCoverExactly(r: Rectangle, p: Point)
    ensures Contains(r, p) <==> Contains(NorthEastOf(r), p) || Contains(NorthWestOf(r), p)
                                || Contains(SouthEastOf(r), p) || Contains(SouthWestOf(r), p)
  {
  }

  predicate StrictlyInside(r: Rectangle, p: Point) {
    p.x > r.x - r.hw && p.x < r.x + r.hw && p.y > r.y - r.hh && p.y < r.y + r.hh
  }

  /** They overlap in nothing but their borders. */
  lemma QuartersHaveDisjointInteriors(r: Rectangle, p: Point)
    ensures StrictlyInside(NorthEastOf(r), p) ==> !Contains(NorthWestOf(r), p) && !Contains(SouthEastOf(r), p) && !Contains(SouthWestOf(r), p)
    ensures StrictlyInside(NorthWestOf(r), p) ==> !Contains(NorthEastOf(r), p) && !Contains(SouthEastOf(r), p) && !Contains(SouthWestOf(r), p)
    ensures StrictlyInside(SouthEastOf(r), p) ==> !Contains(NorthEastOf(r), p) && !Contains(NorthWestOf(r), p) && !Contains(SouthWestOf(r), p)
    ensures StrictlyInside(SouthWestOf(r), p) ==> !Contains(NorthEastOf(r), p) && !Contains(NorthWestOf(r), p) && !Contains(SouthEastOf(r), p)
  {
  }

  /** Pruning is safe: rectangles that share a point intersect. */
  lemma SharedPointMeansIntersection(r: Rectangle, other: Rectangle, p: Point)
    requires Contains(r, p) && Contains(other, p)
    ensures Intersects(r, other)
  {
  }

  // ---- trees ----

  /** Points lie in their node; a divided node is exactly full, and its children are its quarters. */
  predicate WellFormed(t: Tree) {
    && t.capacity >= 1 && |t.points| <= t.capacity
    && (forall p :: p in t.points ==> Contains(t.boundary, p))
    && match t.kids
       case NoKids => true
       case Kids(ne, nw, se, sw) =>
         && |t.points| == t.capacity
         && ne.boundary == NorthEastOf(t.boundary) && ne.capacity == t.capacity && WellFormed(ne)
         && nw.boundary == NorthWestOf(t.boundary) && nw.capacity == t.capacity && WellFormed(nw)
         && se.boundary == SouthEastOf(t.boundary) && se.capacity == t.capacity && WellFormed(se)
         && sw.boundary == SouthWestOf(t.boundary) && sw.capacity == t.capacity && WellFormed(sw)
  }

  function Max(a: nat, b: nat): nat {
    if a < b then b else a
  }

  /** How many levels an insertion may still go down. */
  function Height(t: Tree): nat {
    match t.kids
    case NoKids => if |t.points| < t.capacity then 0 else 1
    case Kids(ne, nw, se, sw) => 1 + Max(Max(Height(ne), Height(nw)), Max(Height(se), Height(sw)))
  }

  datatype Turn = NE | NW | SE | SW

  function Child(k: Kids, turn: Turn): Tree
    requires k.Kids?
  {
    match turn case NE => k.ne case NW => k.nw case SE => k.se case SW => k.sw
  }

  function WithChild(k: Kids, turn: Turn, c: Tree): Kids
    requires k.Kids?
  {
    match turn case NE => k.(ne := c) case NW => k.(nw := c) case SE => k.(se := c) case SW => k.(sw := c)
  }

  lemma OtherChildStays(k: Kids, a: Turn, b: Turn, c: Tree)
    requires k.Kids? && a != b
    ensures Child(WithChild(k, a, c), b) == Child(k, b)
  {
  }

  /** The children a full node hands a point to, made on the first overflow. */
  function KidsOf(t: Tree): Kids {
    if t.kids.NoKids? then Quarters(t.boundary, t.capacity) else t.kids
  }

  function KidsHeight(k: Kids): nat
    requires k.Kids?
  {
    Max(Max(Height(k.ne), Height(k.nw)), Max(Height(k.se), Height(k.sw)))
  }

  predicate KidsWellFormed(k: Kids) {
    k.Kids? && WellFormed(k.ne) && WellFormed(k.nw) && WellFormed(k.se) && WellFormed(k.sw)
  }

  function Insert(t: Tree, p: Point): (r: (Tree, bool))
    requires WellFormed(t)
    decreases Height(t), 0
  {
    if !Contains(t.boundary, p) then (t, false)
    else if |t.points| < t.capacity then (t.(points := t.points + [p]), true)
    else
      var (k, ok) := InsertKids(KidsOf(t), p);
      (t.(kids := k), ok)
  }

  /** The four children are tried in turn until one takes the point. */
  function InsertKids(k: Kids, p: Point): (r: (Kids, bool))
    requires KidsWellFormed(k)
    ensures r.0.Kids?
    decreases KidsHeight(k), 2
  {
    var (north, taken) := InsertPair(k, NE, NW, p);
    if taken then (north, true) else InsertPair(north, SE, SW, p)
  }

  function InsertPair(k: Kids, a: Turn, b: Turn, p: Point): (r: (Kids, bool))
    requires k.Kids? && a != b && WellFormed(Child(k, a)) && WellFormed(Child(k, b))
    ensures r.0.Kids? && forall turn :: turn != a && turn != b ==> Child(r.0, turn) == Child(k, turn)
    decreases Max(Height(Child(k, a)), Height(Child(k, b))), 1
  {
    var (first, inFirst) := Insert(Child(k, a), p);
    if inFirst then (WithChild(k, a, first), true) else
    var (second, inSecond) := Insert(Child(k, b), p);
    (WithChild(WithChild(k, a, first), b, second), inSecond)
  }

  function Contents(t: Tree): multiset<Point> {
    multiset(t.points) +
    match t.kids
    case NoKids => multiset{}
    case Kids(ne, nw, se, sw) => Contents(ne) + Contents(nw) + Contents(se) + Contents(sw)
  }

  lemma FullNodeHasKids(t: Tree)
    requires WellFormed(t) && |t.points| == t.capacity
    ensures WellFormed(t.(kids := KidsOf(t))) && Height(t.(kids := KidsOf(t))) == Height(t)
    ensures Contents(t.(kids := KidsOf(t))) == Contents(t)
  {
  }

  /** What an insertion of `p` should do: succeed exactly on points within the boundary, then add
      that point once and keep the tree well formed; otherwise leave the whole tree as it was. */
  ghost predicate AddsExactly(t: Tree, p: Point, t': Tree, ok: bool) {
    && (ok <==> Contains(t.boundary, p))
    && WellFormed(t') && t'.boundary == t.boundary && t'.capacity == t.capacity
    && Contents(t') == (if ok then Contents(t) + multiset{p} else Contents(t))
    && (!ok ==> t' == t)
  }

  /** Replacing one child by what the insertion made of it does to the parent what it did to the child. */
  lemma ChildAdds(t: Tree, turn: Turn, p: Point, c': Tree)
    requires WellFormed(t) && t.kids.Kids? && Contains(t.boundary, p)
    requires AddsExactly(Child(t.kids, turn), p, c', true)
    ensures AddsExactly(t, p, t.(kids := WithChild(t.kids, turn, c')), true)
  {
  }

  /** Insertion is exact, however the closed quarters overlap and although nothing is redistributed. */
  lemma {:induction false} InsertIsExact(t: Tree, p: Point)
    requires WellFormed(t)
    ensures AddsExactly(t, p, Insert(t, p).0, Insert(t, p).1)
    decreases Height(t)
  {
    if Contains(t.boundary, p) && |t.points| == t.capacity {
      FullNodeHasKids(t);
      KidsAreLower(t);
      InsertIsExact(KidsOf(t).ne, p);
      InsertIsExact(KidsOf(t).nw, p);
      InsertIsExact(KidsOf(t).se, p);
      InsertIsExact(KidsOf(t).sw, p);
      OverflowIsExact(t, p);
    } else {
      NoOverflowIsExact(t, p);
    }
  }

  lemma KidsAreLower(t: Tree)
    requires WellFormed(t) && |t.points| == t.capacity
    ensures var k := KidsOf(t);
            && KidsWellFormed(k) && KidsHeight(k) < Height(t)
            && Height(k.ne) < Height(t) && Height(k.nw) < Height(t) && Height(k.se) < Height(t) && Height(k.sw) < Height(t)
  {
  }

  lemma NoOverflowIsExact(t: Tree, p: Point)
    requires WellFormed(t) && (Contains(t.boundary, p) ==> |t.points| < t.capacity)
    ensures AddsExactly(t, p, Insert(t, p).0, Insert(t, p).1)
  {
    var t' := Insert(t, p).0;
    assert t'.kids == t.kids;
    if Contains(t.boundary, p) {
      assert t.kids.NoKids?;
      assert t'.points == t.points + [p];
    }
  }

  lemma OverflowIsExact(t: Tree, p: Point)
    requires WellFormed(t) && Contains(t.boundary, p) && |t.points| == t.capacity && WellFormed(t.(kids := KidsOf(t)))
    requires KidsAddExactly(t, p)
    ensures AddsExactly(t, p, Insert(t, p).0, Insert(t, p).1)
  {
    FullNodeHasKids(t);
    var k := KidsOf(t);
    var turn := FirstTurn(t.boundary, p);
    QuartersCoverExactly(t.boundary, p);
    InsertTakesFirstTurn(t, p);
    ChildAdds(t.(kids := k), turn, p, Insert(Child(k, turn), p).0);
  }

  ghost predicate KidsAddExactly(t: Tree, p: Point)
    requires WellFormed(t) && WellFormed(t.(kids := KidsOf(t)))
  {
    var k := KidsOf(t);
    && AddsExactly(k.ne, p, Insert(k.ne, p).0, Insert(k.ne, p).1)
    && AddsExactly(k.nw, p, Insert(k.nw, p).0, Insert(k.nw, p).1)
    && AddsExactly(k.se, p, Insert(k.se, p).0, Insert(k.se, p).1)
    && AddsExactly(k.sw, p, Insert(k.sw, p).0, Insert(k.sw, p).1)
  }

  /** The first quarter, in the order tried, that contains the point. */
  function FirstTurn(r: Rectangle, p: Point): Turn {
    if Contains(NorthEastOf(r), p) then NE
    else if Contains(NorthWestOf(r), p) then NW
    else if Contains(SouthEastOf(r), p) then SE
    else SW
  }

  /** Of two children, the first that contains the point takes it; if neither does, neither changes. */
  lemma PairTakes(k: Kids, a: Turn, b: Turn, p: Point)
    requires k.Kids? && a != b && WellFormed(Child(k, a)) && WellFormed(Child(k, b))
    requires AddsExactly(Child(k, a), p, Insert(Child(k, a), p).0, Insert(Child(k, a), p).1)
    requires AddsExactly(Child(k, b), p, Insert(Child(k, b), p).0, Insert(Child(k, b), p).1)
    ensures InsertPair(k, a, b, p) ==
            if Contains(Child(k, a).boundary, p) then (WithChild(k, a, Insert(Child(k, a), p).0), true)
            else if Contains(Child(k, b).boundary, p) then (WithChild(k, b, Insert(Child(k, b), p).0), true)
            else (k, false)
  {
    SameChild(k, a);
    SameChild(k, b);
  }

  lemma SameChild(k: Kids, turn: Turn)
    requires k.Kids?
    ensures WithChild(k, turn, Child(k, turn)) == k
  {
  }

  lemma InsertTakesFirstTurn(t: Tree, p: Point)
    requires WellFormed(t) && WellFormed(t.(kids := KidsOf(t)))
    requires Contains(t.boundary, p) && |t.points| == t.capacity && KidsAddExactly(t, p)
    ensures var k, turn := KidsOf(t), FirstTurn(t.boundary, p);
            Insert(t, p) == (t.(kids := WithChild(k, turn, Insert(Child(k, turn), p).0)), true)
  {
    QuartersCoverExactly(t.boundary, p);
    PairTakes(KidsOf(t), NE, NW, p);
    PairTakes(KidsOf(t), SE, SW, p);
  }

  // ---- why the capacity has to be positive ----

  /** The outcome of an insertion in any tree, None when `depth` nested calls are not enough. */
  function InsertWithin(depth: nat, t: Tree, p: Point): Option<bool>
    decreases depth
  {
    if depth == 0 then None
    else if !Contains(t.boundary, p) then Some(false)
    else if |t.points| < t.capacity then Some(true)
    else
      var k := KidsOf(t);
      var inNe := InsertWithin(depth - 1, k.ne, p);
      if inNe != Some(false) then inNe else
      var inNw := InsertWithin(depth - 1, k.nw, p);
      if inNw != Some(false) then inNw else
      var inSe := InsertWithin(depth - 1, k.se, p);
      if inSe != Some(false) then inSe else
      InsertWithin(depth - 1, k.sw, p)
  }

  lemma KidsAnswer(k: Kids, p: Point)
    requires KidsWellFormed(k)
    ensures InsertKids(k, p).1 == (Insert(k.ne, p).1 || Insert(k.nw, p).1 || Insert(k.se, p).1 || Insert(k.sw, p).1)
  {
    var (north, taken) := InsertPair(k, NE, NW, p);
    assert Child(north, SE) == k.se && Child(north, SW) == k.sw;
  }

  lemma KidsWithin(depth: nat, t: Tree, p: Point, ne: bool, nw: bool, se: bool, sw: bool)
    requires depth > 0 && Contains(t.boundary, p) && |t.points| >= t.capacity
    requires var k := KidsOf(t);
             && InsertWithin(depth - 1, k.ne, p) == Some(ne) && InsertWithin(depth - 1, k.nw, p) == Some(nw)
             && InsertWithin(depth - 1, k.se, p) == Some(se) && InsertWithin(depth - 1, k.sw, p) == Some(sw)
    ensures InsertWithin(depth, t, p) == Some(ne || nw || se || sw)
  {
  }

  lemma OverflowAnswer(t: Tree, p: Point)
    requires WellFormed(t) && Contains(t.boundary, p) && |t.points| == t.capacity && KidsWellFormed(KidsOf(t))
    ensures var k := KidsOf(t); Insert(t, p).1 == (Insert(k.ne, p).1 || Insert(k.nw, p).1 || Insert(k.se, p).1 || Insert(k.sw, p).1)
  {
    KidsAnswer(KidsOf(t), p);
  }

  predicate Answers(depth: nat, t: Tree, p: Point)
    requires WellFormed(t)
  {
    InsertWithin(depth, t, p) == Some(Insert(t, p).1)
  }

  lemma OverflowAnswers(depth: nat, t: Tree, p: Point)
    requires WellFormed(t) && depth > 0 && Contains(t.boundary, p) && |t.points| == t.capacity && KidsWellFormed(KidsOf(t))
    requires var k := KidsOf(t); Answers(depth - 1, k.ne, p) && Answers(depth - 1, k.nw, p) && Answers(depth - 1, k.se, p) && Answers(depth - 1, k.sw, p)
    ensures Answers(depth, t, p)
  {
    var k := KidsOf(t);
    OverflowAnswer(t, p);
    KidsWithin(depth, t, p, Insert(k.ne, p).1, Insert(k.nw, p).1, Insert(k.se, p).1, Insert(k.sw, p).1);
  }

  /** With enough depth it is what insertion answers. */
  lemma {:induction false} WithinIsInsert(depth: nat, t: Tree, p: Point)
    requires WellFormed(t) && depth > Height(t)
    ensures Answers(depth, t, p)
    decreases depth
  {
    if !Contains(t.boundary, p) || |t.points| < t.capacity {
    } else {
      KidsAreLower(t);
      var k := KidsOf(t);
      WithinIsInsert(depth - 1, k.ne, p);
      WithinIsInsert(depth - 1, k.nw, p);
      WithinIsInsert(depth - 1, k.se, p);
      WithinIsInsert(depth - 1, k.sw, p);
      OverflowAnswers(depth, t, p);
    }
  }

  lemma {:induction false} NoRoomNoReturn(depth: nat, boundary: Rectangle, capacity: int, p: Point)
    requires capacity <= 0 && Contains(boundary, p)
    ensures InsertWithin(depth, Leaf(boundary, capacity), p) == None
  {
    if depth <= 1 {
    } else {
      QuartersCoverExactly(boundary, p);
      NoRoomNoReturn(depth - 1, Child(Quarters(boundary, capacity), FirstTurn(boundary, p)).boundary, capacity, p);
    }
  }

  /** The trees that insertions can lead to: well formed, or, for want of capacity, still empty. */
  predicate Reachable(t: Tree) {
    WellFormed(t) || (t.capacity <= 0 && t == Leaf(t.boundary, t.capacity))
  }

  /** An insertion comes back, with the answer of `Insert`, exactly when the capacity is positive or
      the point is outside; otherwise the node divides for ever. */
  lemma ReturnsIffThereIsRoom(t: Tree, p: Point)
    requires Reachable(t)
    ensures (exists depth :: InsertWithin(depth, t, p).Some?) <==> t.capacity >= 1 || !Contains(t.boundary, p)
    ensures t.capacity >= 1 ==> InsertWithin(Height(t) + 1, t, p) == Some(Insert(t, p).1)
  {
    if t.capacity >= 1 {
      WithinIsInsert(Height(t) + 1, t, p);
      assert InsertWithin(Height(t) + 1, t, p).Some?;
    } else if !Contains(t.boundary, p) {
      assert InsertWithin(1, t, p).Some?;
    } else {
      forall depth: nat ensures InsertWithin(depth, t, p) == None {
        NoRoomNoReturn(depth, t.boundary, t.capacity, p);
      }
    }
  }

  // ---- range search ----

  function Within(ps: seq<Point>, range: Rectangle): seq<Point> {
    if ps == [] then []
    else (if Contains(range, ps[0]) then [ps[0]] else []) + Within(ps[1..], range)
  }

  function Query(t: Tree, range: Rectangle): seq<Point> {
    if !Intersects(t.boundary, range) then []
    else
      Within(t.points, range) +
      match t.kids
      case NoKids => []
      case Kids(ne, nw, se, sw) => Query(ne, range) + Query(nw, range) + Query(se, range) + Query(sw, range)
  }

  lemma {:induction false} WithinCounts(ps: seq<Point>, range: Rectangle, p: Point)
    ensures multiset(Within(ps, range))[p] == if Contains(range, p) then multiset(ps)[p] else 0
  {
    if ps == [] {
    } else {
      WithinCounts(ps[1..], range, p);
      assert ps == [ps[0]] + ps[1..];
    }
  }

  lemma {:induction false} WithinAppends(ps: seq<Point>, qs: seq<Point>, range: Rectangle)
    ensures Within(ps + qs, range) == Within(ps, range) + Within(qs, range)
  {
    if ps == [] {
      assert ps + qs == qs;
    } else {
      assert (ps + qs)[1..] == ps[1..] + qs;
      WithinAppends(ps[1..], qs, range);
    }
  }

  lemma {:induction false} ContentsInside(t: Tree, p: Point)
    requires WellFormed(t) && p in Contents(t)
    ensures Contains(t.boundary, p)
    decreases t
  {
    if p !in t.points {
      var k := t.kids;
      QuartersCoverExactly(t.boundary, p);
      if p in Contents(k.ne) {
        ContentsInside(k.ne, p);
      } else if p in Contents(k.nw) {
        ContentsInside(k.nw, p);
      } else if p in Contents(k.se) {
        ContentsInside(k.se, p);
      } else {
        ContentsInside(k.sw, p);
      }
    }
  }

  /** Pruning loses nothing and nothing is found twice: each point comes out as often as it is
      stored if the range contains it, and never otherwise. */
  lemma {:induction false} QueryCounts(t: Tree, range: Rectangle, p: Point)
    requires WellFormed(t)
    ensures multiset(Query(t, range))[p] == if Contains(range, p) then Contents(t)[p] else 0
    decreases t
  {
    if !Intersects(t.boundary, range) {
      if Contains(range, p) && p in Contents(t) {
        ContentsInside(t, p);
        SharedPointMeansIntersection(t.boundary, range, p);
      }
    } else {
      WithinCounts(t.points, range, p);
      if t.kids.Kids? {
        QueryCounts(t.kids.ne, range, p);
        QueryCounts(t.kids.nw, range, p);
        QueryCounts(t.kids.se, range, p);
        QueryCounts(t.kids.sw, range, p);
      }
    }
  }

  // ---- whole histories ----

  /** The tree after inserting `ps` in order. */
  function Built(t: Tree, ps: seq<Point>): Tree
    requires WellFormed(t)
    decreases |ps|
  {
    if ps == [] then t else (InsertIsExact(t, ps[0]); Built(Insert(t, ps[0]).0, ps[1..]))
  }

  lemma {:induction false} BuiltHolds(t: Tree, ps: seq<Point>)
    requires WellFormed(t)
    ensures WellFormed(Built(t, ps)) && Built(t, ps).boundary == t.boundary && Built(t, ps).capacity == t.capacity
    ensures Contents(Built(t, ps)) == Contents(t) + multiset(Within(ps, t.boundary))
    decreases |ps|
  {
    if ps == [] {
    } else {
      InsertIsExact(t, ps[0]);
      BuiltHolds(Insert(t, ps[0]).0, ps[1..]);
    }
  }

  /** Range search on a tree built from nothing is a linear scan of what was inserted: the points in
      the root's boundary and in the range, duplicates kept, as a multiset. */
  lemma QueryRefinesLinearScan(boundary: Rectangle, capacity: int, ps: seq<Point>, range: Rectangle)
    requires capacity >= 1
    ensures multiset(Query(Built(Leaf(boundary, capacity), ps), range)) == multiset(Within(Within(ps, boundary), range))
  {
    var t := Built(Leaf(boundary, capacity), ps);
    BuiltHolds(Leaf(boundary, capacity), ps);
    forall p: Point
      ensures multiset(Query(t, range))[p] == multiset(Within(Within(ps, boundary), range))[p]
    {
      QueryCounts(t, range, p);
      WithinCounts(Within(ps, boundary), range, p);
    }
  }

  /** Insertion accepts a point exactly when it is at most the root's half extents away from its centre. */
  lemma InsertAcceptsClosePoints(t: Tree, p: Point)
    requires WellFormed(t)
    ensures Insert(t, p).1 <==> Abs(p.x - t.boundary.x) <= t.boundary.hw && Abs(p.y - t.boundary.y) <= t.boundary.hh
  {
    InsertIsExact(t, p);
    ContainsIsCloseness(t.boundary, p);
  }

  /** Search finds each stored point exactly as often as it is stored, if it is that close to the range's
      centre, and never otherwise. */
  lemma QueryFindsClosePoints(t: Tree, range: Rectangle, p: Point)
    requires WellFormed(t)
    ensures multiset(Query(t, range))[p]
            == if Abs(p.x - range.x) <= range.hw && Abs(p.y - range.y) <= range.hh then Contents(t)[p] else 0
  {
    QueryCounts(t, range, p);
    ContainsIsCloseness(range, p);
  }

  /** What a search adds, in plain terms: what was found before stays in front, then comes every stored
      point in the closed range, as often as it is stored, and nothing else. */
  ghost predicate AddsClosePoints(before: seq<Point>, after: seq<Point>, t: Tree, range: Rectangle) {
    && before <= after
    && forall p :: multiset(after)[p] == multiset(before)[p]
                   + (if Abs(p.x - range.x) <= range.hw && Abs(p.y - range.y) <= range.hh then Contents(t)[p] else 0)
  }

  lemma QueryAddsClosePoints(before: seq<Point>, t: Tree, range: Rectangle)
    requires WellFormed(t)
    ensures AddsClosePoints(before, before + Query(t, range), t, range)
  {
    forall p ensures multiset(Query(t, range))[p] == if Abs(p.x - range.x) <= range.hw && Abs(p.y - range.y) <= range.hh then Contents(t)[p] else 0 {
      QueryFindsClosePoints(t, range, p);
    }
  }

  /** Over a whole history, point by point: a search finds a point as often as it was inserted if the
      closed root and the closed range have it, and never otherwise. */
  lemma HistoryCounts(boundary: Rectangle, capacity: int, ps: seq<Point>, range: Rectangle, p: Point)
    requires capacity >= 1
    ensures multiset(Query(Built(Leaf(boundary, capacity), ps), range))[p]
            == if Abs(p.x - boundary.x) <= boundary.hw && Abs(p.y - boundary.y) <= boundary.hh
                  && Abs(p.x - range.x) <= range.hw && Abs(p.y - range.y) <= range.hh
               then multiset(ps)[p] else 0
  {
    QueryRefinesLinearScan(boundary, capacity, ps, range);
    WithinCounts(Within(ps, boundary), range, p);
    WithinCounts(ps, boundary, p);
    ContainsIsCloseness(boundary, p);
    ContainsIsCloseness(range, p);
  }

  predicate OnBorder(r: Rectangle, p: Point) {
    || (Abs(p.x - r.x) == r.hw && Abs(p.y - r.y) <= r.hh)
    || (Abs(p.x - r.x) <= r.hw && Abs(p.y - r.y) == r.hh)
  }

  /** A point on a border of a fresh tree is accepted, and a search whose border passes through it finds it. */
  lemma BorderPointsAreKept(boundary: Rectangle, capacity: int, p: Point, range: Rectangle)
    requires capacity >= 1 && OnBorder(boundary, p) && OnBorder(range, p)
    ensures var (t, ok) := Insert(Leaf(boundary, capacity), p); ok && Query(t, range) == [p]
  {
    ContainsIsCloseness(boundary, p);
    ContainsIsCloseness(range, p);
    var t := Insert(Leaf(boundary, capacity), p).0;
    SharedPointMeansIntersection(boundary, range, p);
    assert t.points == [p] && Within([p], range) == [p];
  }

  // ---- shape and size ----

  function Nodes(t: Tree): nat {
    1 + match t.kids
        case NoKids => 0
        case Kids(ne, nw, se, sw) => Nodes(ne) + Nodes(nw) + Nodes(se) + Nodes(sw)
  }

  function DividedNodes(t: Tree): nat {
    match t.kids
    case NoKids => 0
    case Kids(ne, nw, se, sw) => 1 + DividedNodes(ne) + DividedNodes(nw) + DividedNodes(se) + DividedNodes(sw)
  }

  /** Four bounds added up. */
  lemma FourBounds(a: nat, b: nat, c: nat, d: nat, n: nat, sa: nat, sb: nat, sc: nat, sd: nat)
    requires a * n <= sa && b * n <= sb && c * n <= sc && d * n <= sd
    ensures (1 + a + b + c + d) * n <= n + sa + sb + sc + sd
  {
    assert (1 + a + b + c + d) * n == n + a * n + b * n + c * n + d * n;
  }

  lemma {:induction false} NodesCounted(t: Tree)
    ensures Nodes(t) == 1 + 4 * DividedNodes(t)
  {
    if t.kids.NoKids? {
    } else {
      NodesCounted(t.kids.ne);
      NodesCounted(t.kids.nw);
      NodesCounted(t.kids.se);
      NodesCounted(t.kids.sw);
    }
  }

  lemma ContentsSize(t: Tree)
    requires t.kids.Kids?
    ensures |Contents(t)| == |t.points| + |Contents(t.kids.ne)| + |Contents(t.kids.nw)| + |Contents(t.kids.se)| + |Contents(t.kids.sw)|
  {
  }

  /** Every division is paid for by a full node. */
  lemma {:induction false} DivisionsPaidFor(t: Tree, n: nat)
    requires WellFormed(t) && n == t.capacity
    ensures DividedNodes(t) * n <= |Contents(t)|
    decreases t
  {
    if t.kids.NoKids? {
      assert DividedNodes(t) == 0;
    } else {
      var k := t.kids;
      DivisionsPaidFor(k.ne, n);
      DivisionsPaidFor(k.nw, n);
      DivisionsPaidFor(k.se, n);
      DivisionsPaidFor(k.sw, n);
      var a, b, c, d := DividedNodes(k.ne), DividedNodes(k.nw), DividedNodes(k.se), DividedNodes(k.sw);
      var sa, sb, sc, sd := |Contents(k.ne)|, |Contents(k.nw)|, |Contents(k.se)|, |Contents(k.sw)|;
      FourBounds(a, b, c, d, n, sa, sb, sc, sd);
      ContentsSize(t);
      assert DividedNodes(t) == 1 + a + b + c + d;
    }
  }

  /** After any insertions, the nodes are bounded by the points accepted. */
  lemma BuiltSizeBounds(boundary: Rectangle, capacity: int, ps: seq<Point>)
    requires capacity >= 1
    ensures var t := Built(Leaf(boundary, capacity), ps);
            Nodes(t) == 1 + 4 * DividedNodes(t) && DividedNodes(t) * capacity <= |Within(ps, boundary)|
  {
    BuiltHolds(Leaf(boundary, capacity), ps);
    NodesCounted(Built(Leaf(boundary, capacity), ps));
    DivisionsPaidFor(Built(Leaf(boundary, capacity), ps), capacity);
  }

  predicate HasPath(t: Tree, path: seq<Turn>) {
    path == [] || (t.kids.Kids? && HasPath(Child(t.kids, path[0]), path[1..]))
  }

  function At(t: Tree, path: seq<Turn>): Tree
    requires HasPath(t, path)
  {
    if path == [] then t else At(Child(t.kids, path[0]), path[1..])
  }

  function Pow2(n: nat): nat {
    if n == 0 then 1 else 2 * Pow2(n - 1)
  }

  /** The half extents of the root, halved n times. */
  function Halved(x: real, n: nat): real
    decreases n
  {
    if n == 0 then x else Halved(x / 2.0, n - 1)
  }

  lemma {:induction false} HalvedIsDivision(x: real, n: nat, h: real)
    requires h == Halved(x, n)
    ensures h * Pow2(n) as real == x
    decreases n
  {
    if n == 0 {
    } else {
      HalvedIsDivision(x / 2.0, n - 1, h);
      var q := Pow2(n - 1) as real;
      assert Pow2(n) as real == 2.0 * q;
      assert h * (2.0 * q) == 2.0 * (h * q);
    }
  }

  lemma {:induction false} ExtentsHalve(t: Tree, path: seq<Turn>)
    requires WellFormed(t) && HasPath(t, path)
    ensures At(t, path).boundary.hw == Halved(t.boundary.hw, |path|)
    ensures At(t, path).boundary.hh == Halved(t.boundary.hh, |path|)
    decreases |path|
  {
    if path == [] {
    } else {
      ExtentsHalve(Child(t.kids, path[0]), path[1..]);
    }
  }

  /** Every node of a well-formed tree is well formed and lies inside the root. */
  lemma {:induction false} NodesInside(t: Tree, path: seq<Turn>, p: Point)
    requires WellFormed(t) && HasPath(t, path)
    ensures WellFormed(At(t, path)) && At(t, path).capacity == t.capacity
    ensures Contains(At(t, path).boundary, p) ==> Contains(t.boundary, p)
    decreases |path|
  {
    if path == [] {
    } else {
      QuartersCoverExactly(t.boundary, p);
      NodesInside(Child(t.kids, path[0]), path[1..], p);
    }
  }

  /** The half extents of a node at depth n are those of the root divided by 2^n. */
  lemma DepthDividesExtents(t: Tree, path: seq<Turn>) returns (scale: real)
    requires WellFormed(t) && HasPath(t, path)
    ensures scale == Pow2(|path|) as real
    ensures At(t, path).boundary.hw * scale == t.boundary.hw && At(t, path).boundary.hh * scale == t.boundary.hh
  {
    scale := Pow2(|path|) as real;
    ExtentsHalve(t, path);
    HalvedIsDivision(t.boundary.hw, |path|, At(t, path).boundary.hw);
    HalvedIsDivision(t.boundary.hh, |path|, At(t, path).boundary.hh);
  }
}
