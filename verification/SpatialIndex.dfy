/** The spatial index as a value: two maps that have to stay inverse to one another, and what
    a nearest-rings-first search should return. H3 itself appears as a cell function, a grid
    distance and the disks of that distance. */
module SpatialIndex {
  import opened Domain

  type Cell = int

  datatype Geometry = Geometry(
    cellOf: Location -> Option<Cell>,
    gridDistance: (Cell, Cell) -> nat,
    disk: (Cell, int) -> Option<seq<Cell>>)

  /** `disk(o, k)` lists each cell within distance k of o once; a negative k is an error. */
  ghost predicate GridOk(g: Geometry) {
    forall o: Cell, k: int :: DiskOk(g, o, k)
  }

  ghost predicate DiskOk(g: Geometry, o: Cell, k: int) {
    && (g.disk(o, k).None? <==> k < 0)
    && (k >= 0 ==> Distinct(g.disk(o, k).value) && forall c: Cell :: c in g.disk(o, k).value <==> g.gridDistance(o, c) <= k)
  }

  function Apart(a: Cell, b: Cell): nat {
    if a < b then b - a else a - b
  }

  /** Cells on a line, as an instance: whatever the cell function. */
  function Line(cellOf: Location -> Option<Cell>): Geometry {
    Geometry(cellOf, Apart, (o, k) => if k < 0 then None else Some(seq(2 * k + 1, i => o - k + i)))
  }

  lemma LineIsGridOk(cellOf: Location -> Option<Cell>)
    ensures GridOk(Line(cellOf))
  {
    var g := Line(cellOf);
    forall o: Cell, k: int ensures DiskOk(g, o, k) {
      if k >= 0 {
        var cells := g.disk(o, k).value;
        forall c: Cell | Apart(o, c) <= k ensures c in cells {
          assert cells[c - (o - k)] == c;
        }
      }
    }
  }

  lemma DiskIsBall(g: Geometry, o: Cell, k: int)
    requires GridOk(g)
    ensures DiskOk(g, o, k)
  {
  }

  lemma InDisk(g: Geometry, o: Cell, k: nat, c: Cell)
    requires GridOk(g)
    ensures g.disk(o, k).Some? && (c in g.disk(o, k).value <==> g.gridDistance(o, c) <= k)
  {
    assert DiskOk(g, o, k);
  }

  datatype Index = Index(cells: map<Cell, map<string, Driver>>, homes: map<string, Cell>)

  const EMPTY := Index(map[], map[])

  function InCell(cells: map<Cell, map<string, Driver>>, c: Cell): map<string, Driver> {
    if c in cells then cells[c] else map[]
  }

  // ---- what each method computes ----

  function Inserted(x: Index, d: Driver, c: Cell): Index {
    Index(x.cells[c := InCell(x.cells, c)[d.id := d]], x.homes[d.id := c])
  }

  /** The driver taken out of the cell it has left; an emptied cell stays. */
  function Vacated(x: Index, id: string): Index
    requires id in x.homes
  {
    var c := x.homes[id];
    Index(if c in x.cells then x.cells[c := x.cells[c] - {id}] else x.cells, x.homes - {id})
  }

  function Updated(x: Index, d: Driver, c: Cell): Index {
    if d.id in x.homes && x.homes[d.id] != c then Inserted(Vacated(x, d.id), d, c) else Inserted(x, d, c)
  }

  function Removed(x: Index, id: string): Index {
    if id !in x.homes then x
    else
      var c := x.homes[id];
      var left := InCell(x.cells, c) - {id};
      Index(if left == map[] then x.cells - {c} else x.cells[c := left], x.homes - {id})
  }

  // ---- the plain map behind the two maps ----

  /** Every driver is in exactly the cell its home names, under its own id. */
  ghost predicate Inverse(x: Index) {
    && (forall id :: id in x.homes ==> x.homes[id] in x.cells && id in x.cells[x.homes[id]])
    && (forall c, id :: c in x.cells && id in x.cells[c] ==> id in x.homes && x.homes[id] == c && x.cells[c][id].id == id)
  }

  function Contents(x: Index): map<string, Driver>
    requires Inverse(x)
  {
    map id | id in x.homes :: x.cells[x.homes[id]][id]
  }

  lemma RemoveRefines(x: Index, id: string)
    requires Inverse(x)
    ensures Inverse(Removed(x, id)) && Contents(Removed(x, id)) == Contents(x) - {id}
  {
    var y := Removed(x, id);
    if id in x.homes {
      var c := x.homes[id];
      var left := x.cells[c] - {id};
      forall i | i in y.homes ensures y.homes[i] in y.cells && i in y.cells[y.homes[i]] {
        assert i in x.cells[x.homes[i]];
        if x.homes[i] == c {
          assert i in left;
        }
      }
    }
  }

  /** An entry of the new index is the one inserted or an old one. */
  lemma InsertedEntry(x: Index, d: Driver, c: Cell, y: Index, k: Cell, id: string)
    requires Inverse(x) && y == Inserted(x, d, c) && (d.id in x.homes ==> x.homes[d.id] == c)
    requires k in y.cells && id in y.cells[k]
    ensures id in y.homes && y.homes[id] == k && y.cells[k][id].id == id
  {
    if id != d.id || k != c {
      assert k in x.cells && id in x.cells[k] && x.cells[k][id] == y.cells[k][id];
    }
  }

  lemma InsertedHome(x: Index, d: Driver, c: Cell, y: Index, id: string)
    requires Inverse(x) && y == Inserted(x, d, c) && id in y.homes
    ensures y.homes[id] in y.cells && id in y.cells[y.homes[id]]
    ensures y.cells[y.homes[id]][id] == if id == d.id then d else x.cells[x.homes[id]][id]
  {
  }

  lemma InsertRefines(x: Index, d: Driver, c: Cell)
    requires Inverse(x) && (d.id in x.homes ==> x.homes[d.id] == c)
    ensures Inverse(Inserted(x, d, c)) && Contents(Inserted(x, d, c)) == Contents(x)[d.id := d]
  {
    InsertRefinesTo(x, d, c, Inserted(x, d, c));
  }

  lemma InsertRefinesTo(x: Index, d: Driver, c: Cell, y: Index)
    requires Inverse(x) && y == Inserted(x, d, c) && (d.id in x.homes ==> x.homes[d.id] == c)
    ensures Inverse(y) && Contents(y) == Contents(x)[d.id := d]
  {
    forall id | id in y.homes ensures y.homes[id] in y.cells && id in y.cells[y.homes[id]] {
      InsertedHome(x, d, c, y, id);
    }
    forall k, id | k in y.cells && id in y.cells[k] ensures id in y.homes && y.homes[id] == k && y.cells[k][id].id == id {
      InsertedEntry(x, d, c, y, k, id);
    }
    forall id | id in y.homes ensures Contents(y)[id] == Contents(x)[d.id := d][id] {
      InsertedHome(x, d, c, y, id);
    }
  }

  lemma InsertOfMovedBreaks(x: Index, d: Driver, c: Cell)
    requires Inverse(x) && d.id in x.homes && x.homes[d.id] != c
    ensures !Inverse(Inserted(x, d, c))
  {
    var y, home := Inserted(x, d, c), x.homes[d.id];
    assert home in y.cells && d.id in y.cells[home] && y.homes[d.id] == c;
  }

  /** Inserting keeps the maps inverse exactly when the driver is new to the index or stays in its
      cell: the insert of a driver that has moved leaves its old entry behind. */
  lemma InsertRefinesIffNewOrUnmoved(x: Index, d: Driver, c: Cell)
    requires Inverse(x)
    ensures Inverse(Inserted(x, d, c)) <==> d.id !in x.homes || x.homes[d.id] == c
    ensures Inverse(Inserted(x, d, c)) ==> Contents(Inserted(x, d, c)) == Contents(x)[d.id := d]
  {
    if d.id in x.homes && x.homes[d.id] != c {
      InsertOfMovedBreaks(x, d, c);
    } else {
      InsertRefines(x, d, c);
    }
  }

  /** What is found in a cell is indexed there, under its own id. */
  lemma FoundInCell(x: Index, c: Cell, id: string)
    requires Inverse(x) && c in x.cells && id in x.cells[c]
    ensures id in x.homes && x.homes[id] == c && x.cells[c][id].id == id && Contents(x)[id] == x.cells[c][id]
  {
  }

  lemma VacateRefines(x: Index, id: string)
    requires Inverse(x) && id in x.homes
    ensures Inverse(Vacated(x, id)) && Contents(Vacated(x, id)) == Contents(x) - {id}
  {
    var y := Vacated(x, id);
    forall i | i in y.homes ensures y.homes[i] in y.cells && i in y.cells[y.homes[i]] {
      assert i in x.cells[x.homes[i]];
    }
  }

  lemma MoveRefines(x: Index, d: Driver, c: Cell)
    requires Inverse(x) && d.id in x.homes
    ensures var y := Inserted(Vacated(x, d.id), d, c); Inverse(y) && Contents(y) == Contents(x)[d.id := d]
  {
    VacateRefines(x, d.id);
    InsertRefines(Vacated(x, d.id), d, c);
    PutBack(Contents(x), d.id, d);
  }

  lemma PutBack(m: map<string, Driver>, id: string, d: Driver)
    ensures (m - {id})[id := d] == m[id := d]
  {
  }

  lemma UpdateRefines(x: Index, d: Driver, c: Cell)
    requires Inverse(x)
    ensures Inverse(Updated(x, d, c)) && Contents(Updated(x, d, c)) == Contents(x)[d.id := d]
  {
    if d.id in x.homes && x.homes[d.id] != c {
      MoveRefines(x, d, c);
    } else {
      InsertRefines(x, d, c);
    }
  }

  // ---- any sequence of operations ----

  datatype IndexOp = DoInsert(d: Driver) | DoUpdate(d: Driver) | DoRemove(id: string)

  /** A location without a cell changes nothing. */
  function Step(x: Index, op: IndexOp, g: Geometry): Index {
    match op
    case DoInsert(d) => (match g.cellOf(d.location) case Some(c) => Inserted(x, d, c) case None => x)
    case DoUpdate(d) => (match g.cellOf(d.location) case Some(c) => Updated(x, d, c) case None => x)
    case DoRemove(id) => Removed(x, id)
  }

  function MapStep(m: map<string, Driver>, op: IndexOp, g: Geometry): map<string, Driver> {
    match op
    case DoInsert(d) => if g.cellOf(d.location).Some? then m[d.id := d] else m
    case DoUpdate(d) => if g.cellOf(d.location).Some? then m[d.id := d] else m
    case DoRemove(id) => m - {id}
  }

  function Replay(x: Index, ops: seq<IndexOp>, g: Geometry): Index
    decreases |ops|
  {
    if ops == [] then x else Replay(Step(x, ops[0], g), ops[1..], g)
  }

  function MapReplay(m: map<string, Driver>, ops: seq<IndexOp>, g: Geometry): map<string, Driver>
    decreases |ops|
  {
    if ops == [] then m else MapReplay(MapStep(m, ops[0], g), ops[1..], g)
  }

  /** Insert is used only for drivers that are not indexed at the time. */
  predicate InsertsAreNew(m: map<string, Driver>, ops: seq<IndexOp>, g: Geometry)
    decreases |ops|
  {
    ops == [] || ((ops[0].DoInsert? ==> ops[0].d.id !in m) && InsertsAreNew(MapStep(m, ops[0], g), ops[1..], g))
  }

  /** Every snapshot sits in the cell of its own location. */
  predicate Placed(x: Index, g: Geometry)
    requires Inverse(x)
  {
    forall id :: id in x.homes ==> g.cellOf(Contents(x)[id].location) == Some(x.homes[id])
  }

  lemma StepRefines(x: Index, op: IndexOp, g: Geometry)
    requires Inverse(x) && Placed(x, g) && (op.DoInsert? ==> op.d.id !in Contents(x))
    ensures Inverse(Step(x, op, g)) && Contents(Step(x, op, g)) == MapStep(Contents(x), op, g) && Placed(Step(x, op, g), g)
  {
    var y := Step(x, op, g);
    match op {
      case DoInsert(d) => if g.cellOf(d.location).Some? { InsertRefinesIffNewOrUnmoved(x, d, g.cellOf(d.location).value); }
      case DoUpdate(d) => if g.cellOf(d.location).Some? { UpdateRefines(x, d, g.cellOf(d.location).value); }
      case DoRemove(id) => RemoveRefines(x, id);
    }
    forall id | id in y.homes ensures g.cellOf(Contents(y)[id].location) == Some(y.homes[id]) {
      assert id in Contents(y);
    }
  }

  /** Whatever the sequence of updates, removals and inserts of new drivers, the two maps stay inverse
      and together they are the plain map that the same sequence builds. */
  lemma {:induction false} ReplayRefinesMap(x: Index, ops: seq<IndexOp>, g: Geometry)
    requires Inverse(x) && Placed(x, g) && InsertsAreNew(Contents(x), ops, g)
    ensures Inverse(Replay(x, ops, g)) && Contents(Replay(x, ops, g)) == MapReplay(Contents(x), ops, g)
    ensures Placed(Replay(x, ops, g), g)
    decreases |ops|
  {
    if ops == [] {
    } else {
      StepRefines(x, ops[0], g);
      ReplayRefinesMap(Step(x, ops[0], g), ops[1..], g);
    }
  }

  // ---- nearest rings first ----

  function Ring(x: Index, g: Geometry, origin: Cell, id: string): nat
    requires id in x.homes
  {
    g.gridDistance(origin, x.homes[id])
  }

  /** What a search for `target` drivers among `eligible` within `maxRings` rings should return:
      distinct eligible drivers, nearest rings first, no ring left incomplete before a farther one is
      touched, and everything there is when the target is not met. A search stops as soon as it has
      found one driver, even for a target of zero. */
  ghost predicate NearestRingsFirst(x: Index, g: Geometry, origin: Cell, eligible: set<string>, target: nat, maxRings: int, ids: seq<string>)
    requires eligible <= x.homes.Keys
  {
    && Distinct(ids)
    && (forall id :: id in ids ==> id in eligible && Ring(x, g, origin, id) <= maxRings)
    && (forall i, j :: 0 <= i < j < |ids| ==> Ring(x, g, origin, ids[i]) <= Ring(x, g, origin, ids[j]))
    && (forall i, id :: 0 <= i < |ids| && id in eligible && Ring(x, g, origin, id) < Ring(x, g, origin, ids[i]) ==> id in ids)
    && (|ids| <= target || |ids| <= 1)
    && (|ids| < target ==> forall id :: id in eligible && Ring(x, g, origin, id) <= maxRings ==> id in ids)
  }

  /** Such a result returns the nearest drivers there are: nobody left out is in a nearer ring than
      anybody returned. */
  lemma NobodyNearerIsLeftOut(x: Index, g: Geometry, origin: Cell, eligible: set<string>, target: nat, maxRings: int, ids: seq<string>, a: string, b: string)
    requires eligible <= x.homes.Keys && NearestRingsFirst(x, g, origin, eligible, target, maxRings, ids)
    requires a in ids && b in eligible && b !in ids
    ensures Ring(x, g, origin, a) <= Ring(x, g, origin, b)
  {
    var i :| 0 <= i < |ids| && ids[i] == a;
  }

  /** And as many as there are, up to the target. */
  lemma AsManyAsPossible(x: Index, g: Geometry, origin: Cell, eligible: set<string>, target: nat, maxRings: int, ids: seq<string>)
    requires eligible <= x.homes.Keys && NearestRingsFirst(x, g, origin, eligible, target, maxRings, ids) && target >= 1
    ensures var inReach := set id | id in eligible && Ring(x, g, origin, id) <= maxRings;
            |ids| == if |inReach| < target then |inReach| else target
  {
    var inReach := set id | id in eligible && Ring(x, g, origin, id) <= maxRings;
    var got := set id | id in ids;
    DistinctSize(ids);
    assert got <= inReach;
    SubsetSize(got, inReach);
    if |ids| < target {
      assert got == inReach;
    }
  }

  lemma {:induction false} DistinctSize(s: seq<string>)
    requires Distinct(s)
    ensures |set id | id in s| == |s|
  {
    if s == [] {
    } else {
      var rest := s[..|s| - 1];
      DistinctSize(rest);
      assert s == rest + [s[|s| - 1]];
      assert (set id | id in s) == (set id | id in rest) + {s[|s| - 1]};
    }
  }

  lemma {:induction false} SubsetSize(a: set<string>, b: set<string>)
    requires a <= b
    ensures |a| <= |b|
  {
    if a == {} {
    } else {
      var e :| e in a;
      SubsetSize(a - {e}, b - {e});
    }
  }

  /** A sweep in progress: all rings before `r` done, of ring `r` the drivers in `covered` so far. */
  ghost predicate Sweep(x: Index, g: Geometry, origin: Cell, eligible: set<string>, r: nat, covered: set<string>, ids: seq<string>)
    requires eligible <= x.homes.Keys
  {
    && Distinct(ids)
    && (forall id :: id in ids ==> id in eligible && Ring(x, g, origin, id) <= r)
    && (forall id :: id in eligible ==> (id in ids <==> Ring(x, g, origin, id) < r || id in covered))
    && (forall i, j :: 0 <= i < j < |ids| ==> Ring(x, g, origin, ids[i]) <= Ring(x, g, origin, ids[j]))
  }

  /** The next driver of the ring is appended if it is eligible and not there yet. */
  lemma SweepOn(x: Index, g: Geometry, origin: Cell, eligible: set<string>, r: nat, covered: set<string>, ids: seq<string>, id: string)
    requires eligible <= x.homes.Keys && Sweep(x, g, origin, eligible, r, covered, ids)
    requires id in x.homes && Ring(x, g, origin, id) <= r
    ensures Sweep(x, g, origin, eligible, r, covered + {id}, if id in eligible && id !in ids then ids + [id] else ids)
  {
  }

  lemma SweepNextRing(x: Index, g: Geometry, origin: Cell, eligible: set<string>, r: nat, covered: set<string>, ids: seq<string>)
    requires eligible <= x.homes.Keys && Sweep(x, g, origin, eligible, r, covered, ids)
    requires forall id :: id in x.homes ==> (id in covered <==> Ring(x, g, origin, id) <= r)
    ensures Sweep(x, g, origin, eligible, r + 1, {}, ids)
  {
  }

  /** Stopping in the middle of a ring with the target met, or after the last ring, gives the right result. */
  lemma SweepStops(x: Index, g: Geometry, origin: Cell, eligible: set<string>, r: nat, covered: set<string>, ids: seq<string>, target: nat, maxRings: int)
    requires eligible <= x.homes.Keys && Sweep(x, g, origin, eligible, r, covered, ids)
    requires |ids| <= target || |ids| <= 1
    requires (|ids| >= target && r <= maxRings) || (covered == {} && r == maxRings + 1)
    ensures NearestRingsFirst(x, g, origin, eligible, target, maxRings, ids)
  {
  }

  /** A cell visited one driver at a time. */
  lemma OneMore(before: set<string>, all: set<string>, todo: set<string>, id: string)
    requires id in todo && todo <= all
    ensures before + (all - todo) + {id} == before + (all - (todo - {id}))
  {
  }

  /** The drivers living in any of `cells`. */
  ghost function Residents(x: Index, cells: seq<Cell>): set<string> {
    set id | id in x.homes && x.homes[id] in cells
  }

  lemma OneMoreCell(x: Index, cells: seq<Cell>, i: nat)
    requires Inverse(x) && i < |cells|
    ensures Residents(x, cells[..i]) + InCell(x.cells, cells[i]).Keys == Residents(x, cells[..i + 1])
  {
    assert cells[..i + 1] == cells[..i] + [cells[i]];
    forall id | id in InCell(x.cells, cells[i]).Keys ensures id in x.homes && x.homes[id] == cells[i] {
      FoundInCell(x, cells[i], id);
    }
    forall id | id in x.homes && x.homes[id] == cells[i] ensures id in InCell(x.cells, cells[i]).Keys {
      assert x.homes[id] in x.cells;
    }
  }

  /** The drivers in the disk of radius r are those of rings up to r. */
  lemma DiskResidents(x: Index, g: Geometry, origin: Cell, r: nat, id: string)
    requires GridOk(g) && id in x.homes
    ensures g.disk(origin, r).Some?
    ensures id in Residents(x, g.disk(origin, r).value) <==> Ring(x, g, origin, id) <= r
  {
    InDisk(g, origin, r, x.homes[id]);
  }
}
