/** The spatial index as an object, with its three searches. */
module H3IndexObject {
  import opened Domain
  import opened SpatialIndex

  datatype IndexError = NoCell

  /** How many rings to look at, by the number of drivers in the origin's cell. */
  function AdaptiveMaxRings(driverCount: nat): (rings: nat)
    ensures (rings == 5 <==> driverCount < 5) && (rings == 3 <==> 5 <= driverCount < 15)
    ensures (rings == 2 <==> 15 <= driverCount < 50) && (rings == 1 <==> driverCount >= 50)
  {
    if driverCount >= 50 then 1
    else if driverCount >= 15 then 2
    else if driverCount >= 5 then 3
    else 5
  }

  /** A denser origin never makes the search wider, and narrower exactly at 5, 15 and 50 drivers. */
  lemma DenserMeansNarrower(a: nat, b: nat)
    requires a <= b
    ensures AdaptiveMaxRings(b) <= AdaptiveMaxRings(a)
    ensures AdaptiveMaxRings(b) < AdaptiveMaxRings(a) <==> a < 5 <= b || a < 15 <= b || a < 50 <= b
  {
  }

  function Ids(ds: seq<Driver>): (ids: seq<string>)
    ensures |ids| == |ds|
  {
    seq(|ds|, i requires 0 <= i < |ds| => ds[i].id)
  }

  lemma IdsAppend(ds: seq<Driver>, d: Driver)
    ensures Ids(ds + [d]) == Ids(ds) + [d.id]
  {
  }

  class H3Index {
    const geo: Geometry
    var cellToDrivers: map<Cell, map<string, Driver>>
    var driverToCell: map<string, Cell>

    function Value(): Index
      reads this
    {
      Index(cellToDrivers, driverToCell)
    }

    ghost predicate Valid()
      reads this
    {
      GridOk(geo) && Inverse(Value()) && Placed(Value(), geo)
    }

    constructor (geo: Geometry)
      requires GridOk(geo)
      ensures Valid() && Value() == EMPTY && this.geo == geo
    {
      this.geo := geo;
      cellToDrivers := map[];
      driverToCell := map[];
    }

    method Insert(driver: Driver) returns (err: Option<IndexError>)
      modifies this
      ensures err.None? <==> geo.cellOf(driver.location).Some?
      ensures Value() == Step(old(Value()), DoInsert(driver), geo)
      ensures err.Some? ==> Value() == old(Value())
      ensures err.None? ==> var c := geo.cellOf(driver.location).value;
                            c in cellToDrivers && driver.id in cellToDrivers[c] && cellToDrivers[c][driver.id] == driver
                            && driverToCell == old(driverToCell)[driver.id := c]
    {
      var cell := geo.cellOf(driver.location);
      if cell.None? {
        return Some(NoCell);
      }
      var c := cell.value;
      if c !in cellToDrivers {
        cellToDrivers := cellToDrivers[c := map[]];
      }
      cellToDrivers := cellToDrivers[c := cellToDrivers[c][driver.id := driver]];
      driverToCell := driverToCell[driver.id := c];
      return None;
    }

    method Update(driver: Driver)
      modifies this
      ensures Value() == Step(old(Value()), DoUpdate(driver), geo)
      ensures old(Valid()) ==> Valid() && Contents(Value()) == MapStep(old(Contents(Value())), DoUpdate(driver), geo)
      ensures geo.cellOf(driver.location).None? ==> Value() == old(Value())
      ensures old(Valid()) && geo.cellOf(driver.location).Some? ==>
                && Contents(Value()) == old(Contents(Value()))[driver.id := driver]
                && driverToCell == old(driverToCell)[driver.id := geo.cellOf(driver.location).value]
    {
      if GridOk(geo) && Inverse(Value()) && Placed(Value(), geo) {
        StepRefines(Value(), DoUpdate(driver), geo);
      }
      var cell := geo.cellOf(driver.location);
      if cell.None? {
        return;
      }
      var newCell := cell.value;
      if driver.id in driverToCell && driverToCell[driver.id] == newCell {
        Refresh(driver, newCell);
        return;
      }
      if driver.id in driverToCell {
        Leave(driver.id);
      }
      Enter(driver, newCell);
    }

    /** A new snapshot of a driver that has not left its cell. */
    method Refresh(driver: Driver, c: Cell)
      requires driver.id in driverToCell && driverToCell[driver.id] == c
      modifies this
      ensures Value() == Inserted(old(Value()), driver, c)
    {
      if c !in cellToDrivers {
        cellToDrivers := cellToDrivers[c := map[]];
      }
      cellToDrivers := cellToDrivers[c := cellToDrivers[c][driver.id := driver]];
      assert driverToCell == driverToCell[driver.id := c];
    }

    /** Takes a driver out of its old cell, leaving its home to be overwritten. */
    method Leave(id: string)
      requires id in driverToCell
      modifies this`cellToDrivers
      ensures cellToDrivers == Vacated(old(Value()), id).cells
    {
      var oldCell := driverToCell[id];
      if oldCell in cellToDrivers {
        cellToDrivers := cellToDrivers[oldCell := cellToDrivers[oldCell] - {id}];
      }
    }

    /** Files a driver in its new cell. */
    method Enter(driver: Driver, c: Cell)
      modifies this
      ensures Value() == Inserted(old(Value()), driver, c)
    {
      if c !in cellToDrivers {
        cellToDrivers := cellToDrivers[c := map[]];
      }
      cellToDrivers := cellToDrivers[c := cellToDrivers[c][driver.id := driver]];
      driverToCell := driverToCell[driver.id := c];
    }

    method Remove(id: string)
      modifies this
      ensures Value() == Removed(old(Value()), id)
      ensures old(Valid()) ==> Valid() && Contents(Value()) == old(Contents(Value())) - {id}
      ensures driverToCell == old(driverToCell) - {id}
      ensures id in old(driverToCell) ==> var c := old(driverToCell)[id]; c in cellToDrivers ==> cellToDrivers[c] != map[]
    {
      if GridOk(geo) && Inverse(Value()) && Placed(Value(), geo) {
        StepRefines(Value(), DoRemove(id), geo);
      }
      if id !in driverToCell {
        return;
      }
      var cell := driverToCell[id];
      if cell in cellToDrivers {
        cellToDrivers := cellToDrivers[cell := cellToDrivers[cell] - {id}];
      }
      if cell !in cellToDrivers || cellToDrivers[cell] == map[] {
        cellToDrivers := cellToDrivers - {cell};
      }
      driverToCell := driverToCell - {id};
    }

    method CellIDForLocation(loc: Location) returns (cell: Option<Cell>)
      ensures cell == geo.cellOf(loc)
    {
      cell := geo.cellOf(loc);
    }

    /** Every driver indexed within k rings and Idle in its snapshot, each once; nothing when k is negative. */
    method Nearby(cell: Cell, k: int) returns (results: seq<Driver>)
      requires Valid()
      ensures Distinct(Ids(results))
      ensures forall d :: d in results <==>
                k >= 0 && d.id in driverToCell && Contents(Value())[d.id] == d && d.status == Idle
                && Ring(Value(), geo, cell, d.id) <= k
    {
      results := [];
      DiskIsBall(geo, cell, k);
      var disk := geo.disk(cell, k);
      if disk.None? {
        return;
      }
      var cells := disk.value;
      for i := 0 to |cells|
        invariant Distinct(Ids(results))
        invariant forall d :: d in results <==> IdleSnapshot(d) && driverToCell[d.id] in cells[..i]
      {
        assert cells[..i + 1] == cells[..i] + [cells[i]];
        results := NearbyInCell(cells, i, results);
      }
      assert cells[..|cells|] == cells;
      forall d: Driver | d.id in driverToCell ensures driverToCell[d.id] in cells <==> Ring(Value(), geo, cell, d.id) <= k {
        InDisk(geo, cell, k, driverToCell[d.id]);
      }
    }

    predicate IdleSnapshot(d: Driver)
      reads this
      requires Inverse(Value())
    {
      d.id in driverToCell && Contents(Value())[d.id] == d && d.status == Idle
    }

    /** The inner loop of `Nearby`, over the drivers of one cell. */
    method NearbyInCell(cells: seq<Cell>, i: nat, found: seq<Driver>) returns (results: seq<Driver>)
      requires Valid() && i < |cells| && Distinct(cells) && Distinct(Ids(found))
      requires forall d :: d in found <==> IdleSnapshot(d) && driverToCell[d.id] in cells[..i]
      ensures Distinct(Ids(results))
      ensures forall d :: d in results <==> IdleSnapshot(d) && (driverToCell[d.id] in cells[..i] || driverToCell[d.id] == cells[i])
    {
      results := found;
      var c := cells[i];
      if c !in cellToDrivers {
        return;
      }
      var todo := cellToDrivers[c].Keys;
      while todo != {}
        invariant todo <= cellToDrivers[c].Keys
        invariant Distinct(Ids(results))
        invariant forall d :: d in results <==>
                    IdleSnapshot(d) && (driverToCell[d.id] in cells[..i] || (driverToCell[d.id] == c && d.id !in todo))
      {
        var id :| id in todo;
        FoundInCell(Value(), c, id);
        var driver := cellToDrivers[c][id];
        if driver.status == Idle {
          assert forall j :: 0 <= j < |results| ==> results[j] in results && Ids(results)[j] != id;
          IdsAppend(results, driver);
          results := results + [driver];
        }
        todo := todo - {id};
      }
    }

    /** The ids found so far, nearest rings first, whatever the drivers' status. */
    method NearbyProgressive(origin: Cell, targetCount: nat, maxRings: int) returns (result: seq<string>)
      requires Valid()
      ensures NearestRingsFirst(Value(), geo, origin, driverToCell.Keys, targetCount, maxRings, result)
    {
      var seen: set<string> := {};
      result := [];
      var ring := 0;
      while ring <= maxRings
        invariant ring <= maxRings || ring == 0 || ring == maxRings + 1
        invariant Sweep(Value(), geo, origin, driverToCell.Keys, ring, {}, result)
        invariant |result| < targetCount || result == []
        invariant forall id :: id in seen <==> id in result
        decreases maxRings - ring
      {
        var full: bool;
        ghost var covered;
        result, seen, full, covered := ProgressiveRing(origin, ring, targetCount, result, seen);
        if full {
          SweepStops(Value(), geo, origin, driverToCell.Keys, ring, covered, result, targetCount, maxRings);
          return;
        }
        ring := ring + 1;
      }
      SweepStops(Value(), geo, origin, driverToCell.Keys, ring, {}, result, targetCount, ring - 1);
    }

    /** One round of its outer loop: the cells of one disk. */
    method ProgressiveRing(origin: Cell, ring: nat, targetCount: nat, found: seq<string>, seenBefore: set<string>)
      returns (result: seq<string>, seen: set<string>, full: bool, ghost covered: set<string>)
      requires Valid() && Sweep(Value(), geo, origin, driverToCell.Keys, ring, {}, found)
      requires |found| < targetCount || found == []
      requires forall id :: id in seenBefore <==> id in found
      ensures forall id :: id in seen <==> id in result
      ensures full ==> Sweep(Value(), geo, origin, driverToCell.Keys, ring, covered, result)
                       && |result| >= targetCount && (|result| <= targetCount || |result| <= 1)
      ensures !full ==> Sweep(Value(), geo, origin, driverToCell.Keys, ring + 1, {}, result) && (|result| < targetCount || result == [])
    {
      result, seen, full, covered := found, seenBefore, false, {};
      DiskIsBall(geo, origin, ring);
      var disk := geo.disk(origin, ring);
      var cells := if disk.Some? then disk.value else [];
      for i := 0 to |cells|
        invariant covered == Residents(Value(), cells[..i])
        invariant Sweep(Value(), geo, origin, driverToCell.Keys, ring, covered, result)
        invariant |result| < targetCount || result == []
        invariant forall id :: id in seen <==> id in result
      {
        assert cells[i] in cells;
        OneMoreCell(Value(), cells, i);
        result, seen, full, covered := ProgressiveCell(origin, ring, cells[i], targetCount, result, seen, covered);
        if full {
          return;
        }
      }
      assert cells[..|cells|] == cells;
      forall id | id in driverToCell ensures id in covered <==> Ring(Value(), geo, origin, id) <= ring {
        DiskResidents(Value(), geo, origin, ring, id);
      }
      SweepNextRing(Value(), geo, origin, driverToCell.Keys, ring, covered, result);
    }

    /** Its innermost loop: the drivers of one cell, in any order. */
    method ProgressiveCell(ghost origin: Cell, ghost ring: nat, c: Cell, targetCount: nat, found: seq<string>, seenBefore: set<string>, ghost before: set<string>)
      returns (result: seq<string>, seen: set<string>, full: bool, ghost covered: set<string>)
      requires Valid() && geo.gridDistance(origin, c) <= ring
      requires Sweep(Value(), geo, origin, driverToCell.Keys, ring, before, found)
      requires |found| < targetCount || found == []
      requires forall id :: id in seenBefore <==> id in found
      ensures forall id :: id in seen <==> id in result
      ensures Sweep(Value(), geo, origin, driverToCell.Keys, ring, covered, result)
      ensures full ==> |result| >= targetCount && (|result| <= targetCount || |result| <= 1)
      ensures !full ==> covered == before + InCell(cellToDrivers, c).Keys && (|result| < targetCount || result == [])
    {
      result, seen, full, covered := found, seenBefore, false, before;
      var here := if c in cellToDrivers then cellToDrivers[c] else map[];
      var todo := here.Keys;
      while todo != {}
        invariant todo <= here.Keys && covered == before + (here.Keys - todo)
        invariant Sweep(Value(), geo, origin, driverToCell.Keys, ring, covered, result)
        invariant |result| < targetCount || result == []
        invariant forall id :: id in seen <==> id in result
      {
        var key :| key in todo;
        FoundInCell(Value(), c, key);
        OneMore(before, here.Keys, todo, key);
        SweepOn(Value(), geo, origin, driverToCell.Keys, ring, covered, result, key);
        var driver := here[key];
        if driver.id !in seen {
          result := result + [driver.id];
          seen := seen + {driver.id};
        }
        todo := todo - {key};
        covered := covered + {key};
        if |result| >= targetCount {
          full := true;
          return;
        }
      }
    }

    // ---- the adaptive search ----

    ghost function IdleIds(): set<string>
      reads this
      requires Inverse(Value())
    {
      set id | id in driverToCell && Contents(Value())[id].status == Idle
    }

    lemma LocalsAreCellMates(origin: Cell)
      requires Valid()
      ensures |set id | id in driverToCell && driverToCell[id] == origin| == |InCell(cellToDrivers, origin)|
    {
      forall id | id in InCell(cellToDrivers, origin) ensures id in driverToCell && driverToCell[id] == origin {
        FoundInCell(Value(), origin, id);
      }
      assert (set id | id in driverToCell && driverToCell[id] == origin) == InCell(cellToDrivers, origin).Keys;
    }

    /** Idle drivers, nearest rings first, looking no farther than the density of the origin's cell suggests. */
    method NearbyAdaptive(origin: Cell, targetCount: nat) returns (results: seq<Driver>)
      requires Valid()
      ensures forall d :: d in results ==> IdleSnapshot(d)
      ensures var n := |set id | id in driverToCell && driverToCell[id] == origin|;
              && (n < 5 ==> NearestRingsFirst(Value(), geo, origin, IdleIds(), targetCount, 5, Ids(results)))
              && (5 <= n < 15 ==> NearestRingsFirst(Value(), geo, origin, IdleIds(), targetCount, 3, Ids(results)))
              && (15 <= n < 50 ==> NearestRingsFirst(Value(), geo, origin, IdleIds(), targetCount, 2, Ids(results)))
              && (n >= 50 ==> NearestRingsFirst(Value(), geo, origin, IdleIds(), targetCount, 1, Ids(results)))
    {
      LocalsAreCellMates(origin);
      var density := if origin in cellToDrivers then |cellToDrivers[origin]| else 0;
      assert InCell(cellToDrivers, origin) == map[] || origin in cellToDrivers;
      var maxRings := AdaptiveMaxRings(density);
      var seen: set<string> := {};
      results := [];
      var ring := 0;
      while ring <= maxRings
        invariant ring <= maxRings + 1
        invariant Sweep(Value(), geo, origin, IdleIds(), ring, {}, Ids(results))
        invariant forall d :: d in results ==> IdleSnapshot(d)
        invariant |results| < targetCount || results == []
        invariant forall id :: id in seen <==> id in Ids(results)
      {
        var full: bool;
        ghost var covered;
        results, seen, full, covered := AdaptiveRing(origin, ring, targetCount, results, seen);
        if full {
          SweepStops(Value(), geo, origin, IdleIds(), ring, covered, Ids(results), targetCount, maxRings);
          return;
        }
        ring := ring + 1;
      }
      SweepStops(Value(), geo, origin, IdleIds(), ring, {}, Ids(results), targetCount, maxRings);
    }

    method AdaptiveRing(origin: Cell, ring: nat, targetCount: nat, found: seq<Driver>, seenBefore: set<string>)
      returns (results: seq<Driver>, seen: set<string>, full: bool, ghost covered: set<string>)
      requires Valid() && Sweep(Value(), geo, origin, IdleIds(), ring, {}, Ids(found))
      requires forall d :: d in found ==> IdleSnapshot(d)
      requires |found| < targetCount || found == []
      requires forall id :: id in seenBefore <==> id in Ids(found)
      ensures forall id :: id in seen <==> id in Ids(results)
      ensures forall d :: d in results ==> IdleSnapshot(d)
      ensures full ==> Sweep(Value(), geo, origin, IdleIds(), ring, covered, Ids(results))
                       && |results| >= targetCount && (|results| <= targetCount || |results| <= 1)
      ensures !full ==> Sweep(Value(), geo, origin, IdleIds(), ring + 1, {}, Ids(results)) && (|results| < targetCount || results == [])
    {
      results, seen, full, covered := found, seenBefore, false, {};
      DiskIsBall(geo, origin, ring);
      var disk := geo.disk(origin, ring);
      var cells := if disk.Some? then disk.value else [];
      for i := 0 to |cells|
        invariant covered == Residents(Value(), cells[..i])
        invariant Sweep(Value(), geo, origin, IdleIds(), ring, covered, Ids(results))
        invariant forall d :: d in results ==> IdleSnapshot(d)
        invariant |results| < targetCount || results == []
        invariant forall id :: id in seen <==> id in Ids(results)
      {
        assert cells[i] in cells;
        OneMoreCell(Value(), cells, i);
        results, seen, full, covered := AdaptiveCell(origin, ring, cells[i], targetCount, results, seen, covered);
        if full {
          return;
        }
      }
      assert cells[..|cells|] == cells;
      forall id | id in driverToCell ensures id in covered <==> Ring(Value(), geo, origin, id) <= ring {
        DiskResidents(Value(), geo, origin, ring, id);
      }
      SweepNextRing(Value(), geo, origin, IdleIds(), ring, covered, Ids(results));
    }

    method AdaptiveCell(ghost origin: Cell, ghost ring: nat, c: Cell, targetCount: nat, found: seq<Driver>, seenBefore: set<string>, ghost before: set<string>)
      returns (results: seq<Driver>, seen: set<string>, full: bool, ghost covered: set<string>)
      requires Valid() && geo.gridDistance(origin, c) <= ring
      requires Sweep(Value(), geo, origin, IdleIds(), ring, before, Ids(found))
      requires forall d :: d in found ==> IdleSnapshot(d)
      requires |found| < targetCount || found == []
      requires forall id :: id in seenBefore <==> id in Ids(found)
      ensures forall id :: id in seen <==> id in Ids(results)
      ensures forall d :: d in results ==> IdleSnapshot(d)
      ensures Sweep(Value(), geo, origin, IdleIds(), ring, covered, Ids(results))
      ensures full ==> |results| >= targetCount && (|results| <= targetCount || |results| <= 1)
      ensures !full ==> covered == before + InCell(cellToDrivers, c).Keys && (|results| < targetCount || results == [])
    {
      results, seen, full, covered := found, seenBefore, false, before;
      ghost var idle, ids := IdleIds(), Ids(found);
      var here := if c in cellToDrivers then cellToDrivers[c] else map[];
      var todo := here.Keys;
      while todo != {}
        invariant todo <= here.Keys && covered == before + (here.Keys - todo)
        invariant ids == Ids(results) && Sweep(Value(), geo, origin, idle, ring, covered, ids)
        invariant forall d :: d in results ==> IdleSnapshot(d)
        invariant |ids| < targetCount || ids == []
        invariant forall id :: id in seen <==> id in ids
      {
        var key :| key in todo;
        FoundInCell(Value(), c, key);
        OneMore(before, here.Keys, todo, key);
        SweepOn(Value(), geo, origin, idle, ring, covered, ids, key);
        var driver := here[key];
        assert key in idle <==> driver.status == Idle;
        todo := todo - {key};
        covered := covered + {key};
        if driver.status == Idle && driver.id !in seen {
          IdsAppend(results, driver);
          results, seen, ids := results + [driver], seen + {driver.id}, ids + [driver.id];
          if |results| >= targetCount {
            full := true;
            return;
          }
        }
      }
    }
  }
}
