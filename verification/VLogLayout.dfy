/**
 * The layout planner (LayoutPlanner in src/vlog/format.rs): where records, page headers, file headers
 * and page fillers go, from any position the planner can be in.
 */
module VLogLayout {
  import opened Basics
  import opened Index
  import opened Topology
  import opened VLogCodec

  datatype Prelude =
    | PageHeaderAt(position: Pos, page: nat)
    | FileHeaderAt(position: Pos)
    | PageEndAt(position: Pos, len: nat)

  function PreludeLen(p: Prelude): nat {
    match p
    case PageHeaderAt(_, _) => PAGE_HEADER_LEN
    case FileHeaderAt(_) => FILE_HEADER_LEN
    case PageEndAt(_, len) => len
  }

  datatype Placement = Placement(preludes: seq<Prelude>, start: Pos, len: nat)

  // ---------------------------------------------------------------- page arithmetic

  function Remaining(offset: nat, g: Geometry): int
    requires GeometryValid(g)
  {
    PageEndOf(offset, g) - offset
  }

  lemma {:induction false} TimesGrows(a: nat, b: nat, m: nat)
    ensures a < b ==> m * a + m <= m * b
  {
    if a < b {
      var d := b - a - 1;
      assert m * (a + 1 + d) == m * a + m + m * d;
      assert m * d >= 0;
    }
  }

  lemma {:induction false} DivisionIsUnique(n: nat, m: nat, q: nat, r: nat)
    requires m > 0 && r < m && n == m * q + r
    ensures n / m == q && n % m == r
  {
    assert n == m * (n / m) + n % m;
    TimesGrows(n / m, q, m);
    TimesGrows(q, n / m, m);
  }

  lemma {:induction false} ShiftWithin(n: nat, k: nat, m: nat)
    requires m > 0 && n % m + k < m
    ensures (n + k) / m == n / m && (n + k) % m == n % m + k
  {
    assert n == m * (n / m) + n % m;
    DivisionIsUnique(n + k, m, n / m, n % m + k);
  }

  /** Where the page of `n` starts and ends. */
  lemma {:induction false} PageBounds(n: nat, m: nat)
    requires m > 0
    ensures n - n % m >= 0 && (n - n % m) % m == 0 && (n - n % m + m) % m == 0
    ensures (n / m + 1) * m == n - n % m + m
  {
    assert n == m * (n / m) + n % m;
    DivisionIsUnique(n - n % m, m, n / m, 0);
    assert (n / m + 1) * m == m * (n / m) + m;
    DivisionIsUnique(n - n % m + m, m, n / m + 1, 0);
  }

  /** Two different multiples are at least one step apart. */
  lemma {:induction false} MultiplesAreApart(a: nat, b: nat, m: nat)
    requires m > 0 && a % m == 0 && b % m == 0 && a < b
    ensures a + m <= b
  {
    assert a == m * (a / m) && b == m * (b / m);
    TimesGrows(a / m, b / m, m);
    TimesGrows(b / m, a / m, m);
  }

  lemma {:induction false} PageEndForm(offset: nat, g: Geometry)
    requires GeometryValid(g)
    ensures PageEndOf(offset, g) == offset - offset % g.pageSize + g.pageSize
    ensures offset < PageEndOf(offset, g) <= offset + g.pageSize
  {
    PageBounds(offset, g.pageSize);
  }

  lemma {:induction false} PageEndIsBoundary(offset: nat, g: Geometry)
    requires GeometryValid(g)
    ensures PageEndOf(offset, g) % g.pageSize == 0
    ensures offset < g.maxFileSize ==> PageEndOf(offset, g) <= g.maxFileSize
  {
    PageBounds(offset, g.pageSize);
    if offset < g.maxFileSize {
      MultiplesAreApart(offset - offset % g.pageSize, g.maxFileSize, g.pageSize);
    }
  }

  /** Moving within a page keeps the page end. */
  lemma {:induction false} SamePage(offset: nat, k: nat, g: Geometry)
    requires GeometryValid(g) && offset % g.pageSize + k < g.pageSize
    ensures PageEndOf(offset + k, g) == PageEndOf(offset, g)
    ensures (offset + k) % g.pageSize == offset % g.pageSize + k
  {
    ShiftWithin(offset, k, g.pageSize);
  }

  // ---------------------------------------------------------------- planning

  /** The next place a byte can go: a full file continues at the start of the next one. */
  predicate Exhausted(p: Pos, g: Geometry) {
    p.offset == g.maxFileSize && p.file >= g.maxFileId
  }

  function NextChunkStart(p: Pos, g: Geometry): Pos {
    if p.offset == g.maxFileSize then Pos(p.file + 1, 0) else p
  }

  /** ensure_record_area: skips over a page boundary, writing its headers. */
  function EnsureArea(p: Pos, g: Geometry): Result<(Pos, seq<Prelude>)>
    requires GeometryValid(g)
  {
    if Exhausted(p, g) then Err(CapacityExceeded) else EnterArea(NextChunkStart(p, g), g)
  }

  function EnterArea(q: Pos, g: Geometry): Result<(Pos, seq<Prelude>)>
    requires GeometryValid(g)
  {
    var entered := AreaPosition(q, g);
    if RecordStartValid(entered, g) then Ok((entered, BoundaryPreludes(q, g))) else Err(InvalidLayout)
  }

  function AreaPosition(q: Pos, g: Geometry): Pos
    requires GeometryValid(g)
  {
    if q.offset == 0 then Pos(q.file, FIRST_AREA_START)
    else if q.offset % g.pageSize == 0 then Pos(q.file, q.offset + OTHER_AREA_START)
    else q
  }

  function BoundaryPreludes(q: Pos, g: Geometry): seq<Prelude>
    requires GeometryValid(g)
  {
    if q.offset == 0 then [PageHeaderAt(q, 0), FileHeaderAt(Pos(q.file, PAGE_HEADER_LEN))]
    else if q.offset % g.pageSize == 0 then [PageHeaderAt(q, q.offset / g.pageSize)]
    else []
  }

  predicate NeedsPageEnd(remaining: int, len: nat) {
    len > remaining || 1 <= remaining - len <= 42
  }

  /** plan_record: the placement of one record and the position after it. */
  function PlanRecord(p: Pos, len: nat, g: Geometry): Result<(Placement, Pos)>
    requires GeometryValid(g)
  {
    if len < PAGE_END_MIN_LEN || len > g.pageSize then Err(InvalidArgument)
    else
      var (at, preludes) :- EnsureArea(p, g);
      var remaining := Remaining(at.offset, g);
      if !NeedsPageEnd(remaining, len) then PlaceAt(at, preludes, len, g)
      else if remaining < PAGE_END_MIN_LEN then Err(InvalidLayout)
      else
        var (next, more) :- EnsureArea(Pos(at.file, at.offset + remaining), g);
        PlaceAt(next, preludes + [PageEndAt(at, remaining)] + more, len, g)
  }

  function PlaceAt(at: Pos, preludes: seq<Prelude>, len: nat, g: Geometry): Result<(Placement, Pos)>
    requires GeometryValid(g)
  {
    var remaining := Remaining(at.offset, g);
    if len > remaining then Err(InvalidArgument)
    else if 0 < remaining - len < PAGE_END_MIN_LEN then Err(InvalidLayout)
    else if at.offset + len > g.maxFileSize then Err(CapacityExceeded)
    else Ok((Placement(preludes, at, len), Pos(at.file, at.offset + len)))
  }

  /** The planner object: a failed call leaves its position unchanged. */
  class LayoutPlanner {
    const geometry: Geometry
    var position: Pos

    constructor (geometry: Geometry, position: Pos)
      ensures this.geometry == geometry && this.position == position
    {
      this.geometry := geometry;
      this.position := position;
    }

    method EnsureRecordArea() returns (r: Result<seq<Prelude>>)
      requires GeometryValid(geometry)
      modifies this
      ensures var e := EnsureArea(old(position), geometry);
              if e.Ok? then r == Ok(e.value.1) && position == e.value.0 else r.Err? && r.error == e.error
    {
      if position.offset == geometry.maxFileSize {
        if position.file >= geometry.maxFileId {
          return Err(CapacityExceeded);
        }
        position := Pos(position.file + 1, 0);
      }
      ghost var q := position;
      var preludes: seq<Prelude> := [];
      if position.offset == 0 {
        preludes := preludes + [PageHeaderAt(position, 0)];
        preludes := preludes + [FileHeaderAt(Pos(position.file, PAGE_HEADER_LEN))];
        position := Pos(position.file, FIRST_AREA_START);
      } else if position.offset % geometry.pageSize == 0 {
        preludes := preludes + [PageHeaderAt(position, position.offset / geometry.pageSize)];
        position := Pos(position.file, position.offset + OTHER_AREA_START);
      }
      assert position == AreaPosition(q, geometry);
      assert preludes == BoundaryPreludes(q, geometry);
      if !RecordStartValid(position, geometry) {
        return Err(InvalidLayout);
      }
      return Ok(preludes);
    }

    method Plan(len: nat) returns (r: Result<Placement>)
      requires GeometryValid(geometry)
      modifies this
      ensures var e := PlanRecord(old(position), len, geometry);
              if e.Ok? then r == Ok(e.value.0) && position == e.value.1
              else r.Err? && r.error == e.error && position == old(position)
    {
      if len < PAGE_END_MIN_LEN || len > geometry.pageSize {
        return Err(InvalidArgument);
      }
      var candidate := new LayoutPlanner(geometry, position);
      r := candidate.PlanInner(len);
      if r.Ok? {
        position := candidate.position;
      }
    }

    method PlanInner(len: nat) returns (r: Result<Placement>)
      requires GeometryValid(geometry) && PAGE_END_MIN_LEN <= len <= geometry.pageSize
      modifies this
      ensures var e := PlanRecord(old(position), len, geometry);
              if e.Ok? then r == Ok(e.value.0) && position == e.value.1 else r.Err? && r.error == e.error
    {
      var preludes :- EnsureRecordArea();
      var remaining := Remaining(position.offset, geometry);
      if len > remaining || 1 <= remaining - len <= 42 {
        if remaining < PAGE_END_MIN_LEN {
          return Err(InvalidLayout);
        }
        preludes := preludes + [PageEndAt(position, remaining)];
        position := Pos(position.file, position.offset + remaining);
        var more :- EnsureRecordArea();
        preludes := preludes + more;
      }
      r := PlaceHere(preludes, len);
    }

    /** The last checks, and the step over the record. */
    method PlaceHere(preludes: seq<Prelude>, len: nat) returns (r: Result<Placement>)
      requires GeometryValid(geometry)
      modifies this
      ensures var e := PlaceAt(old(position), preludes, len, geometry);
              if e.Ok? then r == Ok(e.value.0) && position == e.value.1 else r.Err? && r.error == e.error
    {
      var remaining := Remaining(position.offset, geometry);
      if len > remaining {
        return Err(InvalidArgument);
      }
      var after := remaining - len;
      if after != 0 && after < PAGE_END_MIN_LEN {
        return Err(InvalidLayout);
      }
      if position.offset + len > geometry.maxFileSize {
        return Err(CapacityExceeded);
      }
      var start := position;
      position := Pos(position.file, position.offset + len);
      return Ok(Placement(preludes, start, len));
    }
  }

  // ---------------------------------------------------------------- reachable positions

  /** Where the planner can be: at a page boundary, or in a record area with room for a filler. */
  predicate Reachable(p: Pos, g: Geometry)
    requires GeometryValid(g)
  {
    && p.file <= g.maxFileId && p.offset <= g.maxFileSize
    && (p.offset % g.pageSize == 0
        || (p.offset % g.pageSize >= AreaStart(p.offset, g) && Remaining(p.offset, g) >= PAGE_END_MIN_LEN))
  }

  /** Every record the store writes leaves room for a filler on a fresh page. */
  predicate Placeable(len: nat, g: Geometry) {
    PAGE_END_MIN_LEN <= len && len + FIRST_AREA_START + PAGE_END_MIN_LEN <= g.pageSize
  }

  /** The record is inside the record area of one page, and ends where the planner can go on. */
  predicate PlacedWell(placement: Placement, after: Pos, g: Geometry)
    requires GeometryValid(g)
  {
    && RecordBoundsValid(placement.len, placement.start, g)
    && after == Pos(placement.start.file, placement.start.offset + placement.len) && Reachable(after, g)
  }

  /** From a page boundary a fresh page is entered, unless the file ids are used up. */
  lemma {:induction false} FreshPage(p: Pos, len: nat, g: Geometry)
    requires GeometryValid(g) && Reachable(p, g) && p.offset % g.pageSize == 0 && Placeable(len, g)
    ensures EnsureArea(p, g).Ok? <==> !Exhausted(p, g)
    ensures !Exhausted(p, g) ==>
              var at := EnsureArea(p, g).value.0;
              && RecordStartValid(at, g) && at.file <= g.maxFileId && !NeedsPageEnd(Remaining(at.offset, g), len)
              && Remaining(at.offset, g) == g.pageSize - AreaStart(at.offset, g)
              && PageEndOf(at.offset, g) <= g.maxFileSize
              && at.offset % g.pageSize == AreaStart(at.offset, g)
  {
    if !Exhausted(p, g) {
      var q := NextChunkStart(p, g);
      if q.offset < g.maxFileSize { MultiplesAreApart(q.offset, g.maxFileSize, g.pageSize); }
      if q.offset > 0 { MultiplesAreApart(0, q.offset, g.pageSize); }
      var k := if q.offset == 0 then FIRST_AREA_START else OTHER_AREA_START;
      ShiftWithin(q.offset, k, g.pageSize);
      PageEndForm(q.offset + k, g);
      PageEndIsBoundary(q.offset + k, g);
    }
  }

  lemma {:induction false} PlacedInPage(at: Pos, preludes: seq<Prelude>, len: nat, g: Geometry)
    requires GeometryValid(g) && RecordStartValid(at, g) && len > 0 && !NeedsPageEnd(Remaining(at.offset, g), len)
    ensures PlaceAt(at, preludes, len, g)
         == Ok((Placement(preludes, at, len), Pos(at.file, at.offset + len)))
    ensures PlacedWell(Placement(preludes, at, len), Pos(at.file, at.offset + len), g)
  {
    PageEndForm(at.offset, g);
    PageEndIsBoundary(at.offset, g);
    if len < Remaining(at.offset, g) {
      SamePage(at.offset, len, g);
      AreaStartGrows(at.offset, len, g);
    } else {
      assert at.offset + len == PageEndOf(at.offset, g);
    }
  }

  lemma {:induction false} AreaStartGrows(offset: nat, k: nat, g: Geometry)
    requires GeometryValid(g)
    ensures AreaStart(offset + k, g) <= AreaStart(offset, g)
  {
  }

  /** A record may use up its page, or leave at least the room of a filler. */
  predicate StaysInPage(room: int, len: nat) {
    len == room || len + PAGE_END_MIN_LEN <= room
  }

  /** When the planner must refuse: the record does not fit before the end of the last file. */
  predicate NoRoom(p: Pos, len: nat, g: Geometry)
    requires GeometryValid(g)
  {
    && p.file == g.maxFileId
    && (p.offset == g.maxFileSize
        || (p.offset % g.pageSize != 0 && PageEndOf(p.offset, g) == g.maxFileSize && !StaysInPage(Remaining(p.offset, g), len)))
  }

  /**
   * Planner totality: from every reachable position, every placeable length is placed inside one
   * page's record area and leaves a reachable position, unless the file ids are used up; and that is
   * the only refusal.
   */
  lemma {:induction false} PlannerIsTotal(p: Pos, len: nat, g: Geometry)
    requires GeometryValid(g) && Reachable(p, g) && Placeable(len, g)
    ensures var r := PlanRecord(p, len, g);
            && (r.Err? <==> NoRoom(p, len, g)) && (r.Err? ==> r.error == CapacityExceeded)
            && (r.Ok? ==> PlacedWell(r.value.0, r.value.1, g) && r.value.0.len == len)
  {
    PageEndForm(p.offset, g);
    if p.offset % g.pageSize == 0 {
      FreshPage(p, len, g);
      if !Exhausted(p, g) {
        var e := EnsureArea(p, g).value;
        PlacedInPage(e.0, e.1, len, g);
      }
    } else {
      InsidePage(p, g);
      if !NeedsPageEnd(Remaining(p.offset, g), len) {
        PlacedInPage(p, [], len, g);
      } else {
        AfterFiller(p, len, g);
      }
    }
  }

  /** A reachable position inside a page needs no header. */
  lemma {:induction false} InsidePage(p: Pos, g: Geometry)
    requires GeometryValid(g) && Reachable(p, g) && p.offset % g.pageSize != 0
    ensures EnsureArea(p, g) == Ok((p, [])) && p.offset < g.maxFileSize && RecordStartValid(p, g)
    ensures Remaining(p.offset, g) >= PAGE_END_MIN_LEN && PageEndOf(p.offset, g) <= g.maxFileSize
  {
    DivisionIsUnique(0, g.pageSize, 0, 0);
    assert p.offset != g.maxFileSize;
    assert NextChunkStart(p, g) == p;
    assert AreaPosition(p, g) == p && BoundaryPreludes(p, g) == [];
    PageEndIsBoundary(p.offset, g);
  }

  lemma {:induction false} AfterFiller(p: Pos, len: nat, g: Geometry)
    requires GeometryValid(g) && Reachable(p, g) && p.offset % g.pageSize != 0 && Placeable(len, g)
    requires NeedsPageEnd(Remaining(p.offset, g), len)
    ensures var r := PlanRecord(p, len, g);
            && (r.Err? <==> NoRoom(p, len, g)) && (r.Err? ==> r.error == CapacityExceeded)
            && (r.Ok? ==> PlacedWell(r.value.0, r.value.1, g) && r.value.0.len == len)
  {
    InsidePage(p, g);
    PageEndForm(p.offset, g);
    PageEndIsBoundary(p.offset, g);
    var q := Pos(p.file, PageEndOf(p.offset, g));
    FreshPage(q, len, g);
    if !Exhausted(q, g) {
      var e := EnsureArea(q, g).value;
      PlacedInPage(e.0, [PageEndAt(p, Remaining(p.offset, g))] + e.1, len, g);
      assert [] + [PageEndAt(p, Remaining(p.offset, g))] + e.1 == [PageEndAt(p, Remaining(p.offset, g))] + e.1;
    }
  }

  // ---------------------------------------------------------------- the shape of a placement

  /** `start` and `preludes` are what crossing the page boundary `b` gives. */
  predicate Entered(b: Pos, start: Pos, preludes: seq<Prelude>, g: Geometry)
    requires GeometryValid(g)
  {
    && Reachable(b, g) && b.offset % g.pageSize == 0 && !Exhausted(b, g)
    && preludes == BoundaryPreludes(NextChunkStart(b, g), g) && start == AreaPosition(NextChunkStart(b, g), g)
  }

  /**
   * A record goes on in its page exactly if it uses it up or leaves room for a filler; otherwise it goes
   * on the next page after one filler. At a page boundary it enters the page.
   */
  predicate PlacementShape(p: Pos, placement: Placement, g: Geometry)
    requires GeometryValid(g)
  {
    if p.offset % g.pageSize == 0 then Entered(p, placement.start, placement.preludes, g)
    else if StaysInPage(Remaining(p.offset, g), placement.len) then placement.preludes == [] && placement.start == p
    else
      && placement.preludes != [] && placement.preludes[0] == PageEndAt(p, Remaining(p.offset, g))
      && Entered(Pos(p.file, PageEndOf(p.offset, g)), placement.start, placement.preludes[1..], g)
  }

  lemma {:induction false} PlacementHasShape(p: Pos, len: nat, g: Geometry)
    requires GeometryValid(g) && Reachable(p, g) && Placeable(len, g) && PlanRecord(p, len, g).Ok?
    ensures PlacementShape(p, PlanRecord(p, len, g).value.0, g)
    ensures PlacedWell(PlanRecord(p, len, g).value.0, PlanRecord(p, len, g).value.1, g)
    ensures PlanRecord(p, len, g).value.0.len == len
  {
    PlannerIsTotal(p, len, g);
    if p.offset % g.pageSize == 0 {
      FreshPage(p, len, g);
      var e := EnsureArea(p, g).value;
      PlacedInPage(e.0, e.1, len, g);
    } else {
      InsidePage(p, g);
      if !NeedsPageEnd(Remaining(p.offset, g), len) {
        PlacedInPage(p, [], len, g);
      } else {
        PageEndForm(p.offset, g);
        PageEndIsBoundary(p.offset, g);
        var q := Pos(p.file, PageEndOf(p.offset, g));
        FreshPage(q, len, g);
        var e := EnsureArea(q, g).value;
        var preludes := [] + [PageEndAt(p, Remaining(p.offset, g))] + e.1;
        PlacedInPage(e.0, preludes, len, g);
        assert preludes[1..] == e.1;
      }
    }
  }

  /** Crossing a boundary only moves forward. */
  lemma {:induction false} EnteredAdvances(b: Pos, start: Pos, preludes: seq<Prelude>, g: Geometry)
    requires GeometryValid(g) && Entered(b, start, preludes, g)
    ensures PosLess(b, start)
  {
  }

  /** Planning only moves forward: every record lies between the positions around it. */
  lemma {:induction false} PlanAdvances(p: Pos, len: nat, g: Geometry)
    requires GeometryValid(g) && Reachable(p, g) && Placeable(len, g) && PlanRecord(p, len, g).Ok?
    ensures PosLeq(p, PlanRecord(p, len, g).value.0.start) && PosLess(p, PlanRecord(p, len, g).value.1)
  {
    PlacementHasShape(p, len, g);
    var placement := PlanRecord(p, len, g).value.0;
    if p.offset % g.pageSize == 0 {
      EnteredAdvances(p, placement.start, placement.preludes, g);
    } else if placement.preludes != [] {
      PageEndForm(p.offset, g);
      EnteredAdvances(Pos(p.file, PageEndOf(p.offset, g)), placement.start, placement.preludes[1..], g);
    }
  }

  // ---------------------------------------------------------------- tiling

  /** The physical extents of a placement, in order: its preludes and its record. */
  function Extents(placement: Placement): seq<(Pos, nat)> {
    seq(|placement.preludes|, i requires 0 <= i < |placement.preludes| =>
          (placement.preludes[i].position, PreludeLen(placement.preludes[i])))
    + [(placement.start, placement.len)]
  }

  /** The extents follow each other from `p` to `end` without gap or overlap, rolling over full files. */
  predicate Tiles(p: Pos, extents: seq<(Pos, nat)>, end: Pos, g: Geometry)
    decreases |extents|
  {
    if extents == [] then p == end
    else
      var (at, len) := extents[0];
      && at == NextChunkStart(p, g) && len > 0 && at.offset + len <= g.maxFileSize
      && Tiles(Pos(at.file, at.offset + len), extents[1..], end, g)
  }

  lemma {:induction false} TilesConcat(p: Pos, a: seq<(Pos, nat)>, mid: Pos, b: seq<(Pos, nat)>, end: Pos, g: Geometry)
    requires Tiles(p, a, mid, g) && Tiles(mid, b, end, g)
    ensures Tiles(p, a + b, end, g)
    decreases |a|
  {
    if a == [] {
      assert a + b == b;
    } else {
      assert (a + b)[1..] == a[1..] + b;
      TilesConcat(Pos(a[0].0.file, a[0].0.offset + a[0].1), a[1..], mid, b, end, g);
    }
  }

  lemma {:induction false} EnteredTiles(b: Pos, start: Pos, len: nat, preludes: seq<Prelude>, g: Geometry)
    requires GeometryValid(g) && Entered(b, start, preludes, g) && 0 < len && start.offset + len <= g.maxFileSize
    ensures Tiles(b, Extents(Placement(preludes, start, len)), Pos(start.file, start.offset + len), g)
  {
    var q := NextChunkStart(b, g);
    var x := Extents(Placement(preludes, start, len));
    var end := Pos(start.file, start.offset + len);
    assert Tiles(end, [], end, g);
    if q.offset == 0 {
      assert x == [(q, PAGE_HEADER_LEN), (Pos(q.file, PAGE_HEADER_LEN), FILE_HEADER_LEN), (start, len)];
      var y: seq<(Pos, nat)> := x[1..];
      var z: seq<(Pos, nat)> := y[1..];
      assert z == [(start, len)] && z[1..] == [];
      assert Tiles(start, z, end, g);
      assert Tiles(Pos(q.file, PAGE_HEADER_LEN), y, end, g);
    } else {
      assert x == [(q, PAGE_HEADER_LEN), (start, len)];
      var y: seq<(Pos, nat)> := x[1..];
      assert y == [(start, len)] && y[1..] == [];
      assert Tiles(start, y, end, g);
    }
  }

  /** Tiling: preludes and record cover exactly the space between the positions before and after. */
  lemma {:induction false} PlacementTiles(p: Pos, len: nat, g: Geometry)
    requires GeometryValid(g) && Reachable(p, g) && Placeable(len, g) && PlanRecord(p, len, g).Ok?
    ensures Tiles(p, Extents(PlanRecord(p, len, g).value.0), PlanRecord(p, len, g).value.1, g)
  {
    PlacementHasShape(p, len, g);
    var (placement, after) := PlanRecord(p, len, g).value;
    if p.offset % g.pageSize == 0 {
      EnteredTiles(p, placement.start, len, placement.preludes, g);
    } else if placement.preludes == [] {
      InsidePage(p, g);
      assert Extents(placement) == [(p, len)];
      assert |Extents(placement)[1..]| == 0;
      assert Tiles(after, [], after, g);
    } else {
      InsidePage(p, g);
      var b := Pos(p.file, PageEndOf(p.offset, g));
      var rest := Placement(placement.preludes[1..], placement.start, len);
      EnteredTiles(b, placement.start, len, rest.preludes, g);
      assert Extents(placement)[0] == (p, Remaining(p.offset, g));
      assert Extents(placement)[1..] == Extents(rest);
    }
  }
}
