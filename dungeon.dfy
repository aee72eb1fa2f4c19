/** The dungeon generator: an integer wall/floor grid (0 = wall, 1 = floor)
    carved with up to 15 non-overlapping random rooms, each joined to the
    previously accepted room by an L-shaped corridor, and the walkability
    query the combat movement uses. */
module Dungeon {
  import opened Common

  const RoomMinSize: int := 4
  const RoomMaxSize: int := 10
  const MaxRooms: int := 15

  const Wall: int := 0
  const Floor: int := 1

  /** A rectangle of cells [x, x + width) x [z, z + height). */
  datatype Room = Room(x: int, z: int, width: int, height: int)
  {
    function CenterX(): int { x + JavaDiv(width, 2) }

    function CenterZ(): int { z + JavaDiv(height, 2) }

    predicate Contains(i: int, j: int)
    {
      x <= i < x + width && z <= j < z + height
    }

    /** Rooms intersect unless there is a gap of at least one cell between
        them on some axis: touching rooms count as intersecting. */
    predicate Intersects(other: Room)
    {
      !(x + width < other.x || other.x + other.width < x ||
        z + height < other.z || other.z + other.height < z)
    }
  }

  /** Cell p of room a and cell q of room b are at most one step apart on each axis. */
  predicate NearCells(a: Room, b: Room, px: int, pz: int, qx: int, qz: int)
  {
    a.Contains(px, pz) && b.Contains(qx, qz) &&
    -1 <= px - qx <= 1 && -1 <= pz - qz <= 1
  }

  function Clamp(v: int, lo: int, hi: int): int
  {
    if v < lo then lo else if v > hi then hi else v
  }

  /** For non-empty rooms, Intersects holds exactly when some cell of one
      touches (or is) some cell of the other, diagonals included. */
  lemma IntersectsIffNear(a: Room, b: Room)
    requires a.width >= 1 && a.height >= 1 && b.width >= 1 && b.height >= 1
    ensures a.Intersects(b) <==>
      exists px, pz, qx, qz :: NearCells(a, b, px, pz, qx, qz)
  {
    if a.Intersects(b) {
      var px := Clamp(b.x, a.x, a.x + a.width - 1);
      var pz := Clamp(b.z, a.z, a.z + a.height - 1);
      var qx := Clamp(px, b.x, b.x + b.width - 1);
      var qz := Clamp(pz, b.z, b.z + b.height - 1);
      assert NearCells(a, b, px, pz, qx, qz);
    }
  }

  lemma IntersectsSymmetric(a: Room, b: Room)
    ensures a.Intersects(b) <==> b.Intersects(a)
  {
  }

  /** The centre of a non-empty room is one of its cells. */
  lemma CenterInside(r: Room)
    requires r.width >= 1 && r.height >= 1
    ensures r.Contains(r.CenterX(), r.CenterZ())
  {
  }

  /** The four Random.nextInt results createRandomRoom draws, in order. */
  datatype RoomDraw = RoomDraw(dw: int, dh: int, dx: int, dz: int)

  /** The draws are results nextInt can return for the bounds createRandomRoom passes. */
  predicate ValidDraw(d: RoomDraw, mapWidth: int, mapHeight: int)
  {
    0 <= d.dw < RoomMaxSize - RoomMinSize + 1 &&
    0 <= d.dh < RoomMaxSize - RoomMinSize + 1 &&
    0 <= d.dx < mapWidth - (d.dw + RoomMinSize) - 1 &&
    0 <= d.dz < mapHeight - (d.dh + RoomMinSize) - 1
  }

  /** A room with the size and placement bounds createRandomRoom guarantees. */
  predicate WellPlaced(r: Room, mapWidth: int, mapHeight: int)
  {
    RoomMinSize <= r.width <= RoomMaxSize && RoomMinSize <= r.height <= RoomMaxSize &&
    0 <= r.x && r.x + r.width <= mapWidth - 2 &&
    0 <= r.z && r.z + r.height <= mapHeight - 2
  }

  function CreateRandomRoom(mapWidth: int, mapHeight: int, d: RoomDraw): (r: Room)
    requires ValidDraw(d, mapWidth, mapHeight)
    ensures WellPlaced(r, mapWidth, mapHeight)
  {
    var width := d.dw + RoomMinSize;
    var height := d.dh + RoomMinSize;
    Room(d.dx, d.dz, width, height)
  }

  /** Conversely, every well-placed room is produced by some valid draw. */
  lemma EveryWellPlacedRoomIsDrawn(mapWidth: int, mapHeight: int, r: Room)
    requires WellPlaced(r, mapWidth, mapHeight)
    ensures exists d :: ValidDraw(d, mapWidth, mapHeight) && CreateRandomRoom(mapWidth, mapHeight, d) == r
  {
    var d := RoomDraw(r.width - RoomMinSize, r.height - RoomMinSize, r.x, r.z);
    assert ValidDraw(d, mapWidth, mapHeight) && CreateRandomRoom(mapWidth, mapHeight, d) == r;
  }

  /** The candidate room of each iteration of the placement loop. */
  function Candidates(mapWidth: int, mapHeight: int, draws: seq<RoomDraw>): (rs: seq<Room>)
    requires forall k :: 0 <= k < |draws| ==> ValidDraw(draws[k], mapWidth, mapHeight)
    ensures |rs| == |draws|
    ensures forall k :: 0 <= k < |rs| ==> WellPlaced(rs[k], mapWidth, mapHeight)
  {
    seq(|draws|, k requires 0 <= k < |draws| => CreateRandomRoom(mapWidth, mapHeight, draws[k]))
  }

  predicate OverlapsAny(room: Room, rooms: seq<Room>)
  {
    exists k :: 0 <= k < |rooms| && room.Intersects(rooms[k])
  }

  /** The rooms the placement loop keeps: each candidate in turn, unless it
      intersects a room kept before it. */
  function Accepted(candidates: seq<Room>): seq<Room>
    decreases |candidates|
  {
    if |candidates| == 0 then []
    else
      var kept := Accepted(candidates[..|candidates| - 1]);
      var room := candidates[|candidates| - 1];
      if OverlapsAny(room, kept) then kept else kept + [room]
  }

  predicate PairwiseSeparate(rooms: seq<Room>)
  {
    forall i, j :: 0 <= i < j < |rooms| ==> !rooms[i].Intersects(rooms[j])
  }

  /** No more rooms are kept than were drawn, every kept room is one of the
      candidates, and no two kept rooms intersect. */
  lemma {:induction false} AcceptedProperties(candidates: seq<Room>)
    ensures |Accepted(candidates)| <= |candidates|
    ensures forall r :: r in Accepted(candidates) ==> r in candidates
    ensures PairwiseSeparate(Accepted(candidates))
    decreases |candidates|
  {
    if |candidates| > 0 {
      var n := |candidates| - 1;
      AcceptedProperties(candidates[..n]);
      var kept := Accepted(candidates[..n]);
      if !OverlapsAny(candidates[n], kept) {
        forall i | 0 <= i < |kept|
          ensures !kept[i].Intersects(candidates[n])
        {
          IntersectsSymmetric(kept[i], candidates[n]);
        }
      }
    }
  }

  /** The first candidate is always kept. */
  lemma FirstCandidateAccepted(candidates: seq<Room>)
    requires |candidates| >= 1
    ensures |Accepted(candidates)| >= 1 && Accepted(candidates)[0] == candidates[0]
  {
    AcceptedFirst(candidates, |candidates|);
  }

  lemma {:induction false} AcceptedFirst(candidates: seq<Room>, n: nat)
    requires 1 <= n <= |candidates|
    ensures |Accepted(candidates[..n])| >= 1 && Accepted(candidates[..n])[0] == candidates[0]
    decreases n
  {
    if n == 1 {
      assert Accepted(candidates[..1][..0]) == [];
    } else {
      AcceptedFirst(candidates, n - 1);
      assert candidates[..n][..n - 1] == candidates[..n - 1];
    }
    if n == |candidates| {
      assert candidates[..n] == candidates;
    }
  }

  /** The cells carveCorridor sets: row z1 between x1 and x2, then column x2 between z1 and z2. */
  predicate OnCorridor(x1: int, z1: int, x2: int, z2: int, i: int, j: int)
  {
    (j == z1 && (x1 <= i <= x2 || x2 <= i <= x1)) ||
    (i == x2 && (z1 <= j <= z2 || z2 <= j <= z1))
  }

  predicate OnLink(a: Room, b: Room, i: int, j: int)
  {
    OnCorridor(a.CenterX(), a.CenterZ(), b.CenterX(), b.CenterZ(), i, j)
  }

  /** Whether carving the given rooms (and the corridors between consecutive
      ones) in order makes cell (i, j) floor. */
  function FloorAt(rooms: seq<Room>, i: int, j: int): bool
    decreases |rooms|
  {
    if |rooms| == 0 then false
    else
      var n := |rooms| - 1;
      FloorAt(rooms[..n], i, j) || rooms[n].Contains(i, j) ||
      (n > 0 && OnLink(rooms[n - 1], rooms[n], i, j))
  }

  /** Room k, or the corridor that joins it to room k - 1, covers (i, j). */
  predicate CarvedBy(rooms: seq<Room>, k: int, i: int, j: int)
  {
    0 <= k < |rooms| &&
    (rooms[k].Contains(i, j) || (k > 0 && OnLink(rooms[k - 1], rooms[k], i, j)))
  }

  /** A cell is floor exactly when some room or some corridor covers it. */
  lemma {:induction false} FloorAtIff(rooms: seq<Room>, i: int, j: int)
    ensures FloorAt(rooms, i, j) <==> exists k :: CarvedBy(rooms, k, i, j)
    decreases |rooms|
  {
    if |rooms| > 0 {
      var n := |rooms| - 1;
      FloorAtIff(rooms[..n], i, j);
      if FloorAt(rooms[..n], i, j) {
        var k :| CarvedBy(rooms[..n], k, i, j);
        assert CarvedBy(rooms, k, i, j);
      } else if FloorAt(rooms, i, j) {
        assert CarvedBy(rooms, n, i, j);
      }
      if k :| CarvedBy(rooms, k, i, j) {
        if k < n {
          assert CarvedBy(rooms[..n], k, i, j);
        } else {
          assert rooms[n].Contains(i, j) || (n > 0 && OnLink(rooms[n - 1], rooms[n], i, j));
        }
        assert FloorAt(rooms, i, j);
      }
    }
  }

  /** Carving never turns floor back into wall: more rooms, more floor. */
  lemma FloorAtGrows(rooms: seq<Room>, n: nat, i: int, j: int)
    requires n <= |rooms| && FloorAt(rooms[..n], i, j)
    ensures FloorAt(rooms, i, j)
  {
    FloorAtIff(rooms[..n], i, j);
    FloorAtIff(rooms, i, j);
    var k :| CarvedBy(rooms[..n], k, i, j);
    assert CarvedBy(rooms, k, i, j);
  }

  // ---------------------------------------------------------------------
  // Floor paths

  datatype Cell = Cell(x: int, z: int)

  /** 4-neighbourhood. */
  predicate Adjacent(a: Cell, b: Cell)
  {
    (a.x == b.x && (a.z - b.z == 1 || b.z - a.z == 1)) ||
    (a.z == b.z && (a.x - b.x == 1 || b.x - a.x == 1))
  }

  predicate IsWalk(p: seq<Cell>)
  {
    |p| >= 1 && forall k :: 0 <= k < |p| - 1 ==> Adjacent(p[k], p[k + 1])
  }

  predicate IsFloor(rooms: seq<Room>, width: int, height: int, c: Cell)
  {
    0 <= c.x < width && 0 <= c.z < height && FloorAt(rooms, c.x, c.z)
  }

  predicate FloorPath(rooms: seq<Room>, width: int, height: int, p: seq<Cell>, a: Cell, b: Cell)
  {
    IsWalk(p) && p[0] == a && p[|p| - 1] == b &&
    forall k :: 0 <= k < |p| ==> IsFloor(rooms, width, height, p[k])
  }

  ghost predicate Connected(rooms: seq<Room>, width: int, height: int, a: Cell, b: Cell)
  {
    exists p :: FloorPath(rooms, width, height, p, a, b)
  }

  function Reverse<T>(s: seq<T>): (r: seq<T>)
    ensures |r| == |s|
    ensures forall k :: 0 <= k < |s| ==> r[k] == s[|s| - 1 - k]
  {
    seq(|s|, k requires 0 <= k < |s| => s[|s| - 1 - k])
  }

  lemma PathReversed(rooms: seq<Room>, width: int, height: int, p: seq<Cell>, a: Cell, b: Cell)
    requires FloorPath(rooms, width, height, p, a, b)
    ensures FloorPath(rooms, width, height, Reverse(p), b, a)
  {
    var r := Reverse(p);
    forall k | 0 <= k < |r| - 1
      ensures Adjacent(r[k], r[k + 1])
    {
      assert Adjacent(p[|p| - 2 - k], p[|p| - 1 - k]);
    }
  }

  lemma PathJoined(rooms: seq<Room>, width: int, height: int, p: seq<Cell>, q: seq<Cell>, a: Cell, b: Cell, c: Cell)
    requires FloorPath(rooms, width, height, p, a, b)
    requires FloorPath(rooms, width, height, q, b, c)
    ensures FloorPath(rooms, width, height, p + q[1..], a, c)
  {
    var r := p + q[1..];
    forall k | 0 <= k < |r| - 1
      ensures Adjacent(r[k], r[k + 1])
    {
      if k < |p| - 1 {
        assert r[k] == p[k] && r[k + 1] == p[k + 1];
      } else {
        assert r[k] == q[k - |p| + 1] && r[k + 1] == q[k - |p| + 2];
      }
    }
    forall k | 0 <= k < |r|
      ensures IsFloor(rooms, width, height, r[k])
    {
      if k >= |p| {
        assert r[k] == q[k - |p| + 1];
      }
    }
  }

  /** The coordinates from `from` to `to`, one step at a time. */
  function Run(from: int, to: int): (r: seq<int>)
    ensures |r| >= 1 && r[0] == from && r[|r| - 1] == to
    ensures forall k :: 0 <= k < |r| - 1 ==> r[k + 1] - r[k] == 1 || r[k] - r[k + 1] == 1
    ensures forall k :: 0 <= k < |r| ==> from <= r[k] <= to || to <= r[k] <= from
    decreases if from <= to then to - from else from - to
  {
    if from == to then [from]
    else [from] + Run(if from < to then from + 1 else from - 1, to)
  }

  function Row(xs: seq<int>, z: int): (p: seq<Cell>)
    ensures |p| == |xs|
    ensures forall k :: 0 <= k < |xs| ==> p[k] == Cell(xs[k], z)
  {
    seq(|xs|, k requires 0 <= k < |xs| => Cell(xs[k], z))
  }

  function Column(x: int, zs: seq<int>): (p: seq<Cell>)
    ensures |p| == |zs|
    ensures forall k :: 0 <= k < |zs| ==> p[k] == Cell(x, zs[k])
  {
    seq(|zs|, k requires 0 <= k < |zs| => Cell(x, zs[k]))
  }

  /** The corridor as a walk: along row z1 to x2, then along column x2 to z2. */
  function CorridorWalk(x1: int, z1: int, x2: int, z2: int): seq<Cell>
  {
    Row(Run(x1, x2), z1) + Column(x2, Run(z1, z2))[1..]
  }

  /** The corridor walk is a 4-connected walk from (x1, z1) to (x2, z2) over corridor cells. */
  lemma CorridorWalkValid(x1: int, z1: int, x2: int, z2: int)
    ensures IsWalk(CorridorWalk(x1, z1, x2, z2))
    ensures CorridorWalk(x1, z1, x2, z2)[0] == Cell(x1, z1)
    ensures CorridorWalk(x1, z1, x2, z2)[|CorridorWalk(x1, z1, x2, z2)| - 1] == Cell(x2, z2)
    ensures forall k :: 0 <= k < |CorridorWalk(x1, z1, x2, z2)| ==>
      OnCorridor(x1, z1, x2, z2, CorridorWalk(x1, z1, x2, z2)[k].x, CorridorWalk(x1, z1, x2, z2)[k].z)
  {
    var xs, zs := Run(x1, x2), Run(z1, z2);
    var row, col := Row(xs, z1), Column(x2, zs);
    var p := CorridorWalk(x1, z1, x2, z2);
    assert p == row + col[1..];
    forall k | 0 <= k < |p| - 1
      ensures Adjacent(p[k], p[k + 1])
    {
      if k < |row| - 1 {
        assert p[k] == row[k] && p[k + 1] == row[k + 1];
      } else if k == |row| - 1 {
        assert p[k] == Cell(x2, z1) && p[k + 1] == col[1];
      } else {
        assert p[k] == col[k - |row| + 1] && p[k + 1] == col[k - |row| + 2];
      }
    }
    forall k | 0 <= k < |p|
      ensures OnCorridor(x1, z1, x2, z2, p[k].x, p[k].z)
    {
      if k < |row| {
        assert p[k] == row[k];
      } else {
        assert p[k] == col[k - |row| + 1];
      }
    }
    if |col| == 1 {
      assert p[|p| - 1] == row[|row| - 1];
    } else {
      assert p[|p| - 1] == col[|col| - 1];
    }
  }

  predicate AllWellPlaced(rooms: seq<Room>, width: int, height: int)
  {
    forall k :: 0 <= k < |rooms| ==> WellPlaced(rooms[k], width, height)
  }

  function CenterOf(r: Room): Cell { Cell(r.CenterX(), r.CenterZ()) }

  /** The corridor carved when room k was accepted joins its centre to that of room k - 1. */
  lemma LinkConnects(rooms: seq<Room>, width: int, height: int, k: int)
    requires 0 < k < |rooms| && AllWellPlaced(rooms, width, height)
    ensures FloorPath(rooms, width, height,
      CorridorWalk(rooms[k - 1].CenterX(), rooms[k - 1].CenterZ(), rooms[k].CenterX(), rooms[k].CenterZ()),
      CenterOf(rooms[k - 1]), CenterOf(rooms[k]))
  {
    var a, b := rooms[k - 1], rooms[k];
    CenterInside(a);
    CenterInside(b);
    var p := CorridorWalk(a.CenterX(), a.CenterZ(), b.CenterX(), b.CenterZ());
    CorridorWalkValid(a.CenterX(), a.CenterZ(), b.CenterX(), b.CenterZ());
    forall m | 0 <= m < |p|
      ensures IsFloor(rooms, width, height, p[m])
    {
      assert CarvedBy(rooms, k, p[m].x, p[m].z);
      FloorAtIff(rooms, p[m].x, p[m].z);
    }
  }

  /** Every room centre is floor-connected to the first room's centre. */
  lemma {:induction false} ConnectedToFirst(rooms: seq<Room>, width: int, height: int, k: int)
    requires 0 <= k < |rooms| && AllWellPlaced(rooms, width, height)
    ensures Connected(rooms, width, height, CenterOf(rooms[0]), CenterOf(rooms[k]))
    decreases k
  {
    if k == 0 {
      var r := rooms[0];
      CenterInside(r);
      assert CarvedBy(rooms, 0, r.CenterX(), r.CenterZ());
      FloorAtIff(rooms, r.CenterX(), r.CenterZ());
      assert FloorPath(rooms, width, height, [CenterOf(r)], CenterOf(r), CenterOf(r));
    } else {
      ConnectedToFirst(rooms, width, height, k - 1);
      var p :| FloorPath(rooms, width, height, p, CenterOf(rooms[0]), CenterOf(rooms[k - 1]));
      LinkConnects(rooms, width, height, k);
      var q := CorridorWalk(rooms[k - 1].CenterX(), rooms[k - 1].CenterZ(), rooms[k].CenterX(), rooms[k].CenterZ());
      PathJoined(rooms, width, height, p, q, CenterOf(rooms[0]), CenterOf(rooms[k - 1]), CenterOf(rooms[k]));
    }
  }

  /** Any two room centres are joined by a 4-connected path of in-bounds floor cells. */
  lemma CentersConnected(rooms: seq<Room>, width: int, height: int, i: int, j: int)
    requires 0 <= i < |rooms| && 0 <= j < |rooms| && AllWellPlaced(rooms, width, height)
    ensures Connected(rooms, width, height, CenterOf(rooms[i]), CenterOf(rooms[j]))
  {
    ConnectedToFirst(rooms, width, height, i);
    ConnectedToFirst(rooms, width, height, j);
    var p :| FloorPath(rooms, width, height, p, CenterOf(rooms[0]), CenterOf(rooms[i]));
    var q :| FloorPath(rooms, width, height, q, CenterOf(rooms[0]), CenterOf(rooms[j]));
    PathReversed(rooms, width, height, p, CenterOf(rooms[0]), CenterOf(rooms[i]));
    PathJoined(rooms, width, height, Reverse(p), q, CenterOf(rooms[i]), CenterOf(rooms[0]), CenterOf(rooms[j]));
  }

  lemma AcceptedWellPlaced(candidates: seq<Room>, width: int, height: int)
    requires AllWellPlaced(candidates, width, height)
    ensures AllWellPlaced(Accepted(candidates), width, height)
  {
    AcceptedProperties(candidates);
    forall k | 0 <= k < |Accepted(candidates)|
      ensures WellPlaced(Accepted(candidates)[k], width, height)
    {
      var r := Accepted(candidates)[k];
      assert r in candidates;
    }
  }

  /** The rooms a dungeon generated from these draws keeps. */
  function DungeonRooms(width: int, height: int, draws: seq<RoomDraw>): seq<Room>
    requires forall k :: 0 <= k < |draws| ==> ValidDraw(draws[k], width, height)
  {
    Accepted(Candidates(width, height, draws))
  }

  /** The whole generated layout: at most 15 rooms, pairwise separate, and
      every pair of room centres floor-connected. */
  lemma GeneratedLayout(width: int, height: int, draws: seq<RoomDraw>)
    requires |draws| == MaxRooms
    requires forall k :: 0 <= k < |draws| ==> ValidDraw(draws[k], width, height)
    ensures 1 <= |DungeonRooms(width, height, draws)| <= MaxRooms
    ensures PairwiseSeparate(DungeonRooms(width, height, draws))
    ensures forall i, j :: 0 <= i < |DungeonRooms(width, height, draws)| && 0 <= j < |DungeonRooms(width, height, draws)| ==>
      Connected(DungeonRooms(width, height, draws), width, height,
        CenterOf(DungeonRooms(width, height, draws)[i]), CenterOf(DungeonRooms(width, height, draws)[j]))
  {
    var cands := Candidates(width, height, draws);
    var rooms := DungeonRooms(width, height, draws);
    AcceptedProperties(cands);
    FirstCandidateAccepted(cands);
    AcceptedWellPlaced(cands, width, height);
    forall i, j | 0 <= i < |rooms| && 0 <= j < |rooms|
      ensures Connected(rooms, width, height, CenterOf(rooms[i]), CenterOf(rooms[j]))
    {
      CentersConnected(rooms, width, height, i, j);
    }
  }

  // ---------------------------------------------------------------------
  // The generator object and its grid

  predicate InGrid(grid: array2<int>, i: int, j: int)
  {
    0 <= i < grid.Length0 && 0 <= j < grid.Length1
  }

  /** Sets exactly the in-grid cells of the room to floor. */
  method CarveRoom(grid: array2<int>, room: Room)
    modifies grid
    ensures forall i, j :: InGrid(grid, i, j) ==>
      grid[i, j] == if room.Contains(i, j) then Floor else old(grid[i, j])
  {
    var x := room.x;
    while x < room.x + room.width
      invariant room.x <= x && (x <= room.x + room.width || x == room.x)
      invariant forall i, j :: InGrid(grid, i, j) ==>
        grid[i, j] == if room.x <= i < x && room.z <= j < room.z + room.height then Floor else old(grid[i, j])
      decreases room.x + room.width - x
    {
      var z := room.z;
      while z < room.z + room.height
        invariant room.z <= z && (z <= room.z + room.height || z == room.z)
        invariant forall i, j :: InGrid(grid, i, j) ==>
          grid[i, j] == if (room.x <= i < x && room.z <= j < room.z + room.height) || (i == x && room.z <= j < z)
                        then Floor else old(grid[i, j])
        decreases room.z + room.height - z
      {
        if 0 <= x < grid.Length0 && 0 <= z < grid.Length1 {
          grid[x, z] := Floor;
        }
        z := z + 1;
      }
      x := x + 1;
    }
  }

  /** Sets exactly the in-grid corridor cells from (x1, z1) via (x2, z1) to (x2, z2) to floor. */
  method CarveCorridor(grid: array2<int>, x1: int, z1: int, x2: int, z2: int)
    modifies grid
    ensures forall i, j :: InGrid(grid, i, j) ==>
      grid[i, j] == if OnCorridor(x1, z1, x2, z2, i, j) then Floor else old(grid[i, j])
  {
    var startX, endX := if x1 <= x2 then x1 else x2, if x1 <= x2 then x2 else x1;
    var x := startX;
    while x <= endX
      invariant startX <= x <= endX + 1
      invariant forall i, j :: InGrid(grid, i, j) ==>
        grid[i, j] == if j == z1 && startX <= i < x then Floor else old(grid[i, j])
      decreases endX + 1 - x
    {
      if 0 <= x < grid.Length0 && 0 <= z1 < grid.Length1 {
        grid[x, z1] := Floor;
      }
      x := x + 1;
    }
    var startZ, endZ := if z1 <= z2 then z1 else z2, if z1 <= z2 then z2 else z1;
    var z := startZ;
    while z <= endZ
      invariant startZ <= z <= endZ + 1
      invariant forall i, j :: InGrid(grid, i, j) ==>
        grid[i, j] == if (j == z1 && startX <= i <= endX) || (i == x2 && startZ <= j < z) then Floor else old(grid[i, j])
      decreases endZ + 1 - z
    {
      if 0 <= x2 < grid.Length0 && 0 <= z < grid.Length1 {
        grid[x2, z] := Floor;
      }
      z := z + 1;
    }
  }

  /** The inner loop of the placement step: does room intersect any kept room? */
  method Overlaps(room: Room, rooms: seq<Room>) returns (overlaps: bool)
    ensures overlaps <==> OverlapsAny(room, rooms)
    ensures !overlaps ==> forall k :: 0 <= k < |rooms| ==> !room.Intersects(rooms[k])
  {
    overlaps := false;
    var k := 0;
    while k < |rooms|
      invariant 0 <= k <= |rooms|
      invariant forall m :: 0 <= m < k ==> !room.Intersects(rooms[m])
    {
      if room.Intersects(rooms[k]) {
        overlaps := true;
        break;
      }
      k := k + 1;
    }
  }

  class DungeonGenerator
  {
    /** null until a dungeon has been generated. */
    var collisionGrid: array2?<int>

    constructor ()
      ensures collisionGrid == null
    {
      collisionGrid := null;
    }

    /** Grid cell (Math.round(x), Math.round(z)) is floor; everything
        outside the grid is wall; with no grid yet every point is walkable. */
    function IsWalkable(x: real, z: real): (b: bool)
      reads this, collisionGrid
      ensures collisionGrid == null ==> b
      ensures collisionGrid != null && b ==> InGrid(collisionGrid, Round(x), Round(z))
    {
      if collisionGrid == null then true
      else
        var gx, gz := Round(x), Round(z);
        if gx < 0 || gx >= collisionGrid.Length0 || gz < 0 || gz >= collisionGrid.Length1 then false
        else collisionGrid[gx, gz] == Floor
    }

    /** Every point of the half-open unit square around a cell gets that cell's answer. */
    lemma WalkableByCell(x: real, z: real, i: int, j: int)
      requires i as real - 0.5 <= x < i as real + 0.5
      requires j as real - 0.5 <= z < j as real + 0.5
      ensures IsWalkable(x, z) == IsWalkable(i as real, j as real)
    {
      RoundOfWhole(i);
      RoundOfWhole(j);
      assert Round(x) == i;
      assert Round(z) == j;
    }

    /** generateDungeon without the rendering: the grid holds exactly the
        carved rooms and corridors, and becomes the collision grid. */
    method GenerateDungeon(width: int, height: int, draws: seq<RoomDraw>) returns (grid: array2<int>)
      requires |draws| == MaxRooms
      requires forall k :: 0 <= k < |draws| ==> ValidDraw(draws[k], width, height)
      modifies this
      ensures fresh(grid) && collisionGrid == grid
      ensures grid.Length0 == width && grid.Length1 == height
      ensures forall i, j :: InGrid(grid, i, j) ==>
        grid[i, j] == if FloorAt(DungeonRooms(width, height, draws), i, j) then Floor else Wall
      ensures forall i, j :: IsWalkable(i as real, j as real) <==>
        IsFloor(DungeonRooms(width, height, draws), width, height, Cell(i, j))
    {
      assert ValidDraw(draws[0], width, height);
      grid := new int[width, height]((i, j) => Wall);
      var candidates := Candidates(width, height, draws);
      var rooms: seq<Room> := [];
      var n := 0;
      while n < MaxRooms
        invariant 0 <= n <= MaxRooms
        invariant rooms == Accepted(candidates[..n])
        invariant forall i, j :: InGrid(grid, i, j) ==>
          grid[i, j] == if FloorAt(rooms, i, j) then Floor else Wall
      {
        var room := CreateRandomRoom(width, height, draws[n]);
        assert candidates[..n + 1][..n] == candidates[..n];
        var overlaps := Overlaps(room, rooms);
        if !overlaps {
          rooms := rooms + [room];
          CarveRoom(grid, room);
          if |rooms| > 1 {
            var prev := rooms[|rooms| - 2];
            CarveCorridor(grid, prev.CenterX(), prev.CenterZ(), room.CenterX(), room.CenterZ());
          }
          assert rooms[..|rooms| - 1] == Accepted(candidates[..n]);
        }
        n := n + 1;
      }
      assert candidates[..MaxRooms] == candidates;
      collisionGrid := grid;
      forall i, j
        ensures IsWalkable(i as real, j as real) <==> IsFloor(rooms, width, height, Cell(i, j))
      {
        RoundOfWhole(i);
        RoundOfWhole(j);
      }
    }
  }
}
