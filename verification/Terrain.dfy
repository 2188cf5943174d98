/** The terrain summary: run-length decoding, the water box, and the expanding search for
    clear building sites. */
module Terrain {
  import opened Values
  import opened Rects

  datatype Ground = Open | Water | Fertile | Rock

  /** A `map/terrain` response: `grid` alternates run lengths and palette indices. */
  datatype TerrainData = TerrainData(width: int, height: int, palette: seq<string>, grid: seq<int>)

  // ---- Classifying the palette ----

  predicate Contains(s: string, part: string) {
    part <= s || (s != "" && Contains(s[1..], part))
  }

  function Classify(name: string): Ground {
    var low := Lower(name);
    if Contains(low, "water") || Contains(low, "marsh") then Water
    else if Contains(low, "rich") || low == "soil" then Fertile
    else if Contains(low, "rough") then Rock
    else Open
  }

  function GroundOf(palette: seq<string>, index: int): Ground {
    if 0 <= index < |palette| then Classify(palette[index]) else Open
  }

  method ClassifyPalette(palette: seq<string>) returns (water: set<int>, fertile: set<int>, rock: set<int>)
    ensures forall i :: i in water <==> GroundOf(palette, i) == Water
    ensures forall i :: i in fertile <==> GroundOf(palette, i) == Fertile
    ensures forall i :: i in rock <==> GroundOf(palette, i) == Rock
  {
    water, fertile, rock := {}, {}, {};
    for i := 0 to |palette|
      invariant forall k :: k in water <==> k < i && GroundOf(palette, k) == Water
      invariant forall k :: k in fertile <==> k < i && GroundOf(palette, k) == Fertile
      invariant forall k :: k in rock <==> k < i && GroundOf(palette, k) == Rock
    {
      match Classify(palette[i]) {
        case Water => water := water + {i};
        case Fertile => fertile := fertile + {i};
        case Rock => rock := rock + {i};
        case Open =>
      }
    }
  }

  // ---- Run-length decoding ----

  /** `[c] * count` is empty for a negative count. */
  function Count(n: int): nat { if n < 0 then 0 else n }

  function TotalCount(grid: seq<int>): nat {
    if |grid| < 2 then 0 else Count(grid[0]) + TotalCount(grid[2..])
  }

  /** The ground of the run that covers a position, found without decoding. */
  function GroundAt(palette: seq<string>, grid: seq<int>, pos: nat): Ground {
    if |grid| < 2 then Open
    else if pos < Count(grid[0]) then GroundOf(palette, grid[1])
    else GroundAt(palette, grid[2..], pos - Count(grid[0]))
  }

  lemma {:induction false} GroundBeyond(palette: seq<string>, grid: seq<int>, pos: nat)
    requires pos >= TotalCount(grid)
    ensures GroundAt(palette, grid, pos) == Open
  {
    if |grid| >= 2 {
      GroundBeyond(palette, grid[2..], pos - Count(grid[0]));
    }
  }

  /** From position `n` on, the grid reads like `rest`. */
  ghost predicate ContinuesAs(palette: seq<string>, grid: seq<int>, n: nat, rest: seq<int>) {
    forall p :: p >= n ==> GroundAt(palette, grid, p) == GroundAt(palette, rest, p - n)
  }

  lemma ContinueRun(palette: seq<string>, grid: seq<int>, n: nat, rest: seq<int>)
    requires |rest| >= 2 && ContinuesAs(palette, grid, n, rest)
    ensures ContinuesAs(palette, grid, n + Count(rest[0]), rest[2..])
    ensures forall p :: n <= p < n + Count(rest[0]) ==> GroundAt(palette, grid, p) == GroundOf(palette, rest[1])
  {
  }

  /** The decoded grid: as long as the counts say, and at each position the covering run. */
  method Decode(palette: seq<string>, grid: seq<int>) returns (flat: seq<Ground>)
    ensures |flat| == TotalCount(grid)
    ensures forall p :: 0 <= p < |flat| ==> flat[p] == GroundAt(palette, grid, p)
  {
    var water, fertile, rock := ClassifyPalette(palette);
    flat := [];
    var i := 0;
    while i < |grid| - 1
      invariant 0 <= i <= |grid|
      invariant |flat| + TotalCount(grid[i..]) == TotalCount(grid)
      invariant forall p :: 0 <= p < |flat| ==> flat[p] == GroundAt(palette, grid, p)
      invariant ContinuesAs(palette, grid, |flat|, grid[i..])
    {
      var count, index := grid[i], grid[i + 1];
      assert grid[i..][2..] == grid[i + 2..] && grid[i..][0] == count && grid[i..][1] == index;
      ContinueRun(palette, grid, |flat|, grid[i..]);
      if index in water {
        flat := flat + seq(Count(count), _ => Water);
      } else if index in fertile {
        flat := flat + seq(Count(count), _ => Fertile);
      } else if index in rock {
        flat := flat + seq(Count(count), _ => Rock);
      } else {
        flat := flat + seq(Count(count), _ => Open);
      }
      i := i + 2;
    }
  }

  predicate OnMap(d: TerrainData, x: int, z: int) { 0 <= x < d.width && 0 <= z < d.height }

  lemma IndexNatural(d: TerrainData, x: int, z: int)
    requires OnMap(d, x, z)
    ensures 0 <= x + z * d.width
  {
  }

  /** The ground of a map cell; off the map counts as water. */
  function CellAt(d: TerrainData, x: int, z: int): Ground {
    if OnMap(d, x, z) then
      IndexNatural(d, x, z);
      GroundAt(d.palette, d.grid, x + z * d.width)
    else Water
  }

  predicate Buildable(d: TerrainData, x: int, z: int) { CellAt(d, x, z) in {Open, Fertile} }

  predicate FertileCell(d: TerrainData, x: int, z: int) { CellAt(d, x, z) == Fertile }

  predicate WetCell(d: TerrainData, x: int, z: int) { CellAt(d, x, z) == Water }

  /** `_cell` on the decoded grid. */
  function FlatCell(d: TerrainData, flat: seq<Ground>, x: int, z: int): Ground {
    if OnMap(d, x, z) then
      IndexNatural(d, x, z);
      var index := x + z * d.width;
      if index < |flat| then flat[index] else Open
    else Water
  }

  /** The cell read through the decoded grid is the run that covers `x + z * width`. */
  lemma FlatCellIsDirect(d: TerrainData, flat: seq<Ground>, x: int, z: int)
    requires |flat| == TotalCount(d.grid)
    requires forall p :: 0 <= p < |flat| ==> flat[p] == GroundAt(d.palette, d.grid, p)
    ensures FlatCell(d, flat, x, z) == CellAt(d, x, z)
  {
    if OnMap(d, x, z) {
      IndexNatural(d, x, z);
      if x + z * d.width >= |flat| {
        GroundBeyond(d.palette, d.grid, x + z * d.width);
      }
    }
  }

  // ---- Searching for a clear square ----

  type CellTest = (int, int) -> bool

  /** A square of side `size` with corner `(x, z)` lies on the map and every cell passes. */
  predicate ClearAt(d: TerrainData, size: int, ok: CellTest, x: int, z: int) {
    0 <= x && 0 <= z && x + size - 1 < d.width && z + size - 1 < d.height &&
    forall i, j :: x <= i < x + size && z <= j < z + size ==> ok(i, j)
  }

  function Abs(n: int): nat { if n < 0 then -n else n }

  function Chebyshev(dx: int, dz: int): nat { Max(Abs(dx), Abs(dz)) }

  /** The offsets the search can reach: multiples of 3 within 57. */
  predicate Reachable(dx: int, dz: int) { dx % 3 == 0 && dz % 3 == 0 && Chebyshev(dx, dz) <= 57 }

  /** Nearer first, then smaller `dx`, then smaller `dz`. */
  predicate Before(dx: int, dz: int, ex: int, ez: int) {
    Chebyshev(dx, dz) < Chebyshev(ex, ez) ||
    (Chebyshev(dx, dz) == Chebyshev(ex, ez) && (dx < ex || (dx == ex && dz < ez)))
  }

  function Square(x: int, z: int, size: int): Rect { Rect(x, z, x + size - 1, z + size - 1) }

  /** The first clear square at a reachable offset, or none when there is none. */
  ghost predicate IsBest(d: TerrainData, cx: int, cz: int, size: int, ok: CellTest, site: Option<Rect>) {
    match site
    case None => forall ex, ez :: Reachable(ex, ez) ==> !ClearAt(d, size, ok, cx + ex, cz + ez)
    case Some(r) =>
      var dx, dz := r.x1 - cx, r.z1 - cz;
      r == Square(r.x1, r.z1, size) && Reachable(dx, dz) && ClearAt(d, size, ok, cx + dx, cz + dz) &&
      forall ex, ez :: Reachable(ex, ez) && ClearAt(d, size, ok, cx + ex, cz + ez) && (ex != dx || ez != dz) ==>
        Before(dx, dz, ex, ez)
  }

  /** Where the scan stands: `(r, dx, dz)` comes after `(ex, ez)` was visited at radius `r`. */
  predicate Visited(r: int, dx: int, dz: int, ex: int, ez: int) {
    Chebyshev(ex, ez) < r || (Chebyshev(ex, ez) <= r && (ex < dx || (ex == dx && ez < dz)))
  }

  ghost predicate NoneBefore(d: TerrainData, cx: int, cz: int, size: int, ok: CellTest, r: int, dx: int, dz: int) {
    forall ex, ez :: Reachable(ex, ez) && Visited(r, dx, dz, ex, ez) ==> !ClearAt(d, size, ok, cx + ex, cz + ez)
  }

  lemma FirstIsBest(d: TerrainData, cx: int, cz: int, size: int, ok: CellTest, r: int, dx: int, dz: int)
    requires NoneBefore(d, cx, cz, size, ok, r, dx, dz)
    requires Reachable(dx, dz) && Chebyshev(dx, dz) <= r && ClearAt(d, size, ok, cx + dx, cz + dz)
    ensures IsBest(d, cx, cz, size, ok, Some(Square(cx + dx, cz + dz, size)))
  {
  }

  /** The search returns the best site: least Chebyshev distance, then least `dx`, then `dz`. */
  method FindClearRect(d: TerrainData, cx: int, cz: int, size: int, ok: CellTest) returns (site: Option<Rect>)
    ensures IsBest(d, cx, cz, size, ok, site)
  {
    var r := 0;
    while r < 60
      invariant 0 <= r <= 60 && r % 3 == 0
      invariant NoneBefore(d, cx, cz, size, ok, r, -r, -r)
    {
      var dx := -r;
      while dx <= r
        invariant -r <= dx <= r + 3 && dx % 3 == 0
        invariant NoneBefore(d, cx, cz, size, ok, r, dx, -r)
      {
        var dz := -r;
        while dz <= r
          invariant -r <= dz <= r + 3 && dz % 3 == 0
          invariant NoneBefore(d, cx, cz, size, ok, r, dx, dz)
        {
          if ClearAt(d, size, ok, cx + dx, cz + dz) {
            FirstIsBest(d, cx, cz, size, ok, r, dx, dz);
            return Some(Square(cx + dx, cz + dz, size));
          }
          NextOffset(d, cx, cz, size, ok, r, dx, dz);
          dz := dz + 3;
        }
        NextColumn(d, cx, cz, size, ok, r, dx, dz);
        dx := dx + 3;
      }
      NextRadius(d, cx, cz, size, ok, r, dx);
      r := r + 3;
    }
    site := None;
  }

  lemma NextOffset(d: TerrainData, cx: int, cz: int, size: int, ok: CellTest, r: int, dx: int, dz: int)
    requires dx % 3 == dz % 3 == 0 && NoneBefore(d, cx, cz, size, ok, r, dx, dz)
    requires Reachable(dx, dz) ==> !ClearAt(d, size, ok, cx + dx, cz + dz)
    ensures NoneBefore(d, cx, cz, size, ok, r, dx, dz + 3)
  {
  }

  lemma NextColumn(d: TerrainData, cx: int, cz: int, size: int, ok: CellTest, r: int, dx: int, dz: int)
    requires dx % 3 == 0 && r < dz && NoneBefore(d, cx, cz, size, ok, r, dx, dz)
    ensures NoneBefore(d, cx, cz, size, ok, r, dx + 3, -r)
  {
  }

  lemma NextRadius(d: TerrainData, cx: int, cz: int, size: int, ok: CellTest, r: int, dx: int)
    requires r % 3 == 0 && r < dx && NoneBefore(d, cx, cz, size, ok, r, dx, -r)
    ensures NoneBefore(d, cx, cz, size, ok, r + 3, -(r + 3), -(r + 3))
  {
  }

  /** There is one best site, so any two procedures that find it agree. */
  lemma BestIsUnique(d: TerrainData, cx: int, cz: int, size: int, ok: CellTest, s: Option<Rect>, t: Option<Rect>)
    requires IsBest(d, cx, cz, size, ok, s) && IsBest(d, cx, cz, size, ok, t)
    ensures s == t
  {
  }

  /** A search that tests each origin once, on its own ring only. */
  function RingSearch(d: TerrainData, cx: int, cz: int, size: int, ok: CellTest, r: int, dx: int, dz: int): Option<Rect>
    requires 0 <= r && dx <= r + 3 && dz <= r + 3
    decreases 60 - r, r + 3 - dx, r + 3 - dz
  {
    if r >= 60 then None
    else if dx > r then RingSearch(d, cx, cz, size, ok, r + 3, -(r + 3), -(r + 3))
    else if dz > r then RingSearch(d, cx, cz, size, ok, r, dx + 3, -r)
    else if Chebyshev(dx, dz) == r && ClearAt(d, size, ok, cx + dx, cz + dz) then
      Some(Square(cx + dx, cz + dz, size))
    else RingSearch(d, cx, cz, size, ok, r, dx, dz + 3)
  }

  lemma MultiplesOfThree(r: int)
    requires r % 3 == 0
    ensures (r + 3) % 3 == 0 && (-r) % 3 == 0 && (-(r + 3)) % 3 == 0
  {
  }

  lemma NoSite(d: TerrainData, cx: int, cz: int, size: int, ok: CellTest, r: int, dx: int, dz: int)
    requires r >= 60 && NoneBefore(d, cx, cz, size, ok, r, dx, dz)
    ensures IsBest(d, cx, cz, size, ok, None)
  {
  }

  lemma {:induction false} RingSearchIsBest(
    d: TerrainData, cx: int, cz: int, size: int, ok: CellTest, r: int, dx: int, dz: int)
    requires r >= 0 && r % 3 == 0 && dx % 3 == 0 && dz % 3 == 0
    requires -r <= dx <= r + 3 && -r <= dz <= r + 3
    requires dx > r ==> dz == -r
    requires NoneBefore(d, cx, cz, size, ok, r, dx, dz)
    ensures IsBest(d, cx, cz, size, ok, RingSearch(d, cx, cz, size, ok, r, dx, dz))
    decreases 60 - r, r + 3 - dx, r + 3 - dz
  {
    MultiplesOfThree(r);
    if r >= 60 {
      NoSite(d, cx, cz, size, ok, r, dx, dz);
    } else if dx > r {
      NextRadius(d, cx, cz, size, ok, r, dx);
      RingSearchIsBest(d, cx, cz, size, ok, r + 3, -(r + 3), -(r + 3));
    } else if dz > r {
      NextColumn(d, cx, cz, size, ok, r, dx, dz);
      RingSearchIsBest(d, cx, cz, size, ok, r, dx + 3, -r);
    } else if Chebyshev(dx, dz) == r && ClearAt(d, size, ok, cx + dx, cz + dz) {
      FirstIsBest(d, cx, cz, size, ok, r, dx, dz);
    } else {
      NextOffset(d, cx, cz, size, ok, r, dx, dz);
      RingSearchIsBest(d, cx, cz, size, ok, r, dx, dz + 3);
    }
  }

  /** Revisiting inner origins at every radius changes nothing. */
  lemma SearchEqualsRingSearch(d: TerrainData, cx: int, cz: int, size: int, ok: CellTest, site: Option<Rect>)
    requires IsBest(d, cx, cz, size, ok, site)
    ensures site == RingSearch(d, cx, cz, size, ok, 0, 0, 0)
  {
    RingSearchIsBest(d, cx, cz, size, ok, 0, 0, 0);
    BestIsUnique(d, cx, cz, size, ok, site, RingSearch(d, cx, cz, size, ok, 0, 0, 0));
  }

  /** `a` starts where `b` starts, or the search meets it first; either way it is no farther. */
  predicate NoFarther(cx: int, cz: int, a: Rect, b: Rect) {
    Chebyshev(a.x1 - cx, a.z1 - cz) <= Chebyshev(b.x1 - cx, b.z1 - cz) &&
    ((a.x1 == b.x1 && a.z1 == b.z1) || Before(a.x1 - cx, a.z1 - cz, b.x1 - cx, b.z1 - cz))
  }

  /** A smaller square with a weaker test is found whenever a larger one is, and no later. */
  lemma SmallerSearchNoFarther(
    d: TerrainData, cx: int, cz: int, size: int, ok: CellTest, big: Option<Rect>,
    smaller: int, weaker: CellTest, small: Option<Rect>)
    requires smaller <= size && forall x, z :: ok(x, z) ==> weaker(x, z)
    requires IsBest(d, cx, cz, size, ok, big) && IsBest(d, cx, cz, smaller, weaker, small)
    ensures big.Some? ==> small.Some? && NoFarther(cx, cz, small.value, big.value)
  {
  }

  // ---- The water box ----

  /** The bounding box of the wet cells touches a wet cell on every side; none means no wet cell. */
  ghost predicate Tight(wet: CellTest, box: Option<Rect>) {
    match box
    case None => forall x, z :: !wet(x, z)
    case Some(b) =>
      (forall x, z :: wet(x, z) ==> Covers(b, x, z)) &&
      (exists z :: wet(b.x1, z)) && (exists z :: wet(b.x2, z)) &&
      (exists x :: wet(x, b.z1)) && (exists x :: wet(x, b.z2))
  }

  function Grow(box: Option<Rect>, x: int, z: int): Option<Rect> {
    match box
    case None => Some(Rect(x, z, x, z))
    case Some(b) => Some(Rect(Min(b.x1, x), Min(b.z1, z), Max(b.x2, x), Max(b.z2, z)))
  }

  ghost predicate Alike(wet: CellTest, same: CellTest) { forall i, j :: same(i, j) <==> wet(i, j) }

  /** `more` holds of one cell more. */
  ghost predicate Adds(wet: CellTest, more: CellTest, x: int, z: int) {
    forall i, j :: more(i, j) <==> wet(i, j) || (i == x && j == z)
  }

  lemma GrowTight(wet: CellTest, more: CellTest, box: Option<Rect>, x: int, z: int)
    requires Tight(wet, box)
    requires Adds(wet, more, x, z)
    ensures Tight(more, Grow(box, x, z))
  {
    assert more(x, z);
    if box.Some? {
      var b := box.value;
      var z1, z2 :| wet(b.x1, z1) && wet(b.x2, z2);
      var x1, x2 :| wet(x1, b.z1) && wet(x2, b.z2);
      assert more(b.x1, z1) && more(b.x2, z2) && more(x1, b.z1) && more(x2, b.z2);
    }
  }

  lemma SameTight(wet: CellTest, same: CellTest, box: Option<Rect>)
    requires Tight(wet, box) && Alike(wet, same)
    ensures Tight(same, box)
  {
  }

  lemma TightIsUnique(wet: CellTest, s: Option<Rect>, t: Option<Rect>)
    requires Tight(wet, s) && Tight(wet, t)
    ensures s == t
  {
  }

  const SCAN_RANGE := 40

  /** Wet cells of the window around the center scanned before offset `(dx, dz)`. */
  function WetBefore(d: TerrainData, cx: int, cz: int, dx: int, dz: int): CellTest {
    (x, z) => Abs(x - cx) <= SCAN_RANGE && Abs(z - cz) <= SCAN_RANGE && WetCell(d, x, z) &&
      (z - cz < dz || (z - cz == dz && x - cx < dx))
  }

  /** Wet cells of the whole 81 by 81 window. */
  function WetNear(d: TerrainData, cx: int, cz: int): CellTest {
    (x, z) => Abs(x - cx) <= SCAN_RANGE && Abs(z - cz) <= SCAN_RANGE && WetCell(d, x, z)
  }

  method WaterBox(d: TerrainData, flat: seq<Ground>, cx: int, cz: int) returns (box: Option<Rect>)
    requires |flat| == TotalCount(d.grid)
    requires forall p :: 0 <= p < |flat| ==> flat[p] == GroundAt(d.palette, d.grid, p)
    ensures Tight(WetNear(d, cx, cz), box)
  {
    box := None;
    for dz := -SCAN_RANGE to SCAN_RANGE + 1
      invariant Tight(WetBefore(d, cx, cz, -SCAN_RANGE, dz), box)
    {
      for dx := -SCAN_RANGE to SCAN_RANGE + 1
        invariant Tight(WetBefore(d, cx, cz, dx, dz), box)
      {
        var x, z := cx + dx, cz + dz;
        FlatCellIsDirect(d, flat, x, z);
        ScanCell(d, cx, cz, dx, dz, box);
        if FlatCell(d, flat, x, z) == Water {
          box := Grow(box, x, z);
        }
      }
      NextLine(d, cx, cz, dz);
      SameTight(WetBefore(d, cx, cz, SCAN_RANGE + 1, dz), WetBefore(d, cx, cz, -SCAN_RANGE, dz + 1), box);
    }
    AllLines(d, cx, cz);
    SameTight(WetBefore(d, cx, cz, -SCAN_RANGE, SCAN_RANGE + 1), WetNear(d, cx, cz), box);
  }

  /** One cell further in a line. */
  lemma NextCell(d: TerrainData, cx: int, cz: int, dx: int, dz: int)
    requires -SCAN_RANGE <= dx <= SCAN_RANGE && -SCAN_RANGE <= dz <= SCAN_RANGE
    ensures var before, after := WetBefore(d, cx, cz, dx, dz), WetBefore(d, cx, cz, dx + 1, dz);
      if WetCell(d, cx + dx, cz + dz) then Adds(before, after, cx + dx, cz + dz) else Alike(before, after)
  {
  }

  lemma ScanCell(d: TerrainData, cx: int, cz: int, dx: int, dz: int, box: Option<Rect>)
    requires -SCAN_RANGE <= dx <= SCAN_RANGE && -SCAN_RANGE <= dz <= SCAN_RANGE
    requires Tight(WetBefore(d, cx, cz, dx, dz), box)
    ensures Tight(WetBefore(d, cx, cz, dx + 1, dz),
      if WetCell(d, cx + dx, cz + dz) then Grow(box, cx + dx, cz + dz) else box)
  {
    NextCell(d, cx, cz, dx, dz);
    if WetCell(d, cx + dx, cz + dz) {
      GrowTight(WetBefore(d, cx, cz, dx, dz), WetBefore(d, cx, cz, dx + 1, dz), box, cx + dx, cz + dz);
    } else {
      SameTight(WetBefore(d, cx, cz, dx, dz), WetBefore(d, cx, cz, dx + 1, dz), box);
    }
  }

  /** The end of a line is the start of the next. */
  lemma NextLine(d: TerrainData, cx: int, cz: int, dz: int)
    ensures Alike(WetBefore(d, cx, cz, SCAN_RANGE + 1, dz), WetBefore(d, cx, cz, -SCAN_RANGE, dz + 1))
  {
  }

  lemma AllLines(d: TerrainData, cx: int, cz: int)
    ensures Alike(WetBefore(d, cx, cz, -SCAN_RANGE, SCAN_RANGE + 1), WetNear(d, cx, cz))
  {
  }

  // ---- The summary and its pin ----

  datatype TerrainSummary = TerrainSummary(
    center: (int, int), water: Option<Rect>, shelter: Option<Rect>, farm: Option<Rect>, stockpile: Option<Rect>)

  /** RIMAPI's answer: a failed request, something that is no object, or the terrain. */
  datatype TerrainReply = Unavailable | NotAnObject | Terrain(data: TerrainData)

  function SumX(ps: seq<(int, int)>): int { if ps == [] then 0 else ps[0].0 + SumX(ps[1..]) }

  function SumZ(ps: seq<(int, int)>): int { if ps == [] then 0 else ps[0].1 + SumZ(ps[1..]) }

  /** The colony center: mean pawn position, rounded down, else the middle of the map. */
  function Center(d: TerrainData, positions: seq<(int, int)>): (int, int) {
    if positions == [] then (d.width / 2, d.height / 2)
    else (SumX(positions) / |positions|, SumZ(positions) / |positions|)
  }

  /** The center is the mean of the positions rounded down, on negative coordinates too. */
  lemma CenterRoundsDown(d: TerrainData, positions: seq<(int, int)>)
    requires positions != []
    ensures var (cx, cz) := Center(d, positions);
      |positions| * cx <= SumX(positions) < |positions| * (cx + 1) &&
      |positions| * cz <= SumZ(positions) < |positions| * (cz + 1)
  {
    QuotientRoundsDown(SumX(positions), |positions|);
    QuotientRoundsDown(SumZ(positions), |positions|);
  }

  lemma QuotientRoundsDown(a: int, n: int)
    requires n > 0
    ensures n * (a / n) <= a < n * (a / n + 1)
  {
  }

  function BuildableTest(d: TerrainData): CellTest { (x, z) => Buildable(d, x, z) }

  function FertileTest(d: TerrainData): CellTest { (x, z) => FertileCell(d, x, z) }

  /** The tests as the program runs them, on the decoded grid. */
  function BuildableFlat(d: TerrainData, flat: seq<Ground>): CellTest {
    (x, z) => FlatCell(d, flat, x, z) in {Open, Fertile}
  }

  function FertileFlat(d: TerrainData, flat: seq<Ground>): CellTest {
    (x, z) => FlatCell(d, flat, x, z) == Fertile
  }

  lemma SameTestSameBest(d: TerrainData, cx: int, cz: int, size: int, ok: CellTest, same: CellTest, site: Option<Rect>)
    requires IsBest(d, cx, cz, size, ok, site) && forall x, z :: ok(x, z) == same(x, z)
    ensures IsBest(d, cx, cz, size, same, site)
  {
  }

  /** What a summary says about the terrain. */
  ghost predicate Describes(s: TerrainSummary, d: TerrainData, positions: seq<(int, int)>) {
    var (cx, cz) := Center(d, positions);
    s.center == (cx, cz) && Tight(WetNear(d, cx, cz), s.water) &&
    IsBest(d, cx, cz, 7, BuildableTest(d), s.shelter) &&
    IsBest(d, cx, cz, 8, FertileTest(d), s.farm) &&
    IsBest(d, cx, cz, 5, BuildableTest(d), s.stockpile)
  }

  /** The summary is a function of the terrain and the pawn positions. */
  lemma SummaryIsDetermined(s: TerrainSummary, t: TerrainSummary, d: TerrainData, positions: seq<(int, int)>)
    requires Describes(s, d, positions) && Describes(t, d, positions)
    ensures s == t
  {
    var (cx, cz) := Center(d, positions);
    TightIsUnique(WetNear(d, cx, cz), s.water, t.water);
    BestIsUnique(d, cx, cz, 7, BuildableTest(d), s.shelter, t.shelter);
    BestIsUnique(d, cx, cz, 8, FertileTest(d), s.farm, t.farm);
    BestIsUnique(d, cx, cz, 5, BuildableTest(d), s.stockpile, t.stockpile);
  }

  /** A farm implies a shelter no farther from the center, a shelter a stockpile no farther. */
  lemma SitesAreOrdered(s: TerrainSummary, d: TerrainData, positions: seq<(int, int)>)
    requires Describes(s, d, positions)
    ensures s.farm.Some? ==> s.shelter.Some? && NoFarther(s.center.0, s.center.1, s.shelter.value, s.farm.value)
    ensures s.shelter.Some? ==>
      s.stockpile.Some? && NoFarther(s.center.0, s.center.1, s.stockpile.value, s.shelter.value)
  {
    var (cx, cz) := Center(d, positions);
    SmallerSearchNoFarther(d, cx, cz, 8, FertileTest(d), s.farm, 7, BuildableTest(d), s.shelter);
    SmallerSearchNoFarther(d, cx, cz, 7, BuildableTest(d), s.shelter, 5, BuildableTest(d), s.stockpile);
  }

  class RimApiClient {
    var pin: Option<TerrainSummary>
    ghost var answers: seq<Option<TerrainSummary>>

    /** Every summary ever returned is the pinned one, and after the first all calls return it. */
    ghost predicate Valid()
      reads this
    {
      (forall k :: 0 <= k < |answers| && answers[k].Some? ==> answers[k] == pin) &&
      (forall j, k :: 0 <= j < k < |answers| && answers[j].Some? ==> answers[k] == answers[j]) &&
      (pin.Some? ==> pin in answers)
    }

    constructor ()
      ensures Valid() && pin.None? && answers == []
    {
      pin, answers := None, [];
    }

    method GetTerrainSummary(reply: TerrainReply, positions: seq<(int, int)>) returns (summary: Option<TerrainSummary>)
      requires Valid()
      modifies this
      ensures Valid() && answers == old(answers) + [summary]
      ensures old(pin).Some? ==> summary == pin == old(pin)
      ensures old(pin).None? && !reply.Terrain? ==> summary == pin == None
      ensures old(pin).None? && reply.Terrain? ==>
        summary == pin && pin.Some? && Describes(pin.value, reply.data, positions)
    {
      if pin.None? && reply.Terrain? {
        var s := Summarize(reply.data, positions);
        pin := Some(s);
      }
      summary := pin;
      answers := answers + [summary];
    }

    static method Summarize(d: TerrainData, positions: seq<(int, int)>) returns (s: TerrainSummary)
      ensures Describes(s, d, positions)
    {
      var flat := Decode(d.palette, d.grid);
      var (cx, cz) := Center(d, positions);
      var water := WaterBox(d, flat, cx, cz);
      var shelter := FindClearRect(d, cx, cz, 7, BuildableFlat(d, flat));
      var farm := FindClearRect(d, cx, cz, 8, FertileFlat(d, flat));
      var stockpile := FindClearRect(d, cx, cz, 5, BuildableFlat(d, flat));
      forall x, z ensures FlatCell(d, flat, x, z) == CellAt(d, x, z) {
        FlatCellIsDirect(d, flat, x, z);
      }
      SameTestSameBest(d, cx, cz, 7, BuildableFlat(d, flat), BuildableTest(d), shelter);
      SameTestSameBest(d, cx, cz, 8, FertileFlat(d, flat), FertileTest(d), farm);
      SameTestSameBest(d, cx, cz, 5, BuildableFlat(d, flat), BuildableTest(d), stockpile);
      s := TerrainSummary((cx, cz), water, shelter, farm, stockpile);
    }
  }
}
