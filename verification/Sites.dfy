/** What a terrain summary says of the map, in terms of the palette's names and the runs. */
module Sites {
  import opened Values
  import opened Rects
  import opened Terrain

  // ---- Names ----

  /** The word stands at position `i`. */
  predicate StandsAt(s: string, word: string, i: int) { 0 <= i <= |s| - |word| && s[i..i + |word|] == word }

  /** The name holds the word, in any case. */
  ghost predicate Says(name: string, word: string) { exists i :: StandsAt(Lower(name), word, i) }

  ghost predicate WetName(name: string) { Says(name, "water") || Says(name, "marsh") }

  ghost predicate RichName(name: string) { !WetName(name) && (Says(name, "rich") || Lower(name) == "soil") }

  ghost predicate RockName(name: string) { !WetName(name) && !RichName(name) && Says(name, "rough") }

  lemma {:induction false} ContainsMeans(s: string, word: string)
    ensures Contains(s, word) <==> exists i :: StandsAt(s, word, i)
  {
    assert word <= s <==> StandsAt(s, word, 0);
    if s != "" {
      ContainsMeans(s[1..], word);
      forall i | i > 0 ensures StandsAt(s, word, i) <==> StandsAt(s[1..], word, i - 1) {
        assert i <= |s| - |word| ==> s[1..][i - 1..i - 1 + |word|] == s[i..i + |word|];
      }
      if i :| StandsAt(s[1..], word, i) {
        assert StandsAt(s, word, i + 1);
      }
    }
  }

  lemma ClassifyByName(name: string)
    ensures Classify(name) == Water <==> WetName(name)
    ensures Classify(name) == Fertile <==> RichName(name)
    ensures Classify(name) == Rock <==> RockName(name)
  {
    ContainsMeans(Lower(name), "water");
    ContainsMeans(Lower(name), "marsh");
    ContainsMeans(Lower(name), "rich");
    ContainsMeans(Lower(name), "rough");
  }

  // ---- Runs ----

  /** How many cells the first `k` runs cover. */
  function CellsBefore(grid: seq<int>, k: nat): nat
    requires 2 * k <= |grid|
  {
    if k == 0 then 0 else CellsBefore(grid, k - 1) + if grid[2 * k - 2] < 0 then 0 else grid[2 * k - 2]
  }

  /** Run `k` covers the position. */
  predicate InRun(grid: seq<int>, k: nat, pos: int) {
    2 * k + 2 <= |grid| && CellsBefore(grid, k) <= pos < CellsBefore(grid, k) + grid[2 * k]
  }

  lemma {:induction false} CellsBeforeTail(grid: seq<int>, k: nat)
    requires 2 * k + 2 <= |grid|
    ensures CellsBefore(grid, k + 1) == Count(grid[0]) + CellsBefore(grid[2..], k)
  {
    if k > 0 {
      CellsBeforeTail(grid, k - 1);
    }
  }

  lemma InRunTail(grid: seq<int>, k: nat, pos: int)
    requires |grid| >= 2
    ensures InRun(grid, k + 1, pos) <==> InRun(grid[2..], k, pos - Count(grid[0]))
  {
    if 2 * k + 4 <= |grid| {
      CellsBeforeTail(grid, k);
    }
  }

  /** The position is covered by a run of that ground. */
  ghost predicate RunOf(palette: seq<string>, grid: seq<int>, pos: int, ground: Ground) {
    exists k: nat :: InRun(grid, k, pos) && GroundOf(palette, grid[2 * k + 1]) == ground
  }

  lemma {:induction false} GroundIsRun(palette: seq<string>, grid: seq<int>, pos: nat, ground: Ground)
    requires ground != Open
    ensures GroundAt(palette, grid, pos) == ground <==> RunOf(palette, grid, pos, ground)
  {
    if |grid| >= 2 {
      var n := Count(grid[0]);
      assert InRun(grid, 0, pos) <==> pos < n;
      if pos < n {
        forall k: nat | k > 0 && InRun(grid, k, pos) ensures false {
          InRunTail(grid, k - 1, pos);
        }
      } else {
        GroundIsRun(palette, grid[2..], pos - n, ground);
        if k: nat :| InRun(grid[2..], k, pos - n) && GroundOf(palette, grid[2..][2 * k + 1]) == ground {
          InRunTail(grid, k, pos);
          assert InRun(grid, k + 1, pos) && grid[2 * (k + 1) + 1] == grid[2..][2 * k + 1];
        }
        if k: nat :| InRun(grid, k, pos) && GroundOf(palette, grid[2 * k + 1]) == ground {
          InRunTail(grid, k - 1, pos);
          assert grid[2..][2 * (k - 1) + 1] == grid[2 * k + 1];
        }
      }
    }
  }

  // ---- Cells ----

  /** The cell lies on the map, in a run whose palette entry has that name. */
  ghost predicate Bears(d: TerrainData, x: int, z: int, name: string) {
    0 <= x < d.width && 0 <= z < d.height &&
    exists k: nat :: InRun(d.grid, k, x + z * d.width) && NameOfRun(d, k, name)
  }

  predicate NameOfRun(d: TerrainData, k: nat, name: string) {
    2 * k + 1 < |d.grid| && 0 <= d.grid[2 * k + 1] < |d.palette| && d.palette[d.grid[2 * k + 1]] == name
  }

  ghost predicate OffMap(d: TerrainData, x: int, z: int) { !(0 <= x < d.width && 0 <= z < d.height) }

  /** Off the map, or named for water or marsh. */
  ghost predicate Wet(d: TerrainData, x: int, z: int) {
    OffMap(d, x, z) || exists name :: Bears(d, x, z, name) && WetName(name)
  }

  ghost predicate Rich(d: TerrainData, x: int, z: int) { exists name :: Bears(d, x, z, name) && RichName(name) }

  ghost predicate Rough(d: TerrainData, x: int, z: int) { exists name :: Bears(d, x, z, name) && RockName(name) }

  lemma RunBears(d: TerrainData, x: int, z: int, ground: Ground)
    requires OnMap(d, x, z) && ground != Open && 0 <= x + z * d.width
    ensures RunOf(d.palette, d.grid, x + z * d.width, ground) <==>
      exists name :: Bears(d, x, z, name) && Classify(name) == ground
  {
    var pos := x + z * d.width;
    if k: nat :| InRun(d.grid, k, pos) && GroundOf(d.palette, d.grid[2 * k + 1]) == ground {
      var name := d.palette[d.grid[2 * k + 1]];
      assert NameOfRun(d, k, name);
      assert Bears(d, x, z, name) && Classify(name) == ground;
    }
    if name :| Bears(d, x, z, name) && Classify(name) == ground {
      var k: nat :| InRun(d.grid, k, pos) && NameOfRun(d, k, name);
      assert GroundOf(d.palette, d.grid[2 * k + 1]) == ground;
    }
  }

  lemma GroundByName(d: TerrainData, x: int, z: int, ground: Ground)
    requires OnMap(d, x, z) && ground != Open
    ensures CellAt(d, x, z) == ground <==> exists name :: Bears(d, x, z, name) && Classify(name) == ground
  {
    IndexNatural(d, x, z);
    GroundIsRun(d.palette, d.grid, x + z * d.width, ground);
    RunBears(d, x, z, ground);
  }

  /** The program's classes of cells are those of the names. */
  lemma CellByName(d: TerrainData, x: int, z: int)
    ensures CellAt(d, x, z) == Water <==> Wet(d, x, z)
    ensures CellAt(d, x, z) == Fertile <==> Rich(d, x, z)
    ensures CellAt(d, x, z) == Rock <==> Rough(d, x, z)
  {
    forall name ensures (Classify(name) == Water <==> WetName(name)) &&
      (Classify(name) == Fertile <==> RichName(name)) && (Classify(name) == Rock <==> RockName(name))
    {
      ClassifyByName(name);
    }
    if OnMap(d, x, z) {
      IndexNatural(d, x, z);
      GroundByName(d, x, z, Water);
      GroundByName(d, x, z, Fertile);
      GroundByName(d, x, z, Rock);
    }
  }

  // ---- The summary ----

  /** A square of side `size` with its near corner there, on the map, all of whose cells pass. */
  ghost predicate SquareOf(d: TerrainData, size: int, ok: (int, int) -> bool, x: int, z: int) {
    0 <= x && 0 <= z && x + size <= d.width && z + size <= d.height &&
    forall i, j :: x <= i < x + size && z <= j < z + size ==> ok(i, j)
  }

  /** `u` and `v` are multiples of 3 from -57 to 57. */
  predicate Aligned(u: int, v: int) { u % 3 == 0 && v % 3 == 0 && -57 <= u <= 57 && -57 <= v <= 57 }

  /** Both coordinates are at most `n` from 0. */
  predicate AtMost(u: int, v: int, n: int) { -n <= u <= n && -n <= v <= n }

  /** The site is the near corner of such a square at an aligned offset from the center, no other one
      lies on a smaller ring, and there is a site whenever there is such a square. */
  ghost predicate Recommends(
    d: TerrainData, cx: int, cz: int, size: int, ok: (int, int) -> bool, site: Option<Rect>)
  {
    (site.Some? ==>
      site.value.x2 == site.value.x1 + size - 1 && site.value.z2 == site.value.z1 + size - 1 &&
      Aligned(site.value.x1 - cx, site.value.z1 - cz) && SquareOf(d, size, ok, site.value.x1, site.value.z1)) &&
    forall u, v :: Aligned(u, v) && SquareOf(d, size, ok, cx + u, cz + v) ==>
      site.Some? && forall n :: AtMost(u, v, n) ==> AtMost(site.value.x1 - cx, site.value.z1 - cz, n)
  }

  lemma BestRecommends(
    d: TerrainData, cx: int, cz: int, size: int, ok: CellTest, same: (int, int) -> bool, site: Option<Rect>)
    requires IsBest(d, cx, cz, size, ok, site) && forall x, z :: ok(x, z) == same(x, z)
    ensures Recommends(d, cx, cz, size, same, site)
  {
    forall x, z ensures ClearAt(d, size, ok, x, z) <==> SquareOf(d, size, same, x, z) {
    }
    forall u, v ensures Aligned(u, v) <==> Reachable(u, v) {
    }
  }

  lemma DrySite(d: TerrainData, cx: int, cz: int, size: int, site: Option<Rect>)
    requires IsBest(d, cx, cz, size, BuildableTest(d), site)
    ensures Recommends(d, cx, cz, size, (x, z) => !Wet(d, x, z) && !Rough(d, x, z), site)
  {
    forall x, z ensures BuildableTest(d)(x, z) <==> !Wet(d, x, z) && !Rough(d, x, z) {
      CellByName(d, x, z);
    }
    BestRecommends(d, cx, cz, size, BuildableTest(d), (x, z) => !Wet(d, x, z) && !Rough(d, x, z), site);
  }

  lemma RichSite(d: TerrainData, cx: int, cz: int, size: int, site: Option<Rect>)
    requires IsBest(d, cx, cz, size, FertileTest(d), site)
    ensures Recommends(d, cx, cz, size, (x, z) => Rich(d, x, z), site)
  {
    forall x, z ensures FertileTest(d)(x, z) <==> Rich(d, x, z) {
      CellByName(d, x, z);
    }
    BestRecommends(d, cx, cz, size, FertileTest(d), (x, z) => Rich(d, x, z), site);
  }

  /** A wet cell of the 81 by 81 window. */
  ghost predicate WetWithin(d: TerrainData, center: (int, int), x: int, z: int) {
    Wet(d, x, z) && -40 <= x - center.0 <= 40 && -40 <= z - center.1 <= 40
  }

  lemma WetWindow(d: TerrainData, center: (int, int), x: int, z: int)
    ensures WetWithin(d, center, x, z) <==> WetNear(d, center.0, center.1)(x, z)
  {
    CellByName(d, x, z);
    var (cx, cz) := center;
    assert WetNear(d, cx, cz)(x, z) <==> Abs(x - cx) <= 40 && Abs(z - cz) <= 40 && WetCell(d, x, z);
  }

  /** In the palette's own terms: the farm is the nearest aligned 8 by 8 square of cells named rich or
      soil; shelter and stockpile are the nearest 7 by 7 and 5 by 5 squares free of water, marsh and
      rough rock. */
  lemma SitesByName(s: TerrainSummary, d: TerrainData, positions: seq<(int, int)>)
    requires Describes(s, d, positions)
    ensures var (cx, cz) := s.center;
      Recommends(d, cx, cz, 8, (x, z) => Rich(d, x, z), s.farm) &&
      Recommends(d, cx, cz, 7, (x, z) => !Wet(d, x, z) && !Rough(d, x, z), s.shelter) &&
      Recommends(d, cx, cz, 5, (x, z) => !Wet(d, x, z) && !Rough(d, x, z), s.stockpile)
  {
    var (cx, cz) := s.center;
    RichSite(d, cx, cz, 8, s.farm);
    DrySite(d, cx, cz, 7, s.shelter);
    DrySite(d, cx, cz, 5, s.stockpile);
  }

  /** The water box holds every wet cell of the window, and is there only when there is one. */
  lemma WaterByName(s: TerrainSummary, d: TerrainData, positions: seq<(int, int)>)
    requires Describes(s, d, positions)
    ensures forall x, z :: WetWithin(d, s.center, x, z) ==>
      s.water.Some? && s.water.value.x1 <= x <= s.water.value.x2 && s.water.value.z1 <= z <= s.water.value.z2
    ensures s.water.Some? ==> exists x, z :: WetWithin(d, s.center, x, z)
  {
    forall x, z ensures WetWithin(d, s.center, x, z) <==> WetNear(d, s.center.0, s.center.1)(x, z) {
      WetWindow(d, s.center, x, z);
    }
    if s.water.Some? {
      var z :| WetNear(d, s.center.0, s.center.1)(s.water.value.x1, z);
      assert WetWithin(d, s.center, s.water.value.x1, z);
    }
  }

  /** Without pawns the center is the middle of the map; with pawns it is the quotient of the sums of
      their coordinates, rounded down. */
  lemma CenterByPawns(s: TerrainSummary, d: TerrainData, positions: seq<(int, int)>)
    requires Describes(s, d, positions)
    ensures positions == [] ==> d.width in {2 * s.center.0, 2 * s.center.0 + 1}
    ensures positions == [] ==> d.height in {2 * s.center.1, 2 * s.center.1 + 1}
    ensures positions != [] ==> 0 <= SumX(positions) - |positions| * s.center.0 < |positions|
    ensures positions != [] ==> 0 <= SumZ(positions) - |positions| * s.center.1 < |positions|
  {
    if positions != [] {
      CenterRoundsDown(d, positions);
    }
  }

  /** The sums add up, pawn by pawn. */
  lemma {:induction false} PositionSums(ps: seq<(int, int)>, qs: seq<(int, int)>, p: (int, int))
    ensures SumX(ps + qs) == SumX(ps) + SumX(qs) && SumZ(ps + qs) == SumZ(ps) + SumZ(qs)
    ensures SumX([p]) == p.0 && SumZ([p]) == p.1
  {
    assert [p][1..] == [];
    if ps == [] {
      assert ps + qs == qs;
    } else {
      assert (ps + qs)[1..] == ps[1..] + qs;
      PositionSums(ps[1..], qs, p);
    }
  }
}
