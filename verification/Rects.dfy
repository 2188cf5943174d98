/** Map rectangles with inclusive corners. */
module Rects {
  datatype Rect = Rect(x1: int, z1: int, x2: int, z2: int)

  function Min(a: int, b: int): int { if a <= b then a else b }

  function Max(a: int, b: int): int { if a <= b then b else a }

  function Corners(x1: int, z1: int, x2: int, z2: int): Rect {
    Rect(Min(x1, x2), Min(z1, z2), Max(x1, x2), Max(z1, z2))
  }

  predicate RectsOverlap(a: Rect, b: Rect) {
    !(a.x2 < b.x1 || a.x1 > b.x2 || a.z2 < b.z1 || a.z1 > b.z2)
  }

  predicate Covers(r: Rect, x: int, z: int) {
    r.x1 <= x <= r.x2 && r.z1 <= z <= r.z2
  }

  predicate Proper(r: Rect) { r.x1 <= r.x2 && r.z1 <= r.z2 }

  /** The overlap test means sharing a cell. */
  lemma OverlapSharesCell(a: Rect, b: Rect)
    requires Proper(a) && Proper(b)
    ensures RectsOverlap(a, b) <==> exists x, z :: Covers(a, x, z) && Covers(b, x, z)
  {
    if RectsOverlap(a, b) {
      assert Covers(a, Max(a.x1, b.x1), Max(a.z1, b.z1)) && Covers(b, Max(a.x1, b.x1), Max(a.z1, b.z1));
    }
  }
}
