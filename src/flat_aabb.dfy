/** FlatAABB: an axis-aligned bounding box given by its two corners. */
module FlatAABBs {
  import opened FlatVectors

  /** A readonly struct; nothing relates Min to Max. */
  datatype FlatAABB = FlatAABB(Min: FlatVector, Max: FlatVector)

  /** The constructor FlatAABB(minX, minY, maxX, maxY). It accepts any four
      values: a box whose minimum exceeds its maximum is not rejected. */
  function MakeAABB(minX: real, minY: real, maxX: real, maxY: real): (r: FlatAABB)
    ensures r.Min.X == minX && r.Min.Y == minY
    ensures r.Max.X == maxX && r.Max.Y == maxY
  {
    FlatAABB(FlatVector(minX, minY), FlatVector(maxX, maxY))
  }

  /** Every box is the image of the constructor on its own corners, so the
      constructor neither loses nor reorders anything. */
  lemma MakeAABBIsOnto(box: FlatAABB)
    ensures MakeAABB(box.Min.X, box.Min.Y, box.Max.X, box.Max.Y) == box
  {
  }
}
