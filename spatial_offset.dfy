/** The offset selector: the origin subtracted from every stored position so
    that positions fit single precision. */
module SpatialOffset {
  import opened LasTypes

  /** Above this magnitude the vertical minimum is taken as the z origin. */
  const ZThreshold: real := 10000.0

  function Abs(x: real): real
  {
    if x < 0.0 then -x else x
  }

  /** The origin is the bounding box's horizontal minimum; vertically it stays
      at 0 unless the lowest z is so far from 0 that single precision would
      lose detail, and then it is that lowest z. */
  function SpatialOrigin(minX: real, minY: real, minZ: real): (o: Vec3)
    ensures o.x == minX && o.y == minY
    ensures o.z == 0.0 || o.z == minZ
    ensures o.z == minZ <==> (Abs(minZ) > ZThreshold || minZ == 0.0)
    ensures Abs(minZ - o.z) <= ZThreshold
  {
    var o := Vec3(minX, minY, 0.0);
    if Abs(minZ) > ZThreshold then o.(z := minZ) else o
  }
}
