/** Values that the LAS loader reads: the header facts it uses and the
    already-decoded fields of one point record. Decoding the raw bytes
    (LASpoint::copy_from and its getters) is a collaborator; here a record
    is the tuple of values that the loader copies into its columns. */
module LasTypes {

  /** A 3-component coordinate (V3d), kept exact. */
  datatype Vec3 = Vec3(x: real, y: real, z: real)

  function Sub(p: Vec3, q: Vec3): Vec3
  {
    Vec3(p.x - q.x, p.y - q.y, p.z - q.z)
  }

  /** LASlib keeps the legacy classification in a 5-bit field. */
  type LegacyCode = c: bv8 | c < 32

  /** The classification part of a record: the legacy layout carries a 5-bit
      code and three flags, the extended layout a full byte. */
  datatype Classification =
    | Legacy(code: LegacyCode, synthetic: bool, keypoint: bool, withheld: bool)
    | Extended(extendedCode: bv8)

  /** The fields of one decoded point record that the loader stores. */
  datatype PointRecord = PointRecord(
    xyz: Vec3,                  // get_x(), get_y(), get_z()
    intensity: bv16,
    returnNumber: bv8,
    numberOfReturns: bv8,
    pointSourceId: bv16,
    classification: Classification,
    rgb: (bv16, bv16, bv16))

  /** The header facts of LASreaderLAS that the loader reads. */
  datatype LasHeader = LasHeader(
    numberOfPointRecords: nat,
    extendedNumberOfPointRecords: nat,
    minX: real, minY: real, minZ: real,
    pointDataRecordLength: nat)

  /** The declared point count: the larger of the legacy and the extended
      record counts. */
  function DeclaredCount(h: LasHeader): (t: nat)
    ensures t == h.numberOfPointRecords || t == h.extendedNumberOfPointRecords
    ensures h.numberOfPointRecords <= t && h.extendedNumberOfPointRecords <= t
  {
    if h.extendedNumberOfPointRecords < h.numberOfPointRecords
    then h.numberOfPointRecords
    else h.extendedNumberOfPointRecords
  }
}
