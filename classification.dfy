/** The classification byte of the output: an extended record's code as it
    is, a legacy record's 5-bit code with its synthetic, key-point and
    withheld flags packed into bits 5, 6 and 7. */
module ClassificationByte {
  import opened LasTypes

  function Bit(b: bool): bv8
  {
    if b then 1 else 0
  }

  /** The byte the loader writes to the classification column. */
  function PackClassification(c: Classification): (b: bv8)
    ensures c.Extended? ==> b == c.extendedCode
    ensures c.Legacy? ==> b & 31 == c.code
    ensures c.Legacy? ==> ((b & 32 != 0) == c.synthetic
                        && (b & 64 != 0) == c.keypoint
                        && (b & 128 != 0) == c.withheld)
  {
    match c
    case Extended(e) => e
    case Legacy(code, s, k, w) => code | (Bit(s) << 5) | (Bit(k) << 6) | (Bit(w) << 7)
  }

  /** Reads a packed legacy byte back into its code and flags. */
  function UnpackLegacy(b: bv8): (c: Classification)
    ensures c.Legacy? && PackClassification(c) == b
  {
    Legacy(b & 31, b & 32 != 0, b & 64 != 0, b & 128 != 0)
  }

  /** Packing loses nothing: a legacy classification comes back whole. */
  lemma LegacyRoundTrip(code: LegacyCode, synthetic: bool, keypoint: bool, withheld: bool)
    ensures UnpackLegacy(PackClassification(Legacy(code, synthetic, keypoint, withheld)))
         == Legacy(code, synthetic, keypoint, withheld)
  {
  }

  /** As a number, the packed byte is the code plus 32, 64 and 128 for the
      flags that are set. */
  lemma PackedLegacyValue(code: LegacyCode, synthetic: bool, keypoint: bool, withheld: bool)
    ensures PackClassification(Legacy(code, synthetic, keypoint, withheld)) as int
         == code as int + (if synthetic then 32 else 0) + (if keypoint then 64 else 0)
            + (if withheld then 128 else 0)
  {
  }
}
