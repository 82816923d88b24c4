/** PointArray::loadLas: walks the decompressed point records once, stores
    one record per decimation block into pre-sized columns, and shrinks the
    columns when the buffer holds fewer records than the header declares. */
module LasLoader {
  import opened NatArith
  import opened LasTypes
  import opened Decimation
  import opened SpatialOffset
  import opened ClassificationByte
  import opened BlockSampler

  /** Element layout of a column (TypeSpec). */
  datatype TypeSpec = Vec3Float32 | Uint16 | Uint8 | ColorUint16x3

  function ElementsPerPoint(t: TypeSpec): nat
  {
    if t == ColorUint16x3 then 3 else 1
  }

  /** The number of elements a buffer for `count` points holds. */
  function Cells(t: TypeSpec, count: nat): nat
  {
    ElementsPerPoint(t) * count
  }

  /** One stored element of a column. */
  datatype Elem = Position(p: Vec3) | U16(w: bv16) | U8(b: bv8)

  function ZeroElem(t: TypeSpec): Elem
  {
    match t
    case Vec3Float32 => Position(Vec3(0.0, 0.0, 0.0))
    case Uint16 | ColorUint16x3 => U16(0)
    case Uint8 => U8(0)
  }

  /** A named column (GeomField): a buffer sized for a number of points and
      the number of points it logically holds. */
  class GeomField {
    const spec: TypeSpec
    const name: string
    const data: array<Elem>
    var size: nat

    constructor (spec: TypeSpec, name: string, count: nat)
      ensures this.spec == spec && this.name == name && size == count
      ensures fresh(data) && data.Length == Cells(spec, count)
    {
      this.spec := spec;
      this.name := name;
      size := count;
      data := new Elem[Cells(spec, count)](_ => ZeroElem(spec));
    }
  }

  /** The random generator: `stream(k)` is what its k-th call returns. */
  class RandomSource {
    const stream: nat -> nat
    var calls: nat

    constructor (stream: nat -> nat)
      ensures this.stream == stream && calls == 0
    {
      this.stream := stream;
      calls := 0;
    }

    method Generate64() returns (r: nat)
      modifies this
      ensures r == stream(old(calls)) && calls == old(calls) + 1
    {
      r := stream(calls);
      calls := calls + 1;
    }
  }

  /** What the loader learns from the libraries it calls: whether the LASzip
      descriptor is present, whether the file opens, whether the point decoder
      accepts the declared format and whether that format carries RGB; the
      decompressed point bytes; and the decoding of one record's bytes. */
  datatype Collaborators = Collaborators(
    laszipVlrFound: bool,
    readerOpened: bool,
    pointInitOk: bool,
    haveRgb: bool,
    pointData: seq<bv8>,
    decode: seq<bv8> -> PointRecord)

  /** The number of whole records in the point bytes. */
  function WholeRecords(env: Collaborators, stride: nat): nat
    requires stride > 0
  {
    |env.pointData| / stride
  }

  /** The record after the `n`-th starts one stride further on. */
  lemma NextRecordAt(n: nat, stride: nat)
    ensures (n + 1) * stride == n * stride + stride
  {
  }

  /** A walk that stops once fewer than `stride` bytes are left has seen
      every whole record. */
  lemma AllWholeRecords(env: Collaborators, stride: nat, n: nat)
    requires stride > 0 && n * stride <= |env.pointData| < n * stride + stride
    ensures n == WholeRecords(env, stride)
  {
    DivUnique(|env.pointData|, stride, n);
  }

  /** The bytes of whole record `i` (from 0), decoded. */
  function DecodeRecord(env: Collaborators, stride: nat, i: nat): PointRecord
    requires stride > 0 && i < WholeRecords(env, stride)
  {
    var n := WholeRecords(env, stride);
    assert n * stride + |env.pointData| % stride == |env.pointData|;
    MulMonotone(i + 1, n, stride);
    assert (i + 1) * stride == i * stride + stride;
    env.decode(env.pointData[i * stride .. (i + 1) * stride])
  }

  /** The decoded whole records of the point bytes, in file order; a
      trailing partial record is not among them. */
  function DecodedRecords(env: Collaborators, stride: nat): (rs: seq<PointRecord>)
    requires stride > 0
    ensures |rs| == WholeRecords(env, stride)
  {
    seq(WholeRecords(env, stride), i requires 0 <= i < WholeRecords(env, stride) =>
      DecodeRecord(env, stride, i))
  }

  /** The columns every load creates, in order: six mandatory ones, then
      the color column when the records carry RGB. */
  function ColumnName(c: nat): string
  {
    match c
    case 0 => "position"
    case 1 => "intensity"
    case 2 => "returnNumber"
    case 3 => "numberOfReturns"
    case 4 => "pointSourceId"
    case 5 => "classification"
    case _ => "color"
  }

  /** The element layout of column `c`. */
  function ColumnSpec(c: nat): TypeSpec
  {
    match c
    case 0 => Vec3Float32
    case 1 => Uint16
    case 2 => Uint8
    case 3 => Uint8
    case 4 => Uint16
    case 5 => Uint8
    case _ => ColorUint16x3
  }

  /** The elements record `r` contributes to column `c`: its position
      shifted by `offset`, intensity, return number, number of returns,
      point source id, packed classification byte, and the three color
      channels. */
  function Project(c: nat, offset: Vec3, r: PointRecord): (v: seq<Elem>)
    ensures |v| == ElementsPerPoint(ColumnSpec(c))
  {
    match c
    case 0 => [Position(Sub(r.xyz, offset))]
    case 1 => [U16(r.intensity)]
    case 2 => [U8(r.returnNumber)]
    case 3 => [U8(r.numberOfReturns)]
    case 4 => [U16(r.pointSourceId)]
    case 5 => [U8(PackClassification(r.classification))]
    case _ => [U16(r.rgb.0), U16(r.rgb.1), U16(r.rgb.2)]
  }

  /** Where element `e` of point `j` sits in column `c`. */
  function Slot(c: nat, j: nat, e: nat): nat
  {
    ElementsPerPoint(ColumnSpec(c)) * j + e
  }

  /** Point `j` of column `c`, whose elements are `cells`, carries the
      elements of record `r`. */
  ghost predicate PointHolds(cells: seq<Elem>, c: nat, j: nat, offset: Vec3, r: PointRecord)
  {
    forall e :: 0 <= e < |Project(c, offset, r)| ==>
      Slot(c, j, e) < |cells| && cells[Slot(c, j, e)] == Project(c, offset, r)[e]
  }

  /** The first `n` points of column `c` carry the first `n` records. */
  ghost predicate ColumnHolds(cells: seq<Elem>, c: nat, offset: Vec3, contents: seq<PointRecord>, n: nat)
  {
    n <= |contents| && forall j :: 0 <= j < n ==> PointHolds(cells, c, j, offset, contents[j])
  }

  /** Writes record `p` as point `k` of column `c` (`*position++ = ...`, or
      `*color++` three times for the color column). */
  method Put(f: GeomField, c: nat, k: nat, offset: Vec3, p: PointRecord, ghost contents: seq<PointRecord>)
    requires c <= 6 && f.spec == ColumnSpec(c)
    requires Slot(c, k, ElementsPerPoint(f.spec) - 1) < f.data.Length
    requires ColumnHolds(f.data[..], c, offset, contents, k) && k == |contents|
    modifies f.data
    ensures ColumnHolds(f.data[..], c, offset, contents + [p], k + 1)
  {
    var v := Project(c, offset, p);
    if c == 6 {
      f.data[3 * k] := v[0];
      f.data[3 * k + 1] := v[1];
      f.data[3 * k + 2] := v[2];
    } else {
      f.data[k] := v[0];
    }
    forall j | 0 <= j < k + 1
      ensures PointHolds(f.data[..], c, j, offset, (contents + [p])[j])
    {
      if j < k {
        assert PointHolds(old(f.data[..]), c, j, offset, contents[j]);
      }
    }
  }

  /** Writes record `p` as point `k` of every column, in the order the
      loader does. */
  method WritePoint(columns: seq<GeomField>, k: nat, offset: Vec3, p: PointRecord,
                    ghost contents: seq<PointRecord>)
    requires |columns| == 6 || |columns| == 7
    requires forall c, d :: 0 <= c < d < |columns| ==> columns[c].data != columns[d].data
    requires forall c :: 0 <= c < |columns| ==> columns[c].spec == ColumnSpec(c)
    requires forall c :: 0 <= c < |columns| ==>
      Slot(c, k, ElementsPerPoint(ColumnSpec(c)) - 1) < columns[c].data.Length
    requires forall c :: 0 <= c < |columns| ==> ColumnHolds(columns[c].data[..], c, offset, contents, k)
    requires k == |contents|
    modifies set c | 0 <= c < |columns| :: columns[c].data
    ensures forall c :: 0 <= c < |columns| ==>
      ColumnHolds(columns[c].data[..], c, offset, contents + [p], k + 1)
  {
    for c := 0 to |columns|
      invariant forall d :: 0 <= d < c ==> ColumnHolds(columns[d].data[..], d, offset, contents + [p], k + 1)
      invariant forall d :: c <= d < |columns| ==> ColumnHolds(columns[d].data[..], d, offset, contents, k)
    {
      Put(columns[c], c, k, offset, p, contents);
    }
  }

  /** The layout of the columns: column `c` is named and laid out as
      `ColumnName(c)` and `ColumnSpec(c)`, its buffer is sized for
      `capacity` points, and no two columns share a buffer. */
  ghost predicate Layout(fields: seq<GeomField>, capacity: nat)
  {
    && (forall c :: 0 <= c < |fields| ==>
          && fields[c].name == ColumnName(c) && fields[c].spec == ColumnSpec(c)
          && fields[c].data.Length == Cells(ColumnSpec(c), capacity))
    && forall c, d :: 0 <= c < d < |fields| ==> fields[c].data != fields[d].data
  }

  /** A column appended in its place keeps the layout. */
  lemma LayoutExtend(fields: seq<GeomField>, field: GeomField, capacity: nat)
    requires Layout(fields, capacity)
    requires field.name == ColumnName(|fields|) && field.spec == ColumnSpec(|fields|)
    requires field.data.Length == Cells(ColumnSpec(|fields|), capacity)
    requires forall c :: 0 <= c < |fields| ==> fields[c].data != field.data
    ensures Layout(fields + [field], capacity)
  {
  }

  /** Every column holds `size` points. */
  ghost predicate Sized(fields: seq<GeomField>, size: nat)
    reads fields
  {
    forall c :: 0 <= c < |fields| ==> fields[c].size == size
  }

  /** The write cursors into the columns (`*position++`, `*intensity++`, ...,
      `*color++` three times): all advance together, one point at a time. */
  class ColumnWriter {
    const columns: seq<GeomField>
    const offset: Vec3
    const capacity: nat
    var count: nat
    ghost var Contents: seq<PointRecord>
    ghost const Repr: set<object>

    ghost predicate Valid()
      reads this, Repr
    {
      && (|columns| == 6 || |columns| == 7)
      && Layout(columns, capacity)
      && Repr == (set c | 0 <= c < |columns| :: columns[c].data)
      && count == |Contents| <= capacity
      && forall c :: 0 <= c < |columns| ==> ColumnHolds(columns[c].data[..], c, offset, Contents, count)
    }

    constructor (columns: seq<GeomField>, offset: Vec3, capacity: nat)
      requires (|columns| == 6 || |columns| == 7) && Layout(columns, capacity)
      ensures Valid() && Contents == []
      ensures this.columns == columns && this.offset == offset && this.capacity == capacity
    {
      this.columns := columns;
      this.offset := offset;
      this.capacity := capacity;
      count := 0;
      Contents := [];
      Repr := set c | 0 <= c < |columns| :: columns[c].data;
    }

    /** Stores one point at the cursors and advances them. */
    method Append(p: PointRecord)
      requires Valid() && count < capacity
      modifies this, Repr
      ensures Valid() && Contents == old(Contents) + [p]
    {
      var k := count;
      ghost var before := Contents;
      assert forall c :: 0 <= c < |columns| ==> Slot(c, k, ElementsPerPoint(ColumnSpec(c)) - 1) < columns[c].data.Length;
      WritePoint(columns, k, offset, p, before);
      count := count + 1;
      Contents := Contents + [p];
    }
  }

  /** The records the loader keeps from the point bytes: the pick of every
      decimation block among the whole records, in file order. */
  ghost function StoredRecords(h: LasHeader, env: Collaborators, budget: nat, rand: nat -> nat): (s: seq<PointRecord>)
    requires 0 < h.pointDataRecordLength
    requires WholeRecords(env, h.pointDataRecordLength) <= DeclaredCount(h)
    requires budget > 0 || DeclaredCount(h) == 0
  {
    var stride, total := h.pointDataRecordLength, DeclaredCount(h);
    Sampled(DecodedRecords(env, stride), total, PlanDecimation(total, budget).decimate, rand,
            WholeRecords(env, stride))
  }

  /** After the `k + 1`-th store: moves to the next decimation block and picks
      the point to store from it, drawing from the generator only when
      there is a choice, and pulling a pick past the declared points back
      to the last one. */
  method NextStore(rng: RandomSource, total: nat, decimate: nat, block: nat, ghost k: nat)
    returns (nextBlock: nat, nextStore: nat)
    requires decimate >= 1 && block == BlockStart(decimate, k)
    requires rng.calls == (if decimate > 1 then k else 0)
    modifies rng
    ensures nextBlock == BlockStart(decimate, k + 1)
    ensures nextStore == StoreIndex(total, decimate, rng.stream, k + 1)
    ensures rng.calls == (if decimate > 1 then k + 1 else 0)
  {
    BlockStartNext(decimate, k);
    nextBlock := block + decimate;
    nextStore := nextBlock;
    if decimate > 1 {
      // a random offset into the new block decides which of its points is kept
      var r := rng.Generate64();
      RemainderIsMod(r, decimate);
      nextStore := nextStore + r % decimate;
      if nextBlock <= total && nextStore > total {
        nextStore := total;
      }
    }
  }

  /** The sampler's state after walking the first `n` records: the store
      counter, the current block start and the pending pick agree with the
      block sampler, the generator has been drawn once per store after the
      first when there is a choice, and the columns hold the picks so far. */
  ghost predicate Sampling(writer: ColumnWriter, rng: RandomSource, records: seq<PointRecord>,
                           total: nat, decimate: nat, rand: nat -> nat,
                           n: nat, storeCount: nat, block: nat, nextStore: nat)
    reads writer, writer.Repr, rng
    requires decimate >= 1 && n <= |records|
  {
    && storeCount == StoredCount(total, decimate, rand, n)
    && block == BlockStart(decimate, storeCount)
    && nextStore == StoreIndex(total, decimate, rand, storeCount)
    && rng.stream == rand && rng.calls == (if decimate > 1 then storeCount else 0)
    && writer.Valid() && writer.Contents == Sampled(records, total, decimate, rand, n)
  }

  /** Stores the `n`-th record (from 1), the pending pick, and picks from
      the next block. */
  method StorePick(point: PointRecord, writer: ColumnWriter, rng: RandomSource,
                   ghost records: seq<PointRecord>, total: nat, decimate: nat, rand: nat -> nat,
                   n: nat, storeCount: nat, block: nat, nextStore: nat)
    returns (block': nat, nextStore': nat)
    requires decimate >= 1 && 0 < n <= |records| && point == records[n - 1] && nextStore == n
    requires rng !in writer.Repr && storeCount < writer.capacity
    requires Sampling(writer, rng, records, total, decimate, rand, n - 1, storeCount, block, nextStore)
    requires StoredCount(total, decimate, rand, n) == storeCount + 1
    requires Sampled(records, total, decimate, rand, n)
             == Sampled(records, total, decimate, rand, n - 1) + [point]
    modifies writer, writer.Repr, rng
    ensures Sampling(writer, rng, records, total, decimate, rand, n, storeCount + 1, block', nextStore')
  {
    writer.Append(point);
    block', nextStore' := NextStore(rng, total, decimate, block, storeCount);
  }

  /** The body of the loop for the `n`-th record (from 1), already decoded
      into `point`: stores it when it is the pending pick. */
  method VisitRecord(point: PointRecord, writer: ColumnWriter, rng: RandomSource,
                     ghost records: seq<PointRecord>, total: nat, decimate: nat,
                     rand: nat -> nat, n: nat, storeCount: nat, block: nat, nextStore: nat)
    returns (storeCount': nat, block': nat, nextStore': nat)
    requires decimate >= 1 && 0 < n <= |records| && point == records[n - 1]
    requires StoredCount(total, decimate, rand, n) <= writer.capacity && rng !in writer.Repr
    requires Sampling(writer, rng, records, total, decimate, rand, n - 1, storeCount, block, nextStore)
    modifies writer, writer.Repr, rng
    ensures Sampling(writer, rng, records, total, decimate, rand, n, storeCount', block', nextStore')
  {
    StoredCountStep(total, decimate, rand, n);
    StoredCountBracket(total, decimate, rand, n - 1);
    if n >= nextStore {
      SampledAppend(records, total, decimate, rand, n);
      storeCount' := storeCount + 1;
      block', nextStore' := StorePick(point, writer, rng, records, total, decimate, rand, n, storeCount, block, nextStore);
    } else {
      SampledSkip(records, total, decimate, rand, n);
      storeCount', block', nextStore' := storeCount, block, nextStore;
    }
  }

  /** Copies the `i`-th whole record (from 0), whose bytes start at `at`,
      into the point buffer and decodes it (`std::copy` and
      `LASpoint::copy_from`). */
  method ReadRecord(env: Collaborators, stride: nat, at: nat, pointBuffer: array<bv8>, ghost i: nat)
    returns (point: PointRecord)
    requires 0 < stride <= pointBuffer.Length
    requires at == i * stride && at + stride <= |env.pointData|
    modifies pointBuffer
    ensures at + stride == (i + 1) * stride
    ensures i < WholeRecords(env, stride) && point == DecodedRecords(env, stride)[i]
  {
    forall k | 0 <= k < stride {
      pointBuffer[k] := env.pointData[at + k];
    }
    point := env.decode(pointBuffer[..stride]);
    MulLeDiv(i + 1, stride, |env.pointData|);
    assert (i + 1) * stride == at + stride;
    assert pointBuffer[..stride] == env.pointData[i * stride .. (i + 1) * stride];
  }

  /** One turn of the walk: reads the record at byte `it` (the `n + 1`-th)
      and visits it. */
  method WalkStep(env: Collaborators, stride: nat, total: nat, decimate: nat, rand: nat -> nat,
                  writer: ColumnWriter, rng: RandomSource, pointBuffer: array<bv8>,
                  ghost records: seq<PointRecord>,
                  it: nat, n: nat, storeCount: nat, block: nat, nextStore: nat)
    returns (storeCount': nat, block': nat, nextStore': nat)
    requires 0 < stride <= pointBuffer.Length && decimate >= 1
    requires records == DecodedRecords(env, stride) && WholeRecords(env, stride) <= total
    requires it == n * stride && it + stride <= |env.pointData| && n <= |records|
    requires forall m :: 0 <= m <= total ==> StoredCount(total, decimate, rand, m) <= writer.capacity
    requires pointBuffer !in writer.Repr && rng !in writer.Repr
    requires Sampling(writer, rng, records, total, decimate, rand, n, storeCount, block, nextStore)
    modifies writer, writer.Repr, rng, pointBuffer
    ensures n + 1 <= |records|
    ensures Sampling(writer, rng, records, total, decimate, rand, n + 1, storeCount', block', nextStore')
  {
    var point := ReadRecord(env, stride, it, pointBuffer, n);
    storeCount', block', nextStore' :=
      VisitRecord(point, writer, rng, records, total, decimate, rand,
                  n + 1, storeCount, block, nextStore);
  }

  /** The loop of loadLas: walks the whole records of the point bytes,
      copying each into the point buffer and decoding it, and appends the
      pick of every decimation block to the columns. Returns the number of
      records walked and of points stored. */
  method WalkRecords(env: Collaborators, stride: nat, total: nat, decimate: nat, rand: nat -> nat,
                     writer: ColumnWriter, rng: RandomSource, pointBuffer: array<bv8>)
    returns (readCount: nat, storeCount: nat)
    requires 0 < stride <= pointBuffer.Length && decimate >= 1
    requires WholeRecords(env, stride) <= total
    requires forall n :: 0 <= n <= total ==> StoredCount(total, decimate, rand, n) <= writer.capacity
    requires writer.Valid() && writer.Contents == []
    requires rng.stream == rand && rng.calls == 0
    requires pointBuffer !in writer.Repr && rng !in writer.Repr
    modifies writer, writer.Repr, rng, pointBuffer
    ensures readCount == WholeRecords(env, stride)
    ensures storeCount == StoredCount(total, decimate, rand, readCount)
    ensures writer.Valid()
    ensures writer.Contents == Sampled(DecodedRecords(env, stride), total, decimate, rand, readCount)
  {
    ghost var records := DecodedRecords(env, stride);
    var nextDecimateBlock: nat := 1;
    var nextStore: nat := 1;
    readCount, storeCount := 0, 0;
    var data := env.pointData;
    var it: nat := 0;
    while it < |data|
      invariant it == readCount * stride <= |data| && readCount <= |records|
      invariant Sampling(writer, rng, records, total, decimate, rand,
                         readCount, storeCount, nextDecimateBlock, nextStore)
      decreases |data| - it
    {
      if it + stride > |data| {
        // fewer bytes are left than one record needs
        break;
      }
      storeCount, nextDecimateBlock, nextStore :=
        WalkStep(env, stride, total, decimate, rand, writer, rng, pointBuffer, records,
                 it, readCount, storeCount, nextDecimateBlock, nextStore);
      NextRecordAt(readCount, stride);
      readCount := readCount + 1;
      it := it + stride;
    }
    AllWholeRecords(env, stride, readCount);
  }

  /** Shrinks every column to `n` points; the buffers keep their size. */
  method Shrink(fields: seq<GeomField>, n: nat)
    modifies set c | 0 <= c < |fields| :: fields[c]
    ensures forall c :: 0 <= c < |fields| ==> fields[c].size == n
  {
    for i := 0 to |fields|
      invariant forall c :: 0 <= c < i ==> fields[c].size == n
    {
      fields[i].size := n;
    }
  }

  /** The end of the walk: when fewer than the declared `total` records
      could be read, the columns shrink to the `storeCount` points stored and
      the total becomes the `readCount` records read; otherwise the planned
      `npoints` and `total` stand. */
  method Settle(fields: seq<GeomField>, npoints: nat, total: nat, readCount: nat, storeCount: nat)
    returns (npoints': nat, totalPoints: nat)
    requires Sized(fields, npoints) && readCount <= total
    requires readCount == total ==> storeCount == npoints
    modifies set c | 0 <= c < |fields| :: fields[c]
    ensures npoints' == storeCount && totalPoints == readCount && Sized(fields, npoints')
  {
    npoints', totalPoints := npoints, total;
    if readCount < total {
      npoints' := storeCount;
      // only the logical sizes change; the buffers stay as allocated
      Shrink(fields, npoints');
      totalPoints := readCount;
    }
  }

  /** Creates the six mandatory columns, each sized for `npoints` points. */
  method MandatoryFields(npoints: nat) returns (fields: seq<GeomField>)
    ensures |fields| == 6 && Layout(fields, npoints) && Sized(fields, npoints)
    ensures forall c :: 0 <= c < |fields| ==> fresh(fields[c]) && fresh(fields[c].data)
  {
    fields := [];
    for c := 0 to 6
      invariant |fields| == c && Layout(fields, npoints) && Sized(fields, npoints)
      invariant forall k :: 0 <= k < c ==> fresh(fields[k]) && fresh(fields[k].data)
    {
      var field := new GeomField(ColumnSpec(c), ColumnName(c), npoints);
      LayoutExtend(fields, field, npoints);
      fields := fields + [field];
    }
  }

  /** Appends the color column, sized for `npoints` points. */
  method WithColor(fields: seq<GeomField>, npoints: nat) returns (fields': seq<GeomField>)
    requires |fields| == 6 && Layout(fields, npoints) && Sized(fields, npoints)
    ensures |fields'| == 7 && fields'[..6] == fields && Layout(fields', npoints) && Sized(fields', npoints)
    ensures fresh(fields'[6]) && fresh(fields'[6].data)
  {
    var color := new GeomField(ColorUint16x3, "color", npoints);
    fields' := fields + [color];
  }

  /** Walks the records into the columns through their write cursors.
      Returns the number of records walked and of points stored. */
  method StoreRecords(h: LasHeader, env: Collaborators, budget: nat, rand: nat -> nat,
                      fields: seq<GeomField>, offset: Vec3, rng: RandomSource)
    returns (readCount: nat, storeCount: nat)
    requires 0 < h.pointDataRecordLength <= 50 && budget > 0
    requires WholeRecords(env, h.pointDataRecordLength) <= DeclaredCount(h)
    requires (|fields| == 6 || |fields| == 7)
    requires Layout(fields, PlanDecimation(DeclaredCount(h), budget).npoints)
    requires rng.stream == rand && rng.calls == 0
    modifies rng, set c | 0 <= c < |fields| :: fields[c].data
    ensures readCount == WholeRecords(env, h.pointDataRecordLength)
    ensures storeCount == |StoredRecords(h, env, budget, rand)|
    ensures forall c :: 0 <= c < |fields| ==>
      ColumnHolds(fields[c].data[..], c, offset, StoredRecords(h, env, budget, rand), storeCount)
  {
    var stride, total := h.pointDataRecordLength, DeclaredCount(h);
    var plan := PlanDecimation(total, budget);
    var writer := new ColumnWriter(fields, offset, plan.npoints);
    var pointBuffer := new bv8[50];
    WalkWithinPlan(total, budget, rand);
    readCount, storeCount := WalkRecords(env, stride, total, plan.decimate, rand, writer, rng, pointBuffer);
  }

  /** The walk over the point records once the columns are in place:
      stores the sampled records, then shrinks the columns when the buffer
      held fewer records than declared. */
  method LoadPoints(h: LasHeader, env: Collaborators, budget: nat, rand: nat -> nat,
                    fields: seq<GeomField>, offset: Vec3, rng: RandomSource)
    returns (npoints: nat, totalPoints: nat)
    requires 0 < h.pointDataRecordLength <= 50 && budget > 0 && DeclaredCount(h) > 0
    requires WholeRecords(env, h.pointDataRecordLength) <= DeclaredCount(h)
    requires |fields| == 6 || |fields| == 7
    requires Layout(fields, PlanDecimation(DeclaredCount(h), budget).npoints)
    requires Sized(fields, PlanDecimation(DeclaredCount(h), budget).npoints)
    requires rng.stream == rand && rng.calls == 0
    modifies rng, set c | 0 <= c < |fields| :: fields[c]
    modifies set c | 0 <= c < |fields| :: fields[c].data
    ensures Sized(fields, npoints)
    ensures totalPoints == WholeRecords(env, h.pointDataRecordLength)
    ensures npoints == |StoredRecords(h, env, budget, rand)|
    ensures forall c :: 0 <= c < |fields| ==>
      ColumnHolds(fields[c].data[..], c, offset, StoredRecords(h, env, budget, rand), npoints)
  {
    var total := DeclaredCount(h);
    npoints := PlanDecimation(total, budget).npoints;
    var readCount, storeCount := StoreRecords(h, env, budget, rand, fields, offset, rng);
    if readCount == total {
      StoredCountComplete(total, budget, rand);
    }
    npoints, totalPoints := Settle(fields, npoints, total, readCount, storeCount);
  }

  /** loadLas once the LASzip descriptor is found and the file is open. */
  method LoadOpened(h: LasHeader, env: Collaborators, budget: nat, rand: nat -> nat)
    returns (ok: bool, fields: seq<GeomField>, offset: Vec3, npoints: nat, totalPoints: nat)
    requires 0 < h.pointDataRecordLength <= 50
    requires WholeRecords(env, h.pointDataRecordLength) <= DeclaredCount(h)
    requires budget > 0 || DeclaredCount(h) == 0
    ensures ok <==> DeclaredCount(h) == 0 || env.pointInitOk
    ensures offset == SpatialOrigin(h.minX, h.minY, h.minZ)
    ensures |fields| == (if ok && DeclaredCount(h) > 0 && env.haveRgb then 7 else 6)
    ensures Layout(fields, PlanDecimation(DeclaredCount(h), budget).npoints) && Sized(fields, npoints)
    ensures forall c :: 0 <= c < |fields| ==> fresh(fields[c]) && fresh(fields[c].data)
    ensures !ok ==>
      npoints == PlanDecimation(DeclaredCount(h), budget).npoints && totalPoints == DeclaredCount(h)
    ensures ok ==>
      && totalPoints == WholeRecords(env, h.pointDataRecordLength)
      && npoints == |StoredRecords(h, env, budget, rand)|
      && forall c :: 0 <= c < |fields| ==>
           ColumnHolds(fields[c].data[..], c, offset, StoredRecords(h, env, budget, rand), npoints)
  {
    // plan the factor and the number of points to keep
    totalPoints := DeclaredCount(h);
    var plan := PlanDecimation(totalPoints, budget);
    npoints := plan.npoints;
    offset := SpatialOrigin(h.minX, h.minY, h.minZ);
    fields := MandatoryFields(npoints);
    if totalPoints == 0 {
      assert WholeRecords(env, h.pointDataRecordLength) == 0;
      return true, fields, offset, npoints, totalPoints;
    }
    var rng := new RandomSource(rand);
    if !env.pointInitOk {
      return false, fields, offset, npoints, totalPoints;
    }
    ok := true;
    if env.haveRgb {
      fields := WithColor(fields, npoints);
    }
    assert forall c :: 0 <= c < |fields| ==> fresh(fields[c]) && fresh(fields[c].data);
    npoints, totalPoints := LoadPoints(h, env, budget, rand, fields, offset, rng);
  }

  /** PointArray::loadLas. `budget` is maxPointCount; `rand` is what the
      random generator returns call by call. Returns whether the load
      succeeded, the columns, the position origin, the number of stored
      points and the number of records walked. */
  method LoadLas(h: LasHeader, env: Collaborators, budget: nat, rand: nat -> nat)
    returns (ok: bool, fields: seq<GeomField>, offset: Vec3, npoints: nat, totalPoints: nat)
    requires 0 < h.pointDataRecordLength <= 50
    requires WholeRecords(env, h.pointDataRecordLength) <= DeclaredCount(h)
    requires budget > 0 || DeclaredCount(h) == 0
    ensures ok <==> env.laszipVlrFound && env.readerOpened
                    && (DeclaredCount(h) == 0 || env.pointInitOk)
    ensures !(env.laszipVlrFound && env.readerOpened) ==> fields == []
    ensures env.laszipVlrFound && env.readerOpened ==>
      && offset == SpatialOrigin(h.minX, h.minY, h.minZ)
      && |fields| == (if ok && DeclaredCount(h) > 0 && env.haveRgb then 7 else 6)
      && Layout(fields, PlanDecimation(DeclaredCount(h), budget).npoints) && Sized(fields, npoints)
      && (forall c :: 0 <= c < |fields| ==> fresh(fields[c]) && fresh(fields[c].data))
    ensures env.laszipVlrFound && env.readerOpened && !ok ==>
      npoints == PlanDecimation(DeclaredCount(h), budget).npoints && totalPoints == DeclaredCount(h)
    ensures ok ==>
      && totalPoints == WholeRecords(env, h.pointDataRecordLength)
      && npoints == |StoredRecords(h, env, budget, rand)|
      && forall c :: 0 <= c < |fields| ==>
           ColumnHolds(fields[c].data[..], c, offset, StoredRecords(h, env, budget, rand), npoints)
  {
    if !env.laszipVlrFound || !env.readerOpened {
      // no LASzip descriptor, or the file does not open
      return false, [], Vec3(0.0, 0.0, 0.0), 0, 0;
    }
    ok, fields, offset, npoints, totalPoints := LoadOpened(h, env, budget, rand);
  }
}
