# A model of displaz's LAS point loader

This project models `PointArray::loadLas`, the loader that reads a LAZ point cloud into displaz's columnar point arrays. Once the LASzip descriptor is found and the file opens, the loader does five things:

1. **Decimation planner.** It reads the declared point count (the larger of the legacy and the extended record counts). From that count and the caller's point budget (`maxPointCount`) it plans a decimation factor and the number of points to keep.
2. **Offset selector.** It picks the origin that is subtracted from every stored position.
3. **Columns.** It creates six columns sized for the planned count: position, intensity, return number, number of returns, point source id and classification. A seventh column, color, is added when the point format carries RGB.
4. **Block sampler.** It walks the decompressed point bytes one record at a time and keeps one point per decimation block. The first block keeps its first point. Every later block keeps its start plus a random draw modulo the factor, pulled back to the last declared point when the block starts within the file but the draw lands past its end. The kept point's fields go to the columns, and a legacy classification is packed with its three flags into one byte.
5. **Truncation handler.** If the buffer held fewer records than the header declares, it shrinks every column to the number of points actually stored and reports the number of records actually read.

Modules:

- `LasTypes`: the header facts and the decoded record.
- `NatArith`: division facts.
- `Decimation`: the planner.
- `SpatialOffset`: the offset selector.
- `ClassificationByte`: packing the classification byte.
- `BlockSampler`: the sampler as a specification over point indices.
- `LasLoader`: the loader itself. It models the columns (`GeomField`), their write cursors (`ColumnWriter`) and the random generator (`RandomSource`) as classes. The walk is a `while` loop whose invariant ties the counters and the column contents to the `BlockSampler` functions.

The libraries the loader calls are modelled as inputs (`Collaborators`):

- whether the LASzip descriptor is present;
- whether the file opens;
- whether the point decoder accepts the format, and whether that format carries RGB;
- the decompressed bytes;
- a function that decodes one record's bytes.

The random generator is a stream `rand: nat -> nat`, where `rand(k)` is what its k-th call returns.

## Model

| member | source | states |
|---|---|---|
| LasTypes.DeclaredCount | src/las_io_lazrs.cpp:52-54 | The declared count is one of the two header counts and is at least both of them. |
| Decimation.DecimationFactor | src/las_io_lazrs.cpp:55-56 | The factor is 1 for an empty file. Otherwise it is the factor `d` for which `budget` blocks of `d` cover all points but `budget` blocks of `d - 1` do not. |
| Decimation.CeilDiv | src/las_io_lazrs.cpp:61 | The planned count is the least number of `d`-point blocks that covers `total`, and it is at most `total`. |
| Decimation.PlanDecimation | src/las_io_lazrs.cpp:55-61 | The factor is at least 1. The planned count is at most the budget and at most the total, and it is ceil(total / factor). A file with 0 points gives factor 1 and count 0. A file within the budget gives factor 1 and keeps every point. |
| Decimation.CeilDivWithinBudget | src/las_io_lazrs.cpp:55-61 | Under the planned factor, ceil(total / factor) never exceeds the budget. When total <= budget, the factor is 1 and the count is the total. |
| Decimation.DecimationIsMinimal | src/las_io_lazrs.cpp:55-56 | Any smaller factor would plan more points than the budget. |
| Decimation.PlannedCountAsWritten | src/las_io_lazrs.cpp:61 | The source's `(total + decimate - 1) / decimate`, computed with 64-bit wrap-around, is never more than the exact quotient. |
| Decimation.PlannedCountAsWrittenAgrees | src/las_io_lazrs.cpp:61 | When the sum does not wrap, the source's expression equals ceil(total / decimate). |
| Decimation.PlannedCountAsWrittenOverflows | src/las_io_lazrs.cpp:55-61 | For 2^64 - 1 declared points and a budget of 2, the factor is 2^63. The wrapped sum gives a planned count of 0, while the intended count is 2. |
| SpatialOffset.SpatialOrigin | src/las_io_lazrs.cpp:62-67 | The origin is (min_x, min_y, z). z is min_z exactly when abs(min_z) > 10000 (or min_z is 0), and 0 otherwise. The bounding box's minimum z therefore lies within 10000 of the origin's z. |
| ClassificationByte.PackClassification | src/las_io_lazrs.cpp:148-155 | An extended record stores its code unchanged. A legacy record stores its 5-bit code in bits 0-4 and the synthetic, key-point and withheld flags in bits 5, 6 and 7. |
| ClassificationByte.UnpackLegacy | src/las_io_lazrs.cpp:150-155 | Every byte is the packing of the legacy classification read back from it. |
| ClassificationByte.LegacyRoundTrip | src/las_io_lazrs.cpp:150-155 | Unpacking a packed legacy classification gives back its code and all three flags. |
| ClassificationByte.PackedLegacyValue | src/las_io_lazrs.cpp:152-154 | As a number, the packed byte is the code plus 32, 64 and 128 for each flag that is set. |
| NatArith.RemainderIsMod | src/las_io_lazrs.cpp:168 | The remainder used by the sampler specification equals `%`. |
| BlockSampler.BlockStartClosed | src/las_io_lazrs.cpp:86-87 | After `k` advances by `decimate`, the block start is `1 + k * decimate`. |
| BlockSampler.BlockStartMonotone | src/las_io_lazrs.cpp:164 | Later blocks start no earlier. |
| BlockSampler.StoreIndex | src/las_io_lazrs.cpp:163-171 | The pick for block `k` lies inside that block. It is within the declared points exactly when the block starts within them, which is the clamp at line 169. |
| BlockSampler.StoreIndexIncreasing | src/las_io_lazrs.cpp:163-171 | Picks strictly increase from block to block. |
| BlockSampler.StoredCountBracket | src/las_io_lazrs.cpp:129-135 | After `n` records, the store count is at most `n`. Every pick made so far is at most `n`, and the pending pick is beyond `n`. |
| BlockSampler.StoredIndicesExact | src/las_io_lazrs.cpp:129-135 | Pick `j` is stored among the first `n` records if and only if `j` is less than the store count. |
| BlockSampler.PlannedBlocks | src/las_io_lazrs.cpp:164-170 | Under the planned factor, block `k` starts within the declared points if and only if `k` is less than the planned count. |
| BlockSampler.StoredCountWithinPlan | src/las_io_lazrs.cpp:135-162 | Walking at most the declared records never stores more than the planned count, so the writes stay within the pre-sized columns. |
| BlockSampler.WalkWithinPlan | src/las_io_lazrs.cpp:135-162 | The same bound holds for every prefix of the walk. |
| BlockSampler.StoredCountComplete | src/las_io_lazrs.cpp:129-171 | Walking all declared records stores exactly the planned count. |
| BlockSampler.OneSamplePerBlock | src/las_io_lazrs.cpp:163-171 | Each planned block holds exactly one pick, and that pick is within the declared points. Pick `j` falls in block `k` if and only if `j == k`. |
| BlockSampler.StoredCountUndecimated | src/las_io_lazrs.cpp:163-166 | With factor 1, every record is stored and the next pick is always the next record. |
| BlockSampler.SampledAppend | src/las_io_lazrs.cpp:133-162 | When the walk reaches the pending pick, that record is appended to what was kept. |
| BlockSampler.SampledSkip | src/las_io_lazrs.cpp:133-134 | Any other record leaves what was kept unchanged. |
| BlockSampler.PicksAt | src/las_io_lazrs.cpp:133-162 | The j-th kept record is the record at pick `j`. |
| BlockSampler.SampledPicks | src/las_io_lazrs.cpp:129-162 | The j-th record kept after `n` records is the record at pick `j`, and that pick is among the first `n` records. |
| BlockSampler.BlockStart | src/las_io_lazrs.cpp:86-87 | The value of `nextDecimateBlock` after `k` stores: it starts at 1 and each store advances it by `decimate` (line 164). Its closed form is BlockStartClosed. |
| BlockSampler.StoredCount | src/las_io_lazrs.cpp:129-135 | The value of `storeCount` after `n` records: it steps exactly when the record's index reaches the pending pick. Its meaning is stated by StoredCountBracket and StoredIndicesExact. |
| BlockSampler.Picks | src/las_io_lazrs.cpp:133-162 | The records at the first `m` picks, in pick order. There are exactly `m` of them, and PicksAt gives each one. |
| BlockSampler.Sampled | src/las_io_lazrs.cpp:129-162 | What the columns hold after `n` records: the records at the picks made so far. SampledAppend, SampledSkip and SampledPicks state it. |
| BlockSampler.NextStoreAsWritten | src/las_io_lazrs.cpp:164-170 | The advance to the next block with 64-bit counters. Both results stay below 2^64, and without a random choice the pick is the block start. |
| BlockSampler.NextStoreAsWrittenAgrees | src/las_io_lazrs.cpp:164-170 | While the counters stay below 2^64, the source's advance gives exactly the next BlockStart and StoreIndex. |
| BlockSampler.NextStoreAsWrittenWraps | src/las_io_lazrs.cpp:164-170 | For 2^63 declared points and a budget of 1, the factor is 2^63. The source's own expression at line 61 plans 1 point, and its sum does not wrap there. After the first store the next block starts at 2^63 + 1, past the declared points, so the clamp does not apply. A draw of 2^63 - 1 then wraps `nextStore` to 0, so record 2 is stored as a second point. The sampler's next pick lies past every declared point. |
| LasLoader.WholeRecords | src/las_io_lazrs.cpp:110-122 | The number of records the walk visits: the whole `stride`-sized records in the point bytes. AllWholeRecords ties it to the loop's exit. |
| LasLoader.ColumnName | src/las_io_lazrs.cpp:68-73 | The names of the six mandatory columns in creation order, then "color" (line 104). |
| LasLoader.ColumnSpec | src/las_io_lazrs.cpp:68-73 | The element layouts of the six mandatory columns in creation order, then three 16-bit channels for color (line 103). |
| LasLoader.StoredRecords | src/las_io_lazrs.cpp:107-172 | The records a load keeps: Sampled over all whole records, under the planned factor. |
| LasLoader.GeomField.constructor | src/las_io_lazrs.cpp:68-73 | A new column has the given layout and name and holds `count` points. Its buffer has one element per point, or three per point for color. |
| LasLoader.RandomSource.constructor | src/las_io_lazrs.cpp:89 | The generator starts on the given stream with no values drawn. |
| LasLoader.RandomSource.Generate64 | src/las_io_lazrs.cpp:168 | Each call returns the next value of the stream. |
| LasLoader.AllWholeRecords | src/las_io_lazrs.cpp:110-122 | A walk that stops when fewer than a record's length of bytes remain has visited every whole record. |
| LasLoader.DecodedRecords | src/las_io_lazrs.cpp:110-126 | There is one decoded record per whole record in the buffer. A trailing partial record is dropped. |
| LasLoader.Project | src/las_io_lazrs.cpp:137-162 | A record contributes one element to each column, and three to the color column. |
| LasLoader.Put | src/las_io_lazrs.cpp:137-162 | Writing point `k` to column `c` leaves that column holding the first `k + 1` records. Earlier points are unchanged. |
| LasLoader.WritePoint | src/las_io_lazrs.cpp:136-162 | After the write, every column holds the records so far plus the new one. |
| LasLoader.ColumnWriter.constructor | src/las_io_lazrs.cpp:79-84 | The write cursors start at point 0 of the given columns, with nothing written. |
| LasLoader.ColumnWriter.Append | src/las_io_lazrs.cpp:135-162 | Storing a point appends it to every column's contents and keeps the layout and the capacity bound. |
| LasLoader.NextStore | src/las_io_lazrs.cpp:163-171 | After the (k+1)-th store, the block start and `nextStore` equal BlockStart and StoreIndex for block k+1. The generator is drawn once, and only when `decimate > 1`. |
| LasLoader.StorePick | src/las_io_lazrs.cpp:135-171 | Storing the pending pick advances the sampler state to the next record. |
| LasLoader.VisitRecord | src/las_io_lazrs.cpp:129-171 | One loop turn keeps the sampler state equal to the block sampler: the store count, the block, the pending pick, the generator calls, and the columns holding exactly the kept records. |
| LasLoader.DecodeRecord | src/las_io_lazrs.cpp:123-126 | The i-th record is the decoding of the i-th `stride`-byte slice of the point bytes. It is defined only for whole records, and the slice lies within the bytes. |
| LasLoader.ReadRecord | src/las_io_lazrs.cpp:123-126 | The bytes copied into the point buffer decode to the i-th whole record. |
| LasLoader.WalkStep | src/las_io_lazrs.cpp:110-171 | Reading and visiting one more record advances the sampler state by one record. |
| LasLoader.WalkRecords | src/las_io_lazrs.cpp:107-172 | The walk reads every whole record. The store count is the sampler's count, and the columns hold exactly the sampled records in file order. |
| LasLoader.Shrink | src/las_io_lazrs.cpp:180-181 | Every column's size becomes `n`. |
| LasLoader.Settle | src/las_io_lazrs.cpp:174-183 | After the walk, `npoints` is the store count, every column holds that many points, and `totalPoints` is the number of records read. |
| LasLoader.MandatoryFields | src/las_io_lazrs.cpp:68-73 | Six fresh columns, named and laid out as the source creates them, each sized for `npoints`. |
| LasLoader.WithColor | src/las_io_lazrs.cpp:101-106 | The color column is appended after the six, sized for `npoints`. |
| LasLoader.StoreRecords | src/las_io_lazrs.cpp:107-172 | Every whole record is read, and the columns hold exactly the sampled records. |
| LasLoader.LoadPoints | src/las_io_lazrs.cpp:107-184 | After the walk and the truncation rule, `npoints` is the number of sampled records and every column holds exactly them. `totalPoints` is the number of records read. |
| LasLoader.LoadOpened | src/las_io_lazrs.cpp:52-184 | Success if and only if the file is empty or the point decoder accepts the format. The origin comes from the offset rule. The file has six columns, or seven when the format carries RGB. An empty file gives six empty columns and success. On the point-init failure, the planned counts are returned. |
| LasLoader.LoadLas | src/las_io_lazrs.cpp:13-184 | Fails without columns when the LASzip descriptor is missing or the file does not open. Otherwise it behaves as LoadOpened. |

## Left out

- Reading and decompressing the file is not modelled. This covers `las_file_open`, `find_laszip_vlr`, the LASzip decompressor, `fopen` and `LASreaderLAS::open`. Their outcomes and the decompressed bytes are inputs.
- Decoding a record's bytes (`LASpoint::init`, `copy_from` and the getters) is not modelled. Decoding is an input function, and `init` success and RGB presence are input flags.
- Positions are kept as exact reals. The source narrows `P - offset` to single precision (V3f), and this model does not capture that rounding.
- Logging, `print_header`, `printf` and the `loadProgress` signal at lines 130-131 have no effect on the outputs and are left out.
- The `LAS_TOOLS_VERSION` conditional at lines 141-145 is left out. The record carries one number-of-returns value.
- The seeding and distribution of `QRandomGenerator` are not modelled. The generator is an arbitrary stream of naturals.
- LasLoader.LoadLas: on the two early failures the source leaves the caller's `fields`, `offset`, `npoints` and `totalPoints` as they were. The model returns no columns and zero values instead. The caller's `fields` vector is taken to start empty.
- LasLoader.LoadLas: the source takes the buffer size from one header view and the declared count from another. The model merges them and requires that the buffer holds no more whole records than are declared. Without that, the source would write past its pre-sized columns.
- LasLoader.LoadLas: the record length is required to be between 1 and 50. A longer record overruns the source's 50-byte `point_buffer`, and a zero length never advances the iterator.
- LasLoader.LoadLas: `maxPointCount` is required to be positive when the file declares points. The source divides by it.
- Decimation.PlanDecimation: counts are unbounded naturals. The 64-bit wrap-around of `(total + decimate - 1)` at line 61 is modelled only in `PlannedCountAsWritten` (see Findings).
- BlockSampler.StoreIndex: the counters `nextDecimateBlock` and `nextStore` at lines 164-168 do not wrap in the model. For declared counts near 2^64 (2^63, for example) the source's counters can wrap, and it can then store more points than planned (see Findings). That advance is modelled only in `NextStoreAsWritten`. `readCount` never wraps in the model either.
- LasLoader.WritePoint and LasLoader.MandatoryFields loop over the column index. The source writes each column with its own statement; the order and the values are the same.
- BlockSampler.StoreIndex uses a remainder defined by repeated subtraction. NatArith.RemainderIsMod proves it equal to `%`, which is what the loader computes.

## Findings

| source | as written | input that shows it | evidently intended | confidence | as-written member | corrected member |
|---|---|---|---|---|---|---|
| src/las_io_lazrs.cpp:61 | `npoints = (totalPoints + decimate - 1) / decimate` in 64-bit unsigned arithmetic | totalPoints = 2^64 - 1 with maxPointCount = 2. Then decimate = 2^63, the sum wraps, and npoints = 0. | npoints = ceil(totalPoints / decimate) = 2 | not executed | Decimation.PlannedCountAsWrittenOverflows | Decimation.PlanDecimation |
| src/las_io_lazrs.cpp:164-170 | `nextDecimateBlock += decimate` and `nextStore += rand.generate64() % decimate` in 64-bit unsigned arithmetic | totalPoints = 2^63 with maxPointCount = 1. Then decimate = 2^63, and line 61 plans npoints = 1 without wrapping. After the first store `nextDecimateBlock` = 2^63 + 1 > totalPoints, so line 169 does not clamp. A draw of 2^63 - 1 makes `nextStore` wrap to 0, and record 2 is written into the 1-point columns. | each block after the first starts `decimate` points later, so at most the planned count is stored | not executed | BlockSampler.NextStoreAsWrittenWraps | BlockSampler.StoreIndex |
