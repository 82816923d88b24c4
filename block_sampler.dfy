/** The block sampler. Points are numbered 1, 2, ... in file order and
    grouped in blocks of `decimate` consecutive indices; the loader stores
    one point of each block. The first block's point is always index 1;
    every later block's point is the block start plus the next random draw
    modulo `decimate`, pulled back to the last declared point when the block
    starts within the file but the draw lands past its end.

    `rand(k)` is the value the k-th call of the random generator returns
    (counting from 0); the generator is called once per stored point, and
    only when `decimate > 1`. */
module BlockSampler {
  import opened NatArith
  import opened Decimation

  /** The 1-based index of the first point of block `k`: the loader's
      `nextDecimateBlock` starts at 1 and advances by `decimate` per block. */
  function BlockStart(decimate: nat, k: nat): nat
  {
    if k == 0 then 1 else BlockStart(decimate, k - 1) + decimate
  }

  /** Block `k` starts `k` whole blocks after index 1. */
  lemma {:induction false} BlockStartClosed(decimate: nat, k: nat)
    ensures BlockStart(decimate, k) == 1 + k * decimate
  {
    if k > 0 {
      BlockStartClosed(decimate, k - 1);
    }
  }

  /** Later blocks start later. */
  lemma {:induction false} BlockStartMonotone(decimate: nat, j: nat, k: nat)
    requires j <= k
    ensures BlockStart(decimate, j) <= BlockStart(decimate, k)
  {
    if j < k {
      BlockStartMonotone(decimate, j, k - 1);
    }
  }

  lemma BlockStartNext(decimate: nat, k: nat)
    ensures BlockStart(decimate, k + 1) == BlockStart(decimate, k) + decimate
  {
  }

  /** The index the sampler picks from block `k`: after `k` stores, the
      loader's `nextStore` counter holds this value. */
  function StoreIndex(total: nat, decimate: nat, rand: nat -> nat, k: nat): (i: nat)
    requires decimate >= 1
    ensures BlockStart(decimate, k) <= i < BlockStart(decimate, k) + decimate
    ensures i <= total <==> BlockStart(decimate, k) <= total
  {
    if k == 0 then 1
    else if decimate == 1 then BlockStart(decimate, k)
    else
      var s := BlockStart(decimate, k) + Remainder(rand(k - 1), decimate);
      if BlockStart(decimate, k) <= total && s > total then total else s
  }

  /** Later blocks pick later points. */
  lemma StoreIndexIncreasing(total: nat, decimate: nat, rand: nat -> nat, j: nat, k: nat)
    requires decimate >= 1 && j < k
    ensures StoreIndex(total, decimate, rand, j) < StoreIndex(total, decimate, rand, k)
  {
    BlockStartMonotone(decimate, j + 1, k);
  }

  /** The number of points stored after the loader has walked the first `n`
      records: it steps once for every record whose index is the pending
      store index. */
  function StoredCount(total: nat, decimate: nat, rand: nat -> nat, n: nat): (c: nat)
    requires decimate >= 1
    decreases n
  {
    if n == 0 then 0
    else
      var c := StoredCount(total, decimate, rand, n - 1);
      if StoreIndex(total, decimate, rand, c) == n then c + 1 else c
  }

  /** After `n` records the count lies between the picks: every pick made so
      far is at most `n`, and the pending one is beyond it. */
  lemma {:induction false} StoredCountBracket(total: nat, decimate: nat, rand: nat -> nat, n: nat)
    requires decimate >= 1
    ensures var c := StoredCount(total, decimate, rand, n);
      && c <= n
      && StoreIndex(total, decimate, rand, c) > n
      && (c == 0 || StoreIndex(total, decimate, rand, c - 1) <= n)
  {
    if n > 0 {
      StoredCountBracket(total, decimate, rand, n - 1);
      var c := StoredCount(total, decimate, rand, n - 1);
      StoreIndexIncreasing(total, decimate, rand, c, c + 1);
    }
  }

  /** One step of the walk: record `n` is stored iff it is the pending pick. */
  lemma StoredCountStep(total: nat, decimate: nat, rand: nat -> nat, n: nat)
    requires decimate >= 1 && n > 0
    ensures var c := StoredCount(total, decimate, rand, n - 1);
      StoredCount(total, decimate, rand, n)
      == if StoreIndex(total, decimate, rand, c) == n then c + 1 else c
  {
  }

  /** The points stored from the first `n` records are exactly the first
      `StoredCount` picks: a pick is stored iff its index is at most `n`. */
  lemma StoredIndicesExact(total: nat, decimate: nat, rand: nat -> nat, n: nat, j: nat)
    requires decimate >= 1
    ensures StoreIndex(total, decimate, rand, j) <= n
       <==> j < StoredCount(total, decimate, rand, n)
  {
    StoredCountBracket(total, decimate, rand, n);
    var c := StoredCount(total, decimate, rand, n);
    if j + 1 < c {
      StoreIndexIncreasing(total, decimate, rand, j, c - 1);
    } else if j > c {
      StoreIndexIncreasing(total, decimate, rand, c, j);
    }
  }

  /** Under the plan's factor, a block starts within the declared points
      exactly when it is one of the `npoints` planned blocks. */
  lemma PlannedBlocks(total: nat, budget: nat, k: nat)
    requires budget > 0
    ensures var p := PlanDecimation(total, budget);
      BlockStart(p.decimate, k) <= total <==> k < p.npoints
  {
    var p := PlanDecimation(total, budget);
    BlockStartClosed(p.decimate, k);
    MulMonotone(k, p.npoints - 1, p.decimate);
    MulMonotone(p.npoints, k, p.decimate);
  }

  /** Walking at most the declared number of records never stores more
      points than planned, so the pre-sized columns are never overrun. */
  lemma StoredCountWithinPlan(total: nat, budget: nat, rand: nat -> nat, n: nat)
    requires budget > 0 && n <= total
    ensures var p := PlanDecimation(total, budget);
      StoredCount(total, p.decimate, rand, n) <= p.npoints
  {
    var p := PlanDecimation(total, budget);
    StoredCountBracket(total, p.decimate, rand, n);
    var c := StoredCount(total, p.decimate, rand, n);
    if c > 0 {
      PlannedBlocks(total, budget, c - 1);
    }
  }

  /** The same, for every prefix of the declared records at once. */
  lemma WalkWithinPlan(total: nat, budget: nat, rand: nat -> nat)
    requires budget > 0
    ensures var p := PlanDecimation(total, budget);
      forall n :: 0 <= n <= total ==> StoredCount(total, p.decimate, rand, n) <= p.npoints
  {
    forall n | 0 <= n <= total {
      StoredCountWithinPlan(total, budget, rand, n);
    }
  }

  /** Walking every declared record stores exactly the planned count. */
  lemma StoredCountComplete(total: nat, budget: nat, rand: nat -> nat)
    requires budget > 0
    ensures var p := PlanDecimation(total, budget);
      StoredCount(total, p.decimate, rand, total) == p.npoints
  {
    var p := PlanDecimation(total, budget);
    StoredCountBracket(total, p.decimate, rand, total);
    var c := StoredCount(total, p.decimate, rand, total);
    PlannedBlocks(total, budget, c);
    StoredCountWithinPlan(total, budget, rand, total);
  }

  /** Each planned block holds exactly one picked index, and it lies within
      the declared points: pick `j` falls in block `k` iff `j == k`. */
  lemma OneSamplePerBlock(total: nat, budget: nat, rand: nat -> nat, j: nat, k: nat)
    requires budget > 0 && k < PlanDecimation(total, budget).npoints
    ensures var p := PlanDecimation(total, budget);
      var i := StoreIndex(total, p.decimate, rand, j);
      (BlockStart(p.decimate, k) <= i < BlockStart(p.decimate, k) + p.decimate && i <= total)
      <==> j == k
  {
    var p := PlanDecimation(total, budget);
    PlannedBlocks(total, budget, k);
    if j < k {
      BlockStartMonotone(p.decimate, j + 1, k);
    } else if j > k {
      BlockStartMonotone(p.decimate, k + 1, j);
    }
  }

  /** Without decimation every record is stored, in file order. */
  lemma {:induction false} StoredCountUndecimated(total: nat, rand: nat -> nat, n: nat)
    ensures StoredCount(total, 1, rand, n) == n
    ensures StoreIndex(total, 1, rand, n) == n + 1
  {
    if n > 0 {
      StoredCountUndecimated(total, rand, n - 1);
    }
  }

  /** Each pick precedes the next. */
  lemma PickBefore(total: nat, decimate: nat, rand: nat -> nat, m: nat)
    requires decimate >= 1 && m >= 1
    ensures m == 1 || StoreIndex(total, decimate, rand, m - 2) < StoreIndex(total, decimate, rand, m - 1)
  {
    if m > 1 {
      StoreIndexIncreasing(total, decimate, rand, m - 2, m - 1);
    }
  }

  /** The records at the first `m` picks, in order. */
  function Picks<T>(records: seq<T>, total: nat, decimate: nat, rand: nat -> nat, m: nat): (s: seq<T>)
    requires decimate >= 1 && (m == 0 || StoreIndex(total, decimate, rand, m - 1) <= |records|)
    ensures |s| == m
  {
    if m == 0 then []
    else
      PickBefore(total, decimate, rand, m);
      Picks(records, total, decimate, rand, m - 1) + [records[StoreIndex(total, decimate, rand, m - 1) - 1]]
  }

  /** What a walk over the first `n` of `records` (numbered from 1) keeps, in
      order: the records at the picks made so far. */
  function Sampled<T>(records: seq<T>, total: nat, decimate: nat, rand: nat -> nat, n: nat): (s: seq<T>)
    requires decimate >= 1 && n <= |records|
  {
    StoredCountBracket(total, decimate, rand, n);
    Picks(records, total, decimate, rand, StoredCount(total, decimate, rand, n))
  }

  /** The walk reaches the pending pick at record `n`: record `n` is appended
      to what was kept. */
  lemma SampledAppend<T>(records: seq<T>, total: nat, decimate: nat, rand: nat -> nat, n: nat)
    requires decimate >= 1 && 0 < n <= |records|
    requires StoreIndex(total, decimate, rand, StoredCount(total, decimate, rand, n - 1)) == n
    ensures Sampled(records, total, decimate, rand, n)
            == Sampled(records, total, decimate, rand, n - 1) + [records[n - 1]]
  {
    StoredCountStep(total, decimate, rand, n);
  }

  /** Record `n` is not the pending pick: what was kept stays as it was. */
  lemma SampledSkip<T>(records: seq<T>, total: nat, decimate: nat, rand: nat -> nat, n: nat)
    requires decimate >= 1 && 0 < n <= |records|
    requires StoreIndex(total, decimate, rand, StoredCount(total, decimate, rand, n - 1)) != n
    ensures Sampled(records, total, decimate, rand, n) == Sampled(records, total, decimate, rand, n - 1)
  {
    StoredCountStep(total, decimate, rand, n);
  }

  /** The `j`-th of the records at the first `m` picks is the record at pick `j`. */
  lemma {:induction false} PicksAt<T>(records: seq<T>, total: nat, decimate: nat, rand: nat -> nat, m: nat, j: nat)
    requires decimate >= 1 && j < m && StoreIndex(total, decimate, rand, m - 1) <= |records|
    ensures 1 <= StoreIndex(total, decimate, rand, j) <= |records|
    ensures Picks(records, total, decimate, rand, m)[j] == records[StoreIndex(total, decimate, rand, j) - 1]
  {
    if j < m - 1 {
      PickBefore(total, decimate, rand, m);
      PicksAt(records, total, decimate, rand, m - 1, j);
    }
  }

  /** The `j`-th kept record is the record at the `j`-th pick, and that pick
      lies within the walked records. */
  lemma SampledPicks<T>(records: seq<T>, total: nat, decimate: nat, rand: nat -> nat, n: nat, j: nat)
    requires decimate >= 1 && n <= |records|
    requires j < |Sampled(records, total, decimate, rand, n)|
    ensures 1 <= StoreIndex(total, decimate, rand, j) <= n
    ensures Sampled(records, total, decimate, rand, n)[j] == records[StoreIndex(total, decimate, rand, j) - 1]
  {
    StoredCountBracket(total, decimate, rand, n);
    StoredIndicesExact(total, decimate, rand, n, j);
    PicksAt(records, total, decimate, rand, StoredCount(total, decimate, rand, n), j);
  }

  /** The advance to the next block as the loader writes it, with its
      counters in 64-bit unsigned arithmetic: the block start moves on by
      `decimate`, the draw `r` offsets the pick, and a pick past the
      declared points is pulled back when the block starts within them. */
  function NextStoreAsWritten(total: nat, decimate: nat, block: nat, r: nat): (next: (nat, nat))
    requires total < U64 && 1 <= decimate < U64 && block < U64
    ensures next.0 < U64 && next.1 < U64
    ensures decimate == 1 ==> next.1 == next.0
  {
    var nextBlock := (block + decimate) % U64;
    var nextStore := if decimate > 1 then (nextBlock + r % decimate) % U64 else nextBlock;
    if decimate > 1 && nextBlock <= total && nextStore > total then (nextBlock, total)
    else (nextBlock, nextStore)
  }

  /** While the counters stay below 2^64, the loader's advance is the block
      sampler's: block `k + 1` and its pick. */
  lemma NextStoreAsWrittenAgrees(total: nat, decimate: nat, rand: nat -> nat, k: nat)
    requires total < U64 && 1 <= decimate < U64
    requires BlockStart(decimate, k + 1) + decimate <= U64
    ensures NextStoreAsWritten(total, decimate, BlockStart(decimate, k), rand(k))
         == (BlockStart(decimate, k + 1), StoreIndex(total, decimate, rand, k + 1))
  {
    RemainderIsMod(rand(k), decimate);
  }

  /** With 2^63 declared points and a budget of 1, the factor is 2^63 and
      the loader's own planned count is 1 (the sum at line 61 does not wrap
      here). After the first store the next block starts at 2^63 + 1, past
      the declared points, so the pick is not pulled back; a draw of
      2^63 - 1 wraps it to 0, and record 2 is stored as a second point,
      while the sampler's second pick lies past every declared point. */
  lemma NextStoreAsWrittenWraps(rand: nat -> nat)
    ensures DecimationFactor(U64 / 2, 1) == U64 / 2
    ensures PlannedCountAsWritten(U64 / 2, U64 / 2) == 1
    ensures NextStoreAsWritten(U64 / 2, U64 / 2, BlockStart(U64 / 2, 0), U64 / 2 - 1) == (U64 / 2 + 1, 0)
    ensures StoreIndex(U64 / 2, U64 / 2, rand, 1) > U64 / 2
  {
    DivUnique(U64 / 2 - 1, 1, U64 / 2 - 1);
    DivUnique(U64 - 1, U64 / 2, 1);
    DivUnique(U64 / 2 - 1, U64 / 2, 0);
  }
}
