/**
 Launch geometry for elementwise kernels: `calcBlocks`, `ElemGridSize` and
 `blockThread` of cuda.go. All three are pure integer functions. Go's `/`
 truncates toward zero, which differs from Dafny's Euclidean `/` for
 negative dividends, so it is written out as `TruncDiv`.
 */
module Geometry {
  import opened Machine

  /** Go's integer division for a positive divisor: the quotient rounded toward zero. */
  function TruncDiv(a: int, b: int): (q: int)
    requires b > 0
    ensures a >= 0 ==> 0 <= a - q * b < b
    ensures a < 0 ==> -b < a - q * b <= 0
  {
    if a >= 0 then a / b else -((-a) / b)
  }

  /** `calcBlocks`: how many blocks of `maxThreads` lanes it takes to hold `n` elements. */
  function CalcBlocks(n: int, maxThreads: int): (blocks: int)
    requires maxThreads > 0
    ensures n >= 0 ==> blocks >= 0 && blocks * maxThreads >= n && (blocks - 1) * maxThreads < n
    ensures n <= 0 ==> blocks <= 0
  {
    TruncDiv(n + maxThreads - 1, maxThreads)
  }

  /** Ceiling division is the only count satisfying the two ceiling inequalities. */
  lemma CalcBlocksUnique(n: int, maxThreads: int, b: int)
    requires n >= 0 && maxThreads > 0
    requires b * maxThreads >= n && (b - 1) * maxThreads < n
    ensures b == CalcBlocks(n, maxThreads)
  {
    var c := CalcBlocks(n, maxThreads);
    if b < c {
      MulMonotone(b, c - 1, maxThreads);
    } else if c < b {
      MulMonotone(c, b - 1, maxThreads);
    }
  }

  lemma MulMonotone(a: int, b: int, k: int)
    requires a <= b && k >= 0
    ensures a * k <= b * k
  {}

  /** Exactly the counts from 1 to `maxThreads` fit in a single block. */
  lemma SingleBlock(n: int, maxThreads: int)
    requires maxThreads > 0
    ensures CalcBlocks(n, maxThreads) == 1 <==> 1 <= n <= maxThreads
    ensures n > maxThreads ==> CalcBlocks(n, maxThreads) >= 2
  {
    var b := CalcBlocks(n, maxThreads);
    if n > maxThreads {
      if b <= 1 {
        MulMonotone(b, 1, maxThreads);
      }
    }
  }

  lemma GridProducts(x: int, y: int, z: int)
    requires x >= 1 && y >= 1 && z >= 1
    ensures 1 <= x <= x * y <= x * y * z
  {
    MulMonotone(1, y, x);
    MulMonotone(1, z, x * y);
  }

  /** A grid of blocks and a block of threads, each in three dimensions. */
  datatype Dims = Dims(gridX: int, gridY: int, gridZ: int, blockX: int, blockY: int, blockZ: int)

  /** The limits `ElemGridSize` divides by are positive, as a device reports them. */
  predicate ValidLimits(p: Profile) {
    p.mtpb >= 1 && p.mgdx >= 1 && p.mgdy >= 1 && p.mgdz >= 1
  }

  const Ones := Dims(1, 1, 1, 1, 1, 1)

  /**
   `ElemGridSize`: the launch shape for `n` independent elements on device
   `dev`. The cases are tried in order; each assumes the earlier ones failed.
   */
  function ElemGridSize(md: Metadata, n: int, dev: nat): (r: Dims)
    requires dev < |md.profiles| && ValidLimits(md.profiles[dev])
    ensures r.blockY == 1 && r.blockZ == 1
    ensures 1 <= r.blockX <= md.profiles[dev].mtpb
    ensures r.gridX <= md.profiles[dev].mgdx
    // a single block holds every element, one lane each
    ensures 1 <= n <= md.profiles[dev].mtpb ==> r == Dims(1, 1, 1, n, 1, 1)
    // nothing to do: no positive grid
    ensures n <= 0 ==> r.gridX <= 0 && r.gridY == 1 && r.gridZ == 1 && r.blockX == md.profiles[dev].mtpb
    ensures n > md.profiles[dev].mtpb ==>
      var p := md.profiles[dev];
      var blocks := CalcBlocks(n, p.mtpb);
      && (blocks >= p.mgdx * p.mgdy * p.mgdz ==> r == Ones)
      && (blocks < p.mgdx ==>
            r.gridY == 1 && r.gridZ == 1 && r.blockX == p.mtpb &&
            (r.gridX - 1) * r.blockX < n <= r.gridX * r.blockX)
      && (p.mgdx <= blocks < p.mgdx * p.mgdy * p.mgdz ==> r.gridX == p.mgdx && r.blockX == p.mtpb)
      && (p.mgdx <= blocks < p.mgdx * p.mgdy ==> r.gridZ == 1)
      && (p.mgdx * p.mgdy <= blocks < p.mgdx * p.mgdy * p.mgdz ==> r.gridY == p.mgdy)
  {
    var p := md.profiles[dev];
    var maxThreads, maxGridX, maxGridY, maxGridZ := p.mtpb, p.mgdx, p.mgdy, p.mgdz;
    var blocks := CalcBlocks(n, maxThreads);
    SingleBlock(n, maxThreads);
    GridProducts(maxGridX, maxGridY, maxGridZ);
    if blocks == 1 then
      Dims(1, 1, 1, n, 1, 1)
    else if blocks >= maxGridX * maxGridY * maxGridZ then
      Ones
    else if blocks >= maxGridX * maxGridY then
      Dims(maxGridX, maxGridY, CalcBlocks(blocks % (maxGridX * maxGridY), maxGridZ), maxThreads, 1, 1)
    else if blocks >= maxGridX then
      Dims(maxGridX, CalcBlocks(blocks % maxGridX, maxGridY), 1, maxThreads, 1, 1)
    else
      Dims(blocks, 1, 1, maxThreads, 1, 1)
  }

  /** 300 elements on a device with 256 threads per block take two blocks in a single row. */
  lemma ElemGridSizeTwoBlocks(md: Metadata)
    requires |md.profiles| >= 1
    requires md.profiles[0].mtpb == 256 && md.profiles[0].mgdx == 65535
    requires md.profiles[0].mgdy >= 1 && md.profiles[0].mgdz >= 1
    ensures ElemGridSize(md, 300, 0) == Dims(2, 1, 1, 256, 1, 1)
  {
    assert CalcBlocks(300, 256) == 2;
  }

  /** The thread counts `blockThread` chooses from, smallest first. */
  const ThreadBuckets: seq<int> := [32, 64, 128, 256, 512, 1024]

  /** `blockThread` never reports more blocks than this. */
  const MaxBlocks := 128

  datatype Launch = Launch(blocks: int, threads: int)

  /**
   `blockThread`: a power-of-two thread count for `n` elements and the block
   count it implies, clamped to `MaxBlocks`. The device argument of the
   source is unused there and omitted here.
   */
  function BlockThread(n: int): (r: Launch)
    ensures r.threads in ThreadBuckets
    ensures n <= 1024 ==> r.threads >= n && forall b | b in ThreadBuckets && b >= n :: r.threads <= b
    ensures n > 1024 ==> r.threads == 1024
    ensures 0 <= r.blocks <= MaxBlocks
    ensures 1 <= n <= 1024 ==> r.blocks == 1
    ensures 1024 < n <= MaxBlocks * 1024 ==> (r.blocks - 1) * 1024 < n <= r.blocks * 1024
    ensures n > MaxBlocks * 1024 ==> r.blocks == MaxBlocks
    // Go's truncating division sends small negative counts to 0 blocks ...
    ensures -63 < n <= 0 ==> r.blocks == 0
    // ... and larger negative ones to a negative count, which the clamp catches
    ensures n <= -63 ==> r.blocks == MaxBlocks
  {
    var threads :=
      if n <= 32 then 32
      else if n <= 64 then 64
      else if n <= 128 then 128
      else if n <= 256 then 256
      else if n <= 512 then 512
      else 1024;
    var blocks := TruncDiv(n + threads - 1, threads);
    if blocks < 0 || blocks > MaxBlocks then Launch(MaxBlocks, threads) else Launch(blocks, threads)
  }
}
