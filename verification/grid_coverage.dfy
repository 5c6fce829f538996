/**
 Whether a launch shape from `ElemGridSize` has a lane for every element.

 In the full-row and full-plane cases cuda.go derives the partial grid
 dimension from the REMAINDER `blocks % maxGridX` (or `% (maxGridX*maxGridY)`)
 instead of from `blocks` itself, so a block count that is a whole multiple
 of the row or plane gets a zero dimension, and for other counts the
 partial dimension is unrelated to the number needed, sometimes too few. `CoveringGridSize` is the same case split with the partial dimension
 computed as a ceiling of `blocks`; it covers every element and stays within
 the device limits whenever the request fits the grid at all.
 */
module GridCoverage {
  import opened Machine
  import opened Geometry

  /** How many lanes a launch shape provides. */
  function Lanes(d: Dims): int {
    d.gridX * d.gridY * d.gridZ * d.blockX * d.blockY * d.blockZ
  }

  /** A device shaped like a current GPU: 1024 threads per block, a 2^31-1 by 65535 by 65535 grid. */
  const LargeGridProfile := Profile(32, 1024, 2147483647, 65535, 65535, 1024, 1024, 64, 0, 0)

  /**
   As written: twice a full row of blocks leaves `gridDimY` at 0, so the
   launch has no lanes at all although there are elements to process.
   */
  lemma ElemGridSizeDropsRows()
    ensures var md := Blank.(profiles := [LargeGridProfile]);
            var n := 2 * 2147483647 * 1024;
            var r := ElemGridSize(md, n, 0);
            n > 0 && r.gridY == 0 && Lanes(r) == 0
  {
    var n := 2 * 2147483647 * 1024;
    assert CalcBlocks(n, 1024) == 2 * 2147483647;
    assert CalcBlocks(0, 65535) == 0;
  }

  /** As written: one full plane of blocks leaves `gridDimZ` at 0. */
  lemma ElemGridSizeDropsPlanes()
    ensures var md := Blank.(profiles := [LargeGridProfile]);
            var n := 2147483647 * 65535 * 1024;
            var r := ElemGridSize(md, n, 0);
            n > 0 && r.gridZ == 0 && Lanes(r) == 0
  {
    var n := 2147483647 * 65535 * 1024;
    assert CalcBlocks(n, 1024) == 2147483647 * 65535;
    assert CalcBlocks(0, 65535) == 0;
  }

  /** As written: 9 single-thread blocks on a 4 by 4 by 4 grid get one row of 4, so 5 elements have no lane. */
  lemma ElemGridSizeShortRows()
    ensures var md := Blank.(profiles := [Profile(32, 1, 4, 4, 4, 1, 1, 1, 0, 0)]);
            var r := ElemGridSize(md, 9, 0);
            r == Dims(4, 1, 1, 1, 1, 1) && Lanes(r) < 9
  {
    assert CalcBlocks(9, 1) == 9;
    assert CalcBlocks(1, 4) == 1;
  }

  /** `ElemGridSize` with the partial grid dimension taken as a ceiling of the block count. */
  function CoveringGridSize(md: Metadata, n: int, dev: nat): (r: Dims)
    requires dev < |md.profiles| && ValidLimits(md.profiles[dev])
    ensures r.blockY == 1 && r.blockZ == 1
    ensures 1 <= n <= md.profiles[dev].mtpb ==> r == Dims(1, 1, 1, n, 1, 1)
    ensures 1 <= n ==>
      var p := md.profiles[dev];
      CalcBlocks(n, p.mtpb) < p.mgdx * p.mgdy * p.mgdz ==>
        && Lanes(r) >= n
        && 1 <= r.gridX <= p.mgdx && 1 <= r.gridY <= p.mgdy && 1 <= r.gridZ <= p.mgdz
        && 1 <= r.blockX <= p.mtpb
  {
    var p := md.profiles[dev];
    var maxThreads, maxGridX, maxGridY, maxGridZ := p.mtpb, p.mgdx, p.mgdy, p.mgdz;
    var blocks := CalcBlocks(n, maxThreads);
    SingleBlock(n, maxThreads);
    GridProducts(maxGridX, maxGridY, maxGridZ);
    if blocks == 1 then
      Dims(1, 1, 1, n, 1, 1)
    else if blocks >= maxGridX * maxGridY * maxGridZ then
      Ones
    else if blocks >= maxGridX * maxGridY then
      var planes := CalcBlocks(blocks, maxGridX * maxGridY);
      PlaneCover(n, maxThreads, maxGridX * maxGridY, maxGridZ, blocks, planes);
      Dims(maxGridX, maxGridY, planes, maxThreads, 1, 1)
    else if blocks >= maxGridX then
      var rows := CalcBlocks(blocks, maxGridX);
      PlaneCover(n, maxThreads, maxGridX, maxGridY, blocks, rows);
      Dims(maxGridX, rows, 1, maxThreads, 1, 1)
    else
      MulMonotone(n, blocks * maxThreads, 1);
      Dims(blocks, 1, 1, maxThreads, 1, 1)
  }

  /**
   Spreading `blocks` over `count` slices of `size` blocks each: the slices
   hold every block, hence every element, and fit under `limit` slices.
   */
  lemma PlaneCover(n: int, threads: int, size: int, limit: int, blocks: int, count: int)
    requires threads >= 1 && size >= 1 && limit >= 1 && n >= 1
    requires blocks == CalcBlocks(n, threads) && size <= blocks < size * limit
    requires count == CalcBlocks(blocks, size)
    ensures 1 <= count <= limit
    ensures size * count * threads >= n
  {
    if count > limit {
      MulMonotone(limit, count - 1, size);
    }
    if count < 1 {
      MulMonotone(count, 0, size);
    }
    MulMonotone(blocks, size * count, threads);
  }

  /** Outside the full-row and full-plane cases the corrected and the original shapes agree. */
  lemma CoveringAgreesOutsidePartialCases(md: Metadata, n: int, dev: nat)
    requires dev < |md.profiles| && ValidLimits(md.profiles[dev])
    requires var p := md.profiles[dev];
             var blocks := CalcBlocks(n, p.mtpb);
             blocks < p.mgdx || blocks >= p.mgdx * p.mgdy * p.mgdz
    ensures CoveringGridSize(md, n, dev) == ElemGridSize(md, n, dev)
  {}
}
