/**
 Properties that span the lifecycle, the arena and the launch geometry.
 */
module Scenarios {
  import opened Wrappers
  import opened Machine
  import opened Lifecycle
  import opened Geometry
  import Arena

  /** After `init` has probed, successful or not, no pool exists: every `Get` answers "not found". */
  lemma InitLeavesNoPools(md: Metadata, count: Option<nat>, probes: seq<Probe>, d: nat, size: nat)
    requires count.Some? ==> |probes| == count.value
    requires WellFormed(probes) && Probes(md, count)
    ensures var r := Init(md, count, probes);
            Arena.Get(r.arena, d, size) == Arena.Got(None, r.arena)
  {
    var r := Init(md, count, probes);
    assert Arena.PoolAt(r.arena, d, size).None?;
  }

  /**
   After a failed `init`, slabs can be handed back only to devices set up
   before the failure: the others still have nil arena maps.
   */
  lemma PutAllowedAfterFailedInit(md: Metadata, count: Option<nat>, probes: seq<Probe>, d: nat)
    requires count.Some? ==> |probes| == count.value
    requires WellFormed(probes) && Probes(md, count) && !Init(md, count, probes).initialized
    ensures var r := Init(md, count, probes);
            (d < |r.arena| ==> r.arena[d].Some?) <==> (d < FirstUnready(probes, 0) || d >= count.value)
  {}

  /** After `init` has probed no kernel function is known yet, whatever the outcome. */
  lemma NoFunctionsAfterInit(md: Metadata, count: Option<nat>, probes: seq<Probe>, name: string)
    requires count.Some? ==> |probes| == count.value
    requires WellFormed(probes) && Probes(md, count)
    ensures !HasFunc(Init(md, count, probes), name)
  {}

  /**
   Two healthy devices, the first with 256 threads per block and 65535
   blocks along X: after `init`, 300 elements on device 0 launch as two
   blocks of 256 threads.
   */
  lemma TwoDevicesThreeHundredElements(md: Metadata, attrs0: seq<int>, attrs1: seq<int>)
    requires !md.initialized
    requires |attrs0| == AttributeCount && |attrs1| == AttributeCount
    requires attrs0[1] == 256 && attrs0[2] == 65535 && attrs0[3] >= 1 && attrs0[4] >= 1
    ensures var r := Init(md, Some(2), [Ready(attrs0, 0, 0), Ready(attrs1, 0, 0)]);
            && r.initialized
            && |r.profiles| == 2
            && ElemGridSize(r, 300, 0) == Dims(2, 1, 1, 256, 1, 1)
  {
    var probes := [Ready(attrs0, 0, 0), Ready(attrs1, 0, 0)];
    assert FirstUnready(probes, 0) == 2;
    var r := Init(md, Some(2), probes);
    assert r.profiles[0] == ReadyProfile(probes[0]);
    ElemGridSizeTwoBlocks(r);
  }

  /** A failure on the second of two devices leaves no device usable (no partial set). */
  lemma SecondDeviceFailureDisablesAll(md: Metadata, attrs0: seq<int>, oom: bool)
    requires !md.initialized && |attrs0| == AttributeCount
    ensures var r := Init(md, Some(2), [Ready(attrs0, 0, 0), NoContext(oom)]);
            && !r.initialized
            && r.contexts == []
            && r.workAvailable == Nil
            && r.arena[0] == Some(map[]) && r.arena[1].None?
  {
    var probes := [Ready(attrs0, 0, 0), NoContext(oom)];
    assert FirstUnready(probes, 0) == 1;
  }
}
