/**
 The memory arena of cuda.go (`Get` and `Put`): per device, a map from slab
 size in bytes to a pool of recycled slabs.

 The pool type (`memoryQueue`) is not part of this model; a pool is a
 sequence of slabs where `add` appends and `get` takes the oldest slab,
 and an empty pool answers "not found". A device whose map is still Go's
 nil map (possible after a failed initialisation) reads as having no pools.
 */
module Arena {
  import opened Wrappers
  import opened Machine

  /** The pool for `size` on device `d`, if one has been created. */
  function PoolAt(arena: seq<DevicePools>, d: nat, size: nat): Option<Pool> {
    if d < |arena| && arena[d].Some? && size in arena[d].value then Some(arena[d].value[size]) else None
  }

  /** The slabs held for `size` on device `d`, counted with multiplicity. */
  function Held(arena: seq<DevicePools>, d: nat, size: nat): multiset<Memory> {
    match PoolAt(arena, d, size)
    case Some(pool) => multiset(pool)
    case None => multiset{}
  }

  /** Which devices have a (non-nil) map and which sizes have a pool is the same in both arenas. */
  predicate SameShape(a: seq<DevicePools>, b: seq<DevicePools>) {
    && |a| == |b|
    && forall d :: 0 <= d < |a| ==> a[d].Some? == b[d].Some? && (a[d].Some? ==> a[d].value.Keys == b[d].value.Keys)
  }

  /** Every pool other than the one for (`d`, `size`) is the same in both arenas. */
  ghost predicate OthersUnchanged(a: seq<DevicePools>, b: seq<DevicePools>, d: nat, size: nat) {
    forall d': nat, s': nat :: (d' != d || s' != size) ==> PoolAt(a, d', s') == PoolAt(b, d', s')
  }

  datatype Got = Got(mem: Option<Memory>, arena: seq<DevicePools>)

  /**
   `Get`: a recycled slab of `size` bytes on device `d`, removed from its
   pool, or None ("not found": the caller allocates) when the device is out
   of range or no slab of that size is held.
   */
  function Get(arena: seq<DevicePools>, d: nat, size: nat): (r: Got)
    ensures r.mem.None? <==> Held(arena, d, size) == multiset{}
    ensures r.mem.None? ==> r.arena == arena
    ensures r.mem.Some? ==> r.mem.value in Held(arena, d, size) &&
                            Held(r.arena, d, size) == Held(arena, d, size) - multiset{r.mem.value}
    ensures SameShape(arena, r.arena)
    ensures OthersUnchanged(arena, r.arena, d, size)
  {
    if d >= |arena| then Got(None, arena)
    else match PoolAt(arena, d, size)
      case None => Got(None, arena)
      case Some(pool) =>
        if |pool| == 0 then Got(None, arena)
        else
          var after := arena[d := Some(arena[d].value[size := pool[1..]])];
          assert pool == [pool[0]] + pool[1..];
          assert multiset(pool) == multiset{pool[0]} + multiset(pool[1..]);
          assert PoolAt(after, d, size) == Some(pool[1..]);
          Got(Some(pool[0]), after)
  }

  /**
   `Put`: hands slab `mem` of `size` bytes back to device `d`, creating the
   pool for that size if there is none; ignored when `d` is out of range.
   Device `d`'s map must not be nil (Go panics writing to a nil map).
   */
  function Put(arena: seq<DevicePools>, d: nat, mem: Memory, size: nat): (r: seq<DevicePools>)
    requires d < |arena| ==> arena[d].Some?
    ensures d >= |arena| ==> r == arena
    ensures d < |arena| ==> Held(r, d, size) == Held(arena, d, size) + multiset{mem}
    ensures d < |arena| ==> PoolAt(r, d, size).Some? && r[d].value.Keys == arena[d].value.Keys + {size}
    ensures |r| == |arena| && forall d' :: 0 <= d' < |r| && d' != d ==> r[d'] == arena[d']
    ensures OthersUnchanged(arena, r, d, size)
  {
    if d >= |arena| then arena
    else
      var pools := arena[d].value;
      var pool := if size in pools then pools[size] else [];
      arena[d := Some(pools[size := pool + [mem]])]
  }

  /** A pool is created at most once: a second `Put` of the same size finds and extends it. */
  lemma PutExtendsExistingPool(arena: seq<DevicePools>, d: nat, mem: Memory, size: nat)
    requires d < |arena| && arena[d].Some? && size in arena[d].value
    ensures var pool := arena[d].value[size];
            PoolAt(Put(arena, d, mem, size), d, size) == Some(pool + [mem])
  {}

  /** Slabs come back in the order they went in: `Get` after `Put` yields the oldest slab of that size. */
  lemma {:induction false} PutThenGet(arena: seq<DevicePools>, d: nat, mem: Memory, size: nat)
    requires d < |arena| && arena[d].Some?
    ensures var pool := PoolAt(arena, d, size).GetOr([]);
            var got := Get(Put(arena, d, mem, size), d, size);
            && got.mem == Some(if |pool| == 0 then mem else pool[0])
            && PoolAt(got.arena, d, size) == Some(if |pool| == 0 then [] else pool[1..] + [mem])
  {
    var pool := PoolAt(arena, d, size).GetOr([]);
    assert PoolAt(Put(arena, d, mem, size), d, size) == Some(pool + [mem]);
    if |pool| > 0 {
      assert (pool + [mem])[1..] == pool[1..] + [mem];
    }
  }

  /** Round trip on a fresh size: the slab just put back is the one retrieved, and its pool is left empty. */
  lemma FreshPutThenGet(arena: seq<DevicePools>, d: nat, mem: Memory, size: nat)
    requires d < |arena| && arena[d].Some? && size !in arena[d].value
    ensures var got := Get(Put(arena, d, mem, size), d, size);
            got.mem == Some(mem) && PoolAt(got.arena, d, size) == Some([])
  {
    PutThenGet(arena, d, mem, size);
  }

  /** Giving back the slab just retrieved restores what the pool holds. */
  lemma GetThenPutRestores(arena: seq<DevicePools>, d: nat, size: nat)
    requires d < |arena| ==> arena[d].Some?
    requires Get(arena, d, size).mem.Some?
    ensures var got := Get(arena, d, size);
            Held(Put(got.arena, d, got.mem.value, size), d, size) == Held(arena, d, size)
  {}

  /** An out-of-range device never holds anything and ignores slabs handed to it. */
  lemma OutOfRangeIsInert(arena: seq<DevicePools>, d: nat, mem: Memory, size: nat)
    requires d >= |arena|
    ensures Get(arena, d, size) == Got(None, arena)
    ensures Put(arena, d, mem, size) == arena
  {}
}
