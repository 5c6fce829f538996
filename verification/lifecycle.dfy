/**
 The lifecycle of cuda.go: `init`, which enumerates the devices and builds
 their profiles, contexts and arena maps, and `initFail`, which disables
 the machine when any device cannot be set up.

 The driver is not modelled: the device count and, per device, the outcome
 of the queries `init` makes (get the device, make a context, read the
 attributes, read the memory statistics) are inputs.
 */
module Lifecycle {
  import opened Wrappers
  import opened Machine

  /** `init` asks the driver for this many attributes of each device. */
  const AttributeCount := 8

  /** What the driver answers for one device, in the order `init` asks. */
  datatype Probe =
    | NoDevice                        // getting the device failed
    | NoContext(outOfMemory: bool)    // making the context failed
    | NoAttributes                    // reading the attributes failed
    | NoMemInfo(attrs: seq<int>)      // attributes read, memory statistics failed
    | Ready(attrs: seq<int>, free: int, total: int)

  /** The driver answers every attribute query with one value per attribute asked for. */
  predicate WellFormed(probes: seq<Probe>) {
    forall i :: 0 <= i < |probes| ==>
      (probes[i].NoMemInfo? || probes[i].Ready?) ==> |probes[i].attrs| == AttributeCount
  }

  /** Stores the attribute values, in the order `init` requests them. */
  function WithAttributes(p: Profile, attrs: seq<int>): Profile
    requires |attrs| == AttributeCount
  {
    p.(warp := attrs[0], mtpb := attrs[1], mgdx := attrs[2], mgdy := attrs[3],
       mgdz := attrs[4], mbdx := attrs[5], mbdy := attrs[6], mbdz := attrs[7])
  }

  /** A device's profile slot once its probe has been processed, complete or not. */
  function Probed(p: Profile, probe: Probe): Profile
    requires (probe.NoMemInfo? || probe.Ready?) ==> |probe.attrs| == AttributeCount
  {
    match probe
    case Ready(attrs, free, total) => WithAttributes(p, attrs).(freeMem := free, totalMem := total)
    case NoMemInfo(attrs) => WithAttributes(p, attrs)
    case _ => p
  }

  /** The first device at or after `from` whose probe did not succeed, or `|probes|`. */
  function FirstUnready(probes: seq<Probe>, from: nat): (k: nat)
    requires from <= |probes|
    ensures from <= k <= |probes|
    ensures forall j :: from <= j < k ==> probes[j].Ready?
    ensures k < |probes| ==> !probes[k].Ready?
    decreases |probes| - from
  {
    if from == |probes| || !probes[from].Ready? then from else FirstUnready(probes, from + 1)
  }

  /** The per-device slices all have one slot per device. */
  predicate Sized(md: Metadata, n: nat) {
    |md.profiles| == n && |md.arena| == n && |md.contexts| == n
  }

  /** One ready device set up: its profile, an empty arena map and its context. */
  function SetUp(md: Metadata, probes: seq<Probe>, i: nat): Metadata
    requires WellFormed(probes) && i < |probes| && Sized(md, |probes|)
  {
    md.(profiles := md.profiles[i := Probed(md.profiles[i], probes[i])],
        arena := md.arena[i := Some(map[])],
        contexts := md.contexts[i := Some(Context(i))])
  }

  /** The device loop ran to the end, or stopped at a failing device. */
  datatype LoopEnd = Complete(md: Metadata) | Aborted(md: Metadata)

  /**
   The device loop of `init` from device `i` on: each ready device gets its
   profile, an empty arena map and a context; the first failing device stops
   the loop, after its attributes are stored if they were read.
   */
  function ProbeDevices(md: Metadata, probes: seq<Probe>, i: nat): (s: LoopEnd)
    requires WellFormed(probes) && i <= |probes| && Sized(md, |probes|)
    ensures Sized(s.md, |probes|)
    ensures s.Complete? <==> FirstUnready(probes, i) == |probes|
    ensures s.md == md.(profiles := s.md.profiles, arena := s.md.arena, contexts := s.md.contexts)
    ensures forall j :: 0 <= j < i ==>
      s.md.profiles[j] == md.profiles[j] && s.md.arena[j] == md.arena[j] && s.md.contexts[j] == md.contexts[j]
    ensures forall j :: i <= j < FirstUnready(probes, i) ==>
      && s.md.profiles[j] == Probed(md.profiles[j], probes[j])
      && s.md.arena[j] == Some(map[])
      && s.md.contexts[j] == Some(Context(j))
    ensures var k := FirstUnready(probes, i);
      k < |probes| ==>
        && s.md.profiles[k] == Probed(md.profiles[k], probes[k])
        && s.md.arena[k] == md.arena[k]
        && s.md.contexts[k] == md.contexts[k]
    ensures forall j :: FirstUnready(probes, i) < j < |probes| ==>
      s.md.profiles[j] == md.profiles[j] && s.md.arena[j] == md.arena[j] && s.md.contexts[j] == md.contexts[j]
    decreases |probes| - i
  {
    if i == |probes| then Complete(md)
    else match probes[i]
      case Ready(_, _, _) => ProbeDevices(SetUp(md, probes, i), probes, i + 1)
      case NoMemInfo(_) => Aborted(md.(profiles := md.profiles[i := Probed(md.profiles[i], probes[i])]))
      case _ => Aborted(md)
  }

  /**
   `initFail`: drops the contexts, the module and function tables and the
   work channel. Profiles, arena maps and flags stay as they are.
   */
  function InitFail(md: Metadata): (r: Metadata)
    ensures r.contexts == [] && r.modules.None? && r.functions.None? && r.workAvailable == Nil
    ensures r.profiles == md.profiles && r.arena == md.arena && r.hasWork == md.hasWork
    ensures r.blasHasWork == md.blasHasWork && r.initialized == md.initialized
  {
    md.(contexts := [], modules := None, functions := None, workAvailable := Nil)
  }

  /** The state `init` probes from: an open channel and freshly allocated slices for `n` devices. */
  function Start(md: Metadata, n: nat): Metadata {
    md.(workAvailable := Open,
        contexts := seq(n, _ => None),
        hasWork := seq(n, _ => false),
        profiles := seq(n, _ => ZeroProfile),
        arena := seq(n, _ => None))
  }

  /** Whether `init` gets as far as probing devices. */
  predicate Probes(md: Metadata, count: Option<nat>) {
    !md.initialized && count.Some? && count.value > 0
  }

  /**
   `init`, given the driver's device count (None when the query fails) and
   one probe outcome per device. All or nothing: either every device is set
   up and the machine is initialised, or the machine is left disabled.
   */
  function Init(md: Metadata, count: Option<nat>, probes: seq<Probe>): (r: Metadata)
    requires count.Some? ==> |probes| == count.value
    requires WellFormed(probes)
    // already initialised, no device count, or no devices: nothing changes
    ensures !Probes(md, count) ==> r == md
    ensures Probes(md, count) ==>
      var n, k := count.value, FirstUnready(probes, 0);
      && |r.profiles| == n && |r.arena| == n && |r.hasWork| == n
      && (forall i :: 0 <= i < n ==> !r.hasWork[i])
      && r.blasHasWork == md.blasHasWork
      && (r.initialized <==> k == n)
      // devices before the first failure: profile in request order, empty arena map
      && (forall i :: 0 <= i < k ==>
            && r.profiles[i] == ReadyProfile(probes[i])
            && r.arena[i] == Some(map[]))
      // the failing device keeps what was read of it; later devices stay zero
      && (k < n ==> r.profiles[k] == Probed(ZeroProfile, probes[k]))
      && (forall i :: k < i < n ==> r.profiles[i] == ZeroProfile)
      && (forall i :: k <= i < n ==> r.arena[i].None?)
      && (k == n ==>
            && |r.contexts| == n
            && (forall i :: 0 <= i < n ==> r.contexts[i] == Some(Context(i)))
            && r.modules == Some(map[]) && r.functions == Some(map[])
            && r.workAvailable == Open)
      && (k < n ==>
            && r.contexts == []
            && r.modules.None? && r.functions.None?
            && r.workAvailable == Nil)
  {
    if md.initialized then md
    else match count
      case None => md
      case Some(n) =>
        if n == 0 then md
        else
          var start := Start(md, n);
          var setup := ProbeDevices(start, probes, 0);
          ProbeFromStart(start, probes);
          match setup
          case Aborted(m) => InitFail(m)
          case Complete(m) => m.(modules := Some(map[]), functions := Some(map[]), initialized := true)
  }

  /** A ready device's profile lists its attributes in request order, then its memory statistics. */
  function ReadyProfile(probe: Probe): Profile
    requires probe.Ready? && |probe.attrs| == AttributeCount
  {
    Profile(probe.attrs[0], probe.attrs[1], probe.attrs[2], probe.attrs[3],
            probe.attrs[4], probe.attrs[5], probe.attrs[6], probe.attrs[7], probe.free, probe.total)
  }

  /** The device loop run on the freshly allocated slices of `init`. */
  lemma ProbeFromStart(start: Metadata, probes: seq<Probe>)
    requires WellFormed(probes) && |probes| > 0 && Sized(start, |probes|)
    requires forall i :: 0 <= i < |probes| ==>
      start.profiles[i] == ZeroProfile && start.arena[i].None? && start.contexts[i].None?
    ensures var s, n, k := ProbeDevices(start, probes, 0), |probes|, FirstUnready(probes, 0);
      && s.md.hasWork == start.hasWork && s.md.modules == start.modules && s.md.functions == start.functions
      && s.md.workAvailable == start.workAvailable
      && s.md.blasHasWork == start.blasHasWork && s.md.initialized == start.initialized
      && (forall i :: 0 <= i < k ==> s.md.profiles[i] == ReadyProfile(probes[i]) && s.md.arena[i] == Some(map[]))
      && (k < n ==> s.md.profiles[k] == Probed(ZeroProfile, probes[k]))
      && (forall i :: k < i < n ==> s.md.profiles[i] == ZeroProfile)
      && (forall i :: k <= i < n ==> s.md.arena[i].None?)
      && (forall i :: 0 <= i < k ==> s.md.contexts[i] == Some(Context(i)))
  {
    var s, k := ProbeDevices(start, probes, 0), FirstUnready(probes, 0);
    forall i | 0 <= i < k
      ensures s.md.profiles[i] == ReadyProfile(probes[i])
    {
      assert s.md.profiles[i] == Probed(start.profiles[i], probes[i]);
    }
  }

  /** The device loop neither reads nor writes the module and function tables. */
  lemma {:induction false} ProbeIgnoresTables(md: Metadata, probes: seq<Probe>, i: nat,
                                              modules: Option<map<string, seq<Handle>>>,
                                              functions: Option<map<string, seq<Handle>>>)
    requires WellFormed(probes) && i <= |probes| && Sized(md, |probes|)
    ensures var s, t := ProbeDevices(md, probes, i), ProbeDevices(md.(modules := modules, functions := functions), probes, i);
      s.Complete? == t.Complete? && t.md == s.md.(modules := modules, functions := functions)
    decreases |probes| - i
  {
    if i < |probes| && probes[i].Ready? {
      ProbeIgnoresTables(SetUp(md, probes, i), probes, i + 1, modules, functions);
      assert SetUp(md, probes, i).(modules := modules, functions := functions)
          == SetUp(md.(modules := modules, functions := functions), probes, i);
    }
  }

  /**
   Once `init` gets to probing, its outcome depends only on the driver's
   answers and the BLAS flag: whatever an earlier attempt left behind is
   overwritten.
   */
  lemma InitForgetsEarlierState(a: Metadata, b: Metadata, count: Option<nat>, probes: seq<Probe>)
    requires count.Some? ==> |probes| == count.value
    requires WellFormed(probes)
    requires Probes(a, count) && Probes(b, count) && a.blasHasWork == b.blasHasWork
    ensures Init(a, count, probes) == Init(b, count, probes)
  {
    var n := count.value;
    assert Start(b, n) == Start(a, n).(modules := b.modules, functions := b.functions);
    ProbeIgnoresTables(Start(a, n), probes, 0, b.modules, b.functions);
  }

  /** A failed `init` can be retried: the retry ends exactly as a first attempt would. */
  lemma RetryAfterFailure(md: Metadata, count: Option<nat>, probes: seq<Probe>,
                          count': Option<nat>, probes': seq<Probe>)
    requires count.Some? ==> |probes| == count.value
    requires count'.Some? ==> |probes'| == count'.value
    requires WellFormed(probes) && WellFormed(probes')
    requires Probes(md, count) && !Init(md, count, probes).initialized
    requires count'.Some? && count'.value > 0
    ensures Init(Init(md, count, probes), count', probes') == Init(md, count', probes')
  {
    InitForgetsEarlierState(Init(md, count, probes), md, count', probes');
  }

  /** `HasFunc`: whether a kernel function of that name has been loaded. */
  function HasFunc(md: Metadata, name: string): (b: bool)
    ensures b ==> md.functions.Some?
  {
    md.functions.Some? && name in md.functions.value
  }
}
