/**
 `DoWork` of cuda.go: flushes the batched calls of every device whose
 pending-work flag is set, in device order, then the BLAS backend's.

 Flushing a context is a driver call; its outcome is given as an oracle,
 `flushErrors[i]`, the error device `i`'s context reports after its flush
 (None when it reports none). The first error stops the loop and is
 returned: the failing device keeps its flag, and so do all later devices
 and the BLAS backend.
 */
module Work {
  import opened Wrappers
  import opened Machine

  /** An error reported by a context after a flush. */
  datatype CudaError = CudaError(code: int)

  /** Device `i` is flagged and its flush reports an error. */
  predicate Fails(hasWork: seq<bool>, flushErrors: seq<Option<CudaError>>, i: nat)
    requires |flushErrors| == |hasWork| && i < |hasWork|
  {
    hasWork[i] && flushErrors[i].Some?
  }

  /** The first flagged device at or after `from` whose flush fails, if any. */
  function FirstFailure(hasWork: seq<bool>, flushErrors: seq<Option<CudaError>>, from: nat): (k: Option<nat>)
    requires |flushErrors| == |hasWork| && from <= |hasWork|
    ensures k.Some? ==> from <= k.value < |hasWork| && Fails(hasWork, flushErrors, k.value)
    ensures k.Some? ==> forall j :: from <= j < k.value ==> !Fails(hasWork, flushErrors, j)
    ensures k.None? ==> forall j :: from <= j < |hasWork| ==> !Fails(hasWork, flushErrors, j)
    decreases |hasWork| - from
  {
    if from == |hasWork| then None
    else if Fails(hasWork, flushErrors, from) then Some(from)
    else FirstFailure(hasWork, flushErrors, from + 1)
  }

  /** Every flagged device has a (non-nil) context to flush. */
  predicate Flushable(md: Metadata) {
    forall i :: 0 <= i < |md.hasWork| && md.hasWork[i] ==> i < |md.contexts| && md.contexts[i].Some?
  }

  /**
   The device part of the flush loop over the flags `hasWork`: the flags
   afterwards, the devices flushed in order, and the error that stopped
   the loop, if any.
   */
  method FlushDevices(hasWork: seq<bool>, flushErrors: seq<Option<CudaError>>)
    returns (err: Option<CudaError>, hw: seq<bool>, flushed: seq<nat>)
    requires |flushErrors| == |hasWork|
    ensures |hw| == |hasWork|
    ensures forall x :: x in flushed ==> x < |hasWork| && hasWork[x]
    ensures forall a, b :: 0 <= a < b < |flushed| ==> flushed[a] < flushed[b]
    ensures FirstFailure(hasWork, flushErrors, 0).None? ==>
      && err.None?
      && (forall i :: 0 <= i < |hasWork| && hasWork[i] ==> i in flushed)
      && (forall i :: 0 <= i < |hw| ==> !hw[i])
    ensures FirstFailure(hasWork, flushErrors, 0).Some? ==>
      var k := FirstFailure(hasWork, flushErrors, 0).value;
      && err == flushErrors[k]
      && (forall i :: 0 <= i <= k && hasWork[i] ==> i in flushed)
      && (forall x :: x in flushed ==> x <= k)
      && (forall i :: 0 <= i < k ==> !hw[i])
      && hw[k..] == hasWork[k..]
  {
    hw := hasWork;
    flushed := [];
    var i := 0;
    while i < |hasWork|
      invariant 0 <= i <= |hasWork|
      invariant |hw| == |hasWork|
      invariant forall j :: 0 <= j < i ==> !hw[j]
      invariant forall j :: i <= j < |hasWork| ==> hw[j] == hasWork[j]
      invariant FirstFailure(hasWork, flushErrors, 0) == FirstFailure(hasWork, flushErrors, i)
      invariant forall x :: x in flushed ==> x < i && hasWork[x]
      invariant forall j :: 0 <= j < i && hasWork[j] ==> j in flushed
      invariant forall a, b :: 0 <= a < b < |flushed| ==> flushed[a] < flushed[b]
    {
      if hw[i] {
        assert forall a :: 0 <= a < |flushed| ==> flushed[a] in flushed;
        flushed := flushed + [i];
        if flushErrors[i].Some? {
          assert hw[i..] == hasWork[i..];
          return flushErrors[i], hw, flushed;
        }
        hw := hw[i := false];
      }
      i := i + 1;
    }
    err := None;
  }

  /**
   `DoWork`: the device flush loop, then the BLAS backend's flush if it
   has work and no device failed. Besides the error and the new state it
   reports which devices were flushed, in order, and whether the BLAS
   backend was.
   */
  method DoWork(md: Metadata, flushErrors: seq<Option<CudaError>>)
    returns (err: Option<CudaError>, r: Metadata, flushed: seq<nat>, blasFlushed: bool)
    requires |flushErrors| == |md.hasWork|
    requires Flushable(md)
    // only the flags change
    ensures r == md.(hasWork := r.hasWork, blasHasWork := r.blasHasWork)
    ensures |r.hasWork| == |md.hasWork|
    // a device is flushed only if it is flagged, each at most once, in device order
    ensures forall x :: x in flushed ==> x < |md.hasWork| && md.hasWork[x]
    ensures forall a, b :: 0 <= a < b < |flushed| ==> flushed[a] < flushed[b]
    // success: every flagged device and the BLAS backend flushed, all flags cleared
    ensures FirstFailure(md.hasWork, flushErrors, 0).None? ==>
      && err.None?
      && (forall i :: 0 <= i < |md.hasWork| && md.hasWork[i] ==> i in flushed)
      && (forall i :: 0 <= i < |r.hasWork| ==> !r.hasWork[i])
      && blasFlushed == md.blasHasWork
      && !r.blasHasWork
    // failure at k: its error returned, flags before k cleared, the rest untouched
    ensures FirstFailure(md.hasWork, flushErrors, 0).Some? ==>
      var k := FirstFailure(md.hasWork, flushErrors, 0).value;
      && err == flushErrors[k]
      && (forall i :: 0 <= i <= k && md.hasWork[i] ==> i in flushed)
      && (forall x :: x in flushed ==> x <= k)
      && (forall i :: 0 <= i < k ==> !r.hasWork[i])
      && r.hasWork[k..] == md.hasWork[k..]
      && !blasFlushed
      && r.blasHasWork == md.blasHasWork
  {
    var hw;
    err, hw, flushed := FlushDevices(md.hasWork, flushErrors);
    if err.Some? {
      r := md.(hasWork := hw);
      blasFlushed := false;
    } else {
      r := md.(hasWork := hw, blasHasWork := false);
      blasFlushed := md.blasHasWork;
    }
  }
}
