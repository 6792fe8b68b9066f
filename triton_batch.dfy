/// The multi-stream scheduler of the Triton client sample: one state object
/// per stream whose first read succeeds, a one-frame lookahead per stream so
/// that a stream's state is released just before its last inference, and a
/// batch of the streams that still have a current frame in every cycle.
module TritonBatch {
  import opened CStrings
  import opened Scheduling
  import opened Engine

  /// `m_arrayOfStates` once every stream with a first frame has its state.
  function States(lens: seq<nat>): (r: seq<Handle>)
  {
    seq(|lens|, i requires 0 <= i < |lens| => if lens[i] > 0 then H(i) else Null)
  }

  /// The first stream below `m` that has a frame but whose state allocation
  /// fails.
  function FirstAllocFault(lens: seq<nat>, f: Faults, m: nat): (r: Option<nat>)
    requires m <= |lens|
    ensures r.None? ==> forall i :: 0 <= i < m ==> !(lens[i] > 0 && i in f.alloc)
    ensures r.Some? ==> r.value < m && lens[r.value] > 0 && r.value in f.alloc
                        && forall i :: 0 <= i < r.value ==> !(lens[i] > 0 && i in f.alloc)
  {
    if m == 0 then None
    else
      var r := FirstAllocFault(lens, f, m - 1);
      if r.Some? then r
      else if lens[m - 1] > 0 && m - 1 in f.alloc then Some(m - 1)
      else None
  }

  /// In cycle `c`, stream `i` stops the run: releasing its state fails (on
  /// its last frame), or its current frame has the wrong size.
  predicate CycleFaulty(src: seq<Source>, ref: Dim, f: Faults, c: nat, i: nat)
    requires i < |src|
  {
    c < |src[i].frames|
    && ((|src[i].frames| == c + 1 && i in f.release) || src[i].frames[c] != ref)
  }

  function FirstCycleFault(src: seq<Source>, ref: Dim, f: Faults, c: nat, m: nat): (r: Option<nat>)
    requires m <= |src|
    ensures r.None? ==> forall i :: 0 <= i < m ==> !CycleFaulty(src, ref, f, c, i)
    ensures r.Some? ==> r.value < m && CycleFaulty(src, ref, f, c, r.value)
                        && forall i :: 0 <= i < r.value ==> !CycleFaulty(src, ref, f, c, i)
  {
    if m == 0 then None
    else
      var r := FirstCycleFault(src, ref, f, c, m - 1);
      if r.Some? then r
      else if CycleFaulty(src, ref, f, c, m - 1) then Some(m - 1)
      else None
  }

  /// A failed release bails without setting the error, so the run reports
  /// success; otherwise the stream's frame size did not match.
  function FaultStatus(src: seq<Source>, f: Faults, c: nat, i: nat): Status
    requires i < |src|
  {
    if |src[i].frames| == c + 1 && i in f.release then Success else ErrMismatch
  }

  /// `m_dst` after a successful run on batch `b` in cycle `c`: slot k holds
  /// the matte of the frame transferred into input slot k.
  function AfterRun(dst: seq<Image>, b: seq<nat>, c: nat): (r: seq<Image>)
    requires |b| <= |dst|
  {
    seq(|dst|, k requires 0 <= k < |dst| => if k < |b| then Matte(b[k], c) else dst[k])
  }

  /// The writes of one cycle: writer `b[k]` gets output slot `b[k]`.
  function CycleWrites(dst: seq<Image>, b: seq<nat>): (r: seq<Write>)
    requires forall k :: 0 <= k < |b| ==> b[k] < |dst|
  {
    seq(|b|, k requires 0 <= k < |b| => Write(b[k], dst[b[k]]))
  }

  /// What one pass of the `while (1)` loop does: it ends the run with a
  /// status, or it runs a batch and goes on with a new output buffer.
  datatype Step = Stop(status: Status, events: seq<Event>) | Continue(events: seq<Event>, writes: seq<Write>, dst: seq<Image>)

  /// Cycle `c` with output buffer `dst`.  A faulty stream ends it after the
  /// releases of the streams before it; then the empty batch ends the run;
  /// then a failed run.
  function CycleStep(src: seq<Source>, ref: Dim, f: Faults, c: nat, dst: seq<Image>): (r: Step)
    requires |dst| == |src|
    ensures r.Continue? ==> |r.dst| == |src| && c < MaxLen(Lens(src))
  {
    var lens := Lens(src);
    match FirstCycleFault(src, ref, f, c, |src|)
    case Some(i) => Stop(FaultStatus(src, f, c, i), Deallocs(Ending(lens, c, i + 1)))
    case None =>
      var b := Batch(lens, c);
      var evs := Deallocs(Ending(lens, c, |src|));
      if b == [] then Stop(Success, evs)
      else if c in f.run then Stop(ErrEngine, evs + [Run(Handles(b))])
      else
        BatchEmptyIff(lens, c);
        var dst' := AfterRun(dst, b, c);
        Continue(evs + [Run(Handles(b))], CycleWrites(dst', b), dst')
  }

  /// The cycles from `c` on.
  function Cycles(src: seq<Source>, ref: Dim, f: Faults, c: nat, dst: seq<Image>): Outcome
    requires |dst| == |src|
    decreases MaxLen(Lens(src)) - c
  {
    match CycleStep(src, ref, f, c, dst)
    case Stop(st, ev) => Outcome(st, ev, [])
    case Continue(ev, ws, dst') =>
      var rest := Cycles(src, ref, f, c + 1, dst');
      Outcome(rest.status, ev + rest.events, ws + rest.writes)
  }

  /// `BatchProcess` of TritonClientApp.cpp.
  function TritonRun(src: seq<Source>, f: Faults): Outcome
  {
    if OpenFault(src).Some? then Outcome(OpenFault(src).value, [], [])
    else if |src| == 0 then Outcome(ErrMissingInput, [], [])
    else if |src[0].frames| == 0 then Outcome(ErrRead, [], [])
    else if f.setup != Success then Outcome(f.setup, [], [])
    else
      var lens := Lens(src);
      match FirstAllocFault(lens, f, |src|)
      case Some(i) => Outcome(Success, Allocs(Active(lens, 0, i)), [])
      case None =>
        var r := Cycles(src, src[0].frames[0], f, 0, seq(|src|, _ => Blank));
        Outcome(r.status, Allocs(Batch(lens, 0)) + r.events, r.writes)
  }

  /// `BaseApp`: the effect, its batched buffers and its state arrays.
  class BaseApp {
    const faults: Faults
    var arrayOfStates: seq<Handle>
    var batchOfStates: seq<Handle>
    var src: seq<Image>
    var dst: seq<Image>
    /// The SDK calls made so far, and how many `NvVFX_Run` calls.
    var events: seq<Event>
    var runs: nat

    constructor (faults: Faults)
      ensures this.faults == faults && events == [] && runs == 0
      ensures arrayOfStates == [] && batchOfStates == [] && src == [] && dst == []
    {
      this.faults := faults;
      arrayOfStates := [];
      batchOfStates := [];
      src := [];
      dst := [];
      events := [];
      runs := 0;
    }

    /// `Init`, `AllocateBuffers`, `SetParameters` and `Load`: on success both
    /// state arrays hold `n` null handles and the buffers `n` slots.
    method Setup(n: nat) returns (err: Status)
      modifies this
      ensures err == faults.setup && events == old(events) && runs == old(runs)
      ensures err == Success ==>
        && arrayOfStates == seq(n, _ => Null) && batchOfStates == seq(n, _ => Null)
        && src == seq(n, _ => Blank) && dst == seq(n, _ => Blank)
    {
      err := faults.setup;
      if err == Success {
        arrayOfStates := seq(n, _ => Null);
        batchOfStates := seq(n, _ => Null);
        src := seq(n, _ => Blank);
        dst := seq(n, _ => Blank);
      }
    }

    /// `InitVideoStream(n)`: `NvVFX_AllocateState` into `m_arrayOfStates[n]`.
    method InitVideoStream(n: nat) returns (err: Status)
      requires n < |arrayOfStates|
      modifies this
      ensures err == if n in faults.alloc then ErrEngine else Success
      ensures err == Success ==> events == old(events) + [Alloc(H(n))] && arrayOfStates == old(arrayOfStates)[n := H(n)]
      ensures err != Success ==> events == old(events) && arrayOfStates == old(arrayOfStates)
      ensures batchOfStates == old(batchOfStates) && src == old(src) && dst == old(dst) && runs == old(runs)
    {
      if n in faults.alloc {
        err := ErrEngine;
      } else {
        err := Success;
        arrayOfStates := arrayOfStates[n := H(n)];
        events := events + [Alloc(H(n))];
      }
    }

    /// `ReleaseVideoStream(n)`: `NvVFX_DeallocateState` on `m_arrayOfStates[n]`.
    method ReleaseVideoStream(n: nat) returns (err: Status)
      requires n < |arrayOfStates|
      modifies this
      ensures err == if n in faults.release then ErrEngine else Success
      ensures events == old(events) + [Dealloc(old(arrayOfStates)[n])]
      ensures arrayOfStates == old(arrayOfStates) && batchOfStates == old(batchOfStates)
      ensures src == old(src) && dst == old(dst) && runs == old(runs)
    {
      events := events + [Dealloc(arrayOfStates[n])];
      err := if n in faults.release then ErrEngine else Success;
    }

    /// `TransferToNthImage(n, ...)` into the batched input buffer.
    method TransferToNthImage(n: nat, im: Image)
      requires n < |src|
      modifies this
      ensures src == old(src)[n := im]
      ensures arrayOfStates == old(arrayOfStates) && batchOfStates == old(batchOfStates)
      ensures dst == old(dst) && events == old(events) && runs == old(runs)
    {
      src := src[n := im];
    }

    /// `Run(batch_indices, batchsize)`: gathers the states of the batch,
    /// then batch size, state array and `NvVFX_Run`.
    method Run(batchIndices: seq<nat>, count: nat) returns (err: Status)
      requires count <= |batchIndices| && count <= |batchOfStates| && count <= |src| && |src| == |dst|
      requires forall k :: 0 <= k < count ==> batchIndices[k] < |arrayOfStates|
      modifies this
      ensures arrayOfStates == old(arrayOfStates) && src == old(src) && |dst| == |src|
      ensures events == old(events) + [Event.Run(Gather(arrayOfStates, batchIndices, count))]
      ensures err == if old(runs) in faults.run then ErrEngine else Success
      ensures err == Success ==> dst == RunOutputs(src, old(dst), count)
      ensures err != Success ==> dst == old(dst)
      ensures runs == old(runs) + 1 && |batchOfStates| == old(|batchOfStates|)
    {
      var i := 0;
      while i < count
        invariant 0 <= i <= count && |batchOfStates| == old(|batchOfStates|)
        invariant arrayOfStates == old(arrayOfStates) && src == old(src) && dst == old(dst)
        invariant forall k :: 0 <= k < i ==> batchOfStates[k] == arrayOfStates[batchIndices[k]]
        invariant events == old(events) && runs == old(runs)
      {
        batchOfStates := batchOfStates[i := arrayOfStates[batchIndices[i]]];
        i := i + 1;
      }
      assert batchOfStates[..count] == Gather(arrayOfStates, batchIndices, count);
      events := events + [Event.Run(batchOfStates[..count])];
      if runs in faults.run {
        err := ErrEngine;
      } else {
        err := Success;
        dst := RunOutputs(src, dst, count);
      }
      runs := runs + 1;
    }

    /// `GenerateNthOutputVizImage(n, ...)`: output slot `n` as a picture.
    function NthOutput(n: nat): Image
      requires n < |dst|
      reads this
    {
      dst[n]
    }
  }

  /// The state handles of the first `count` batch entries.
  function Gather(states: seq<Handle>, idx: seq<nat>, count: nat): (r: seq<Handle>)
    requires count <= |idx| && forall k :: 0 <= k < count ==> idx[k] < |states|
  {
    seq(count, k requires 0 <= k < count => states[idx[k]])
  }

  function Min(a: nat, b: nat): nat
  {
    if a < b then a else b
  }

  /// The frames held in `frames[]` at the start of cycle `c`.
  function Current(src: seq<Source>, c: nat): (r: seq<Option<Dim>>)
  {
    seq(|src|, i requires 0 <= i < |src| => if c < |src[i].frames| then Some(src[i].frames[c]) else None)
  }

  /// The captures in cycle `c` once the first `j` streams have done their
  /// lookahead read.
  ghost predicate CapsAt(caps: Captures, src: seq<Source>, c: nat, j: nat)
    reads caps
  {
    && caps.Valid() && caps.videos == Videos(src)
    && forall i :: 0 <= i < |src| ==>
         && caps.isOpen[i] == (if i < j then c + 1 < |src[i].frames| else c < |src[i].frames|)
         && caps.pos[i] == (if i < j then Min(c + 2, |src[i].frames|) else Min(c + 1, |src[i].frames|))
  }

  /// The app's state between cycles.
  ghost predicate AppAt(app: BaseApp, src: seq<Source>, f: Faults, c: nat)
    reads app
  {
    && app.faults == f && app.arrayOfStates == States(Lens(src)) && app.runs == c
    && |app.batchOfStates| == |src| && |app.src| == |src| && |app.dst| == |src|
  }

  /// Lines 375-383 for stream `i`: the lookahead read and, at the end of the
  /// stream, the release of its state, then of its capture.
  method Lookahead(caps: Captures, app: BaseApp, srcs: seq<Source>, c: nat, i: nat)
    returns (fr: Option<Dim>, err: Status)
    requires i < |srcs| && CapsAt(caps, srcs, c, i) && app.arrayOfStates == States(Lens(srcs))
    modifies caps, app
    ensures app.arrayOfStates == old(app.arrayOfStates) && app.batchOfStates == old(app.batchOfStates)
    ensures app.src == old(app.src) && app.dst == old(app.dst) && app.runs == old(app.runs)
    ensures c < |srcs[i].frames| ==>
              fr == if c + 1 < |srcs[i].frames| then Some(srcs[i].frames[c + 1]) else None
    ensures err == if |srcs[i].frames| == c + 1 && i in app.faults.release then ErrEngine else Success
    ensures app.events == old(app.events) + if |srcs[i].frames| == c + 1 then [Dealloc(H(i))] else []
    ensures err == Success ==> CapsAt(caps, srcs, c, i + 1)
  {
    err := Success;
    fr := None;
    if caps.isOpen[i] {
      fr := caps.Read(i);
      if fr.None? {
        err := app.ReleaseVideoStream(i);
        if err != Success {
          return;
        }
        caps.Release(i);
      }
    }
  }

  /// The state of a cycle's inner loop once streams `0..i` are done.
  ghost predicate ScanAt(caps: Captures, app: BaseApp, srcs: seq<Source>, ref: Dim, c: nat, a0: seq<Handle>,
                         b0: seq<Handle>, d0: seq<Image>, e0: seq<Event>,
                         i: nat, count: nat, indices: seq<nat>, next: seq<Option<Dim>>)
    reads caps, app
  {
    && i <= |srcs| && CapsAt(caps, srcs, c, i)
    && app.arrayOfStates == a0 && a0 == States(Lens(srcs)) && app.runs == c
    && app.dst == d0 && app.batchOfStates == b0
    && |app.src| == |srcs| && |indices| == |srcs| && |next| == |srcs|
    && FirstCycleFault(srcs, ref, app.faults, c, i).None?
    && app.events == e0 + Deallocs(Ending(Lens(srcs), c, i))
    && count <= i && indices[..count] == Active(Lens(srcs), c, i)
    && (forall k :: 0 <= k < count ==> app.src[k] == Frame(indices[k], c))
    && (forall j :: 0 <= j < i && c < |srcs[j].frames| ==>
          next[j] == if c + 1 < |srcs[j].frames| then Some(srcs[j].frames[c + 1]) else None)
  }

  /// The inner loop's state after the lookahead of stream `i`, before its
  /// current frame joins the batch.
  ghost predicate LookedAt(caps: Captures, app: BaseApp, srcs: seq<Source>, ref: Dim, c: nat, a0: seq<Handle>,
                           b0: seq<Handle>, d0: seq<Image>, e0: seq<Event>,
                           i: nat, count: nat, indices: seq<nat>, next: seq<Option<Dim>>)
    reads caps, app
  {
    && i < |srcs| && CapsAt(caps, srcs, c, i + 1)
    && app.arrayOfStates == a0 && a0 == States(Lens(srcs)) && app.runs == c
    && app.dst == d0 && app.batchOfStates == b0
    && |app.src| == |srcs| && |indices| == |srcs| && |next| == |srcs|
    && FirstCycleFault(srcs, ref, app.faults, c, i).None?
    && !(|srcs[i].frames| == c + 1 && i in app.faults.release)
    && app.events == e0 + Deallocs(Ending(Lens(srcs), c, i + 1))
    && count <= i && indices[..count] == Active(Lens(srcs), c, i)
    && (forall k :: 0 <= k < count ==> app.src[k] == Frame(indices[k], c))
    && (forall j :: 0 <= j <= i && c < |srcs[j].frames| ==>
          next[j] == if c + 1 < |srcs[j].frames| then Some(srcs[j].frames[c + 1]) else None)
  }

  /// The first half of one pass of the inner loop: the lookahead of stream
  /// `i`; a failed release stops the cycle.
  method LookStream(caps: Captures, app: BaseApp, srcs: seq<Source>, ref: Dim, c: nat,
                    ghost a0: seq<Handle>, ghost b0: seq<Handle>, ghost d0: seq<Image>, ghost e0: seq<Event>,
                    i: nat, count: nat, indices: seq<nat>, next: seq<Option<Dim>>)
    returns (fault: bool, next': seq<Option<Dim>>)
    requires i < |srcs|
    requires ScanAt(caps, app, srcs, ref, c, a0, b0, d0, e0, i, count, indices, next)
    modifies caps, app
    ensures fault ==> && FirstCycleFault(srcs, ref, app.faults, c, |srcs|) == Some(i)
                      && app.events == e0 + Deallocs(Ending(Lens(srcs), c, i + 1))
                      && app.arrayOfStates == a0 && app.runs == c && app.dst == d0 && app.batchOfStates == b0
                      && |app.src| == |srcs| && |next'| == |srcs|
    ensures !fault ==> LookedAt(caps, app, srcs, ref, c, a0, b0, d0, e0, i, count, indices, next')
  {
    ghost var lens := Lens(srcs);
    var fr, err := Lookahead(caps, app, srcs, c, i);
    next' := next[i := fr];
    if |srcs[i].frames| == c + 1 {
      assert Ending(lens, c, i + 1) == Ending(lens, c, i) + [i];
    } else {
      assert Ending(lens, c, i + 1) == Ending(lens, c, i);
    }
    fault := err != Success;
    if fault {
      FirstCycleFaultAt(srcs, ref, app.faults, c, i, |srcs|);
    }
  }

  /// The second half: stream `i`'s current frame, if any, is checked against
  /// the reference size and transferred into the next batch slot.
  method AdmitStream(app: BaseApp, srcs: seq<Source>, ref: Dim, c: nat, frames: seq<Option<Dim>>,
                     ghost caps: Captures, ghost a0: seq<Handle>, ghost b0: seq<Handle>, ghost d0: seq<Image>,
                     ghost e0: seq<Event>, i: nat, count: nat, indices: seq<nat>, next: seq<Option<Dim>>)
    returns (fault: bool, count': nat, indices': seq<nat>)
    requires frames == Current(srcs, c)
    requires LookedAt(caps, app, srcs, ref, c, a0, b0, d0, e0, i, count, indices, next)
    modifies app
    ensures fault ==> && FirstCycleFault(srcs, ref, app.faults, c, |srcs|) == Some(i)
                      && app.events == e0 + Deallocs(Ending(Lens(srcs), c, i + 1))
                      && app.arrayOfStates == a0 && app.runs == c && app.dst == d0 && app.batchOfStates == b0
                      && |app.src| == |srcs| && |indices'| == |srcs|
    ensures !fault ==> ScanAt(caps, app, srcs, ref, c, a0, b0, d0, e0, i + 1, count', indices', next)
  {
    ghost var lens := Lens(srcs);
    count', indices' := count, indices;
    if frames[i].None? {
      assert Active(lens, c, i + 1) == Active(lens, c, i);
      assert !CycleFaulty(srcs, ref, app.faults, c, i);
      fault := false;
      return;
    }
    if frames[i].value != ref {
      fault := true;
      FirstCycleFaultAt(srcs, ref, app.faults, c, i, |srcs|);
      return;
    }
    indices' := indices[count := i];
    app.TransferToNthImage(count, Frame(i, c));
    assert Active(lens, c, i + 1) == Active(lens, c, i) + [i];
    assert indices'[..count + 1] == indices[..count] + [i];
    count' := count + 1;
    fault := false;
  }

  /// One pass of the inner loop for stream `i`.
  method ScanStream(caps: Captures, app: BaseApp, srcs: seq<Source>, ref: Dim, c: nat, frames: seq<Option<Dim>>,
                    ghost a0: seq<Handle>, ghost b0: seq<Handle>, ghost d0: seq<Image>, ghost e0: seq<Event>,
                    i: nat, count: nat, indices: seq<nat>, next: seq<Option<Dim>>)
    returns (fault: bool, count': nat, indices': seq<nat>, next': seq<Option<Dim>>)
    requires i < |srcs| && frames == Current(srcs, c)
    requires ScanAt(caps, app, srcs, ref, c, a0, b0, d0, e0, i, count, indices, next)
    modifies caps, app
    ensures fault ==> && FirstCycleFault(srcs, ref, app.faults, c, |srcs|) == Some(i)
                      && app.events == e0 + Deallocs(Ending(Lens(srcs), c, i + 1))
                      && app.arrayOfStates == a0 && app.runs == c && app.dst == d0 && app.batchOfStates == b0
                      && |app.src| == |srcs| && |indices'| == |srcs| && |next'| == |srcs|
    ensures !fault ==> ScanAt(caps, app, srcs, ref, c, a0, b0, d0, e0, i + 1, count', indices', next')
  {
    count', indices' := count, indices;
    fault, next' := LookStream(caps, app, srcs, ref, c, a0, b0, d0, e0, i, count, indices, next);
    if !fault {
      fault, count', indices' := AdmitStream(app, srcs, ref, c, frames, caps, a0, b0, d0, e0, i, count, indices, next');
    }
  }

  /// One cycle's inner loop (lines 374-398): lookahead read and release of
  /// each live stream, then its current frame into the next batch slot.
  method ScanCycle(caps: Captures, app: BaseApp, srcs: seq<Source>, ref: Dim, c: nat,
                   frames: seq<Option<Dim>>, batchIndices: seq<nat>)
    returns (fault: Option<nat>, count: nat, indices: seq<nat>, next: seq<Option<Dim>>)
    requires CapsAt(caps, srcs, c, 0) && AppAt(app, srcs, app.faults, c)
    requires frames == Current(srcs, c) && |batchIndices| == |srcs|
    modifies caps, app
    ensures app.arrayOfStates == old(app.arrayOfStates)
    ensures app.runs == old(app.runs) && app.dst == old(app.dst) && app.batchOfStates == old(app.batchOfStates)
    ensures |app.src| == |srcs| && |indices| == |srcs| && |next| == |srcs|
    ensures fault == FirstCycleFault(srcs, ref, app.faults, c, |srcs|)
    ensures fault.Some? ==> app.events == old(app.events) + Deallocs(Ending(Lens(srcs), c, fault.value + 1))
    ensures fault.None? ==>
      ScanAt(caps, app, srcs, ref, c, old(app.arrayOfStates), old(app.batchOfStates), old(app.dst), old(app.events),
             |srcs|, count, indices, next)
  {
    var n := |srcs|;
    ghost var a0, b0, d0, e0 := app.arrayOfStates, app.batchOfStates, app.dst, app.events;
    count := 0;
    indices := batchIndices;
    next := seq(n, _ => None);
    ScanStart(caps, app, srcs, ref, c, indices, next);
    var i := 0;
    while i < n
      invariant ScanAt(caps, app, srcs, ref, c, a0, b0, d0, e0, i, count, indices, next)
    {
      var stop;
      stop, count, indices, next := ScanStream(caps, app, srcs, ref, c, frames, a0, b0, d0, e0, i, count, indices, next);
      if stop {
        fault := Some(i);
        return;
      }
      i := i + 1;
    }
    fault := None;
  }

  lemma {:induction false} ScanStart(caps: Captures, app: BaseApp, srcs: seq<Source>, ref: Dim, c: nat,
                  indices: seq<nat>, next: seq<Option<Dim>>)
    requires CapsAt(caps, srcs, c, 0) && AppAt(app, srcs, app.faults, c)
    requires |indices| == |srcs| && |next| == |srcs|
    ensures ScanAt(caps, app, srcs, ref, c, app.arrayOfStates, app.batchOfStates, app.dst, app.events,
                   0, 0, indices, next)
  {
    assert app.events + Deallocs(Ending(Lens(srcs), c, 0)) == app.events;
  }

  /// The captures at the end of cycle `c` are those at the start of `c + 1`.
  lemma {:induction false} NextCycleCaps(caps: Captures, srcs: seq<Source>, c: nat)
    requires CapsAt(caps, srcs, c, |srcs|)
    ensures CapsAt(caps, srcs, c + 1, 0)
  {
  }

  /// The first faulty stream decides `FirstCycleFault`.
  lemma {:induction false} FirstCycleFaultAt(src: seq<Source>, ref: Dim, f: Faults, c: nat, i: nat, m: nat)
    requires i < m <= |src| && CycleFaulty(src, ref, f, c, i)
    requires FirstCycleFault(src, ref, f, c, i).None?
    ensures FirstCycleFault(src, ref, f, c, m) == Some(i)
  {
    if m > i + 1 {
      FirstCycleFaultAt(src, ref, f, c, i, m - 1);
    }
  }

  lemma {:induction false} FirstAllocFaultAt(lens: seq<nat>, f: Faults, i: nat, m: nat)
    requires i < m <= |lens| && lens[i] > 0 && i in f.alloc
    requires FirstAllocFault(lens, f, i).None?
    ensures FirstAllocFault(lens, f, m) == Some(i)
  {
    if m > i + 1 {
      FirstAllocFaultAt(lens, f, i, m - 1);
    }
  }

  /// The captures and frames in the priming loop once streams `0..i` are
  /// done.
  ghost predicate PrimedCaps(caps: Captures, srcs: seq<Source>, i: nat, frames: seq<Option<Dim>>)
    reads caps
  {
    && i <= |srcs| && caps.Valid() && caps.videos == Videos(srcs) && |frames| == |srcs|
    && forall j :: 0 <= j < |srcs| ==>
         && caps.isOpen[j] == (j >= i || 0 < |srcs[j].frames|)
         && caps.pos[j] == (if j < i then Min(1, |srcs[j].frames|) else 0)
         && frames[j] == (if j < i && 0 < |srcs[j].frames| then Some(srcs[j].frames[0]) else None)
  }

  /// The app in the priming loop once streams `0..i` are done.
  ghost predicate PrimedApp(app: BaseApp, srcs: seq<Source>, b0: seq<Handle>, i: nat)
    reads app
  {
    && i <= |srcs| && app.runs == 0 && app.batchOfStates == b0 && |b0| == |srcs|
    && app.src == seq(|srcs|, _ => Blank) && app.dst == seq(|srcs|, _ => Blank)
    && |app.arrayOfStates| == |srcs|
    && (forall j :: 0 <= j < |srcs| ==> app.arrayOfStates[j] == if j < i && 0 < |srcs[j].frames| then H(j) else Null)
    && app.events == Allocs(Active(Lens(srcs), 0, i))
    && FirstAllocFault(Lens(srcs), app.faults, i).None?
  }

  /// Line 364: the first read of stream `i`; an empty capture is released.
  method FirstRead(caps: Captures, srcs: seq<Source>, i: nat, frames: seq<Option<Dim>>)
    returns (fr: Option<Dim>, frames': seq<Option<Dim>>)
    requires i < |srcs| && PrimedCaps(caps, srcs, i, frames)
    modifies caps
    ensures fr == if 0 < |srcs[i].frames| then Some(srcs[i].frames[0]) else None
    ensures PrimedCaps(caps, srcs, i + 1, frames')
  {
    fr := caps.Read(i);
    frames' := frames[i := fr];
    if fr.None? {
      caps.Release(i);
    }
  }

  /// Lines 365-368: a state for stream `i` when its first read succeeded.
  method FirstState(app: BaseApp, srcs: seq<Source>, ghost b0: seq<Handle>, i: nat, fr: Option<Dim>)
    returns (fault: bool)
    requires i < |srcs| && PrimedApp(app, srcs, b0, i)
    requires fr == if 0 < |srcs[i].frames| then Some(srcs[i].frames[0]) else None
    modifies app
    ensures fault ==> FirstAllocFault(Lens(srcs), app.faults, |srcs|) == Some(i)
                      && app.events == Allocs(Active(Lens(srcs), 0, i))
    ensures !fault ==> PrimedApp(app, srcs, b0, i + 1)
  {
    ghost var lens := Lens(srcs);
    fault := false;
    if fr.None? {
      assert Active(lens, 0, i + 1) == Active(lens, 0, i);
    } else {
      var err := app.InitVideoStream(i);
      if err != Success {
        FirstAllocFaultAt(lens, app.faults, i, |srcs|);
        fault := true;
        return;
      }
      assert Active(lens, 0, i + 1) == Active(lens, 0, i) + [i];
      assert Allocs(Active(lens, 0, i) + [i]) == Allocs(Active(lens, 0, i)) + [Alloc(H(i))];
    }
  }

  /// One pass of the priming loop: the first read of stream `i`, then its
  /// state.
  method PrimeStream(caps: Captures, app: BaseApp, srcs: seq<Source>, ghost b0: seq<Handle>, i: nat,
                     frames: seq<Option<Dim>>) returns (stop: bool, frames': seq<Option<Dim>>)
    requires i < |srcs| && PrimedCaps(caps, srcs, i, frames) && PrimedApp(app, srcs, b0, i)
    modifies caps, app
    ensures stop ==> FirstAllocFault(Lens(srcs), app.faults, |srcs|) == Some(i)
                     && app.events == Allocs(Active(Lens(srcs), 0, i))
    ensures !stop ==> PrimedCaps(caps, srcs, i + 1, frames') && PrimedApp(app, srcs, b0, i + 1)
  {
    var fr;
    fr, frames' := FirstRead(caps, srcs, i, frames);
    stop := FirstState(app, srcs, b0, i, fr);
  }

  /// The loop of lines 362-369: a state for every stream whose first read
  /// succeeds, an empty capture released.  A failed allocation stops it.
  method Prime(caps: Captures, app: BaseApp, srcs: seq<Source>) returns (fault: Option<nat>, frames: seq<Option<Dim>>)
    requires caps.Valid() && caps.videos == Videos(srcs)
    requires caps.pos == seq(|srcs|, _ => 0) && caps.isOpen == seq(|srcs|, _ => true)
    requires app.runs == 0 && app.events == [] && |app.batchOfStates| == |srcs|
    requires app.arrayOfStates == seq(|srcs|, _ => Null)
    requires app.src == seq(|srcs|, _ => Blank) && app.dst == seq(|srcs|, _ => Blank)
    modifies caps, app
    ensures fault == FirstAllocFault(Lens(srcs), app.faults, |srcs|)
    ensures fault.Some? ==> app.events == Allocs(Active(Lens(srcs), 0, fault.value))
    ensures fault.None? ==>
      && CapsAt(caps, srcs, 0, 0) && AppAt(app, srcs, app.faults, 0)
      && app.events == Allocs(Batch(Lens(srcs), 0)) && app.dst == seq(|srcs|, _ => Blank)
      && frames == Current(srcs, 0)
  {
    var n := |srcs|;
    ghost var b0 := app.batchOfStates;
    frames := seq(n, _ => None);
    PrimedStart(caps, app, srcs, frames);
    var i := 0;
    while i < n
      invariant PrimedCaps(caps, srcs, i, frames) && PrimedApp(app, srcs, b0, i)
    {
      var stop;
      stop, frames := PrimeStream(caps, app, srcs, b0, i, frames);
      if stop {
        fault := Some(i);
        return;
      }
      i := i + 1;
    }
    fault := None;
    PrimedAll(caps, app, srcs, b0, frames);
  }

  lemma {:induction false} PrimedStart(caps: Captures, app: BaseApp, srcs: seq<Source>, frames: seq<Option<Dim>>)
    requires caps.Valid() && caps.videos == Videos(srcs) && frames == seq(|srcs|, _ => None)
    requires caps.pos == seq(|srcs|, _ => 0) && caps.isOpen == seq(|srcs|, _ => true)
    requires app.runs == 0 && app.events == [] && |app.batchOfStates| == |srcs|
    requires app.arrayOfStates == seq(|srcs|, _ => Null)
    requires app.src == seq(|srcs|, _ => Blank) && app.dst == seq(|srcs|, _ => Blank)
    ensures PrimedCaps(caps, srcs, 0, frames) && PrimedApp(app, srcs, app.batchOfStates, 0)
  {
  }

  /// After the priming loop every stream with a frame has its state and its
  /// first frame, and the captures of the empty ones are closed.
  lemma {:induction false} PrimedAll(caps: Captures, app: BaseApp, srcs: seq<Source>, b0: seq<Handle>, frames: seq<Option<Dim>>)
    requires PrimedCaps(caps, srcs, |srcs|, frames) && PrimedApp(app, srcs, b0, |srcs|)
    ensures CapsAt(caps, srcs, 0, 0) && AppAt(app, srcs, app.faults, 0)
    ensures app.events == Allocs(Batch(Lens(srcs), 0)) && frames == Current(srcs, 0)
  {
    assert app.arrayOfStates == States(Lens(srcs));
  }

  /// One pass of the `while (1)` loop from cycle `c`: the inner loop, then,
  /// unless it bailed or the batch is empty, the run, the writes and the
  /// advance of each batch member's current frame.  `ev` and `ws` are this
  /// cycle's calls and writes; when the loop goes on, the rest comes from
  /// the next cycle.
  method RunCycle(caps: Captures, app: BaseApp, srcs: seq<Source>, ref: Dim, c: nat,
                  frames: seq<Option<Dim>>, batchIndices: seq<nat>)
    returns (stop: bool, status: Status, ghost ev: seq<Event>, ws: seq<Write>,
             frames': seq<Option<Dim>>, indices: seq<nat>)
    requires CapsAt(caps, srcs, c, 0) && AppAt(app, srcs, app.faults, c)
    requires frames == Current(srcs, c) && |batchIndices| == |srcs|
    modifies caps, app
    ensures app.events == old(app.events) + ev
    ensures stop ==> CycleStep(srcs, ref, app.faults, c, old(app.dst)) == Stop(status, ev) && ws == []
    ensures !stop ==>
      && CycleStep(srcs, ref, app.faults, c, old(app.dst)) == Continue(ev, ws, app.dst)
      && CapsAt(caps, srcs, c + 1, 0) && AppAt(app, srcs, app.faults, c + 1)
      && frames' == Current(srcs, c + 1) && |indices| == |srcs|
  {
    var n := |srcs|;
    ghost var lens := Lens(srcs);
    ghost var dst0 := app.dst;
    frames' := frames;
    ws := [];
    var fault, count, next;
    fault, count, indices, next := ScanCycle(caps, app, srcs, ref, c, frames, batchIndices);
    if fault.Some? {
      ev := Deallocs(Ending(lens, c, fault.value + 1));
      StopOnFault(srcs, ref, app.faults, c, dst0, fault.value);
      return true, FaultStatus(srcs, app.faults, c, fault.value), ev, ws, frames', indices;
    }
    ev := Deallocs(Ending(lens, c, n));
    ghost var b := Batch(lens, c);
    NextCycleCaps(caps, srcs, c);
    if count == 0 {
      StopOnEmpty(srcs, ref, app.faults, c, dst0);
      return true, Success, ev, ws, frames', indices;
    }
    var chunk;
    status, chunk, frames' := RunBatch(app, srcs, ref, c, frames, next, indices, count);
    ev := ev + [Event.Run(Handles(b))];
    if status != Success {
      StopOnRunFailure(srcs, ref, app.faults, c, dst0);
      return true, status, ev, ws, frames', indices;
    }
    ws := chunk;
    GoesOn(srcs, ref, app.faults, c, dst0);
    stop := false;
  }

  /// Lines 399-418: the run on a non-empty batch, then the writes and the
  /// advance of the current frames.
  method RunBatch(app: BaseApp, srcs: seq<Source>, ref: Dim, c: nat, frames: seq<Option<Dim>>,
                  next: seq<Option<Dim>>, indices: seq<nat>, count: nat)
    returns (status: Status, ws: seq<Write>, frames': seq<Option<Dim>>)
    requires app.arrayOfStates == States(Lens(srcs)) && app.runs == c
    requires |app.batchOfStates| == |srcs| && |app.src| == |srcs| && |app.dst| == |srcs|
    requires frames == Current(srcs, c) && |next| == |srcs| && |indices| == |srcs|
    requires 0 < count <= |srcs| && indices[..count] == Batch(Lens(srcs), c)
    requires forall k :: 0 <= k < count ==> app.src[k] == Frame(indices[k], c)
    requires forall i :: 0 <= i < |srcs| && c < |srcs[i].frames| ==>
               next[i] == if c + 1 < |srcs[i].frames| then Some(srcs[i].frames[c + 1]) else None
    modifies app
    ensures app.events == old(app.events) + [Event.Run(Handles(Batch(Lens(srcs), c)))]
    ensures status == if c in app.faults.run then ErrEngine else Success
    ensures app.arrayOfStates == old(app.arrayOfStates) && app.runs == c + 1
    ensures |app.batchOfStates| == |srcs| && |app.src| == |srcs| && |app.dst| == |srcs|
    ensures status == Success ==>
      && app.dst == AfterRun(old(app.dst), Batch(Lens(srcs), c), c)
      && ws == CycleWrites(app.dst, Batch(Lens(srcs), c))
      && frames' == Current(srcs, c + 1)
  {
    ghost var lens := Lens(srcs);
    ghost var b := Batch(lens, c);
    assert forall k :: 0 <= k < count ==> indices[k] == b[k];
    ghost var src1, dst0 := app.src, app.dst;
    frames' := frames;
    ws := [];
    status := app.Run(indices, count);
    GatherStates(lens, indices, count, b);
    if status != Success {
      return;
    }
    RunOutputsOfBatch(src1, dst0, b, c);
    ws := WriteBatch(app, indices, count, b);
    frames' := Advance(frames, next, indices, count, b);
    AdvanceIsCurrent(srcs, c, frames, next, frames', b);
  }

  lemma {:induction false} StopOnFault(src: seq<Source>, ref: Dim, f: Faults, c: nat, dst: seq<Image>, i: nat)
    requires |dst| == |src| && FirstCycleFault(src, ref, f, c, |src|) == Some(i)
    ensures CycleStep(src, ref, f, c, dst) == Stop(FaultStatus(src, f, c, i), Deallocs(Ending(Lens(src), c, i + 1)))
  {
  }

  lemma {:induction false} StopOnEmpty(src: seq<Source>, ref: Dim, f: Faults, c: nat, dst: seq<Image>)
    requires |dst| == |src| && FirstCycleFault(src, ref, f, c, |src|).None? && Batch(Lens(src), c) == []
    ensures CycleStep(src, ref, f, c, dst) == Stop(Success, Deallocs(Ending(Lens(src), c, |src|)))
  {
  }

  lemma {:induction false} StopOnRunFailure(src: seq<Source>, ref: Dim, f: Faults, c: nat, dst: seq<Image>)
    requires |dst| == |src| && FirstCycleFault(src, ref, f, c, |src|).None?
    requires Batch(Lens(src), c) != [] && c in f.run
    ensures CycleStep(src, ref, f, c, dst)
            == Stop(ErrEngine, Deallocs(Ending(Lens(src), c, |src|)) + [Run(Handles(Batch(Lens(src), c)))])
  {
  }

  lemma {:induction false} GoesOn(src: seq<Source>, ref: Dim, f: Faults, c: nat, dst: seq<Image>)
    requires |dst| == |src| && FirstCycleFault(src, ref, f, c, |src|).None?
    requires Batch(Lens(src), c) != [] && c !in f.run
    ensures var b := Batch(Lens(src), c);
      CycleStep(src, ref, f, c, dst)
      == Continue(Deallocs(Ending(Lens(src), c, |src|)) + [Run(Handles(b))], CycleWrites(AfterRun(dst, b, c), b), AfterRun(dst, b, c))
  {
  }

  lemma {:induction false} GatherStates(lens: seq<nat>, indices: seq<nat>, count: nat, b: seq<nat>)
    requires count <= |indices| && indices[..count] == b
    requires forall k :: 0 <= k < |b| ==> b[k] < |lens| && 0 < lens[b[k]]
    ensures Gather(States(lens), indices, count) == Handles(b)
  {
    assert forall k :: 0 <= k < count ==> indices[k] == b[k];
  }

  lemma {:induction false} RunOutputsOfBatch(src: seq<Image>, dst: seq<Image>, b: seq<nat>, c: nat)
    requires |b| <= |src| == |dst|
    requires forall k :: 0 <= k < |b| ==> src[k] == Frame(b[k], c)
    ensures RunOutputs(src, dst, |b|) == AfterRun(dst, b, c)
  {
  }

  lemma {:induction false} AdvanceIsCurrent(srcs: seq<Source>, c: nat, frames: seq<Option<Dim>>, next: seq<Option<Dim>>,
                         frames': seq<Option<Dim>>, b: seq<nat>)
    requires frames == Current(srcs, c) && b == Batch(Lens(srcs), c) && |frames'| == |srcs| && |next| == |srcs|
    requires forall x :: 0 <= x < |frames| ==> frames'[x] == if x in b then next[x] else frames[x]
    requires forall i :: 0 <= i < |srcs| && c < |srcs[i].frames| ==>
               next[i] == if c + 1 < |srcs[i].frames| then Some(srcs[i].frames[c + 1]) else None
    ensures frames' == Current(srcs, c + 1)
  {
  }

  /// The loop of lines 406-411: writer `batch_indices[i]` gets output slot
  /// `batch_indices[i]`.
  method WriteBatch(app: BaseApp, indices: seq<nat>, count: nat, ghost b: seq<nat>) returns (ws: seq<Write>)
    requires count <= |indices| && indices[..count] == b
    requires forall k :: 0 <= k < |b| ==> b[k] < |app.dst|
    ensures ws == CycleWrites(app.dst, b)
  {
    ws := [];
    var k := 0;
    while k < count
      invariant 0 <= k <= count
      invariant ws == CycleWrites(app.dst, b)[..k]
    {
      assert indices[k] == b[k];
      var idx := indices[k];
      ws := ws + [Write(idx, app.NthOutput(idx))];
      k := k + 1;
    }
  }

  /// The loop of lines 414-418: each batch member's lookahead frame becomes
  /// its current frame.
  method Advance(frames: seq<Option<Dim>>, next: seq<Option<Dim>>, indices: seq<nat>, count: nat, ghost b: seq<nat>)
    returns (frames': seq<Option<Dim>>)
    requires |frames| == |next| && count <= |indices| && indices[..count] == b && Increasing(b)
    requires forall k :: 0 <= k < |b| ==> b[k] < |frames|
    ensures |frames'| == |frames|
    ensures forall x :: 0 <= x < |frames| ==> frames'[x] == if x in b then next[x] else frames[x]
  {
    frames' := frames;
    var k := 0;
    while k < count
      invariant 0 <= k <= count && |frames'| == |frames|
      invariant forall x :: 0 <= x < |frames| ==> frames'[x] == if x in b[..k] then next[x] else frames[x]
    {
      assert indices[k] == b[k];
      assert b[..k + 1] == b[..k] + [b[k]];
      frames' := frames'[indices[k] := next[indices[k]]];
      k := k + 1;
    }
    assert b[..count] == b;
  }

  lemma {:induction false} CyclesStop(src: seq<Source>, ref: Dim, f: Faults, c: nat, dst: seq<Image>)
    requires |dst| == |src| && CycleStep(src, ref, f, c, dst).Stop?
    ensures Cycles(src, ref, f, c, dst)
            == Outcome(CycleStep(src, ref, f, c, dst).status, CycleStep(src, ref, f, c, dst).events, [])
  {
  }

  lemma {:induction false} CyclesContinue(src: seq<Source>, ref: Dim, f: Faults, c: nat, dst: seq<Image>)
    requires |dst| == |src| && CycleStep(src, ref, f, c, dst).Continue?
    ensures var s := CycleStep(src, ref, f, c, dst);
      var r := Cycles(src, ref, f, c + 1, s.dst);
      Cycles(src, ref, f, c, dst) == Outcome(r.status, s.events + r.events, s.writes + r.writes)
  {
  }

  /// Splicing one cycle's calls and writes into the whole run's.
  lemma {:induction false} ChainCycles(t: Outcome, e0: seq<Event>, ev: seq<Event>, w0: seq<Write>, ws: seq<Write>, r: Outcome, r': Outcome)
    requires t == Outcome(r.status, e0 + r.events, w0 + r.writes)
    requires r == Outcome(r'.status, ev + r'.events, ws + r'.writes)
    ensures t == Outcome(r'.status, (e0 + ev) + r'.events, (w0 + ws) + r'.writes)
  {
    assert e0 + (ev + r'.events) == (e0 + ev) + r'.events;
    assert w0 + (ws + r'.writes) == (w0 + ws) + r'.writes;
  }


  lemma {:induction false} ChainStop(t: Outcome, e0: seq<Event>, ev: seq<Event>, w0: seq<Write>, r: Outcome)
    requires t == Outcome(r.status, e0 + r.events, w0 + r.writes) && r.events == ev && r.writes == []
    ensures t == Outcome(r.status, e0 + ev, w0)
  {
    assert w0 + [] == w0;
  }

  /// `BatchProcess` of TritonClientApp.cpp (lines 311-428).
  method BatchProcess(srcs: seq<Source>, faults: Faults) returns (status: Status, events: seq<Event>, writes: seq<Write>)
    ensures Outcome(status, events, writes) == TritonRun(srcs, faults)
  {
    var caps, openErr := OpenStreams(srcs);
    if openErr.Some? {
      return openErr.value, [], [];
    }
    var n := |srcs|;
    if n == 0 {
      return ErrMissingInput, [], [];
    }
    var first := caps.Read(0);
    caps.Rewind(0);
    if first.None? {
      return ErrRead, [], [];
    }
    var ref := first.value;
    ghost var lens := Lens(srcs);
    var app := new BaseApp(faults);
    status := app.Setup(n);
    if status != Success {
      return status, [], [];
    }
    var fault, frames := Prime(caps, app, srcs);
    if fault.Some? {
      return Success, app.events, [];
    }

    assert app.dst == seq(n, _ => Blank);
    status, writes := CycleLoop(caps, app, srcs, ref, frames);
    return status, app.events, writes;
  }

  /// The `while (1)` loop of lines 371-418, from cycle 0 until a cycle ends
  /// the run.
  method CycleLoop(caps: Captures, app: BaseApp, srcs: seq<Source>, ref: Dim, frames: seq<Option<Dim>>)
    returns (status: Status, writes: seq<Write>)
    requires CapsAt(caps, srcs, 0, 0) && AppAt(app, srcs, app.faults, 0) && frames == Current(srcs, 0)
    modifies caps, app
    ensures var r := Cycles(srcs, ref, app.faults, 0, old(app.dst));
      status == r.status && app.events == old(app.events) + r.events && writes == r.writes
  {
    ghost var lens := Lens(srcs);
    ghost var whole := Cycles(srcs, ref, app.faults, 0, app.dst);
    ghost var e0 := app.events;
    ghost var done: seq<Event> := [];
    var frames := frames;
    var c := 0;
    writes := [];
    var batchIndices: seq<nat> := seq(|srcs|, _ => 0);
    while true
      invariant CapsAt(caps, srcs, c, 0) && AppAt(app, srcs, app.faults, c)
      invariant frames == Current(srcs, c) && |batchIndices| == |srcs| && app.events == e0 + done
      invariant var r := Cycles(srcs, ref, app.faults, c, app.dst);
        whole == Outcome(r.status, done + r.events, writes + r.writes)
      decreases MaxLen(lens) - c
    {
      ghost var d0 := app.dst;
      var stop, st, ws;
      ghost var ev;
      stop, st, ev, ws, frames, batchIndices := RunCycle(caps, app, srcs, ref, c, frames, batchIndices);
      if stop {
        AppendAssoc(e0, done, ev);
        CyclesStop(srcs, ref, app.faults, c, d0);
        ChainStop(whole, done, ev, writes, Cycles(srcs, ref, app.faults, c, d0));
        return st, writes;
      }
      CyclesContinue(srcs, ref, app.faults, c, d0);
      ChainCycles(whole, done, ev, writes, ws, Cycles(srcs, ref, app.faults, c, d0), Cycles(srcs, ref, app.faults, c + 1, app.dst));
      AppendAssoc(e0, done, ev);
      done := done + ev;
      writes := writes + ws;
      c := c + 1;
    }
  }

}
