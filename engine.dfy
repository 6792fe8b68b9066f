/// What the batch applications see of the outside world: input videos
/// (isOpen or not, a sequence of frame sizes), output writers, the effect
/// engine's state objects and its failures.  Successful state allocations,
/// every release, every `NvVFX_Run` and the configuration are recorded as
/// events; whether a call fails is given up front, so the model is a
/// function of its inputs.
module Engine {
  import opened CStrings

  /// Width and height of a decoded frame.
  datatype Dim = Dim(width: int, height: int)

  /// One input file: whether `VideoCapture::open` succeeds, the frames it
  /// yields, and whether the matching `VideoWriter::open` succeeds.
  datatype Source = Source(opens: bool, frames: seq<Dim>, writerOpens: bool)

  /// The `NvCV_Status` values the applications produce.  `ErrEngine`
  /// stands for whatever error the SDK call returned; `ErrWrongSize` is the
  /// one the relighting application tolerates from its HDR image.
  datatype Status = Success | ErrRead | ErrWrite | ErrMissingInput | ErrMismatch | ErrMemory | ErrEngine | ErrWrongSize

  /// A state object handle; `H(k)` is the k-th one the SDK hands out.
  datatype Handle = Null | H(id: nat)

  /// Calls into the effect SDK, in the order they are made.
  datatype Event =
    | Alloc(handle: Handle)                    // NvVFX_AllocateState
    | Dealloc(handle: Handle)                  // NvVFX_DeallocateState
    | Run(states: seq<Handle>)                 // batch size, state array, NvVFX_Run
    | Configure(maxStreams: nat, modelBatch: nat)  // NVVFX_MAX_NUMBER_STREAMS, NVVFX_MODEL_BATCH

  /// A slot of a batched image buffer: nothing yet, frame `index` of stream
  /// `stream`, or the matte the effect computed from that frame.
  datatype Image = Blank | Frame(stream: nat, index: nat) | Matte(stream: nat, index: nat)

  /// What the effect puts in an output slot for the given input slot.
  function Processed(im: Image): (r: Image)
    ensures im.Frame? ==> r == Matte(im.stream, im.index)
    ensures !im.Frame? ==> r == Blank
  {
    if im.Frame? then Matte(im.stream, im.index) else Blank
  }

  /// The output buffer after a run on the first `count` input slots.
  function RunOutputs(src: seq<Image>, dst: seq<Image>, count: nat): (r: seq<Image>)
    requires count <= |src| == |dst|
  {
    seq(|dst|, k requires 0 <= k < |dst| => if k < count then Processed(src[k]) else dst[k])
  }

  /// After a run, a slot among the first `count` holds a matte exactly when
  /// its input slot held a frame, and then the matte of that very frame; the
  /// slots past `count` keep what they held.
  lemma {:induction false} RunOutputsSlots(src: seq<Image>, dst: seq<Image>, count: nat, k: nat)
    requires count <= |src| == |dst| && k < |dst|
    ensures |RunOutputs(src, dst, count)| == |dst|
    ensures k < count ==> (RunOutputs(src, dst, count)[k].Matte? <==> src[k].Frame?)
    ensures k < count && src[k].Frame? ==>
      RunOutputs(src, dst, count)[k] == Matte(src[k].stream, src[k].index)
    ensures k < count && !src[k].Frame? ==> RunOutputs(src, dst, count)[k] == Blank
    ensures count <= k ==> RunOutputs(src, dst, count)[k] == dst[k]
  {
    var out := RunOutputs(src, dst, count);
    assert out[k] == if k < count then Processed(src[k]) else dst[k];
  }

  /// One `dstWriters[writer] << image`.
  datatype Write = Write(writer: nat, image: Image)

  /// Which SDK calls fail: effect setup (create, buffers, parameters, load)
  /// returns `setup`; state allocation fails for the listed streams;
  /// deallocation for the listed streams; the listed `NvVFX_Run` calls
  /// (counted from 0); `malloc` of the state array when `mallocFails`.
  datatype Faults = Faults(setup: Status, alloc: set<nat>, release: set<nat>, run: set<nat>, mallocFails: bool)

  /// What a `BatchProcess` returns, the SDK calls it made, and what it wrote.
  datatype Outcome = Outcome(status: Status, events: seq<Event>, writes: seq<Write>)

  function Handles(s: seq<nat>): (r: seq<Handle>)
  {
    seq(|s|, k requires 0 <= k < |s| => H(s[k]))
  }

  function Allocs(s: seq<nat>): (r: seq<Event>)
  {
    seq(|s|, k requires 0 <= k < |s| => Alloc(H(s[k])))
  }

  function Deallocs(s: seq<nat>): (r: seq<Event>)
  {
    seq(|s|, k requires 0 <= k < |s| => Dealloc(H(s[k])))
  }

  /// Frame counts of the inputs.
  function Lens(src: seq<Source>): (r: seq<nat>)
  {
    seq(|src|, i requires 0 <= i < |src| => |src[i].frames|)
  }

  /// The open loop: the first input whose capture or writer does not open
  /// decides the error; a capture is checked before its writer.
  function OpenFault(src: seq<Source>): (r: Option<Status>)
    ensures r.None? <==> forall i :: 0 <= i < |src| ==> src[i].opens && src[i].writerOpens
    ensures r.Some? ==> r.value == ErrRead || r.value == ErrWrite
  {
    if src == [] then None
    else if !src[0].opens then Some(ErrRead)
    else if !src[0].writerOpens then Some(ErrWrite)
    else
      var r := OpenFault(src[1..]);
      assert forall i :: 1 <= i < |src| ==> src[1..][i - 1] == src[i];
      r
  }

  /// Every frame of every input has the reference size.
  predicate SameSize(src: seq<Source>, ref: Dim)
  {
    forall i, k :: 0 <= i < |src| && 0 <= k < |src[i].frames| ==> src[i].frames[k] == ref
  }

  /// Inputs that all open and have frames of one size, and an SDK on which
  /// no call fails.
  predicate Clean(src: seq<Source>, f: Faults)
  {
    && OpenFault(src).None? && |src| > 0 && |src[0].frames| > 0
    && SameSize(src, src[0].frames[0])
    && f.setup == Success && f.alloc == {} && f.release == {} && f.run == {}
  }

  /// The `cv::VideoCapture` objects of one run: a read cursor and an open
  /// flag per input.
  class Captures {
    const videos: seq<seq<Dim>>
    var pos: seq<nat>
    var isOpen: seq<bool>

    ghost predicate Valid()
      reads this
    {
      |pos| == |videos| && |isOpen| == |videos|
      && forall i :: 0 <= i < |videos| ==> pos[i] <= |videos[i]|
    }

    constructor (videos: seq<seq<Dim>>)
      ensures this.videos == videos && Valid()
      ensures pos == seq(|videos|, _ => 0) && isOpen == seq(|videos|, _ => false)
    {
      this.videos := videos;
      pos := seq(|videos|, _ => 0);
      isOpen := seq(|videos|, _ => false);
    }

    /// `open(file)`, succeeding or not.
    method Open(i: nat, ok: bool)
      requires Valid() && i < |videos|
      modifies this
      ensures Valid() && pos == old(pos) && isOpen == old(isOpen)[i := ok]
    {
      isOpen := isOpen[i := ok];
    }

    /// `capture >> mat`: the next frame, or an empty mat at the end or on a
    /// closed capture.
    method Read(i: nat) returns (f: Option<Dim>)
      requires Valid() && i < |videos|
      modifies this
      ensures Valid() && isOpen == old(isOpen)
      ensures old(isOpen[i]) && old(pos[i]) < |videos[i]| ==>
                f == Some(videos[i][old(pos[i])]) && pos == old(pos)[i := old(pos[i]) + 1]
      ensures !(old(isOpen[i]) && old(pos[i]) < |videos[i]|) ==> f == None && pos == old(pos)
    {
      if isOpen[i] && pos[i] < |videos[i]| {
        f := Some(videos[i][pos[i]]);
        pos := pos[i := pos[i] + 1];
      } else {
        f := None;
      }
    }

    /// `set(cv::CAP_PROP_POS_FRAMES, 0)`.
    method Rewind(i: nat)
      requires Valid() && i < |videos|
      modifies this
      ensures Valid() && isOpen == old(isOpen) && pos == old(pos)[i := 0]
    {
      pos := pos[i := 0];
    }

    /// `release()`.
    method Release(i: nat)
      requires Valid() && i < |videos|
      modifies this
      ensures Valid() && pos == old(pos) && isOpen == old(isOpen)[i := false]
    {
      isOpen := isOpen[i := false];
    }
  }

  function Videos(src: seq<Source>): (r: seq<seq<Dim>>)
  {
    seq(|src|, i requires 0 <= i < |src| => src[i].frames)
  }

  /// The open loop shared by both applications: opens capture and writer
  /// `i` in turn and stops at the first failure.
  method OpenStreams(src: seq<Source>) returns (caps: Captures, fault: Option<Status>)
    ensures fresh(caps) && caps.Valid() && caps.videos == Videos(src)
    ensures fault == OpenFault(src)
    ensures fault.None? ==> caps.pos == seq(|src|, _ => 0) && caps.isOpen == seq(|src|, _ => true)
  {
    caps := new Captures(Videos(src));
    var i := 0;
    while i < |src|
      invariant 0 <= i <= |src| && caps.Valid() && caps.videos == Videos(src)
      invariant caps.pos == seq(|src|, _ => 0)
      invariant forall j :: 0 <= j < i ==> src[j].opens && src[j].writerOpens
      invariant caps.isOpen == seq(|src|, j => j < i)
    {
      caps.Open(i, src[i].opens);
      if !src[i].opens {
        fault := Some(ErrRead);
        OpenFaultAt(src, i);
        return;
      }
      if !src[i].writerOpens {
        fault := Some(ErrWrite);
        OpenFaultAt(src, i);
        return;
      }
      assert caps.isOpen == seq(|src|, j => j < i + 1);
      i := i + 1;
    }
    fault := None;
  }

  /// The first input that fails to open decides `OpenFault`.
  lemma {:induction false} OpenFaultAt(src: seq<Source>, i: nat)
    requires i < |src| && !(src[i].opens && src[i].writerOpens)
    requires forall j :: 0 <= j < i ==> src[j].opens && src[j].writerOpens
    ensures OpenFault(src) == if !src[i].opens then Some(ErrRead) else Some(ErrWrite)
  {
    if i > 0 {
      OpenFaultAt(src[1..], i - 1);
    }
  }
}
