/// The multi-stream scheduler of the local batch sample: every stream gets a
/// state object up front, each cycle reads one frame from every stream that
/// is still open into a dense batch, and every state allocated is released
/// once at `bail`, whatever path leads there.
module AigsBatch {
  import opened CStrings
  import opened Scheduling
  import opened Engine

  /// `0, 1, ..., n - 1`.
  function Upto(n: nat): (r: seq<nat>)
  {
    seq(n, i requires 0 <= i < n => i)
  }

  /// The first of the `m` state allocations that fails.
  function FirstAllocFailure(f: Faults, m: nat): (r: Option<nat>)
    ensures r.None? ==> forall i :: 0 <= i < m ==> i !in f.alloc
    ensures r.Some? ==> r.value < m && r.value in f.alloc && forall i :: 0 <= i < r.value ==> i !in f.alloc
  {
    if m == 0 then None
    else
      var r := FirstAllocFailure(f, m - 1);
      if r.Some? then r else if m - 1 in f.alloc then Some(m - 1) else None
  }

  /// In cycle `c` stream `i` reads a frame whose size differs from `ref`.
  predicate Mismatch(src: seq<Source>, ref: Dim, c: nat, i: nat)
    requires i < |src|
  {
    c < |src[i].frames| && src[i].frames[c] != ref
  }

  /// The first stream below `m` that reads a mismatched frame in cycle `c`.
  function FirstMismatch(src: seq<Source>, ref: Dim, c: nat, m: nat): (r: Option<nat>)
    requires m <= |src|
    ensures r.None? ==> forall i :: 0 <= i < m ==> !Mismatch(src, ref, c, i)
    ensures r.Some? ==> r.value < m && Mismatch(src, ref, c, r.value)
                        && forall i :: 0 <= i < r.value ==> !Mismatch(src, ref, c, i)
  {
    if m == 0 then None
    else
      var r := FirstMismatch(src, ref, c, m - 1);
      if r.Some? then r else if Mismatch(src, ref, c, m - 1) then Some(m - 1) else None
  }

  /// `NVVFX_MODEL_BATCH` for `n` streams.
  function ModelBatch(n: nat): nat
  {
    if n > 1 then 8 else 1
  }

  /// The writes of one cycle: writer `b[k]` gets output slot `k`, the matte of
  /// its own frame.
  function BatchWrites(b: seq<nat>, c: nat): (r: seq<Write>)
  {
    seq(|b|, k requires 0 <= k < |b| => Write(b[k], Matte(b[k], c)))
  }

  /// What one pass of the `for (j)` loop does: it ends the loop with a
  /// status and the calls it made, or it runs a batch and goes on.
  datatype Pass = Halt(status: Status, events: seq<Event>) | Next(events: seq<Event>, writes: seq<Write>)

  /// Cycle `c`: a mismatched frame ends it before the run, then an empty
  /// batch, then a failed run.
  function CyclePass(src: seq<Source>, ref: Dim, f: Faults, c: nat): (r: Pass)
    ensures r.Next? ==> c < MaxLen(Lens(src))
    ensures r.events == [] || (r.events == [Run(Handles(Batch(Lens(src), c)))] && c < MaxLen(Lens(src)))
  {
    var lens := Lens(src);
    var b := Batch(lens, c);
    if FirstMismatch(src, ref, c, |src|).Some? then Halt(ErrMismatch, [])
    else if b == [] then Halt(Success, [])
    else
      BatchEmptyIff(lens, c);
      if c in f.run then Halt(ErrEngine, [Run(Handles(b))])
      else Next([Run(Handles(b))], BatchWrites(b, c))
  }

  /// The cycles from `c` on.
  function AigsCycles(src: seq<Source>, ref: Dim, f: Faults, c: nat): Outcome
    decreases MaxLen(Lens(src)) - c
  {
    match CyclePass(src, ref, f, c)
    case Halt(st, ev) => Outcome(st, ev, [])
    case Next(ev, ws) =>
      var rest := AigsCycles(src, ref, f, c + 1);
      Outcome(rest.status, ev + rest.events, ws + rest.writes)
  }

  /// `BatchProcess` of BatchAigsEffectApp.cpp: the open loop, the first
  /// frame, the effect setup, then `Served`.
  function AigsRun(src: seq<Source>, f: Faults): Outcome
  {
    if OpenFault(src).Some? then Outcome(OpenFault(src).value, [], [])
    else if |src| == 0 then Outcome(ErrMissingInput, [], [])
    else if |src[0].frames| == 0 then Outcome(ErrRead, [], [])
    else if f.setup != Success then Outcome(f.setup, [], [])
    else
      var r := Served(src, f);
      Outcome(r.status, [Configure(|src|, ModelBatch(|src|))] + r.events, r.writes)
  }

  /// Everything after the setup: the states allocated, what happens
  /// between allocation and `bail`, and the release of those states there.
  function Served(src: seq<Source>, f: Faults): Outcome
    requires |src| > 0 && |src[0].frames| > 0
  {
    var k := Allocated(f, |src|);
    var r := Cycled(src, f);
    Outcome(r.status, Allocs(Upto(k)) + r.events + Deallocs(Upto(k)), r.writes)
  }

  /// How many of the `n` state allocations succeed before the first failure.
  function Allocated(f: Faults, n: nat): (r: nat)
    ensures r <= n
    ensures FirstAllocFailure(f, n).None? <==> r == n
  {
    match FirstAllocFailure(f, n)
    case Some(k) => k
    case None => n
  }

  /// Between allocation and `bail`: a failed allocation, a failed `malloc`
  /// of the state array, or the cycles.
  function Cycled(src: seq<Source>, f: Faults): Outcome
    requires |src| > 0 && |src[0].frames| > 0
  {
    if FirstAllocFailure(f, |src|).Some? then Outcome(ErrEngine, [], [])
    else if f.mallocFails then Outcome(ErrMemory, [], [])
    else AigsCycles(src, src[0].frames[0], f, 0)
  }

  /// The effect of `App` with its batched buffers; every SDK call is logged.
  class Effect {
    const faults: Faults
    var events: seq<Event>
    var runs: nat
    var src: seq<Image>
    var dst: seq<Image>

    constructor (faults: Faults)
      ensures this.faults == faults && events == [] && runs == 0 && src == [] && dst == []
    {
      this.faults := faults;
      events := [];
      runs := 0;
      src := [];
      dst := [];
    }

    /// `app.init`, `NVVFX_MAX_NUMBER_STREAMS`, `NVVFX_MODEL_BATCH` and
    /// `NvVFX_Load` (lines 278-281).
    method Init(n: nat) returns (err: Status)
      modifies this
      ensures err == faults.setup && runs == old(runs)
      ensures err == Success ==>
        events == old(events) + [Configure(n, ModelBatch(n))] && src == seq(n, _ => Blank) && dst == seq(n, _ => Blank)
      ensures err != Success ==> events == old(events) && src == old(src) && dst == old(dst)
    {
      err := faults.setup;
      if err == Success {
        events := events + [Configure(n, ModelBatch(n))];
        src := seq(n, _ => Blank);
        dst := seq(n, _ => Blank);
      }
    }

    /// `NvVFX_AllocateState` for stream `i`.
    method AllocateState(i: nat) returns (err: Status, h: Handle)
      modifies this
      ensures err == if i in faults.alloc then ErrEngine else Success
      ensures err == Success ==> h == H(i) && events == old(events) + [Alloc(H(i))]
      ensures err != Success ==> events == old(events)
      ensures runs == old(runs) && src == old(src) && dst == old(dst)
    {
      if i in faults.alloc {
        err, h := ErrEngine, Null;
      } else {
        err, h := Success, H(i);
        events := events + [Alloc(H(i))];
      }
    }

    /// `NvVFX_DeallocateState`; its status is ignored.
    method DeallocateState(h: Handle)
      modifies this
      ensures events == old(events) + [Dealloc(h)]
      ensures runs == old(runs) && src == old(src) && dst == old(dst)
    {
      events := events + [Dealloc(h)];
    }

    /// `TransferToNthImage(n, ...)` into the batched input buffer.
    method TransferToNthImage(n: nat, im: Image)
      requires n < |src|
      modifies this
      ensures src == old(src)[n := im]
      ensures events == old(events) && runs == old(runs) && dst == old(dst)
    {
      src := src[n := im];
    }

    /// `NVVFX_BATCH_SIZE`, `NVVFX_STATE` and `NvVFX_Run` (lines 329-334): the
    /// SDK reads the first `|states|` entries of the state array.
    method Run(states: seq<Handle>) returns (err: Status)
      requires |states| <= |src| == |dst|
      modifies this
      ensures events == old(events) + [Event.Run(states)] && runs == old(runs) + 1 && src == old(src)
      ensures err == if old(runs) in faults.run then ErrEngine else Success
      ensures err == Success ==> dst == RunOutputs(src, old(dst), |states|)
      ensures err != Success ==> dst == old(dst)
    {
      events := events + [Event.Run(states)];
      err := if runs in faults.run then ErrEngine else Success;
      if err == Success {
        dst := RunOutputs(src, dst, |states|);
      }
      runs := runs + 1;
    }

    /// `TransferFromNthImage(n, &_dst, ...)`: output slot `n`.
    function NthOutput(n: nat): Image
      requires n < |dst|
      reads this
    {
      dst[n]
    }
  }

  function Min(a: nat, b: nat): nat
  {
    if a < b then a else b
  }

  /// The captures once the first `i` streams have been read in cycle `c`.
  ghost predicate CapsAt(caps: Captures, src: seq<Source>, c: nat, i: nat)
    reads caps
  {
    caps.Valid() && caps.videos == Videos(src) && Cursor(src, c, i, caps.pos, caps.isOpen)
  }

  /// Read positions and open flags once the first `i` streams have been read
  /// in cycle `c`: a stream is open until the read past its last frame,
  /// which releases it.
  ghost predicate Cursor(src: seq<Source>, c: nat, i: nat, pos: seq<nat>, isOpen: seq<bool>)
  {
    && i <= |src| && |pos| == |src| && |isOpen| == |src|
    && forall j :: 0 <= j < |src| ==>
         && isOpen[j] == (if j < i then c < |src[j].frames| else c <= |src[j].frames|)
         && pos[j] == (if j < i then Min(c + 1, |src[j].frames|) else Min(c, |src[j].frames|))
  }

  /// A closed capture has no frame for this cycle and stays as it is.
  lemma {:induction false} CursorSkip(src: seq<Source>, c: nat, i: nat, pos: seq<nat>, isOpen: seq<bool>)
    requires Cursor(src, c, i, pos, isOpen) && i < |src| && !isOpen[i]
    ensures Cursor(src, c, i + 1, pos, isOpen) && |src[i].frames| <= c
  {
  }

  /// The read past the last frame releases the capture.
  lemma {:induction false} CursorRelease(src: seq<Source>, c: nat, i: nat, pos: seq<nat>, isOpen: seq<bool>)
    requires Cursor(src, c, i, pos, isOpen) && i < |src| && isOpen[i] && |src[i].frames| <= pos[i]
    ensures Cursor(src, c, i + 1, pos, isOpen[i := false]) && |src[i].frames| <= c
  {
  }

  /// A successful read yields frame `c` of the stream.
  lemma {:induction false} CursorRead(src: seq<Source>, c: nat, i: nat, pos: seq<nat>, isOpen: seq<bool>)
    requires Cursor(src, c, i, pos, isOpen) && i < |src| && isOpen[i] && pos[i] < |src[i].frames|
    ensures Cursor(src, c, i + 1, pos[i := pos[i] + 1], isOpen) && pos[i] == c
  {
  }

  /// The batch so far once the first `i` streams have been read in cycle
  /// `c`: no mismatch yet, and the first `count` slots of the index, state
  /// and input arrays hold the live streams below `i`, their states and
  /// their frames.
  ghost predicate Filled(src: seq<Source>, ref: Dim, c: nat, i: nat, count: nat,
                         idx: seq<nat>, sts: seq<Handle>, imgs: seq<Image>)
  {
    && i <= |src| && FirstMismatch(src, ref, c, i).None?
    && count <= i && count <= |idx| && count <= |sts| && count <= |imgs|
    && idx[..count] == Active(Lens(src), c, i)
    && sts[..count] == Handles(Active(Lens(src), c, i))
    && forall k :: 0 <= k < count ==> imgs[k] == Frame(idx[k], c)
  }

  /// A stream without a frame in cycle `c` adds nothing.
  lemma {:induction false} FilledSkip(src: seq<Source>, ref: Dim, c: nat, i: nat, count: nat,
                   idx: seq<nat>, sts: seq<Handle>, imgs: seq<Image>)
    requires Filled(src, ref, c, i, count, idx, sts, imgs) && i < |src| && |src[i].frames| <= c
    ensures Filled(src, ref, c, i + 1, count, idx, sts, imgs)
  {
    assert Active(Lens(src), c, i + 1) == Active(Lens(src), c, i);
  }

  /// A stream whose frame `c` has the reference size takes the next slot.
  lemma {:induction false} FilledPush(src: seq<Source>, ref: Dim, c: nat, i: nat, count: nat,
                   idx: seq<nat>, sts: seq<Handle>, imgs: seq<Image>)
    requires Filled(src, ref, c, i, count, idx, sts, imgs) && i < |src|
    requires c < |src[i].frames| && src[i].frames[c] == ref
    requires count < |idx| && count < |sts| && count < |imgs|
    ensures Filled(src, ref, c, i + 1, count + 1, idx[count := i], sts[count := H(i)], imgs[count := Frame(i, c)])
  {
    var lens := Lens(src);
    assert Active(lens, c, i + 1) == Active(lens, c, i) + [i];
    assert idx[count := i][..count + 1] == idx[..count] + [i];
    assert sts[count := H(i)][..count + 1] == sts[..count] + [H(i)];
    assert Handles(Active(lens, c, i) + [i]) == Handles(Active(lens, c, i)) + [H(i)];
  }

  /// The state of a cycle's inner loop once streams `0..i` are done.
  ghost predicate ScanAt(caps: Captures, app: Effect, srcs: seq<Source>, ref: Dim, c: nat,
                         states: seq<Handle>, batchOfStates: array<Handle>, batchIndices: array<nat>,
                         e0: seq<Event>, d0: seq<Image>, i: nat, count: nat)
    reads caps, app, batchOfStates, batchIndices
  {
    && CapsAt(caps, srcs, c, i) && states == Handles(Upto(|srcs|))
    && batchOfStates.Length == |srcs| && batchIndices.Length == |srcs|
    && app.events == e0 && app.dst == d0 && app.runs == c && |app.src| == |srcs| && |d0| == |srcs|
    && Filled(srcs, ref, c, i, count, batchIndices[..], batchOfStates[..], app.src)
  }

  /// One pass of the inner loop (lines 303-325) for capture `i`: a closed
  /// capture is skipped, an exhausted one released, otherwise the frame is
  /// checked and transferred into the next slot.
  method ScanStream(caps: Captures, app: Effect, srcs: seq<Source>, ref: Dim, c: nat, states: seq<Handle>,
                    batchOfStates: array<Handle>, batchIndices: array<nat>,
                    ghost e0: seq<Event>, ghost d0: seq<Image>, i: nat, count: nat)
    returns (mismatch: bool, count': nat)
    requires i < |srcs| && ScanAt(caps, app, srcs, ref, c, states, batchOfStates, batchIndices, e0, d0, i, count)
    modifies caps, app, batchOfStates, batchIndices
    ensures mismatch ==> FirstMismatch(srcs, ref, c, |srcs|) == Some(i)
                         && app.events == e0 && app.dst == d0 && app.runs == c
    ensures !mismatch ==> ScanAt(caps, app, srcs, ref, c, states, batchOfStates, batchIndices, e0, d0, i + 1, count')
  {
    count' := count;
    mismatch := false;
    if !caps.isOpen[i] {
      CursorSkip(srcs, c, i, caps.pos, caps.isOpen);
      FilledSkip(srcs, ref, c, i, count, batchIndices[..], batchOfStates[..], app.src);
      return;
    }
    ghost var pos, isOpen := caps.pos, caps.isOpen;
    var fr := caps.Read(i);
    if fr.None? {
      caps.Release(i);
      CursorRelease(srcs, c, i, pos, isOpen);
      FilledSkip(srcs, ref, c, i, count, batchIndices[..], batchOfStates[..], app.src);
      return;
    }
    CursorRead(srcs, c, i, pos, isOpen);
    ghost var idx, sts := batchIndices[..], batchOfStates[..];
    batchIndices[count] := i;
    batchOfStates[count] := states[i];
    if fr.value != ref {
      mismatch := true;
      FirstMismatchAt(srcs, ref, c, i, |srcs|);
      return;
    }
    FilledPush(srcs, ref, c, i, count, idx, sts, app.src);
    app.TransferToNthImage(count, Frame(i, c));
    assert batchIndices[..] == idx[count := i] && batchOfStates[..] == sts[count := H(i)];
    count' := count + 1;
  }

  /// The first stream that reads a mismatched frame decides `FirstMismatch`.
  lemma {:induction false} FirstMismatchAt(src: seq<Source>, ref: Dim, c: nat, i: nat, m: nat)
    requires i < m <= |src| && Mismatch(src, ref, c, i) && FirstMismatch(src, ref, c, i).None?
    ensures FirstMismatch(src, ref, c, m) == Some(i)
  {
    if m > i + 1 {
      FirstMismatchAt(src, ref, c, i, m - 1);
    }
  }

  /// One cycle's inner loop (lines 303-325).
  method ScanCycle(caps: Captures, app: Effect, srcs: seq<Source>, ref: Dim, c: nat, states: seq<Handle>,
                   batchOfStates: array<Handle>, batchIndices: array<nat>)
    returns (mismatch: bool, count: nat)
    requires CapsAt(caps, srcs, c, 0) && states == Handles(Upto(|srcs|)) && app.runs == c
    requires batchOfStates.Length == |srcs| && batchIndices.Length == |srcs|
    requires |app.src| == |srcs| && |app.dst| == |srcs|
    modifies caps, app, batchOfStates, batchIndices
    ensures mismatch == FirstMismatch(srcs, ref, c, |srcs|).Some?
    ensures app.events == old(app.events) && app.dst == old(app.dst) && app.runs == c
    ensures !mismatch ==> ScanAt(caps, app, srcs, ref, c, states, batchOfStates, batchIndices,
                                 old(app.events), old(app.dst), |srcs|, count)
  {
    ghost var e0, d0 := app.events, app.dst;
    count := 0;
    var i := 0;
    while i < |srcs|
      invariant ScanAt(caps, app, srcs, ref, c, states, batchOfStates, batchIndices, e0, d0, i, count)
    {
      mismatch, count := ScanStream(caps, app, srcs, ref, c, states, batchOfStates, batchIndices, e0, d0, i, count);
      if mismatch {
        return;
      }
      i := i + 1;
    }
    mismatch := false;
  }

  /// The loop of lines 336-340: writer `batchIndices[i]` gets output slot `i`.
  method WriteBatch(app: Effect, batchIndices: array<nat>, count: nat, ghost b: seq<nat>, c: nat)
    returns (ws: seq<Write>)
    requires count <= batchIndices.Length && batchIndices[..count] == b && count <= |app.dst|
    requires forall k :: 0 <= k < count ==> app.dst[k] == Matte(b[k], c)
    ensures ws == BatchWrites(b, c)
  {
    ws := [];
    var k := 0;
    while k < count
      invariant 0 <= k <= count
      invariant ws == BatchWrites(b, c)[..k]
    {
      assert batchIndices[k] == b[k];
      ws := ws + [Write(batchIndices[k], app.NthOutput(k))];
      k := k + 1;
    }
  }

  /// One pass of the `for (j)` loop from cycle `c`.
  method RunCycle(caps: Captures, app: Effect, srcs: seq<Source>, ref: Dim, c: nat, states: seq<Handle>,
                  batchOfStates: array<Handle>, batchIndices: array<nat>)
    returns (stop: bool, status: Status, ghost ev: seq<Event>, ws: seq<Write>)
    requires CapsAt(caps, srcs, c, 0) && states == Handles(Upto(|srcs|)) && app.runs == c
    requires batchOfStates.Length == |srcs| && batchIndices.Length == |srcs|
    requires |app.src| == |srcs| && |app.dst| == |srcs|
    modifies caps, app, batchOfStates, batchIndices
    ensures app.events == old(app.events) + ev
    ensures stop ==> CyclePass(srcs, ref, app.faults, c) == Halt(status, ev) && ws == []
    ensures !stop ==> && CyclePass(srcs, ref, app.faults, c) == Next(ev, ws)
                      && CapsAt(caps, srcs, c + 1, 0) && app.runs == c + 1
                      && |app.src| == |srcs| && |app.dst| == |srcs|
  {
    ghost var lens := Lens(srcs);
    ghost var b := Batch(lens, c);
    ev, ws := [], [];
    var mismatch, count := ScanCycle(caps, app, srcs, ref, c, states, batchOfStates, batchIndices);
    if mismatch {
      return true, ErrMismatch, ev, ws;
    }
    assert batchIndices[..count] == b;
    if count == 0 {
      return true, Success, ev, ws;
    }
    status := app.Run(batchOfStates[..count]);
    ev := [Event.Run(Handles(b))];
    if status != Success {
      return true, status, ev, ws;
    }
    forall k | 0 <= k < count ensures app.dst[k] == Matte(b[k], c) {
      assert b[k] == batchIndices[k];
    }
    ws := WriteBatch(app, batchIndices, count, b, c);
    stop := false;
  }

  lemma {:induction false} CyclesHalt(src: seq<Source>, ref: Dim, f: Faults, c: nat)
    requires CyclePass(src, ref, f, c).Halt?
    ensures AigsCycles(src, ref, f, c) == Outcome(CyclePass(src, ref, f, c).status, CyclePass(src, ref, f, c).events, [])
  {
  }

  lemma {:induction false} CyclesNext(src: seq<Source>, ref: Dim, f: Faults, c: nat)
    requires CyclePass(src, ref, f, c).Next?
    ensures var p := CyclePass(src, ref, f, c);
      var r := AigsCycles(src, ref, f, c + 1);
      AigsCycles(src, ref, f, c) == Outcome(r.status, p.events + r.events, p.writes + r.writes)
  {
  }

  /// The `for (j)` loop of lines 300-342, from cycle 0 until a cycle ends it.
  method CycleLoop(caps: Captures, app: Effect, srcs: seq<Source>, ref: Dim, states: seq<Handle>,
                   batchOfStates: array<Handle>, batchIndices: array<nat>)
    returns (status: Status, writes: seq<Write>)
    requires CapsAt(caps, srcs, 0, 0) && states == Handles(Upto(|srcs|)) && app.runs == 0
    requires batchOfStates.Length == |srcs| && batchIndices.Length == |srcs|
    requires |app.src| == |srcs| && |app.dst| == |srcs|
    modifies caps, app, batchOfStates, batchIndices
    ensures var r := AigsCycles(srcs, ref, app.faults, 0);
      status == r.status && app.events == old(app.events) + r.events && writes == r.writes
  {
    ghost var lens := Lens(srcs);
    ghost var whole := AigsCycles(srcs, ref, app.faults, 0);
    ghost var e0 := app.events;
    ghost var done: seq<Event> := [];
    writes := [];
    var c := 0;
    while true
      invariant CapsAt(caps, srcs, c, 0) && app.runs == c && |app.src| == |srcs| && |app.dst| == |srcs|
      invariant app.events == e0 + done
      invariant var r := AigsCycles(srcs, ref, app.faults, c);
        whole == Outcome(r.status, done + r.events, writes + r.writes)
      decreases MaxLen(lens) - c
    {
      var stop, st, ws;
      ghost var ev;
      stop, st, ev, ws := RunCycle(caps, app, srcs, ref, c, states, batchOfStates, batchIndices);
      AppendAssoc(e0, done, ev);
      if stop {
        CyclesHalt(srcs, ref, app.faults, c);
        assert writes + [] == writes;
        return st, writes;
      }
      CyclesNext(srcs, ref, app.faults, c);
      AppendAssoc(done, ev, AigsCycles(srcs, ref, app.faults, c + 1).events);
      AppendAssoc(writes, ws, AigsCycles(srcs, ref, app.faults, c + 1).writes);
      done := done + ev;
      writes := writes + ws;
      c := c + 1;
    }
  }

  /// The state objects, one per stream, in order (lines 284-288); a failed
  /// allocation stops the loop.
  method AllocateStates(app: Effect, n: nat) returns (err: Status, states: seq<Handle>)
    modifies app
    ensures app.runs == old(app.runs) && app.src == old(app.src) && app.dst == old(app.dst)
    ensures err == (if FirstAllocFailure(app.faults, n).Some? then ErrEngine else Success)
    ensures states == Handles(Upto(Allocated(app.faults, n)))
    ensures app.events == old(app.events) + Allocs(Upto(Allocated(app.faults, n)))
  {
    ghost var e0 := app.events;
    states := [];
    err := Success;
    var i := 0;
    while i < n
      invariant 0 <= i <= n && FirstAllocFailure(app.faults, i).None?
      invariant states == Handles(Upto(i)) && app.events == e0 + Allocs(Upto(i)) && err == Success
      invariant app.runs == old(app.runs) && app.src == old(app.src) && app.dst == old(app.dst)
    {
      var h;
      err, h := app.AllocateState(i);
      if err != Success {
        FirstAllocFailureAt(app.faults, i, n);
        return;
      }
      assert Upto(i + 1) == Upto(i) + [i];
      assert Allocs(Upto(i) + [i]) == Allocs(Upto(i)) + [Alloc(H(i))];
      AppendAssoc(e0, Allocs(Upto(i)), [Alloc(H(i))]);
      assert Handles(Upto(i) + [i]) == Handles(Upto(i)) + [H(i)];
      states := states + [h];
      i := i + 1;
    }
    assert FirstAllocFailure(app.faults, n).None?;
  }

  lemma {:induction false} FirstAllocFailureAt(f: Faults, i: nat, m: nat)
    requires i < m && i in f.alloc && FirstAllocFailure(f, i).None?
    ensures FirstAllocFailure(f, m) == Some(i)
  {
    if m > i + 1 {
      FirstAllocFailureAt(f, i, m - 1);
    }
  }

  /// The `bail` loop of lines 345-348: every state in `arrayOfStates` is
  /// released once, in order, and the array is cleared.
  method ReleaseStates(app: Effect, states: seq<Handle>, ghost k: nat) returns (states': seq<Handle>)
    requires states == Handles(Upto(k))
    modifies app
    ensures app.events == old(app.events) + Deallocs(Upto(k)) && states' == []
    ensures app.runs == old(app.runs) && app.src == old(app.src) && app.dst == old(app.dst)
  {
    ghost var e0 := app.events;
    var i := 0;
    while i < |states|
      invariant 0 <= i <= |states| && app.events == e0 + Deallocs(Upto(i))
      invariant app.runs == old(app.runs) && app.src == old(app.src) && app.dst == old(app.dst)
    {
      app.DeallocateState(states[i]);
      assert Upto(i + 1) == Upto(i) + [i];
      assert Deallocs(Upto(i) + [i]) == Deallocs(Upto(i)) + [Dealloc(H(i))];
      AppendAssoc(e0, Deallocs(Upto(i)), [Dealloc(H(i))]);
      i := i + 1;
    }
    states' := [];
  }

  /// Lines 290-342: the state array, then the cycles.
  method Batches(caps: Captures, app: Effect, srcs: seq<Source>, ref: Dim, states: seq<Handle>, allocErr: Status)
    returns (status: Status, writes: seq<Write>)
    requires |srcs| > 0 && |srcs[0].frames| > 0 && ref == srcs[0].frames[0]
    requires CapsAt(caps, srcs, 0, 0) && app.runs == 0 && |app.src| == |srcs| && |app.dst| == |srcs|
    requires allocErr == (if FirstAllocFailure(app.faults, |srcs|).Some? then ErrEngine else Success)
    requires allocErr == Success ==> states == Handles(Upto(|srcs|))
    modifies caps, app
    ensures var r := Cycled(srcs, app.faults);
      status == r.status && app.events == old(app.events) + r.events && writes == r.writes
  {
    writes := [];
    if allocErr != Success {
      return allocErr, writes;
    }
    if app.faults.mallocFails {
      return ErrMemory, writes;
    }
    var batchOfStates := new Handle[|srcs|](_ => Null);
    var batchIndices := new nat[|srcs|](_ => 0);
    status, writes := CycleLoop(caps, app, srcs, ref, states, batchOfStates, batchIndices);
  }

  /// Lines 284-364, once the effect is set up.
  method Serve(caps: Captures, app: Effect, srcs: seq<Source>, ref: Dim) returns (status: Status, writes: seq<Write>)
    requires |srcs| > 0 && |srcs[0].frames| > 0 && ref == srcs[0].frames[0]
    requires CapsAt(caps, srcs, 0, 0) && app.runs == 0 && |app.src| == |srcs| && |app.dst| == |srcs|
    modifies caps, app
    ensures var r := Served(srcs, app.faults);
      status == r.status && app.events == old(app.events) + r.events && writes == r.writes
  {
    ghost var e0 := app.events;
    ghost var k := Allocated(app.faults, |srcs|);
    var allocErr, states := AllocateStates(app, |srcs|);
    ghost var e1 := app.events;
    status, writes := Batches(caps, app, srcs, ref, states, allocErr);
    ghost var e2 := app.events;
    states := ReleaseStates(app, states, k);
    ghost var r := Cycled(srcs, app.faults);
    AppendAssoc(e0, Allocs(Upto(k)), r.events);
    AppendAssoc(e0, Allocs(Upto(k)) + r.events, Deallocs(Upto(k)));
  }

  /// `BatchProcess` of BatchAigsEffectApp.cpp (lines 228-364).
  method BatchProcess(srcs: seq<Source>, faults: Faults) returns (status: Status, events: seq<Event>, writes: seq<Write>)
    ensures Outcome(status, events, writes) == AigsRun(srcs, faults)
  {
    var caps, openErr := OpenStreams(srcs);
    if openErr.Some? {
      return openErr.value, [], [];
    }
    CursorStart(srcs);
    status, events, writes := Opened(caps, srcs, faults);
  }

  /// Freshly opened captures are at cycle 0.
  lemma {:induction false} CursorStart(src: seq<Source>)
    ensures Cursor(src, 0, 0, seq(|src|, _ => 0), seq(|src|, _ => true))
  {
  }

  /// Lines 266-364, once every capture and writer is open.
  method Opened(caps: Captures, srcs: seq<Source>, faults: Faults) returns (status: Status, events: seq<Event>, writes: seq<Write>)
    requires OpenFault(srcs).None? && CapsAt(caps, srcs, 0, 0)
    modifies caps
    ensures Outcome(status, events, writes) == AigsRun(srcs, faults)
  {
    var n := |srcs|;
    if n == 0 {
      return ErrMissingInput, [], [];
    }
    var first := caps.Read(0);
    caps.Rewind(0);
    if first.None? {
      return ErrRead, [], [];
    }
    assert caps.pos == old(caps.pos) && caps.isOpen == old(caps.isOpen);
    var ref := first.value;
    var app := new Effect(faults);
    status := app.Init(n);
    if status != Success {
      return status, [], [];
    }
    status, writes := Serve(caps, app, srcs, ref);
    events := app.events;
  }
}
