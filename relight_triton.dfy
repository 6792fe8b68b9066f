/// RelightingTritonClientApp: one relighting effect served by a Triton
/// server, with a single state object that is allocated once, used by every
/// frame, and retired at `bail` by deallocating it and running the effect
/// once more.  The calls into the SDK are logged; what each returns is
/// given by a `MovieEnv`.
module RelightTriton {
  import opened CStrings
  import opened Engine
  import opened RelightCommon

  /// The lifecycle calls `processMovie` makes, in the order made.
  datatype Call =
    | StreamCreate                // NvVFX_CudaStreamCreate
    | Connect                     // NvVFX_ConnectTritonServer
    | CreateEffect                // NvVFX_CreateEffectTriton
    | SetServer                   // NvVFX_SetTritonServer
    | AllocState(h: Handle)       // NvVFX_AllocateState
    | BatchSize(n: nat)           // NvVFX_SetU32(NVVFX_BATCH_SIZE)
    | SetStates(h: Handle)        // NvVFX_SetStateObjectHandleArray
    | RunEffect                   // NvVFX_Run
    | SyncTriton                  // NvVFX_SynchronizeTriton
    | DeallocState(h: Handle)     // NvVFX_DeallocateState
    | Destroy                     // NvVFX_DestroyEffect
    | Disconnect                  // NvVFX_DisconnectTritonServer
    | StreamDestroy               // NvVFX_CudaStreamDestroy

  /// The handle the server gives `reli_state`.
  const State: Handle := H(0)

  /// The `BAIL_IF_ERR` calls of lines 976-988, in order; the fifth is the
  /// allocation.
  const SetupCalls: seq<Call> :=
    [StreamCreate, Connect, CreateEffect, SetServer, AllocState(State), BatchSize(1), SetStates(State)]
  const AllocStep: nat := 4

  /// The two-phase retire of lines 1159-1167.
  const Retire: seq<Call> := [DeallocState(State), RunEffect, SyncTriton, SetStates(Null), Destroy]

  /// Which of `m_relightEff` and `m_stream` are set.
  datatype Owned = Owned(effect: bool, stream: bool)

  /// Neither is set: as the constructor leaves them, and as `cleanup`
  /// leaves them.
  const Fresh: Owned := Owned(false, false)

  /// Both are set, as they are once the setup has succeeded.
  const AllSet: Owned := Owned(true, true)

  /// `cleanup` (lines 753-762): destroy the effect, then the stream, each
  /// only if it is set.
  function CleanupCalls(o: Owned): seq<Call>
  {
    (if o.effect then [Destroy] else []) + (if o.stream then [StreamDestroy] else [])
  }

  /// What `bail` calls: the retire when the handle is set, which also
  /// destroys the effect and clears its pointer; then the disconnect in
  /// every case, and `cleanup` of whatever `o` still has set.
  function Teardown(held: bool, o: Owned): seq<Call>
  {
    (if held then Retire else []) + [Disconnect] + CleanupCalls(o.(effect := o.effect && !held))
  }

  /// What is set once the setup stops at call `k` (7 when none fails),
  /// from `o` before it: the stream once its creation (call 0) succeeded,
  /// the effect once its creation (call 2) did.  A failed call leaves its
  /// pointer as it was.
  function SetupOwned(k: nat, o: Owned): Owned
  {
    Owned(o.effect || k > 2, o.stream || k > 0)
  }

  /// The command-line flags `processMovie` consults.
  datatype Opts = Opts(webcam: bool, show: bool, inFile: string, outFile: string, outMat: string)

  /// What the outside world returns to `processMovie`.
  datatype MovieEnv = MovieEnv(
    setup: seq<Status>,             // the setup calls, in order; missing ones succeed
    inOpen: bool,                   // src_reader.isOpened(), after open or initCamera
    frames: nat,                    // frames the reader yields
    hdrList: Status,                // readHDRlist
    listed: seq<string>,            // the names it lists
    hdrRead: map<string, Status>,   // ReadImage of an HDR file; absent names read
    buffers: Status,                // the image allocations and readBackground
    writerOpens: bool,              // writer.open(out_file)
    matOpens: bool,                 // writer_mat.open(outMat)
    params: Status,                 // stream, mode, model directory, input image 0
    hdrImage: Status,               // SetImage(NVVFX_INPUT_IMAGE_2)
    load: Status,                   // the other images, pan, vfov, NvVFX_Load
    runFault: set<nat>,             // the loop iterations whose NvVFX_Run fails
    keys: seq<int>,                 // waitKey per iteration; its length bounds the loop
    clearStates: Status)            // SetStateObjectHandleArray(null) at bail

  function SetupStatus(env: MovieEnv, k: nat): Status
  {
    if k < |env.setup| then env.setup[k] else Success
  }

  /// The first setup call from `k` on that fails, 7 when none does.
  function FirstSetupFailure(env: MovieEnv, k: nat): (r: nat)
    requires k <= 7
    ensures k <= r <= 7
    ensures forall j :: k <= j < r ==> SetupStatus(env, j) == Success
    ensures r < 7 ==> SetupStatus(env, r) != Success
    decreases 7 - k
  {
    if k == 7 then 7 else if SetupStatus(env, k) != Success then k else FirstSetupFailure(env, k + 1)
  }

  /// The HDR files left and the last status `ReadImage` returned.
  datatype Skip = Skip(rest: seq<string>, err: Status)

  /// Lines 1015-1022: drop unreadable files from the front until one reads.
  function HdrSkip(files: seq<string>, rd: map<string, Status>, err: Status): (r: Skip)
    decreases |files|
  {
    if files == [] then Skip([], err)
    else if ReadStatus(rd, files[0]) == Success then Skip(files, Success)
    else HdrSkip(files[1..], rd, ReadStatus(rd, files[0]))
  }

  /// What is left is the list from its first readable file on; everything
  /// dropped was unreadable; the status is an error exactly when no file
  /// could be read, and then it is the last file's.
  lemma {:induction false} HdrSkipSound(files: seq<string>, rd: map<string, Status>, err: Status)
    ensures var r := HdrSkip(files, rd, err);
      && |r.rest| <= |files| && r.rest == files[|files| - |r.rest|..]
      && (forall j :: 0 <= j < |files| - |r.rest| ==> ReadStatus(rd, files[j]) != Success)
      && (r.rest != [] ==> ReadStatus(rd, r.rest[0]) == Success && r.err == Success)
      && (r.rest == [] && files != [] ==> r.err == ReadStatus(rd, files[|files| - 1]) && r.err != Success)
      && (files == [] ==> r == Skip([], err))
  {
    if files != [] && ReadStatus(rd, files[0]) != Success {
      HdrSkipSound(files[1..], rd, ReadStatus(rd, files[0]));
      var r := HdrSkip(files[1..], rd, ReadStatus(rd, files[0]));
      assert files[1..][|files| - 1 - |r.rest|..] == files[|files| - |r.rest|..];
      forall j | 0 <= j < |files| - |r.rest|
        ensures ReadStatus(rd, files[j]) != Success
      {
        if j > 0 {
          assert files[j] == files[1..][j - 1];
        }
      }
    }
  }

  /// The frame loop's locals when it ends, the calls it made, and whether
  /// it broke off in the middle of an iteration (a failed run or a quit).
  datatype LoopEnd = LoopEnd(err: Status, calls: seq<Call>, view: View, frameNum: nat, readCount: nat, broke: bool)

  /// Lines 1100-1149 from iteration `i`: a paused loop reads nothing, the
  /// counter is bumped after an iteration unless the view is then paused.
  function Frames(frames: nat, keys: seq<int>, runFault: set<nat>, show: bool,
                  i: nat, v: View, frameNum: nat, readCount: nat): (r: LoopEnd)
    requires i <= |keys|
    decreases |keys| - i
  {
    if i == |keys| || (!v.pause && readCount >= frames) then LoopEnd(Success, [], v, frameNum, readCount, false)
    else
      var read := if v.pause then readCount else readCount + 1;
      if i in runFault then LoopEnd(ErrEngine, [RunEffect], v, frameNum, read, true)
      else
        var pressed := show && keys[i] > 0;
        var w := if pressed then KeyView(v, keys[i]) else v;
        if pressed && QuitKey(keys[i]) then LoopEnd(Success, [RunEffect, SyncTriton], w, frameNum, read, true)
        else
          var rest := Frames(frames, keys, runFault, show, i + 1, w, if w.pause then frameNum else frameNum + 1, read);
          rest.(calls := [RunEffect, SyncTriton] + rest.calls)
  }

  /// The loop's result with `calls` made before it.
  function After(calls: seq<Call>, r: LoopEnd): LoopEnd
  {
    r.(calls := calls + r.calls)
  }

  lemma {:induction false} AfterAfter(a: seq<Call>, b: seq<Call>, r: LoopEnd)
    ensures After(a, After(b, r)) == After(a + b, r)
  {
    assert a + (b + r.calls) == (a + b) + r.calls;
  }

  /// One iteration that neither fails nor quits.
  lemma {:induction false} FramesNext(frames: nat, keys: seq<int>, runFault: set<nat>, show: bool,
                   i: nat, v: View, frameNum: nat, readCount: nat, w: View)
    requires i < |keys| && (v.pause || readCount < frames) && i !in runFault
    requires w == (if show && keys[i] > 0 then KeyView(v, keys[i]) else v)
    requires !(show && keys[i] > 0 && QuitKey(keys[i]))
    ensures Frames(frames, keys, runFault, show, i, v, frameNum, readCount)
         == After([RunEffect, SyncTriton], Frames(frames, keys, runFault, show, i + 1, w,
                                                  if w.pause then frameNum else frameNum + 1,
                                                  if v.pause then readCount else readCount + 1))
  {
  }

  /// `frame_num` counts the frames read and fully processed: it falls
  /// behind the reads by one exactly when the loop is left paused or broke
  /// off, and never more than the input has frames are read.
  lemma {:induction false} FramesCount(frames: nat, keys: seq<int>, runFault: set<nat>, show: bool,
                                       i: nat, v: View, frameNum: nat, readCount: nat)
    requires i <= |keys| && readCount <= frames
    requires readCount == frameNum + (if v.pause then 1 else 0)
    ensures var r := Frames(frames, keys, runFault, show, i, v, frameNum, readCount);
      r.readCount == r.frameNum + (if r.broke || r.view.pause then 1 else 0) && r.readCount <= frames
    decreases |keys| - i
  {
    if !(i == |keys| || (!v.pause && readCount >= frames)) && i !in runFault {
      var read := if v.pause then readCount else readCount + 1;
      var pressed := show && keys[i] > 0;
      var w := if pressed then KeyView(v, keys[i]) else v;
      if !(pressed && QuitKey(keys[i])) {
        FramesCount(frames, keys, runFault, show, i + 1, w, if w.pause then frameNum else frameNum + 1, read);
      }
    }
  }

  /// While no key unpauses it, a paused loop reads no frame and leaves the
  /// counter alone.
  lemma {:induction false} PausedReadsNothing(frames: nat, keys: seq<int>, runFault: set<nat>, show: bool,
                                              i: nat, v: View, frameNum: nat, readCount: nat)
    requires i <= |keys| && v.pause
    requires forall j :: i <= j < |keys| ==> keys[j] != ' ' as int && keys[j] != 'p' as int
    ensures var r := Frames(frames, keys, runFault, show, i, v, frameNum, readCount);
      r.readCount == readCount && r.frameNum == frameNum && r.view.pause
    decreases |keys| - i
  {
    if i < |keys| && i !in runFault {
      var pressed := show && keys[i] > 0;
      var w := if pressed then KeyView(v, keys[i]) else v;
      if !(pressed && QuitKey(keys[i])) {
        PausedReadsNothing(frames, keys, runFault, show, i + 1, w, frameNum, readCount);
      }
    }
  }

  /// The loop only runs and synchronizes the effect.
  lemma {:induction false} FramesCalls(frames: nat, keys: seq<int>, runFault: set<nat>, show: bool,
                                       i: nat, v: View, frameNum: nat, readCount: nat)
    requires i <= |keys|
    ensures forall c :: c in Frames(frames, keys, runFault, show, i, v, frameNum, readCount).calls ==>
              c == RunEffect || c == SyncTriton
    decreases |keys| - i
  {
    if !(i == |keys| || (!v.pause && readCount >= frames)) && i !in runFault {
      var read := if v.pause then readCount else readCount + 1;
      var pressed := show && keys[i] > 0;
      var w := if pressed then KeyView(v, keys[i]) else v;
      if !(pressed && QuitKey(keys[i])) {
        FramesCalls(frames, keys, runFault, show, i + 1, w, if w.pause then frameNum else frameNum + 1, read);
      }
    }
  }

  /// How `processMovie` ends: its result, the calls it made, the view and
  /// the HDR list it leaves behind.
  datatype MovieEnd = MovieEnd(err: AppErr, calls: seq<Call>, view: View, hdrFiles: seq<string>, owned: Owned)

  /// `goto bail` with `err` set and `o` set: the result is whatever
  /// clearing the state array returned once the handle is set, and
  /// `cleanup` leaves nothing set.
  function Bail(held: bool, o: Owned, err: Status, env: MovieEnv, calls: seq<Call>, v: View, files: seq<string>): (r: MovieEnd)
  {
    MovieEnd(FromVfx(if held then env.clearStates else err), calls + Teardown(held, o), v, files, Fresh)
  }

  /// The HDR list at line 1011: read from `--in_hdr` when empty.
  function HdrList(env: MovieEnv, files: seq<string>): seq<string>
  {
    if files == [] then env.listed else files
  }

  /// `processMovie` (lines 964-1174) on a view, an HDR list and what is
  /// set on entry.
  function Movie(opts: Opts, env: MovieEnv, v: View, files: seq<string>, o: Owned): (r: MovieEnd)
  {
    var k := FirstSetupFailure(env, 0);
    if k < 7 then Bail(k > AllocStep, SetupOwned(k, o), SetupStatus(env, k), env, SetupCalls[..k + 1], v, files)
    else Opened(opts, env, v, files)
  }

  /// Lines 994-1023: the input and the HDR images, whose failures return
  /// without going through `bail`.  `initCamera` always returns `errNone`,
  /// so the return at line 998 is never taken.
  function Opened(opts: Opts, env: MovieEnv, v: View, files: seq<string>): (r: MovieEnd)
  {
    if !env.inOpen then MovieEnd(AppRead, SetupCalls, v, files, AllSet)
    else if files == [] && env.hdrList != Success then MovieEnd(FromVfx(env.hdrList), SetupCalls, v, files, AllSet)
    else
      var s := HdrSkip(HdrList(env, files), env.hdrRead, Success);
      if s.err != Success then MovieEnd(FromVfx(s.err), SetupCalls, v, s.rest, AllSet)
      else Prepared(opts, env, v, s.rest)
  }

  /// Lines 1029-1149: buffers, writers, parameters, then the frame loop.
  function Prepared(opts: Opts, env: MovieEnv, v: View, files: seq<string>): (r: MovieEnd)
  {
    if env.buffers != Success then Bail(true, AllSet, env.buffers, env, SetupCalls, v, files)
    else if opts.outFile != [] && !env.writerOpens && !opts.show then MovieEnd(AppWrite, SetupCalls, v, files, AllSet)
    else if opts.outMat != [] && !env.matOpens && !opts.show then MovieEnd(AppWrite, SetupCalls, v, files, AllSet)
    else if env.params != Success then Bail(true, AllSet, env.params, env, SetupCalls, v, files)
    else if env.hdrImage != Success && env.hdrImage != ErrWrongSize then Bail(true, AllSet, env.hdrImage, env, SetupCalls, v, files)
    else if env.load != Success then Bail(true, AllSet, env.load, env, SetupCalls, v, files)
    else
      var l := Frames(env.frames, env.keys, env.runFault, opts.show, 0, v, 0, 0);
      Bail(true, AllSet, l.err, env, SetupCalls + l.calls, l.view, files)
  }

  /// The paths that `return` before `bail` once setup has succeeded: the
  /// input does not open, no HDR list, no readable HDR file, or a writer
  /// that does not open when there is no window.
  predicate EarlyReturn(opts: Opts, env: MovieEnv, files: seq<string>)
  {
    var hdr := HdrList(env, files);
    FirstSetupFailure(env, 0) == 7 &&
    (|| !env.inOpen
     || (files == [] && env.hdrList != Success)
     || (hdr != [] && forall j :: 0 <= j < |hdr| ==> ReadStatus(env.hdrRead, hdr[j]) != Success)
     || (env.buffers == Success && !opts.show &&
         ((opts.outFile != [] && !env.writerOpens) || (opts.outMat != [] && !env.matOpens))))
  }

  /// Whether the state was allocated: every setup call up to the
  /// allocation succeeded.
  predicate Allocated(env: MovieEnv)
  {
    FirstSetupFailure(env, 0) > AllocStep
  }

  lemma {:induction false} HdrSkipFails(env: MovieEnv, files: seq<string>)
    ensures var hdr := HdrList(env, files);
      HdrSkip(hdr, env.hdrRead, Success).err != Success <==>
        hdr != [] && forall j :: 0 <= j < |hdr| ==> ReadStatus(env.hdrRead, hdr[j]) != Success
  {
    var hdr := HdrList(env, files);
    HdrSkipSound(hdr, env.hdrRead, Success);
    var r := HdrSkip(hdr, env.hdrRead, Success);
    if hdr != [] && r.rest != [] {
      assert hdr[|hdr| - |r.rest|] == r.rest[0];
    }
  }

  /// What is still set when `bail` disconnects: what the setup left, with
  /// the effect cleared once the retire has destroyed it.
  function AtDisconnect(env: MovieEnv, o: Owned): Owned
  {
    var k := FirstSetupFailure(env, 0);
    var s := SetupOwned(k, o);
    s.(effect := s.effect && k <= AllocStep)
  }

  /// The calls end with the disconnect, followed by the destruction of
  /// exactly what `o` has set, the effect before the stream.
  predicate ShutDown(calls: seq<Call>, o: Owned)
  {
    var c := CleanupCalls(o);
    |calls| > |c| && calls[|calls| - |c| - 1..] == [Disconnect] + c
  }

  /// The early returns skip `bail`: the allocated state is never
  /// deallocated, the server never disconnected, and the effect and the
  /// stream are left set.  Every other path ends in `bail`, which
  /// disconnects and then destroys what is still set, and leaves nothing
  /// set.
  lemma {:induction false} EarlyReturnsBypassBail(opts: Opts, env: MovieEnv, v: View, files: seq<string>, o: Owned)
    ensures var r := Movie(opts, env, v, files, o);
      && (EarlyReturn(opts, env, files) ==>
            r.calls == SetupCalls && AllocState(State) in r.calls && Disconnect !in r.calls && r.owned == AllSet)
      && (!EarlyReturn(opts, env, files) ==> r.owned == Fresh && ShutDown(r.calls, AtDisconnect(env, o)))
  {
    if EarlyReturn(opts, env, files) {
      EarlyCalls(opts, env, v, files, o);
    } else {
      BailCalls(opts, env, v, files, o);
    }
  }

  /// An early return leaves the calls of the setup, nothing more, and both
  /// pointers set.
  lemma {:induction false} EarlyCalls(opts: Opts, env: MovieEnv, v: View, files: seq<string>, o: Owned)
    requires EarlyReturn(opts, env, files)
    ensures Movie(opts, env, v, files, o).calls == SetupCalls && Movie(opts, env, v, files, o).owned == AllSet
    ensures AllocState(State) in SetupCalls && Disconnect !in SetupCalls
  {
    HdrSkipFails(env, files);
    assert SetupCalls[4] == AllocState(State);
  }

  /// Every path without an early return disconnects, then destroys what is
  /// still set.
  lemma {:induction false} BailCalls(opts: Opts, env: MovieEnv, v: View, files: seq<string>, o: Owned)
    requires !EarlyReturn(opts, env, files)
    ensures var r := Movie(opts, env, v, files, o);
      r.owned == Fresh && ShutDown(r.calls, AtDisconnect(env, o))
  {
    HdrSkipFails(env, files);
    var k := FirstSetupFailure(env, 0);
    if k < 7 {
      BailEndsDisconnected(k > AllocStep, SetupOwned(k, o), SetupStatus(env, k), env, SetupCalls[..k + 1], v, files);
    } else {
      var s := HdrSkip(HdrList(env, files), env.hdrRead, Success);
      assert Movie(opts, env, v, files, o) == Prepared(opts, env, v, s.rest);
      PreparedDisconnects(opts, env, v, s.rest);
    }
  }

  /// `bail` disconnects, then destroys what the retire left set, and
  /// leaves nothing set.
  lemma {:induction false} BailEndsDisconnected(held: bool, o: Owned, err: Status, env: MovieEnv, calls: seq<Call>, v: View, files: seq<string>)
    ensures var r := Bail(held, o, err, env, calls, v, files);
      r.owned == Fresh && ShutDown(r.calls, o.(effect := o.effect && !held))
  {
    var c := CleanupCalls(o.(effect := o.effect && !held));
    var pre := calls + (if held then Retire else []);
    assert calls + Teardown(held, o) == pre + ([Disconnect] + c);
  }

  /// Past the returns for unopened writers, every path of lines 1029-1149
  /// ends in `bail`, with the effect already destroyed by the retire.
  lemma {:induction false} PreparedDisconnects(opts: Opts, env: MovieEnv, v: View, files: seq<string>)
    requires !(env.buffers == Success && !opts.show &&
               ((opts.outFile != [] && !env.writerOpens) || (opts.outMat != [] && !env.matOpens)))
    ensures var r := Prepared(opts, env, v, files);
      r.owned == Fresh && ShutDown(r.calls, Owned(false, true))
  {
    if !(env.buffers != Success || env.params != Success
         || (env.hdrImage != Success && env.hdrImage != ErrWrongSize) || env.load != Success) {
      var l := Frames(env.frames, env.keys, env.runFault, opts.show, 0, v, 0, 0);
      BailEndsDisconnected(true, AllSet, l.err, env, SetupCalls + l.calls, l.view, files);
    } else {
      BailEndsDisconnected(true, AllSet, Success, env, SetupCalls, v, files);
    }
  }

  /// The state is deallocated at most once, and only when its allocation
  /// succeeded and `bail` was reached; the deallocation is followed by
  /// exactly one run and one synchronization, then the null state array,
  /// the destruction of the effect, the disconnect and the destruction of
  /// the stream.
  lemma {:induction false} RetireOnce(opts: Opts, env: MovieEnv, v: View, files: seq<string>, o: Owned)
    ensures var r := Movie(opts, env, v, files, o);
      && (DeallocState(State) in r.calls <==> Allocated(env) && !EarlyReturn(opts, env, files))
      && (DeallocState(State) in r.calls ==> Retired(r.calls))
  {
    var r := Movie(opts, env, v, files, o);
    HdrSkipFails(env, files);
    var k := FirstSetupFailure(env, 0);
    if k < 7 {
      var pre := SetupCalls[..k + 1];
      assert DeallocState(State) !in pre by {
        assert forall c :: c in pre ==> c in SetupCalls;
      }
      TailRetire(pre, k > AllocStep, SetupOwned(k, o));
    } else if !EarlyReturn(opts, env, files) {
      var s := HdrSkip(HdrList(env, files), env.hdrRead, Success);
      assert r == Prepared(opts, env, v, s.rest);
      PreparedRetire(opts, env, v, s.rest);
    }
  }

  /// The calls end with the retire, the disconnect and the destruction of
  /// the stream, and the state is deallocated nowhere before.
  predicate Retired(calls: seq<Call>)
  {
    && |calls| >= 7 && calls[|calls| - 7..] == Retire + [Disconnect, StreamDestroy]
    && DeallocState(State) !in calls[..|calls| - 7]
  }

  lemma {:induction false} TailRetire(pre: seq<Call>, held: bool, o: Owned)
    requires DeallocState(State) !in pre
    requires held ==> o.stream
    ensures DeallocState(State) in pre + Teardown(held, o) <==> held
    ensures held ==> Retired(pre + Teardown(held, o))
  {
    var c := pre + Teardown(held, o);
    if held {
      assert c == pre + (Retire + [Disconnect, StreamDestroy]);
      assert c[|c| - 7..] == Retire + [Disconnect, StreamDestroy];
      assert c[..|c| - 7] == pre;
      assert c[|c| - 7] == DeallocState(State);
    } else {
      assert c == pre + ([Disconnect] + CleanupCalls(o));
      assert DeallocState(State) !in [Disconnect] + CleanupCalls(o);
    }
  }

  /// Every path through `Prepared` that does not return early retires the
  /// state.
  lemma {:induction false} PreparedRetire(opts: Opts, env: MovieEnv, v: View, files: seq<string>)
    requires !(env.buffers == Success && !opts.show &&
               ((opts.outFile != [] && !env.writerOpens) || (opts.outMat != [] && !env.matOpens)))
    ensures DeallocState(State) in Prepared(opts, env, v, files).calls
    ensures Retired(Prepared(opts, env, v, files).calls)
  {
    assert DeallocState(State) !in SetupCalls;
    if !(env.buffers != Success || env.params != Success
         || (env.hdrImage != Success && env.hdrImage != ErrWrongSize) || env.load != Success) {
      var l := Frames(env.frames, env.keys, env.runFault, opts.show, 0, v, 0, 0);
      FramesCalls(env.frames, env.keys, env.runFault, opts.show, 0, v, 0, 0);
      assert DeallocState(State) !in SetupCalls + l.calls;
      TailRetire(SetupCalls + l.calls, true, AllSet);
    } else {
      TailRetire(SetupCalls, true, AllSet);
    }
  }

  /// One `processMovie` followed by the `cleanup` of the destructor
  /// (line 679) destroys the effect exactly once when it was created or
  /// already set, and never otherwise; the stream likewise.  Nothing leaks
  /// and nothing is destroyed twice, on any path, early returns included.
  lemma {:induction false} MovieReleases(opts: Opts, env: MovieEnv, v: View, files: seq<string>, o: Owned)
    ensures var r := Movie(opts, env, v, files, o);
      ReleasedOnce(r.calls + CleanupCalls(r.owned), SetupOwned(FirstSetupFailure(env, 0), o))
  {
    HdrSkipFails(env, files);
    var k := FirstSetupFailure(env, 0);
    if k < 7 {
      var pre := SetupCalls[..k + 1];
      assert forall c :: c in pre ==> c in SetupCalls;
      assert Movie(opts, env, v, files, o) == Bail(k > AllocStep, SetupOwned(k, o), SetupStatus(env, k), env, pre, v, files);
      TeardownCounts(pre, k > AllocStep, SetupOwned(k, o));
    } else if EarlyReturn(opts, env, files) {
      EarlyCalls(opts, env, v, files, o);
      EarlyReleases();
    } else {
      var s := HdrSkip(HdrList(env, files), env.hdrRead, Success);
      assert Movie(opts, env, v, files, o) == Prepared(opts, env, v, s.rest);
      PreparedReleases(opts, env, v, s.rest);
    }
  }

  /// After an early return the destructor destroys the effect and the
  /// stream, once each.
  lemma {:induction false} EarlyReleases()
    ensures ReleasedOnce(SetupCalls + CleanupCalls(AllSet), AllSet)
  {
    assert CleanupCalls(AllSet) == [Destroy, StreamDestroy];
    CountAppend(SetupCalls, [Destroy, StreamDestroy], Destroy);
    CountAppend(SetupCalls, [Destroy, StreamDestroy], StreamDestroy);
    CountAbsent(SetupCalls, Destroy);
    CountAbsent(SetupCalls, StreamDestroy);
    CountAppend([Destroy], [StreamDestroy], Destroy);
    CountAppend([Destroy], [StreamDestroy], StreamDestroy);
  }

  /// Every path through `Prepared` that reaches `bail` destroys the effect
  /// and the stream, once each, and leaves nothing for the destructor.
  lemma {:induction false} PreparedReleases(opts: Opts, env: MovieEnv, v: View, files: seq<string>)
    requires !(env.buffers == Success && !opts.show &&
               ((opts.outFile != [] && !env.writerOpens) || (opts.outMat != [] && !env.matOpens)))
    ensures var r := Prepared(opts, env, v, files);
      ReleasedOnce(r.calls + CleanupCalls(r.owned), AllSet)
  {
    if !(env.buffers != Success || env.params != Success
         || (env.hdrImage != Success && env.hdrImage != ErrWrongSize) || env.load != Success) {
      var l := Frames(env.frames, env.keys, env.runFault, opts.show, 0, v, 0, 0);
      FramesCalls(env.frames, env.keys, env.runFault, opts.show, 0, v, 0, 0);
      TeardownCounts(SetupCalls + l.calls, true, AllSet);
    } else {
      TeardownCounts(SetupCalls, true, AllSet);
    }
  }

  /// The effect is destroyed once in `calls` if `o` has it set, and
  /// never otherwise; the stream likewise.
  predicate ReleasedOnce(calls: seq<Call>, o: Owned)
  {
    && Count(calls, Destroy) == (if o.effect then 1 else 0)
    && Count(calls, StreamDestroy) == (if o.stream then 1 else 0)
  }

  /// How often `c` occurs in `calls`.
  function Count(calls: seq<Call>, c: Call): nat
  {
    if calls == [] then 0
    else Count(calls[..|calls| - 1], c) + (if calls[|calls| - 1] == c then 1 else 0)
  }

  lemma {:induction false} CountAppend(a: seq<Call>, b: seq<Call>, c: Call)
    ensures Count(a + b, c) == Count(a, c) + Count(b, c)
    decreases |b|
  {
    if b == [] {
      assert a + b == a;
    } else {
      assert (a + b)[..|a + b| - 1] == a + b[..|b| - 1];
      CountAppend(a, b[..|b| - 1], c);
    }
  }

  lemma {:induction false} CountAbsent(a: seq<Call>, c: Call)
    requires c !in a
    ensures Count(a, c) == 0
    decreases |a|
  {
    if a != [] {
      assert forall x :: x in a[..|a| - 1] ==> x in a;
      CountAbsent(a[..|a| - 1], c);
    }
  }

  /// The retire destroys the effect once and not the stream.
  lemma {:induction false} RetireDestroys()
    ensures Count(Retire, Destroy) == 1 && Count(Retire, StreamDestroy) == 0
  {
    var first := [DeallocState(State), RunEffect, SyncTriton, SetStates(Null)];
    assert Retire == first + [Destroy];
    CountAppend(first, [Destroy], Destroy);
    CountAppend(first, [Destroy], StreamDestroy);
    CountAbsent(first, Destroy);
    CountAbsent(first, StreamDestroy);
  }

  /// After calls that destroy nothing, the teardown destroys the effect
  /// once if it is set, and the stream once if it is set.
  lemma {:induction false} TeardownCounts(pre: seq<Call>, held: bool, o: Owned)
    requires Destroy !in pre && StreamDestroy !in pre
    requires held ==> o.effect
    ensures ReleasedOnce(pre + Teardown(held, o) + CleanupCalls(Fresh), o)
  {
    var t := Teardown(held, o);
    assert pre + t + CleanupCalls(Fresh) == pre + t;
    CountAppend(pre, t, Destroy);
    CountAppend(pre, t, StreamDestroy);
    CountAbsent(pre, Destroy);
    CountAbsent(pre, StreamDestroy);
    TeardownDestroys(held, o);
  }

  /// The teardown alone destroys the effect once if it is set, and the
  /// stream once if it is set.
  lemma {:induction false} TeardownDestroys(held: bool, o: Owned)
    requires held ==> o.effect
    ensures Count(Teardown(held, o), Destroy) == (if o.effect then 1 else 0)
    ensures Count(Teardown(held, o), StreamDestroy) == (if o.stream then 1 else 0)
  {
    var tail := if o.stream then [StreamDestroy] else [];
    CountAppend([Disconnect], tail, Destroy);
    CountAppend([Disconnect], tail, StreamDestroy);
    if held {
      RetireDestroys();
      assert Teardown(held, o) == Retire + ([Disconnect] + tail);
      CountAppend(Retire, [Disconnect] + tail, Destroy);
      CountAppend(Retire, [Disconnect] + tail, StreamDestroy);
    } else {
      var e := if o.effect then [Destroy] else [];
      assert Teardown(held, o) == [Disconnect] + e + tail;
      CountAppend([Disconnect] + e, tail, Destroy);
      CountAppend([Disconnect] + e, tail, StreamDestroy);
      CountAppend([Disconnect], e, Destroy);
      CountAppend([Disconnect], e, StreamDestroy);
    }
  }

  /// Once the state is allocated, `bail` overwrites `err` with the result of
  /// clearing the state array: an error in a later setup call, in loading
  /// the model or in a frame is not what `processMovie` returns.
  lemma {:induction false} ErrorsMasked(opts: Opts, env: MovieEnv, v: View, files: seq<string>, o: Owned)
    requires Allocated(env) && !EarlyReturn(opts, env, files)
    ensures Movie(opts, env, v, files, o).err == FromVfx(env.clearStates)
  {
    HdrSkipFails(env, files);
  }

  /// `processMovie` reports a failed read or write, an SDK status or
  /// success, and never `errQuit` or `errFlag`: quitting ends like running
  /// out of frames.
  lemma {:induction false} MovieResults(opts: Opts, env: MovieEnv, v: View, files: seq<string>, o: Owned)
    ensures Movie(opts, env, v, files, o).err != AppQuit && Movie(opts, env, v, files, o).err != AppFlag
  {
  }

  /// Before the allocation, `bail` returns the failing call's status,
  /// which is never success; it disconnects and then destroys whatever the
  /// setup got to create: the effect once call 2 succeeded, the stream
  /// once call 0 did.
  lemma {:induction false} SetupFailureReported(opts: Opts, env: MovieEnv, v: View, files: seq<string>, o: Owned)
    requires !Allocated(env)
    ensures var r := Movie(opts, env, v, files, o);
      && r.err == AppSdk(SetupStatus(env, FirstSetupFailure(env, 0)))
      && r.owned == Fresh && ShutDown(r.calls, SetupOwned(FirstSetupFailure(env, 0), o))
  {
    var k := FirstSetupFailure(env, 0);
    BailEndsDisconnected(false, SetupOwned(k, o), SetupStatus(env, k), env, SetupCalls[..k + 1], v, files);
  }

  /// The application object's state that `processMovie` and `processKey`
  /// touch; the floating-point pan, field of view and frame rate are left
  /// out.
  class RelightApp {
    var showMode: u32
    var pauseFrame: bool
    var autorotate: bool
    var showFPS: bool
    var hdrFiles: seq<string>
    var effect: bool   // m_relightEff is set
    var stream: bool   // m_stream is set

    function View(): View
      reads this
    {
      RelightCommon.View(showMode, pauseFrame, autorotate, showFPS)
    }

    function Owns(): Owned
      reads this
    {
      Owned(effect, stream)
    }

    constructor ()
      ensures View() == InitialView && hdrFiles == [] && Owns() == Fresh
    {
      showMode := ShowOutput;
      pauseFrame, autorotate, showFPS := false, false, false;
      hdrFiles := [];
      effect, stream := false, false;
    }

    method SetShowMode(m: u32)
      modifies this
      ensures View() == old(View()).(showMode := m) && hdrFiles == old(hdrFiles) && Owns() == old(Owns())
    {
      showMode := m;
    }

    method SetAutorotate(yes: bool)
      modifies this
      ensures View() == old(View()).(autorotate := yes) && hdrFiles == old(hdrFiles) && Owns() == old(Owns())
    {
      autorotate := yes;
    }

    /// `cleanup` (lines 753-762), also what the destructor (line 679) does.
    method Cleanup() returns (calls: seq<Call>)
      modifies this
      ensures calls == CleanupCalls(old(Owns())) && Owns() == Fresh
      ensures View() == old(View()) && hdrFiles == old(hdrFiles)
    {
      calls := [];
      if effect {
        calls := calls + [Destroy];
        effect := false;
      }
      if stream {
        calls := calls + [StreamDestroy];
        stream := false;
      }
    }

    /// `processKey` (lines 855-962) without the floating-point keys, which
    /// only change pan and field of view, and without `m`, `b`, `z` and `n`,
    /// which this build compiles out.
    method ProcessKey(key: int) returns (err: AppErr)
      modifies this
      ensures View() == KeyView(old(View()), key) && hdrFiles == old(hdrFiles) && Owns() == old(Owns())
      ensures err == if QuitKey(key) then AppQuit else AppNone
    {
      if key == 'q' as int || key == Esc {
        return AppQuit;
      }
      if key == 'r' as int {
        autorotate := !autorotate;
      } else if key == ' ' as int || key == 'p' as int {
        pauseFrame := !pauseFrame;
      } else if key == 'i' as int {
        showMode := ToggleInput(showMode);
      } else if key == 'o' as int {
        showMode := ShowOutput;
      } else if key == 'f' as int {
        showFPS := !showFPS;
      }
      err := AppNone;
    }

    /// Lines 1015-1022: erase unreadable HDR files from the front.
    method SkipUnreadable(rd: map<string, Status>, err0: Status) returns (err: Status)
      modifies this
      ensures Skip(hdrFiles, err) == HdrSkip(old(hdrFiles), rd, err0) && View() == old(View()) && Owns() == old(Owns())
    {
      err := err0;
      while hdrFiles != [] && ReadStatus(rd, hdrFiles[0]) != Success
        invariant HdrSkip(hdrFiles, rd, err) == HdrSkip(old(hdrFiles), rd, err0) && View() == old(View())
        invariant Owns() == old(Owns())
        decreases |hdrFiles|
      {
        err := ReadStatus(rd, hdrFiles[0]);
        hdrFiles := hdrFiles[1..];
      }
      if hdrFiles != [] {
        err := Success;
      }
    }

    /// The frame loop of lines 1100-1149; `keys` gives what `waitKey`
    /// returns in each iteration and bounds how many there are.
    method RunFrames(frames: nat, keys: seq<int>, runFault: set<nat>, show: bool) returns (l: LoopEnd)
      modifies this
      ensures l == Frames(frames, keys, runFault, show, 0, old(View()), 0, 0)
      ensures View() == l.view && hdrFiles == old(hdrFiles) && Owns() == old(Owns())
    {
      var frameNum, readCount, i := 0, 0, 0;
      var calls: seq<Call> := [];
      ghost var goal := Frames(frames, keys, runFault, show, 0, View(), 0, 0);
      while i < |keys|
        invariant i <= |keys| && hdrFiles == old(hdrFiles) && Owns() == old(Owns())
        invariant goal == After(calls, Frames(frames, keys, runFault, show, i, View(), frameNum, readCount))
        decreases |keys| - i
      {
        ghost var v, n, c, was := View(), frameNum, readCount, calls;
        if !pauseFrame {
          if readCount >= frames {
            break;
          }
          readCount := readCount + 1;
        }
        calls := calls + [RunEffect];
        if i in runFault {
          assert goal == After(was, LoopEnd(ErrEngine, [RunEffect], v, n, readCount, true));
          return LoopEnd(ErrEngine, calls, View(), frameNum, readCount, true);
        }
        calls := calls + [SyncTriton];
        if show && keys[i] > 0 {
          var e := ProcessKey(keys[i]);
          if e == AppQuit {
            assert goal == After(was, LoopEnd(Success, [RunEffect, SyncTriton], View(), n, readCount, true));
            return LoopEnd(Success, calls, View(), frameNum, readCount, true);
          }
        }
        if !pauseFrame {
          frameNum := frameNum + 1;
        }
        assert calls == was + [RunEffect, SyncTriton];
        FramesNext(frames, keys, runFault, show, i, v, n, c, View());
        AfterAfter(was, [RunEffect, SyncTriton], Frames(frames, keys, runFault, show, i + 1, View(), frameNum, readCount));
        i := i + 1;
      }
      l := LoopEnd(Success, calls, View(), frameNum, readCount, false);
    }

    /// The `BAIL_IF_ERR` calls of lines 976-988; `state` is `reli_state`.
    method Setup(env: MovieEnv) returns (st: Status, state: Handle, calls: seq<Call>)
      modifies this
      ensures var k := FirstSetupFailure(env, 0);
        && (k < 7 ==> st == SetupStatus(env, k) && calls == SetupCalls[..k + 1])
        && (k == 7 ==> st == Success && calls == SetupCalls)
        && state == (if k > AllocStep then State else Null)
        && Owns() == SetupOwned(k, old(Owns()))
      ensures View() == old(View()) && hdrFiles == old(hdrFiles)
    {
      state := Null;
      calls := [StreamCreate];
      st := SetupStatus(env, 0);
      if st != Success { return; }
      stream := true;
      calls := calls + [Connect];
      st := SetupStatus(env, 1);
      if st != Success { return; }
      calls := calls + [CreateEffect];
      st := SetupStatus(env, 2);
      if st != Success { return; }
      effect := true;
      calls := calls + [SetServer];
      st := SetupStatus(env, 3);
      if st != Success { return; }
      calls := calls + [AllocState(State)];
      st := SetupStatus(env, 4);
      if st != Success { return; }
      state := State;
      calls := calls + [BatchSize(1)];
      st := SetupStatus(env, 5);
      if st != Success { return; }
      calls := calls + [SetStates(state)];
      st := SetupStatus(env, 6);
    }

    /// The code after `bail:` (lines 1151-1174).
    method Finish(state: Handle, st: Status, env: MovieEnv, calls0: seq<Call>) returns (err: AppErr, calls: seq<Call>)
      requires state == Null || state == State
      modifies this
      ensures (err, calls) == (FromVfx(if state != Null then env.clearStates else st), calls0 + Teardown(state != Null, old(Owns())))
      ensures Owns() == Fresh && View() == old(View()) && hdrFiles == old(hdrFiles)
    {
      calls := calls0;
      var e := st;
      if state != Null {
        calls := calls + [DeallocState(state), RunEffect, SyncTriton, SetStates(Null), Destroy];
        effect := false;
        e := env.clearStates;
      }
      calls := calls + [Disconnect];
      var last := Cleanup();
      calls := calls + last;
      assert calls == calls0 + Teardown(state != Null, old(Owns()));
      err := FromVfx(e);
    }

    /// `processMovie` (lines 964-1174).
    method ProcessMovie(opts: Opts, env: MovieEnv) returns (err: AppErr, calls: seq<Call>)
      modifies this
      ensures MovieEnd(err, calls, View(), hdrFiles, Owns()) == Movie(opts, env, old(View()), old(hdrFiles), old(Owns()))
    {
      var st, state;
      st, state, calls := Setup(env);
      if st != Success {
        err, calls := Finish(state, st, env, calls);
        return;
      }
      if !env.inOpen {
        return AppRead, calls;
      }
      if hdrFiles == [] {
        if env.hdrList != Success {
          return FromVfx(env.hdrList), calls;
        }
        hdrFiles := env.listed;
      }
      st := SkipUnreadable(env.hdrRead, Success);
      if st != Success {
        return FromVfx(st), calls;
      }
      if env.buffers != Success {
        err, calls := Finish(state, env.buffers, env, calls);
        return;
      }
      if opts.outFile != [] && !env.writerOpens && !opts.show {
        return AppWrite, calls;
      }
      if opts.outMat != [] && !env.matOpens && !opts.show {
        return AppWrite, calls;
      }
      if env.params != Success {
        err, calls := Finish(state, env.params, env, calls);
        return;
      }
      if env.hdrImage != Success && env.hdrImage != ErrWrongSize {
        err, calls := Finish(state, env.hdrImage, env, calls);
        return;
      }
      if env.load != Success {
        err, calls := Finish(state, env.load, env, calls);
        return;
      }
      var l := RunFrames(env.frames, env.keys, env.runFault, opts.show);
      err, calls := Finish(state, l.err, env, calls + l.calls);
    }
  }
}
