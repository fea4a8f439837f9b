/**
 * The module-global state of fft3d.cpp as an object: the recycle counter,
 * the OpenCL handles and the runtime's handle counter, with the runtime
 * calls recorded in a ghost event log.
 */
module Fft3dSession {
  import opened Wrappers
  import opened Fft3dHost
  import OpenclUtils
  import InputData

  type Cmplx = InputData.Cmplx

  // ---------------------------------------------------------------------------
  // The session
  // ---------------------------------------------------------------------------

  /** A handle is NULL or was handed out before `next`. */
  predicate IssuedBelow(x: Handle, next: nat)
  {
    x == Null || x.id < next
  }

  /** Every handle global was handed out before `next`. */
  predicate AllIssued(h: Handles, next: nat)
  {
    IssuedBelow(h.device, next) && IssuedBelow(h.context, next)
    && IssuedBelow(h.queue, next) && IssuedBelow(h.queue2, next) && IssuedBelow(h.queue3, next)
    && IssuedBelow(h.queue4, next) && IssuedBelow(h.queue5, next) && IssuedBelow(h.program, next)
    && IssuedBelow(h.fftKernel, next) && IssuedBelow(h.fftKernel2, next) && IssuedBelow(h.fetchKernel, next)
    && IssuedBelow(h.transposeKernel, next) && IssuedBelow(h.transposeKernel2, next)
    && IssuedBelow(h.dInData, next) && IssuedBelow(h.dOutData, next)
  }

  /** Init only renumbers handles from `base`, so everything stays issued below the new counter. */
  lemma AfterInitIssued(h: Handles, env: Env, base: nat)
    requires AllIssued(h, base)
    ensures AllIssued(AfterInit(h, env, base), base + (if InitSucceeds(env) then InitHandleCount else 0))
  {
    var r := AfterInit(h, env, base);
    if InitSucceeds(env) {
      assert InitHandles(r)[0] == Live(base) && InitHandles(r)[12] == Live(base + 12);
      assert r == Opened(h.(platform := r.platform), base);
    } else {
      assert InitHandles(r) == InitHandles(h);
      assert InitHandles(r)[0] == InitHandles(h)[0] && InitHandles(r)[12] == InitHandles(h)[12];
    }
  }

  /** The log of one call: init (when it ran and succeeded), the transfers and launches, and cleanup (on the 50th call). */
  lemma CallLog(a: seq<Event>, i: seq<Event>, h: Handles, bytes: nat, data: seq<Cmplx>, inverse: bool, c: seq<Event>)
    ensures a + i + SetupEvents(h, bytes, data, inverse) + LaunchEvents(h) + FinishEvents(h)
              + [ReadBuffer(h.queue, h.dOutData, bytes)] + c
            == a + i + CallEvents(h, bytes, data, inverse) + c
  {
    var s, l, f, r := SetupEvents(h, bytes, data, inverse), LaunchEvents(h), FinishEvents(h), [ReadBuffer(h.queue, h.dOutData, bytes)];
    ConcatAssoc(a + i, s, l);
    ConcatAssoc(a + i, s + l, f);
    ConcatAssoc(a + i, s + l + f, r);
  }

  /**
   * The bookkeeping between calls: the counters are those after `calls`
   * calls, every handle was issued below `next`, and the log has created
   * two buffers per call and released at most two per cleanup.
   */
  predicate Accounted(c: Counters, calls: nat, h: Handles, next: nat, created: nat, released: nat)
  {
    c == AfterCalls(calls) && AllIssued(h, next) && created == 2 * calls && released <= 2 * c.cleanups
  }

  /** One call keeps the bookkeeping: the counters step, two buffers are created, at most two released at cleanup. */
  lemma CallKeepsAccounted(c: Counters, calls: nat, h: Handles, next: nat, created: nat, released: nat,
                           c': Counters, h': Handles, next': nat, created': nat, released': nat)
    requires Accounted(c, calls, h, next, created, released)
    requires c' == AfterCall(c) && AllIssued(h', next')
    requires created' == created + 2
    requires released' <= released + (if c.flag == RecyclePeriod - 1 then 2 else 0)
    ensures Accounted(c', calls + 1, h', next', created', released')
  {
  }

  /**
   * Device buffers leak: after `calls` calls the log holds at least two
   * unreleased buffers for every call except one per cleanup, because each
   * call creates two and cleanup releases only the two the globals still name.
   */
  lemma BuffersLeak(c: Counters, calls: nat, h: Handles, next: nat, created: nat, released: nat)
    requires Accounted(c, calls, h, next, created, released)
    ensures c.cleanups == calls / RecyclePeriod
    ensures created - released >= 2 * (calls - calls / RecyclePeriod)
  {
    CountersClosedForm(calls);
  }

  /** One call's log creates the two buffers of the call and releases at most the two cleanup finds. */
  lemma CallCounts(a: seq<Event>, started: bool, ready: Handles, binary: string,
                    h: Handles, bytes: nat, data: seq<Cmplx>, inverse: bool, cleanup: bool)
    ensures var log := a + (if started then InitEvents(ready, binary) else []) + CallEvents(h, bytes, data, inverse) + (if cleanup then IntendedCleanupEvents(h) else []);
            MemCreated(log) == MemCreated(a) + 2
            && MemReleased(log) <= MemReleased(a) + (if cleanup then 2 else 0)
  {
    var init := if started then InitEvents(ready, binary) else [];
    var call := CallEvents(h, bytes, data, inverse);
    var cl := if cleanup then IntendedCleanupEvents(h) else [];
    InitAllocatesNone(ready, binary);
    CallAllocatesTwo(h, bytes, data, inverse);
    CleanupReleasesAtMostTwo(h);
    MemCountsAppend(a, init);
    MemCountsAppend(a + init, call);
    MemCountsAppend(a + init + call, cl);
  }

  /** The module-global state of fft3d.cpp: the recycle counter, the OpenCL handles, and the runtime's next handle number. */
  class Session {
    var flag: int
    /** platform, device, context, the five queues, the five kernels, program, d_inData and d_outData. */
    var handles: Handles
    var nextHandle: nat

    /** Every runtime call made so far. */
    ghost var log: seq<Event>
    ghost var calls: nat
    ghost var inits: nat
    ghost var cleanups: nat
    /** The binary the current program was created from. */
    ghost var loadedBinary: string

    /**
     * Between calls: the counter is below 50 and agrees with the number of
     * calls, handles are numbered below the runtime's next number, and the
     * log has created two buffers per call and released at most two per cleanup.
     */
    ghost predicate Valid()
      reads this
    {
      0 <= flag && Accounted(Counters(flag, inits, cleanups), calls, handles, nextHandle, MemCreated(log), MemReleased(log))
    }

    /** Process start: every global is NULL and the counter is 0. */
    constructor ()
      ensures Valid() && calls == 0 && log == []
      ensures handles == Handles(None, Null, Null, Null, Null, Null, Null, Null,
                                 Null, Null, Null, Null, Null, Null, Null, Null)
    {
      flag := 0;
      handles := Handles(None, Null, Null, Null, Null, Null, Null, Null,
                         Null, Null, Null, Null, Null, Null, Null, Null);
      nextHandle := 0;
      log := [];
      calls, inits, cleanups := 0, 0, 0;
      loadedBinary := "";
    }

    /**
     * init: whether the runtime was set up. The platform search is the
     * aocl_utils library's findPlatform, abstracted as the case-insensitive
     * first match.
     */
    method Init(n: int, env: Env) returns (ok: bool)
      modifies this`handles, this`nextHandle, this`log, this`loadedBinary
      ensures ok == InitSucceeds(env)
      ensures handles == AfterInit(old(handles), env, old(nextHandle))
      ensures nextHandle == old(nextHandle) + (if ok then InitHandleCount else 0)
      ensures log == old(log) + (if ok then InitEvents(handles, loadedBinary) else [])
      ensures loadedBinary == (if ok then SelectBinary(n, handles.device, env.boardFile) else old(loadedBinary))
    {
      if !env.cwdOk {
        AppendEmpty(log);
        return false;
      }
      handles := handles.(platform := OpenclUtils.FirstMatch(env.platformNames, PlatformHint));
      if handles.platform == None {
        AppendEmpty(log);
        return false;
      }
      OpenDevice(n, env.boardFile);
      return true;
    }

    /** The part of init after a platform is found: device, context, queues, program and kernels. */
    method OpenDevice(n: int, boardFile: (string, Handle) -> string)
      modifies this`handles, this`nextHandle, this`log, this`loadedBinary
      ensures handles == Opened(old(handles), old(nextHandle))
      ensures nextHandle == old(nextHandle) + InitHandleCount
      ensures log == old(log) + InitEvents(handles, loadedBinary)
      ensures loadedBinary == SelectBinary(n, handles.device, boardFile)
    {
      var next := nextHandle;
      var h := handles;
      h := h.(device := Live(next));
      // clCreateContext, then one command queue per kernel
      h := h.(context := Live(next + 1));
      h := h.(queue := Live(next + 2), queue2 := Live(next + 3), queue3 := Live(next + 4),
              queue4 := Live(next + 5), queue5 := Live(next + 6));
      ghost var q := [CreateContext(h.context, h.device),
        CreateQueue(h.queue, h.context), CreateQueue(h.queue2, h.context), CreateQueue(h.queue3, h.context),
        CreateQueue(h.queue4, h.context), CreateQueue(h.queue5, h.context)];
      // createProgramFromBinary with the selected binary, then clBuildProgram
      var binary := SelectBinary(n, h.device, boardFile);
      h := h.(program := Live(next + 7));
      ghost var p := [CreateProgram(h.program, binary), BuildProgram(h.program)];
      // clCreateKernel, by kernel name
      h := h.(fftKernel := Live(next + 8), fftKernel2 := Live(next + 9), fetchKernel := Live(next + 10));
      h := h.(transposeKernel := Live(next + 11), transposeKernel2 := Live(next + 12));
      ghost var k := [CreateKernel(h.fftKernel, h.program, "fft3da"), CreateKernel(h.fftKernel2, h.program, "fft3db"),
        CreateKernel(h.fetchKernel, h.program, "fetch"), CreateKernel(h.transposeKernel, h.program, "transpose"),
        CreateKernel(h.transposeKernel2, h.program, "transpose3d")];
      handles := h;
      nextHandle := next + InitHandleCount;
      loadedBinary := binary;
      log := log + q + p + k;
      ConcatAssoc(old(log), q, p);
      ConcatAssoc(old(log), q + p, k);
    }

    /** clCreateBuffer twice, the host-to-device copy of the input, and the kernel arguments. */
    method Allocate(bytes: nat, hIn: array<Cmplx>, count: nat, inverse: bool)
      requires count <= hIn.Length
      modifies this`handles, this`nextHandle, this`log
      ensures handles == old(handles).(dInData := Live(old(nextHandle)), dOutData := Live(old(nextHandle) + 1))
      ensures nextHandle == old(nextHandle) + 2
      ensures log == old(log) + SetupEvents(handles, bytes, hIn[..count], inverse)
    {
      var h := handles.(dInData := Live(nextHandle), dOutData := Live(nextHandle + 1));
      var inv := if inverse then 1 else 0;
      handles := h;
      nextHandle := nextHandle + 2;
      log := log + [CreateBuffer(h.dInData, h.context, bytes), CreateBuffer(h.dOutData, h.context, bytes),
                    WriteBuffer(h.queue, h.dInData, bytes, hIn[..count]),
                    SetMemArg(h.fetchKernel, h.dInData), SetIntArg(h.fftKernel, inv),
                    SetMemArg(h.transposeKernel, h.dOutData), SetIntArg(h.fftKernel2, inv)];
    }

    /** The five launches, all before the first wait, and the five waits. */
    method Execute()
      modifies this`log
      ensures log == old(log) + LaunchEvents(handles) + FinishEvents(handles)
    {
      var h := handles;
      log := log + [EnqueueTask(h.queue, h.fetchKernel), EnqueueTask(h.queue2, h.fftKernel),
                    EnqueueTask(h.queue3, h.transposeKernel), EnqueueTask(h.queue4, h.fftKernel2),
                    EnqueueTask(h.queue5, h.transposeKernel2)];
      log := log + [Finish(h.queue), Finish(h.queue2), Finish(h.queue3), Finish(h.queue4), Finish(h.queue5)];
    }

    /** clEnqueueReadBuffer: the output buffer's contents land at the start of h_outData. */
    method ReadBack(bytes: nat, hOut: array<Cmplx>, output: seq<Cmplx>)
      requires |output| <= hOut.Length
      modifies this`log, hOut
      ensures log == old(log) + [ReadBuffer(handles.queue, handles.dOutData, bytes)]
      ensures hOut[..|output|] == output && hOut[|output|..] == old(hOut[|output|..])
    {
      log := log + [ReadBuffer(handles.queue, handles.dOutData, bytes)];
      CopyOut(hOut, output);
    }

    /** The bytes the blocking read delivers into the host array. */
    static method CopyOut(hOut: array<Cmplx>, output: seq<Cmplx>)
      requires |output| <= hOut.Length
      modifies hOut
      ensures hOut[..|output|] == output && hOut[|output|..] == old(hOut[|output|..])
    {
      var i := 0;
      while i < |output|
        invariant 0 <= i <= |output|
        invariant hOut[..i] == output[..i]
        invariant hOut[|output|..] == old(hOut[|output|..])
      {
        hOut[i] := output[i];
        i := i + 1;
      }
    }

    /** One statement of cleanup, `if (guard) release;`: the t-th, extending the run of statements lo .. t-1 that follows `before`. */
    method ReleaseIfLive(guard: Handle, release: Event, ghost h: Handles, ghost lo: nat, ghost t: nat, ghost before: seq<Event>)
      requires lo <= t < CleanupSteps && guard == Tested(h, t) && release == Release(h, t, true)
      requires log == before + Guarded(h, true, lo, t)
      modifies this`log
      ensures log == before + Guarded(h, true, lo, t + 1)
    {
      if guard != Null {
        log := log + [release];
      } else {
        AppendEmpty(Guarded(h, true, lo, t));
      }
    }

    /** The first five statements of cleanup: the five kernels. */
    method ReleaseKernels(ghost h: Handles)
      requires h == handles
      modifies this`log
      ensures log == old(log) + Guarded(h, true, 0, 5)
    {
      var g := handles;
      ghost var log0 := log;
      AppendEmpty(log0);
      ReleaseIfLive(g.fftKernel, ReleaseKernel(g.fftKernel), h, 0, 0, log0);
      ReleaseIfLive(g.fftKernel2, ReleaseKernel(g.fftKernel2), h, 0, 1, log0);
      ReleaseIfLive(g.fetchKernel, ReleaseKernel(g.fetchKernel), h, 0, 2, log0);
      ReleaseIfLive(g.transposeKernel, ReleaseKernel(g.transposeKernel), h, 0, 3, log0);
      ReleaseIfLive(g.transposeKernel2, ReleaseKernel(g.transposeKernel2), h, 0, 4, log0);
    }

    /** The first seven statements of cleanup: the kernels, then the program and the context. */
    method ReleaseKernelsProgramContext(ghost h: Handles)
      requires h == handles
      modifies this`log
      ensures log == old(log) + Guarded(h, true, 0, 7)
    {
      var g := handles;
      ReleaseKernels(h);
      ghost var log0 := old(log);
      ReleaseIfLive(g.program, ReleaseProgram(g.program), h, 0, 5, log0);
      ReleaseIfLive(g.context, ReleaseContext(g.context), h, 0, 6, log0);
    }

    /** Statements 8 to 11 of cleanup: queue to queue4. */
    method ReleaseQueues(ghost h: Handles)
      requires h == handles
      modifies this`log
      ensures log == old(log) + Guarded(h, true, 7, Queue5Step)
    {
      var g := handles;
      ghost var log0 := log;
      AppendEmpty(log0);
      ReleaseIfLive(g.queue, ReleaseQueue(g.queue), h, 7, 7, log0);
      ReleaseIfLive(g.queue2, ReleaseQueue(g.queue2), h, 7, 8, log0);
      ReleaseIfLive(g.queue3, ReleaseQueue(g.queue3), h, 7, 9, log0);
      ReleaseIfLive(g.queue4, ReleaseQueue(g.queue4), h, 7, 10, log0);
    }

    /** Statements 12 to 14 of cleanup: queue5 (released as intended, see Fft3dHost.CleanupEvents for the code as written) and the device buffers. */
    method ReleaseQueue5Buffers(ghost h: Handles)
      requires h == handles
      modifies this`log
      ensures log == old(log) + Guarded(h, true, Queue5Step, CleanupSteps)
    {
      var g := handles;
      ghost var log0 := log;
      AppendEmpty(log0);
      ReleaseIfLive(g.queue5, ReleaseQueue(g.queue5), h, 11, 11, log0);
      ReleaseIfLive(g.dInData, ReleaseMem(g.dInData), h, 11, 12, log0);
      ReleaseIfLive(g.dOutData, ReleaseMem(g.dOutData), h, 11, 13, log0);
    }

    /**
     * cleanup: each handle is released when it is not NULL; the globals keep
     * their (now stale) values. The queue5 statement releases queue5, as
     * intended; the code as written releases `queue` there (Fft3dHost.CleanupEvents).
     */
    method Cleanup()
      modifies this`log
      ensures log == old(log) + IntendedCleanupEvents(handles)
    {
      var h := handles;
      ghost var a, b, c := Guarded(h, true, 0, 7), Guarded(h, true, 7, Queue5Step), Guarded(h, true, Queue5Step, CleanupSteps);
      ReleaseKernelsProgramContext(h);
      ReleaseQueues(h);
      ReleaseQueue5Buffers(h);
      GuardedJoin(h, true, 0, 7, Queue5Step);
      GuardedJoin(h, true, 0, Queue5Step, CleanupSteps);
      ConcatAssoc(old(log), a, b);
      ConcatAssoc(old(log), a + b, c);
    }

    /** The opening lines of fft3d: init when the counter is 0 (its result ignored), then the counter increment. */
    method Enter(n: int, env: Env)
      requires 0 <= flag < RecyclePeriod && AllIssued(handles, nextHandle)
      modifies this`flag, this`calls, this`inits, this`handles, this`nextHandle, this`log, this`loadedBinary
      ensures flag == old(flag) + 1 && calls == old(calls) + 1
      ensures inits == old(inits) + (if old(flag) == 0 then 1 else 0)
      ensures AllIssued(handles, nextHandle)
      ensures (var started := old(flag) == 0 && InitSucceeds(env);
              && handles == (if old(flag) == 0 then AfterInit(old(handles), env, old(nextHandle)) else old(handles))
              && nextHandle == old(nextHandle) + (if started then InitHandleCount else 0)
              && loadedBinary == (if started then SelectBinary(n, handles.device, env.boardFile) else old(loadedBinary))
              && log == old(log) + (if started then InitEvents(handles, loadedBinary) else []))
    {
      if flag == 0 {
        var initialised := Init(n, env);
        AfterInitIssued(old(handles), env, old(nextHandle));
        inits := inits + 1;
      } else {
        AppendEmpty(log);
      }
      flag := flag + 1;
      calls := calls + 1;
    }

    /** The transfers of fft3d: fresh buffers, the input copy and kernel arguments, the launches and waits, the read-back. */
    method Transfer(n: int, hIn: array<Cmplx>, hOut: array<Cmplx>, inverse: bool, output: seq<Cmplx>, ghost data: seq<Cmplx>)
      requires Elements(n) <= hIn.Length && Elements(n) <= hOut.Length && |output| == Elements(n)
      requires data == hIn[..Elements(n)]
      modifies this`handles, this`nextHandle, this`log, hOut
      ensures handles == old(handles).(dInData := Live(old(nextHandle)), dOutData := Live(old(nextHandle) + 1))
      ensures nextHandle == old(nextHandle) + 2
      ensures log == old(log) + CallEvents(handles, BufferBytes(n), data, inverse)
      ensures hOut[..Elements(n)] == output && hOut[Elements(n)..] == old(hOut[Elements(n)..])
      ensures AllIssued(old(handles), old(nextHandle)) ==> AllIssued(handles, nextHandle)
    {
      var bytes := BufferBytes(n);
      var count := bytes / CmplexBytes;
      Allocate(bytes, hIn, count, inverse);
      Execute();
      ReadBack(bytes, hOut, output);
      CallLog(old(log), [], handles, bytes, data, inverse, []);
      AppendEmpty(old(log));
      AppendEmpty(log);
    }

    /** The closing lines of fft3d: on the 50th call, cleanup and a counter reset. */
    method Leave()
      requires 0 < flag <= RecyclePeriod
      modifies this`flag, this`cleanups, this`log
      ensures flag == (if old(flag) == RecyclePeriod then 0 else old(flag))
      ensures cleanups == old(cleanups) + (if old(flag) == RecyclePeriod then 1 else 0)
      ensures log == old(log) + (if old(flag) == RecyclePeriod then IntendedCleanupEvents(handles) else [])
    {
      if flag == RecyclePeriod {
        Cleanup();
        flag := 0;
        cleanups := cleanups + 1;
      } else {
        AppendEmpty(log);
      }
    }

    /**
     * fft3d on an N x N x N cube: init when the counter is 0 (its result
     * ignored), then two fresh device buffers, the input copy, the five
     * launches and waits, and the read-back; on the 50th call cleanup and a
     * counter reset. `output` is what the device delivers.
     */
    method Fft3d(n: int, hIn: array<Cmplx>, hOut: array<Cmplx>, inverse: bool, env: Env, output: seq<Cmplx>)
      requires Valid()
      requires Elements(n) <= hIn.Length && Elements(n) <= hOut.Length && |output| == Elements(n)
      modifies this, hOut
      ensures Valid()
      ensures calls == old(calls) + 1
      ensures flag == (if old(flag) == RecyclePeriod - 1 then 0 else old(flag) + 1)
      ensures inits == old(inits) + (if old(flag) == 0 then 1 else 0)
      ensures cleanups == old(cleanups) + (if old(flag) == RecyclePeriod - 1 then 1 else 0)
      ensures (var ready := if old(flag) == 0 then AfterInit(old(handles), env, old(nextHandle)) else old(handles);
               var started := old(flag) == 0 && InitSucceeds(env);
               var base := old(nextHandle) + (if started then InitHandleCount else 0);
               && handles == ready.(dInData := Live(base), dOutData := Live(base + 1))
               && nextHandle == base + 2
               && loadedBinary == (if started then SelectBinary(n, ready.device, env.boardFile) else old(loadedBinary))
               && log == old(log) + (if started then InitEvents(ready, loadedBinary) else [])
                         + CallEvents(handles, BufferBytes(n), old(hIn[..Elements(n)]), inverse)
                         + (if old(flag) == RecyclePeriod - 1 then IntendedCleanupEvents(handles) else []))
      ensures hOut[..Elements(n)] == output && hOut[Elements(n)..] == old(hOut[Elements(n)..])
    {
      ghost var data := hIn[..Elements(n)];
      ghost var before := Counters(flag, inits, cleanups);
      Enter(n, env);
      Transfer(n, hIn, hOut, inverse, output, data);
      Leave();
      CallCounts(old(log), old(flag) == 0 && InitSucceeds(env),
                 if old(flag) == 0 then AfterInit(old(handles), env, old(nextHandle)) else old(handles), loadedBinary, handles, BufferBytes(n), data, inverse, old(flag) == RecyclePeriod - 1);
      CallKeepsAccounted(before, calls - 1, old(handles), old(nextHandle), MemCreated(old(log)), MemReleased(old(log)),
                         Counters(flag, inits, cleanups), handles, nextHandle, MemCreated(log), MemReleased(log));
    }
  }
}
