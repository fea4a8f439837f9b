/**
 * The host side of the 3D FFT: a session that initialises the OpenCL
 * runtime on the first call, runs one transform per call on five command
 * queues, and tears everything down every fiftieth call.
 *
 * The OpenCL runtime itself is foreign code; here every runtime call is an
 * entry appended to a ghost event log, and handles are numbered in the
 * order the runtime hands them out.
 */
module Fft3dHost {
  import opened Wrappers
  import OpenclUtils
  import InputData

  type Cmplx = InputData.Cmplx

  /** Calls per session: the 50th call cleans up and the next one initialises again. */
  const RecyclePeriod: nat := 50
  /** sizeof(cmplex): a double2. */
  const CmplexBytes: nat := 16
  /** size_t arithmetic wraps at 2^64. */
  const SizeT: nat := 0x1_0000_0000_0000_0000
  /** The platform name init searches for. */
  const PlatformHint: string := "Intel(R) FPGA"
  /** Handles init obtains from the runtime: device, context, five queues, program, five kernels. */
  const InitHandleCount: nat := 13

  /** An OpenCL object handle; `Null` is the C NULL the globals start with. */
  datatype Handle = Null | Live(id: nat)

  /** What the host environment supplies to init. */
  datatype Env = Env(
    cwdOk: bool,                              // setCwdToExeDir succeeded
    platformNames: seq<string>,               // CL_PLATFORM_NAME of each platform, in runtime order (clGetPlatformInfo)
    boardFile: (string, Handle) -> string)    // getBoardBinaryFile(prefix, device)

  /** One call into the OpenCL runtime. */
  datatype Event =
    | CreateContext(context: Handle, device: Handle)
    | CreateQueue(queue: Handle, context: Handle)
    | CreateProgram(program: Handle, binary: string)
    | BuildProgram(program: Handle)
    | CreateKernel(kernel: Handle, program: Handle, name: string)
    | CreateBuffer(buffer: Handle, context: Handle, bytes: nat)
    | WriteBuffer(queue: Handle, buffer: Handle, bytes: nat, data: seq<Cmplx>)
    | SetMemArg(kernel: Handle, buffer: Handle)
    | SetIntArg(kernel: Handle, value: int)
    | EnqueueTask(queue: Handle, kernel: Handle)
    | Finish(queue: Handle)
    | ReadBuffer(queue: Handle, buffer: Handle, bytes: nat)
    | ReleaseKernel(kernel: Handle)
    | ReleaseProgram(program: Handle)
    | ReleaseContext(context: Handle)
    | ReleaseQueue(queue: Handle)
    | ReleaseMem(buffer: Handle)

  /** The module-global handles at one moment. */
  datatype Handles = Handles(
    platform: Option<nat>, device: Handle, context: Handle,
    queue: Handle, queue2: Handle, queue3: Handle, queue4: Handle, queue5: Handle,
    fftKernel: Handle, fftKernel2: Handle, fetchKernel: Handle,
    transposeKernel: Handle, transposeKernel2: Handle,
    program: Handle, dInData: Handle, dOutData: Handle)

  // ---------------------------------------------------------------------------
  // select_binary and buffer sizes
  // ---------------------------------------------------------------------------

  /** select_binary: the three supported sizes load the board file for "emulation/fft3d"; any other size gets "". */
  function SelectBinary(n: int, device: Handle, boardFile: (string, Handle) -> string): (b: string)
    ensures n in {16, 32, 64} ==> b == boardFile("emulation/fft3d", device)
    ensures n !in {16, 32, 64} ==> b == ""
  {
    match n
    case 16 => boardFile("emulation/fft3d", device)
    case 32 => boardFile("emulation/fft3d", device)
    case 64 => boardFile("emulation/fft3d", device)
    case _ => ""
  }

  /** Every supported size selects the same bitstream: the size does not pick a binary. */
  lemma SupportedSizesShareBinary(n1: int, n2: int, device: Handle, boardFile: (string, Handle) -> string)
    requires n1 in {16, 32, 64} && n2 in {16, 32, 64}
    ensures SelectBinary(n1, device, boardFile) == SelectBinary(n2, device, boardFile)
  {
  }


  /** A multiple of 16 stays a multiple of 16 after wrapping at 2^64. */
  lemma ScaledWrap(m: int)
    ensures (CmplexBytes * m) % SizeT == CmplexBytes * (m % (SizeT / CmplexBytes))
  {
    var k := SizeT / CmplexBytes;
    var q := m / k;
    var r := m % k;
    assert m == k * q + r && 0 <= r < k;
    assert CmplexBytes * m == SizeT * q + CmplexBytes * r;
  }

  /** sizeof(cmplex) * N * N * N, evaluated in size_t. */
  function BufferBytes(n: int): (b: nat)
    ensures b < SizeT && b % CmplexBytes == 0
  {
    ScaledWrap(n * n * n);
    (CmplexBytes * (n * n * n)) % SizeT
  }

  /** The number of complex values a transfer of BufferBytes(n) bytes moves. */
  function Elements(n: int): nat
  {
    BufferBytes(n) / CmplexBytes
  }

  /** Without wrap-around, a buffer holds exactly the N^3 complex values of the cube. */
  lemma BufferHoldsCube(n: int)
    requires CmplexBytes * (n * n * n) < SizeT && 0 <= n
    ensures BufferBytes(n) == CmplexBytes * (n * n * n)
    ensures Elements(n) == n * n * n
  {
    assert 0 <= n * n * n by {
      assert 0 <= n * n;
    }
  }

  // ---------------------------------------------------------------------------
  // init
  // ---------------------------------------------------------------------------

  /**
   * init reaches `return true` exactly when the directory change works and a
   * platform matches. The search is the aocl_utils library's findPlatform,
   * abstracted as the case-insensitive first match.
   */
  predicate InitSucceeds(env: Env)
  {
    env.cwdOk && OpenclUtils.FirstMatch(env.platformNames, PlatformHint).Some?
  }

  /** The handles init obtains, in the order it obtains them. */
  function InitHandles(h: Handles): seq<Handle>
  {
    [h.device, h.context, h.queue, h.queue2, h.queue3, h.queue4, h.queue5, h.program,
     h.fftKernel, h.fftKernel2, h.fetchKernel, h.transposeKernel, h.transposeKernel2]
  }

  predicate AllLive(hs: seq<Handle>)
  {
    forall t :: 0 <= t < |hs| ==> hs[t] != Null
  }

  predicate Distinct(hs: seq<Handle>)
  {
    forall a, b :: 0 <= a < b < |hs| ==> hs[a] != hs[b]
  }

  /** Every live handle of the list was handed out before `next`. */
  predicate Issued(hs: seq<Handle>, next: nat)
  {
    forall t :: 0 <= t < |hs| ==> hs[t] == Null || hs[t].id < next
  }

  /** Handles numbered `base`, `base + 1`, ... in list order. */
  predicate FreshFrom(hs: seq<Handle>, base: nat)
  {
    forall t :: 0 <= t < |hs| ==> hs[t] == Live(base + t)
  }

  /** Freshly numbered handles are live, pairwise distinct, and all issued before base + |hs|. */
  lemma FreshIsDistinct(hs: seq<Handle>, base: nat)
    requires FreshFrom(hs, base)
    ensures AllLive(hs) && Distinct(hs) && Issued(hs, base + |hs|)
  {
  }

  /** The globals once init has obtained every handle, numbering them from `base`. */
  function Opened(h: Handles, base: nat): (r: Handles)
    ensures FreshFrom(InitHandles(r), base)
    ensures r.platform == h.platform && r.dInData == h.dInData && r.dOutData == h.dOutData
  {
    h.(device := Live(base), context := Live(base + 1),
       queue := Live(base + 2), queue2 := Live(base + 3), queue3 := Live(base + 4),
       queue4 := Live(base + 5), queue5 := Live(base + 6), program := Live(base + 7),
       fftKernel := Live(base + 8), fftKernel2 := Live(base + 9), fetchKernel := Live(base + 10),
       transposeKernel := Live(base + 11), transposeKernel2 := Live(base + 12))
  }

  /** The globals after init, given the globals before and the first unused handle number. */
  function AfterInit(h: Handles, env: Env, base: nat): (r: Handles)
    ensures r.dInData == h.dInData && r.dOutData == h.dOutData
    ensures !InitSucceeds(env) ==> InitHandles(r) == InitHandles(h)
    ensures InitSucceeds(env) ==> FreshFrom(InitHandles(r), base)
    ensures env.cwdOk ==> r.platform == OpenclUtils.FirstMatch(env.platformNames, PlatformHint)
    ensures !env.cwdOk ==> r == h
  {
    if !env.cwdOk then h
    else
      var found := OpenclUtils.FirstMatch(env.platformNames, PlatformHint);
      if found.None? then h.(platform := None) else Opened(h.(platform := found), base)
  }

  /** clCreateContext and the five clCreateCommandQueue calls. */
  function QueueEvents(h: Handles): seq<Event>
  {
    [CreateContext(h.context, h.device),
     CreateQueue(h.queue, h.context), CreateQueue(h.queue2, h.context), CreateQueue(h.queue3, h.context),
     CreateQueue(h.queue4, h.context), CreateQueue(h.queue5, h.context)]
  }

  /** createProgramFromBinary (aocl_utils) and clBuildProgram. */
  function ProgramEvents(h: Handles, binary: string): seq<Event>
  {
    [CreateProgram(h.program, binary), BuildProgram(h.program)]
  }

  /** The five clCreateKernel calls. */
  function KernelEvents(h: Handles): seq<Event>
  {
    [CreateKernel(h.fftKernel, h.program, "fft3da"), CreateKernel(h.fftKernel2, h.program, "fft3db"),
     CreateKernel(h.fetchKernel, h.program, "fetch"), CreateKernel(h.transposeKernel, h.program, "transpose"),
     CreateKernel(h.transposeKernel2, h.program, "transpose3d")]
  }

  /** The runtime calls a successful init makes, given the handles it ends with. */
  function InitEvents(h: Handles, binary: string): (r: seq<Event>)
    ensures |r| == 13
    ensures forall e :: e in r ==> Creates(e)
    ensures CreateProgram(h.program, binary) in r && BuildProgram(h.program) in r
  {
    QueueEvents(h) + ProgramEvents(h, binary) + KernelEvents(h)
  }

  /** The log creates kernel `k`, and every creation of `k` in it uses the name `name`. */
  predicate NamedKernel(log: seq<Event>, k: Handle, name: string)
  {
    (exists t :: 0 <= t < |log| && log[t].CreateKernel? && log[t].kernel == k && log[t].name == name)
    && forall t :: 0 <= t < |log| && log[t].CreateKernel? && log[t].kernel == k ==> log[t].name == name
  }

  /** Only the kernel part of init creates kernels. */
  lemma InitKernelsAtTheEnd(h: Handles, binary: string)
    ensures forall t :: 0 <= t < 8 ==> !InitEvents(h, binary)[t].CreateKernel?
    ensures InitEvents(h, binary)[8..] == KernelEvents(h)
  {
    var a := QueueEvents(h) + ProgramEvents(h, binary);
    assert InitEvents(h, binary) == a + KernelEvents(h);
    assert |a| == 8;
    forall t | 0 <= t < 8 ensures !InitEvents(h, binary)[t].CreateKernel? {
      assert InitEvents(h, binary)[t] == a[t];
    }
  }

  /** With distinct handles, each kernel init creates carries the name the host asks for. */
  lemma InitNamesKernels(h: Handles, binary: string)
    requires Distinct(InitHandles(h))
    ensures NamedKernel(InitEvents(h, binary), h.fftKernel, "fft3da")
    ensures NamedKernel(InitEvents(h, binary), h.fftKernel2, "fft3db")
    ensures NamedKernel(InitEvents(h, binary), h.fetchKernel, "fetch")
    ensures NamedKernel(InitEvents(h, binary), h.transposeKernel, "transpose")
    ensures NamedKernel(InitEvents(h, binary), h.transposeKernel2, "transpose3d")
  {
    var e := InitEvents(h, binary);
    var hs := InitHandles(h);
    var ks := [h.fftKernel, h.fftKernel2, h.fetchKernel, h.transposeKernel, h.transposeKernel2];
    var names := ["fft3da", "fft3db", "fetch", "transpose", "transpose3d"];
    InitKernelsAtTheEnd(h, binary);
    assert ks == hs[8..];
    forall j | 0 <= j < 5
      ensures NamedKernel(e, ks[j], names[j])
    {
      assert e[8 + j] == KernelEvents(h)[j] == CreateKernel(ks[j], h.program, names[j]);
      forall t | 0 <= t < |e| && e[t].CreateKernel? && e[t].kernel == ks[j]
        ensures e[t].name == names[j]
      {
        assert 8 <= t;
        assert e[t] == KernelEvents(h)[t - 8] == CreateKernel(ks[t - 8], h.program, names[t - 8]);
        assert hs[t] == ks[t - 8] && hs[8 + j] == ks[j];
      }
    }
    assert ks[0] == h.fftKernel && names[0] == "fft3da";
    assert ks[1] == h.fftKernel2 && names[1] == "fft3db";
    assert ks[2] == h.fetchKernel && names[2] == "fetch";
    assert ks[3] == h.transposeKernel && names[3] == "transpose";
    assert ks[4] == h.transposeKernel2 && names[4] == "transpose3d";
  }

  // ---------------------------------------------------------------------------
  // One fft3d call
  // ---------------------------------------------------------------------------

  /** A call that creates a runtime object or builds the program. */
  predicate Creates(e: Event)
  {
    e.CreateContext? || e.CreateQueue? || e.CreateProgram? || e.BuildProgram?
      || e.CreateKernel? || e.CreateBuffer?
  }

  /** The order of a call's steps: set up, launch, wait, read back. */
  function Phase(e: Event): nat
  {
    match e
    case EnqueueTask(_, _) => 1
    case Finish(_) => 2
    case ReadBuffer(_, _, _) => 3
    case _ => 0
  }

  /** Device buffers, the input copy, and the kernel arguments. */
  function SetupEvents(h: Handles, bytes: nat, data: seq<Cmplx>, inverse: bool): seq<Event>
  {
    var inv := if inverse then 1 else 0;
    [CreateBuffer(h.dInData, h.context, bytes), CreateBuffer(h.dOutData, h.context, bytes),
     WriteBuffer(h.queue, h.dInData, bytes, data),
     SetMemArg(h.fetchKernel, h.dInData), SetIntArg(h.fftKernel, inv),
     SetMemArg(h.transposeKernel, h.dOutData), SetIntArg(h.fftKernel2, inv)]
  }

  /** The five clEnqueueTask calls. */
  function LaunchEvents(h: Handles): seq<Event>
  {
    [EnqueueTask(h.queue, h.fetchKernel), EnqueueTask(h.queue2, h.fftKernel),
     EnqueueTask(h.queue3, h.transposeKernel), EnqueueTask(h.queue4, h.fftKernel2),
     EnqueueTask(h.queue5, h.transposeKernel2)]
  }

  /** The five clFinish calls. */
  function FinishEvents(h: Handles): seq<Event>
  {
    [Finish(h.queue), Finish(h.queue2), Finish(h.queue3), Finish(h.queue4), Finish(h.queue5)]
  }

  /** The runtime calls of one fft3d call, after any init and before any cleanup. */
  function CallEvents(h: Handles, bytes: nat, data: seq<Cmplx>, inverse: bool): (r: seq<Event>)
    ensures |r| == 18
    ensures forall e :: e in r ==> !IsRelease(e)
    ensures r[|r| - 1] == ReadBuffer(h.queue, h.dOutData, bytes)
  {
    SetupEvents(h, bytes, data, inverse) + LaunchEvents(h) + FinishEvents(h)
      + [ReadBuffer(h.queue, h.dOutData, bytes)]
  }

  /** The five queue/kernel pairs of the pipeline, by kernel name: fetch, fft3da, transpose, fft3db, transpose3d. */
  function Pipeline(h: Handles): seq<(Handle, Handle)>
  {
    [(h.queue, h.fetchKernel), (h.queue2, h.fftKernel), (h.queue3, h.transposeKernel),
     (h.queue4, h.fftKernel2), (h.queue5, h.transposeKernel2)]
  }

  /** The tasks a log launches, as queue/kernel pairs, in order. */
  function Launches(log: seq<Event>): (r: seq<(Handle, Handle)>)
    ensures |r| <= |log|
  {
    if log == [] then []
    else
      var rest := Launches(log[1..]);
      match log[0]
      case EnqueueTask(q, k) => [(q, k)] + rest
      case _ => rest
  }

  lemma {:induction false} LaunchesAppend(a: seq<Event>, b: seq<Event>)
    ensures Launches(a + b) == Launches(a) + Launches(b)
  {
    if a != [] {
      assert (a + b)[1..] == a[1..] + b;
      LaunchesAppend(a[1..], b);
    } else {
      assert a + b == b;
    }
  }

  /** A log of launches only lists them all. */
  lemma {:induction false} OnlyLaunches(log: seq<Event>)
    requires forall t :: 0 <= t < |log| ==> log[t].EnqueueTask?
    ensures Launches(log) == seq(|log|, t requires 0 <= t < |log| => (log[t].queue, log[t].kernel))
  {
    if log != [] {
      OnlyLaunches(log[1..]);
      assert log[0].EnqueueTask?;
    }
  }

  /** A log without launches lists none. */
  lemma {:induction false} NoLaunches(log: seq<Event>)
    requires forall t :: 0 <= t < |log| ==> !log[t].EnqueueTask?
    ensures Launches(log) == []
  {
    if log != [] {
      assert !log[0].EnqueueTask?;
      NoLaunches(log[1..]);
    }
  }

  predicate PhasesInOrder(log: seq<Event>)
  {
    forall a, b :: 0 <= a < b < |log| ==> Phase(log[a]) <= Phase(log[b])
  }

  predicate AllInPhase(log: seq<Event>, p: nat)
  {
    forall t :: 0 <= t < |log| ==> Phase(log[t]) == p
  }

  predicate PhasesAtMost(log: seq<Event>, p: nat)
  {
    forall t :: 0 <= t < |log| ==> Phase(log[t]) <= p
  }

  /** An ordered log followed by a block of one later phase is still ordered. */
  lemma PhasesJoin(a: seq<Event>, p: nat, b: seq<Event>)
    requires PhasesInOrder(a) && PhasesAtMost(a, p) && AllInPhase(b, p)
    ensures PhasesInOrder(a + b) && PhasesAtMost(a + b, p)
  {
    forall x, y | 0 <= x < y < |a + b|
      ensures Phase((a + b)[x]) <= Phase((a + b)[y])
    {
      if y < |a| {
        assert (a + b)[x] == a[x] && (a + b)[y] == a[y];
      } else if x < |a| {
        assert (a + b)[x] == a[x] && (a + b)[y] == b[y - |a|];
      } else {
        assert (a + b)[x] == b[x - |a|] && (a + b)[y] == b[y - |a|];
      }
    }
  }

  /** Within one call, all five tasks are launched before any queue is finished, and all queues are finished before the read-back. */
  lemma CallPhasesInOrder(h: Handles, bytes: nat, data: seq<Cmplx>, inverse: bool)
    ensures PhasesInOrder(CallEvents(h, bytes, data, inverse))
  {
    var s := SetupEvents(h, bytes, data, inverse);
    var l := LaunchEvents(h);
    var f := FinishEvents(h);
    var r := [ReadBuffer(h.queue, h.dOutData, bytes)];
    assert AllInPhase(s, 0);
    PhasesJoin(s, 1, l);
    PhasesJoin(s + l, 2, f);
    PhasesJoin(s + l + f, 3, r);
  }

  /** The tasks go out in pipeline order: fetch on queue, fft3da on queue2, transpose on queue3, fft3db on queue4, transpose3d on queue5. */
  lemma CallLaunchOrder(h: Handles, bytes: nat, data: seq<Cmplx>, inverse: bool)
    ensures Launches(CallEvents(h, bytes, data, inverse)) == Pipeline(h)
  {
    var s := SetupEvents(h, bytes, data, inverse);
    var l := LaunchEvents(h);
    var rest := FinishEvents(h) + [ReadBuffer(h.queue, h.dOutData, bytes)];
    assert CallEvents(h, bytes, data, inverse) == s + l + rest;
    NoLaunches(s);
    OnlyLaunches(l);
    NoLaunches(rest);
    LaunchesAppend(s, l);
    LaunchesAppend(s + l, rest);
  }

  /** Every one of the five queues is finished within the call, and the read-back is its last step. */
  lemma CallFinishesEveryQueue(h: Handles, bytes: nat, data: seq<Cmplx>, inverse: bool)
    ensures forall q :: q in [h.queue, h.queue2, h.queue3, h.queue4, h.queue5] ==>
      Finish(q) in CallEvents(h, bytes, data, inverse)
    ensures var e := CallEvents(h, bytes, data, inverse);
      e[|e| - 1] == ReadBuffer(h.queue, h.dOutData, bytes)
  {
    var f := FinishEvents(h);
    forall q | q in [h.queue, h.queue2, h.queue3, h.queue4, h.queue5]
      ensures Finish(q) in CallEvents(h, bytes, data, inverse)
    {
      assert Finish(q) in f;
    }
  }

  /** A buffer event moves `bytes` bytes, writes `data` into d_inData and reads from d_outData, all on `queue`. */
  predicate CubeTransfer(e: Event, h: Handles, bytes: nat, data: seq<Cmplx>)
  {
    && ((e.CreateBuffer? || e.WriteBuffer? || e.ReadBuffer?) ==> e.bytes == bytes)
    && (e.WriteBuffer? ==> e.data == data && e.buffer == h.dInData && e.queue == h.queue)
    && (e.ReadBuffer? ==> e.buffer == h.dOutData && e.queue == h.queue)
  }

  /** Both buffers and both transfers of a call are BufferBytes(N) bytes; the input goes into d_inData and the result comes from d_outData. */
  lemma CallTransfersWholeCube(h: Handles, n: int, data: seq<Cmplx>, inverse: bool)
    ensures forall e :: e in CallEvents(h, BufferBytes(n), data, inverse) ==>
      ((e.CreateBuffer? || e.WriteBuffer? || e.ReadBuffer?) ==> e.bytes == BufferBytes(n))
    ensures forall e :: e in CallEvents(h, BufferBytes(n), data, inverse) ==>
      (e.WriteBuffer? ==> e.data == data && e.buffer == h.dInData && e.queue == h.queue)
    ensures forall e :: e in CallEvents(h, BufferBytes(n), data, inverse) ==>
      (e.ReadBuffer? ==> e.buffer == h.dOutData && e.queue == h.queue)
  {
    var bytes := BufferBytes(n);
    forall e | e in CallEvents(h, bytes, data, inverse)
      ensures CubeTransfer(e, h, bytes, data)
    {
      assert e in SetupEvents(h, bytes, data, inverse) || e in LaunchEvents(h) || e in FinishEvents(h)
        || e == ReadBuffer(h.queue, h.dOutData, bytes);
    }
  }

  // ---------------------------------------------------------------------------
  // cleanup
  // ---------------------------------------------------------------------------

  /** A clRelease* call. */
  predicate IsRelease(e: Event)
  {
    e.ReleaseKernel? || e.ReleaseProgram? || e.ReleaseContext? || e.ReleaseQueue? || e.ReleaseMem?
  }

  /** The handle a release event gives back, or Null for any other event. */
  function Released(e: Event): Handle
  {
    match e
    case ReleaseKernel(k) => k
    case ReleaseProgram(p) => p
    case ReleaseContext(c) => c
    case ReleaseQueue(q) => q
    case ReleaseMem(b) => b
    case _ => Null
  }

  /** `if (guard) release;` */
  function ReleaseIf(guard: Handle, release: Event): seq<Event>
  {
    if guard != Null then [release] else []
  }

  /** Number of `if (h) release(h);` statements in cleanup. */
  const CleanupSteps: nat := 14

  /** The handle the t-th statement of cleanup tests. */
  function Tested(h: Handles, t: nat): Handle
    requires t < CleanupSteps
  {
    match t
    case 0 => h.fftKernel
    case 1 => h.fftKernel2
    case 2 => h.fetchKernel
    case 3 => h.transposeKernel
    case 4 => h.transposeKernel2
    case 5 => h.program
    case 6 => h.context
    case 7 => h.queue
    case 8 => h.queue2
    case 9 => h.queue3
    case 10 => h.queue4
    case 11 => h.queue5
    case 12 => h.dInData
    case _ => h.dOutData
  }

  /** Index of the statement that tests queue5. */
  const Queue5Step: nat := 11

  /**
   * The release the t-th statement of cleanup issues. As written
   * (`intended` false) the queue5 statement releases `queue`; as
   * evidently intended it releases queue5.
   */
  function Release(h: Handles, t: nat, intended: bool): Event
    requires t < CleanupSteps
  {
    if t < 5 then ReleaseKernel(Tested(h, t))
    else if t == 5 then ReleaseProgram(h.program)
    else if t == 6 then ReleaseContext(h.context)
    else if t == Queue5Step then ReleaseQueue(if intended then h.queue5 else h.queue)
    else if t < Queue5Step then ReleaseQueue(Tested(h, t))
    else ReleaseMem(Tested(h, t))
  }

  /** Every statement but the queue5 one, and that one too as intended, releases the handle it tests. */
  lemma ReleaseGivesBack(h: Handles, t: nat, intended: bool)
    requires t < CleanupSteps && (intended || t != Queue5Step)
    ensures Released(Release(h, t, intended)) == Tested(h, t)
  {
  }

  /** Statements lo .. hi-1 of cleanup: each releases when the handle it tests is not NULL. */
  function Guarded(h: Handles, intended: bool, lo: nat, hi: nat): (r: seq<Event>)
    requires lo <= hi <= CleanupSteps
    ensures |r| <= hi - lo
    ensures forall e :: e in r ==> IsRelease(e)
    // `h` is listed only so that the verifier does not unroll the definition at literal bounds
    decreases hi, h
  {
    if hi == lo then [] else Guarded(h, intended, lo, hi - 1) + ReleaseIf(Tested(h, hi - 1), Release(h, hi - 1, intended))
  }

  lemma AppendEmpty<T>(a: seq<T>)
    ensures a + [] == a
  {
  }

  lemma ConcatAssoc<T>(a: seq<T>, b: seq<T>, c: seq<T>)
    ensures a + b + c == a + (b + c)
  {
  }

  /** Consecutive runs of statements join into one. */
  lemma {:induction false} GuardedJoin(h: Handles, intended: bool, lo: nat, mid: nat, hi: nat)
    requires lo <= mid <= hi <= CleanupSteps
    ensures Guarded(h, intended, lo, mid) + Guarded(h, intended, mid, hi) == Guarded(h, intended, lo, hi)
    decreases hi
  {
    if hi == mid {
      AppendEmpty(Guarded(h, intended, lo, mid));
    } else {
      GuardedJoin(h, intended, lo, mid, hi - 1);
      ConcatAssoc(Guarded(h, intended, lo, mid), Guarded(h, intended, mid, hi - 1),
        ReleaseIf(Tested(h, hi - 1), Release(h, hi - 1, intended)));
    }
  }

  /** cleanup as written. */
  function CleanupEvents(h: Handles): (r: seq<Event>)
    ensures |r| <= CleanupSteps
    ensures forall e :: e in r ==> IsRelease(e)
  {
    Guarded(h, false, 0, CleanupSteps)
  }

  /** cleanup as evidently intended. */
  function IntendedCleanupEvents(h: Handles): (r: seq<Event>)
    ensures |r| <= CleanupSteps
    ensures forall e :: e in r ==> IsRelease(e)
  {
    Guarded(h, true, 0, CleanupSteps)
  }

  /** The handles a log releases, in order. */
  function ReleasedHandles(log: seq<Event>): (r: seq<Handle>)
    ensures |r| <= |log|
    decreases |log|
  {
    if log == [] then []
    else
      var k := |log| - 1;
      ReleasedHandles(log[..k]) + (if Released(log[k]) != Null then [Released(log[k])] else [])
  }

  lemma {:induction false} ReleasedAppend(a: seq<Event>, b: seq<Event>)
    ensures ReleasedHandles(a + b) == ReleasedHandles(a) + ReleasedHandles(b)
    decreases |b|
  {
    if b == [] {
      assert a + b == a;
    } else {
      var k := |b| - 1;
      assert (a + b)[..|a + b| - 1] == a + b[..k];
      ReleasedAppend(a, b[..k]);
    }
  }

  /** A guarded release whose event gives back the handle it tests adds that handle when it is live. */
  lemma ReleasedStep(a: seq<Event>, g: Handle, e: Event)
    requires Released(e) == g
    ensures ReleasedHandles(a + ReleaseIf(g, e)) == ReleasedHandles(a) + (if g != Null then [g] else [])
  {
    ReleasedAppend(a, ReleaseIf(g, e));
    if g != Null {
      assert [e][..0] == [];
    }
  }

  /** The non-NULL handles among those statements lo .. hi-1 test, in order. */
  function LiveTested(h: Handles, lo: nat, hi: nat): (r: seq<Handle>)
    requires lo <= hi <= CleanupSteps
    ensures |r| <= hi - lo
    decreases hi
  {
    if hi == lo then []
    else LiveTested(h, lo, hi - 1) + (if Tested(h, hi - 1) != Null then [Tested(h, hi - 1)] else [])
  }

  /** All the handles statements lo .. hi-1 test, in order. */
  function TestedRange(h: Handles, lo: nat, hi: nat): (r: seq<Handle>)
    requires lo <= hi <= CleanupSteps
    ensures |r| == hi - lo
    decreases hi
  {
    if hi == lo then [] else TestedRange(h, lo, hi - 1) + [Tested(h, hi - 1)]
  }

  /** Position t of a range is the handle statement lo + t tests. */
  lemma {:induction false} TestedRangeAt(h: Handles, lo: nat, hi: nat, t: nat)
    requires lo <= hi <= CleanupSteps && t < hi - lo
    ensures TestedRange(h, lo, hi)[t] == Tested(h, lo + t)
    decreases hi
  {
    if t < hi - 1 - lo {
      TestedRangeAt(h, lo, hi - 1, t);
    }
  }

  /** Every handle in a range is tested by some statement of it. */
  lemma {:induction false} TestedRangeIndex(h: Handles, lo: nat, hi: nat, x: Handle) returns (t: nat)
    requires lo <= hi <= CleanupSteps && x in TestedRange(h, lo, hi)
    ensures lo <= t < hi && Tested(h, t) == x
    decreases hi
  {
    if x == Tested(h, hi - 1) {
      t := hi - 1;
    } else {
      t := TestedRangeIndex(h, lo, hi - 1, x);
    }
  }

  /** When all tested handles are live, LiveTested lists them all. */
  lemma {:induction false} AllLiveTested(h: Handles, lo: nat, hi: nat)
    requires lo <= hi <= CleanupSteps
    requires forall t :: lo <= t < hi ==> Tested(h, t) != Null
    ensures LiveTested(h, lo, hi) == TestedRange(h, lo, hi)
    decreases hi
  {
    if hi > lo {
      AllLiveTested(h, lo, hi - 1);
    }
  }

  /**
   * A run of statements that each release the handle they test gives
   * back exactly the non-NULL tested handles, in order.
   */
  lemma {:induction false} GuardedReleasesLive(h: Handles, intended: bool, lo: nat, hi: nat)
    requires lo <= hi <= CleanupSteps
    requires intended || hi <= Queue5Step || Queue5Step < lo
    ensures ReleasedHandles(Guarded(h, intended, lo, hi)) == LiveTested(h, lo, hi)
    decreases hi
  {
    if hi > lo {
      var t := hi - 1;
      var g, e := Tested(h, t), Release(h, t, intended);
      var a := Guarded(h, intended, lo, t);
      assert Guarded(h, intended, lo, hi) == a + ReleaseIf(g, e);
      assert LiveTested(h, lo, hi) == LiveTested(h, lo, t) + (if g != Null then [g] else []);
      GuardedReleasesLive(h, intended, lo, t);
      ReleaseGivesBack(h, t, intended);
      ReleasedStep(a, g, e);
    }
  }

  /** A run of statements that each release the handle they test, over live handles, releases all of them in order. */
  lemma GuardedReleasesAllLive(h: Handles, intended: bool, lo: nat, hi: nat)
    requires lo <= hi <= CleanupSteps
    requires intended || hi <= Queue5Step || Queue5Step < lo
    requires forall t :: lo <= t < hi ==> Tested(h, t) != Null
    ensures ReleasedHandles(Guarded(h, intended, lo, hi)) == TestedRange(h, lo, hi)
  {
    GuardedReleasesLive(h, intended, lo, hi);
    AllLiveTested(h, lo, hi);
  }

  /** The intended cleanup releases exactly the non-NULL handles, each where it is tested. */
  lemma IntendedCleanupReleasesLive(h: Handles)
    ensures ReleasedHandles(IntendedCleanupEvents(h)) == LiveTested(h, 0, CleanupSteps)
  {
    GuardedReleasesLive(h, true, 0, CleanupSteps);
  }

  /** The queue5 statement as written: when queue5 is not NULL it releases `queue`. */
  lemma Queue5Statement(h: Handles)
    ensures ReleasedHandles(Guarded(h, false, Queue5Step, Queue5Step + 1))
      == (if h.queue5 != Null && h.queue != Null then [h.queue] else [])
  {
    var mid := Guarded(h, false, Queue5Step, Queue5Step + 1);
    assert Guarded(h, false, Queue5Step, Queue5Step) == [];
    assert Tested(h, Queue5Step) == h.queue5 && Release(h, Queue5Step, false) == ReleaseQueue(h.queue);
    assert mid == [] + ReleaseIf(h.queue5, ReleaseQueue(h.queue));
    if h.queue5 != Null {
      assert mid == [ReleaseQueue(h.queue)] && mid[..0] == [];
    }
  }

  /** cleanup as written: the queue5 statement gives back `queue` instead of queue5; every other statement releases its own handle. */
  lemma CleanupAsWrittenReleases(h: Handles)
    ensures ReleasedHandles(CleanupEvents(h))
      == LiveTested(h, 0, Queue5Step)
         + (if h.queue5 != Null && h.queue != Null then [h.queue] else [])
         + LiveTested(h, Queue5Step + 1, CleanupSteps)
  {
    var before := Guarded(h, false, 0, Queue5Step);
    var mid := Guarded(h, false, Queue5Step, Queue5Step + 1);
    var after := Guarded(h, false, Queue5Step + 1, CleanupSteps);
    GuardedJoin(h, false, 0, Queue5Step, Queue5Step + 1);
    GuardedJoin(h, false, 0, Queue5Step + 1, CleanupSteps);
    GuardedReleasesLive(h, false, 0, Queue5Step);
    GuardedReleasesLive(h, false, Queue5Step + 1, CleanupSteps);
    Queue5Statement(h);
    ReleasedAppend(before, mid);
    ReleasedAppend(before + mid, after);
  }

  /** With every tested handle live, cleanup as written releases them in order, except that `queue` stands where queue5 should. */
  lemma AsWrittenReleasedInOrder(h: Handles)
    requires forall t :: 0 <= t < CleanupSteps ==> Tested(h, t) != Null
    ensures ReleasedHandles(CleanupEvents(h))
      == TestedRange(h, 0, Queue5Step) + [h.queue] + TestedRange(h, Queue5Step + 1, CleanupSteps)
  {
    CleanupAsWrittenReleases(h);
    assert h.queue5 == Tested(h, Queue5Step) && h.queue == Tested(h, 7);
    AllLiveTested(h, 0, Queue5Step);
    AllLiveTested(h, Queue5Step + 1, CleanupSteps);
  }

  /** With every tested handle live, the intended cleanup releases each of them once, in the order they are tested. */
  lemma IntendedReleasedInOrder(h: Handles)
    requires forall t :: 0 <= t < CleanupSteps ==> Tested(h, t) != Null
    ensures ReleasedHandles(IntendedCleanupEvents(h)) == TestedRange(h, 0, CleanupSteps)
  {
    GuardedReleasesAllLive(h, true, 0, CleanupSteps);
  }

  /** An element found at exactly one position occurs once. */
  lemma OccursOnce<T>(a: seq<T>, x: T, i: nat)
    requires i < |a| && a[i] == x
    requires forall t :: 0 <= t < |a| && t != i ==> a[t] != x
    ensures multiset(a)[x] == 1
  {
    assert a == a[..i] + [x] + a[i + 1..];
    assert x !in a[..i];
    assert x !in a[i + 1..];
  }

  /** With distinct handles, `queue` is tested once before the queue5 statement and never after it. */
  lemma QueueTestedOnce(h: Handles)
    requires forall s, t :: 0 <= s < t < CleanupSteps ==> Tested(h, s) != Tested(h, t)
    ensures multiset(TestedRange(h, 0, Queue5Step))[h.queue] == 1
    ensures h.queue !in TestedRange(h, Queue5Step + 1, CleanupSteps)
  {
    var a := TestedRange(h, 0, Queue5Step);
    assert h.queue == Tested(h, 7);
    TestedRangeAt(h, 0, Queue5Step, 7);
    forall t | 0 <= t < |a| && t != 7
      ensures a[t] != h.queue
    {
      TestedRangeAt(h, 0, Queue5Step, t);
    }
    OccursOnce(a, h.queue, 7);
    if h.queue in TestedRange(h, Queue5Step + 1, CleanupSteps) {
      var t := TestedRangeIndex(h, Queue5Step + 1, CleanupSteps, h.queue);
    }
  }

  /**
   * With the distinct live handles a successful init and a call leave,
   * cleanup as written never releases queue5, releases nothing NULL, and
   * releases `queue` twice: once in its own statement and again in the
   * statement that tests queue5.
   */
  lemma Queue5NeverReleased(h: Handles)
    requires forall t :: 0 <= t < CleanupSteps ==> Tested(h, t) != Null
    requires forall s, t :: 0 <= s < t < CleanupSteps ==> Tested(h, s) != Tested(h, t)
    ensures h.queue5 !in ReleasedHandles(CleanupEvents(h))
    ensures Null !in ReleasedHandles(CleanupEvents(h))
    ensures multiset(ReleasedHandles(CleanupEvents(h)))[h.queue] == 2
  {
    var a, b := TestedRange(h, 0, Queue5Step), TestedRange(h, Queue5Step + 1, CleanupSteps);
    AsWrittenReleasedInOrder(h);
    assert h.queue5 == Tested(h, Queue5Step) && h.queue == Tested(h, 7);
    QueueTestedOnce(h);
    assert multiset(a + [h.queue] + b) == multiset(a) + multiset{h.queue} + multiset(b);
    if h.queue5 in a {
      var t := TestedRangeIndex(h, 0, Queue5Step, h.queue5);
    } else if h.queue5 in b {
      var t := TestedRangeIndex(h, Queue5Step + 1, CleanupSteps, h.queue5);
    }
    if Null in a {
      var t := TestedRangeIndex(h, 0, Queue5Step, Null);
    } else if Null in b {
      var t := TestedRangeIndex(h, Queue5Step + 1, CleanupSteps, Null);
    }
  }

  /** If queue5 were live while queue is NULL, cleanup as written would release NULL. */
  lemma Queue5BranchReleasesNull(h: Handles)
    requires h.queue == Null && h.queue5 != Null
    ensures ReleaseQueue(Null) in CleanupEvents(h)
  {
    GuardedJoin(h, false, 0, Queue5Step + 1, CleanupSteps);
    assert Guarded(h, false, 0, Queue5Step + 1) == Guarded(h, false, 0, Queue5Step) + [ReleaseQueue(Null)];
  }

  // ---------------------------------------------------------------------------
  // Buffer accounting
  // ---------------------------------------------------------------------------

  /** Number of device buffers a log creates. */
  function MemCreated(log: seq<Event>): (r: nat)
    ensures r <= |log|
  {
    if log == [] then 0 else (if log[0].CreateBuffer? then 1 else 0) + MemCreated(log[1..])
  }

  /** Number of device buffers a log releases. */
  function MemReleased(log: seq<Event>): (r: nat)
    ensures r <= |log|
  {
    if log == [] then 0 else (if log[0].ReleaseMem? then 1 else 0) + MemReleased(log[1..])
  }

  lemma {:induction false} MemCountsAppend(a: seq<Event>, b: seq<Event>)
    ensures MemCreated(a + b) == MemCreated(a) + MemCreated(b)
    ensures MemReleased(a + b) == MemReleased(a) + MemReleased(b)
  {
    if a != [] {
      assert (a + b)[1..] == a[1..] + b;
      MemCountsAppend(a[1..], b);
    } else {
      assert a + b == b;
    }
  }

  lemma {:induction false} NoBufferCreated(log: seq<Event>)
    requires forall e :: e in log ==> !e.CreateBuffer?
    ensures MemCreated(log) == 0
  {
    if log != [] {
      assert log[0] in log;
      assert forall e :: e in log[1..] ==> e in log;
      NoBufferCreated(log[1..]);
    }
  }

  lemma {:induction false} NoBufferReleased(log: seq<Event>)
    requires forall e :: e in log ==> !e.ReleaseMem?
    ensures MemReleased(log) == 0
  {
    if log != [] {
      assert log[0] in log;
      assert forall e :: e in log[1..] ==> e in log;
      NoBufferReleased(log[1..]);
    }
  }

  lemma NoMemEvents(log: seq<Event>)
    requires forall e :: e in log ==> !e.ReleaseMem? && !e.CreateBuffer?
    ensures MemCreated(log) == 0 && MemReleased(log) == 0
  {
    NoBufferCreated(log);
    NoBufferReleased(log);
  }

  /** Every call allocates two device buffers and releases none. */
  lemma CallAllocatesTwo(h: Handles, bytes: nat, data: seq<Cmplx>, inverse: bool)
    ensures MemCreated(CallEvents(h, bytes, data, inverse)) == 2
    ensures MemReleased(CallEvents(h, bytes, data, inverse)) == 0
  {
    var e := CallEvents(h, bytes, data, inverse);
    var s := SetupEvents(h, bytes, data, inverse);
    var two := s[..2];
    var rest := s[2..] + LaunchEvents(h) + FinishEvents(h) + [ReadBuffer(h.queue, h.dOutData, bytes)];
    assert e == two + rest;
    assert two[1..][1..] == [];
    NoMemEvents(rest);
    MemCountsAppend(two, rest);
  }

  /** Init creates no device buffer and releases none. */
  lemma InitAllocatesNone(h: Handles, binary: string)
    ensures MemCreated(InitEvents(h, binary)) == 0 && MemReleased(InitEvents(h, binary)) == 0
  {
    NoMemEvents(InitEvents(h, binary));
  }

  /** Statements lo .. hi-1 create no device buffer and release at most those among the last two they cover. */
  lemma {:induction false} GuardedMemCounts(h: Handles, intended: bool, lo: nat, hi: nat)
    requires lo <= hi <= CleanupSteps
    ensures MemCreated(Guarded(h, intended, lo, hi)) == 0
    ensures MemReleased(Guarded(h, intended, lo, hi)) <= (if hi > Queue5Step + 1 then hi - (Queue5Step + 1) else 0)
    decreases hi
  {
    if hi > lo {
      var t := hi - 1;
      GuardedMemCounts(h, intended, lo, t);
      var step := ReleaseIf(Tested(h, t), Release(h, t, intended));
      MemCountsAppend(Guarded(h, intended, lo, t), step);
      StepMemCounts(h, intended, t);
    }
  }

  /** One statement of cleanup creates no buffer and releases one only when it is one of the last two. */
  lemma StepMemCounts(h: Handles, intended: bool, t: nat)
    requires t < CleanupSteps
    ensures MemCreated(ReleaseIf(Tested(h, t), Release(h, t, intended))) == 0
    ensures MemReleased(ReleaseIf(Tested(h, t), Release(h, t, intended))) <= (if t > Queue5Step then 1 else 0)
  {
    var step := ReleaseIf(Tested(h, t), Release(h, t, intended));
    if step != [] {
      assert step[1..] == [];
    }
  }

  /** Cleanup, as written and as intended, creates no device buffer and releases at most the two it finds in the globals. */
  lemma CleanupReleasesAtMostTwo(h: Handles)
    ensures MemCreated(CleanupEvents(h)) == 0 && MemReleased(CleanupEvents(h)) <= 2
    ensures MemCreated(IntendedCleanupEvents(h)) == 0 && MemReleased(IntendedCleanupEvents(h)) <= 2
  {
    GuardedMemCounts(h, false, 0, CleanupSteps);
    GuardedMemCounts(h, true, 0, CleanupSteps);
  }

  // ---------------------------------------------------------------------------
  // The call counter
  // ---------------------------------------------------------------------------

  /** The recycle counter together with how often init and cleanup have run. */
  datatype Counters = Counters(flag: nat, inits: nat, cleanups: nat)

  /** One fft3d call: init when the counter is 0, count the call, clean up and reset on reaching 50. */
  function AfterCall(c: Counters): (r: Counters)
    requires c.flag < RecyclePeriod
    ensures r.flag < RecyclePeriod
    ensures r.inits == c.inits + (if c.flag == 0 then 1 else 0)
    ensures r.cleanups == c.cleanups + (if c.flag == RecyclePeriod - 1 then 1 else 0)
  {
    var inits := if c.flag == 0 then c.inits + 1 else c.inits;
    var flag := c.flag + 1;
    if flag == RecyclePeriod then Counters(0, inits, c.cleanups + 1) else Counters(flag, inits, c.cleanups)
  }

  /** The counters after k calls in one process. */
  function AfterCalls(k: nat): (r: Counters)
    ensures r.flag < RecyclePeriod
  {
    if k == 0 then Counters(0, 0, 0) else AfterCall(AfterCalls(k - 1))
  }

  /** After k calls the counter is k mod 50, init has run ceil(k/50) times and cleanup floor(k/50) times. */
  lemma {:induction false} CountersClosedForm(k: nat)
    ensures AfterCalls(k) == Counters(k % RecyclePeriod, (k + RecyclePeriod - 1) / RecyclePeriod, k / RecyclePeriod)
  {
    if k > 0 {
      CountersClosedForm(k - 1);
      var q := (k - 1) / RecyclePeriod;
      var r := (k - 1) % RecyclePeriod;
      assert k - 1 == RecyclePeriod * q + r;
      if r == 0 {
        assert (k + RecyclePeriod - 1) / RecyclePeriod == q + 1;
        assert (k - 1 + RecyclePeriod - 1) / RecyclePeriod == q;
      } else {
        assert (k + RecyclePeriod - 1) / RecyclePeriod == q + 1;
        assert (k - 1 + RecyclePeriod - 1) / RecyclePeriod == q + 1;
      }
      if r == RecyclePeriod - 1 {
        assert k == RecyclePeriod * (q + 1);
        assert k % RecyclePeriod == 0 && k / RecyclePeriod == q + 1;
      } else {
        assert k == RecyclePeriod * q + (r + 1);
        assert k % RecyclePeriod == r + 1 && k / RecyclePeriod == q;
      }
    }
  }

  /** Call number k (counting from 0) runs init exactly when k is a multiple of 50. */
  lemma InitOnCallsDivisibleByPeriod(k: nat)
    ensures AfterCalls(k).flag == 0 <==> k % RecyclePeriod == 0
  {
    CountersClosedForm(k);
  }

}
