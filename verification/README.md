# fft3d-fpga host logic in Dafny

A verified model of the integer, string and session logic in the host code of
the 3D FFT for Intel FPGAs. The OpenCL runtime, FFTW and file I/O around that
logic are not modelled.

- **Coord** (`coord.dfy`): `coord`, which flattens an index triple (i, j, k)
  to `i*N[0]*N[1] + j*N[2] + k` in 32-bit unsigned arithmetic. Both copies in
  the host code are modelled: one takes `int N[3]` last, the other takes
  `unsigned N[3]` first. For a cube of side n with n³ < 2³², the mapping is
  exact and is a bijection from [0,n)³ onto [0,n³). Its inverse is `Uncoord`.
  When the dimensions differ it can collide.
- **InputData** (`input_data.dfy`): the buffer fill of `get_input_data`.
  - A row-major i/j/k loop writes `fft_data[where]` with `where = coord(N, i, j, k)`.
  - It then copies the value into `fftw_data` and `fft_verify`.
  - The samples come from the input file or from the random generator. Both
    sources are given as a sequence of samples.
  - The t-th visited triple lands at offset t, so every slot is written
    exactly once, in order.
- **OpenclUtils** (`opencl_utils.dfy`): `tolowercase`, the platform search of
  `findPlatform`, and the `strcat` chain of `getBinaryPath`.
  - Memory is `seq<char>` or `array<char>`, and a C string is the prefix before
    the first NUL.
  - Where the code reads past what it wrote, the memory that follows is a
    parameter.
- **Fft3dHost** (`fft3d_host.dfy`): the values and runtime events of `fft3d.cpp`.
  - Handles, the `select_binary` switch, the buffer size in `size_t`, and the
    events that `init`, one `fft3d` call and `cleanup` make.
  - The order of those events.
  - The handles `cleanup` releases, written out both as the code has it and as
    intended.
  - Buffer accounting, and the 50-call recycle counter.
- **Fft3dSession** (`fft3d_session.dfy`): the module-global state of
  `fft3d.cpp` as a class `Session`.
  - Fields:
    - the `flag` counter;
    - the sixteen OpenCL globals, held in one record field `handles`;
    - the runtime's next handle number;
    - ghost fields for the event log, the call/init/cleanup counts and the
      loaded binary.
  - `Fft3d` is the entry point. It is split into `Enter` (init on counter 0,
    counter increment), `Transfer` (buffers, copy, launches, waits, read-back)
    and `Leave` (cleanup and reset on the 50th call).
  - `Valid()` holds between calls and is preserved by `Fft3d`. It says the
    counters are those after `calls` calls, every handle was issued, and the
    log created two buffers per call and released at most two per cleanup.
  - `init` calls the `findPlatform`, `getDevices` and
    `createProgramFromBinary` of the `aocl_utils` library (`fft3d.cpp`
    includes `AOCLUtils/aocl_utils.h` and opens `namespace aocl_utils`), not
    the functions of `openclUtils.c`. The library's platform search is
    abstracted as `FirstMatch`, the case-insensitive first match on the
    platform names.
  - The session runs the corrected cleanup (see Findings). The code as
    written is modelled beside it, as `Fft3dHost.CleanupEvents`.

Runtime calls always succeed in this model. The handles the runtime returns are
numbered in the order it returns them.

## Model

| member | source | states |
|---|---|---|
| Coord.ToU32 | host_api/common/helper.c:31-33 | C's conversion to `unsigned int`: congruent to the argument modulo 2^32, and the identity on values that already fit |
| Coord.AsUnsigned | host_api/main.c:168 | `int N[3]` read as `unsigned N[3]` keeps every non-negative entry unchanged |
| Coord.CoordHelper | host_api/common/helper.c:31-34 | `coord(i, j, k, N)` is congruent modulo 2^32 to the row-major offset over N converted to `unsigned`, and equals it whenever it fits in 32 bits |
| Coord.CoordMain | host_api/main.c:50-53 | `coord(N, i, j, k)` is congruent modulo 2^32 to the row-major offset over the unsigned N, and equals it whenever it fits in 32 bits |
| Coord.CoordVariantsAgree | host_api/main.c:50-53 | `coord(N, i, j, k)` of main.c equals `coord(i, j, k, N)` of helper.c for all arguments |
| Coord.CoordExact | host_api/common/helper.c:31-34 | when `i*N0*N1 + j*N2 + k` fits in 32 bits, `coord` returns it exactly |
| Coord.CoordStepK | host_api/common/helper.c:33 | without wrap-around, incrementing k increments the offset by one |
| Coord.OffsetBound | host_api/common/helper.c:31-34 | for a cube of side n and in-range indices the offset is below n³ |
| Coord.TraversalSteps | host_api/main.c:165-167 | a full k row adds n to the offset, a full j slab moves to the next i, and the traversal runs from 0 to n³ |
| Coord.CoordUniform | host_api/main.c:50-53 | for a cube with n³ < 2³² and in-range indices, `coord` is the exact offset and is below n³ |
| Coord.CoordStepJ | host_api/main.c:52 | for a cube, incrementing j adds n to `coord` |
| Coord.CoordStepI | host_api/main.c:52 | for a cube, incrementing i adds n² to `coord` |
| Coord.LexImpliesSmaller | host_api/main.c:165-167 | a triple the loops visit earlier (lexicographically smaller) has a smaller offset |
| Coord.OffsetOrderIsLex | host_api/main.c:165-167 | offset order on the cube is exactly lexicographic order, in both directions |
| Coord.OffsetInjective | host_api/common/helper.c:31-34 | distinct in-range triples have distinct offsets |
| Coord.UncoordRoundTrip | host_api/common/helper.c:31-34 | every offset below n³ is the offset of the in-range triple `Uncoord` gives |
| Coord.CoordRoundTrip | host_api/common/helper.c:31-34 | `Uncoord` inverts the offset on the cube |
| Coord.CoordBijective | host_api/main.c:50-53 | for a cube with n³ < 2³², `coord` is injective on [0,n)³, and every offset below n³ is the `coord` of the in-range triple `Uncoord` gives |
| Coord.NonUniformCollision | host_api/common/helper.c:32-33 | with N = (2, 1, 4), the triples (1,0,0) and (0,0,2) both map to 2, as the TODO warns |
| InputData.VisitOrderIsLexicographic | host_api/main.c:165-167 | triples whose t-th has offset t are visited in strictly increasing lexicographic order |
| InputData.VisitCoversCube | host_api/main.c:165-182 | a complete traversal visits every triple of the cube, and no triple twice |
| InputData.StoreSample | host_api/main.c:168-178 | one inner iteration writes slot `where` from the stream, or leaves it when the stream has run out, and copies it into both other buffers |
| InputData.FillRow | host_api/main.c:167-180 | the k loop fills the n slots of one row from coord(N, i, j, 0), in order |
| InputData.FillLoop | host_api/main.c:165-182 | the triple loop gives slot t sample t (or its old value once the stream runs out), with both copies equal, and visits n³ triples in order, the t-th at offset t |
| InputData.GetInputData | host_api/main.c:150-211 | file branch: each slot gets the scanned sample, and nothing is saved; random branch: the buffer equals the first n³ random samples, which are the ones written to the file (before `%lf` rounding); in both branches the fftw and verify copies equal the data |
| OpenclUtils.ToLowerChar | fft3d/fft3d/host/src/openclUtils.c:21 | `tolower` in the C locale: 'A'..'Z' move to 'a'..'z', every other character is unchanged |
| OpenclUtils.Lower | fft3d/fft3d/host/src/openclUtils.c:17-24 | same length, with each character folded |
| OpenclUtils.LowerNoNul | fft3d/fft3d/host/src/openclUtils.c:17-24 | folding never produces a terminator |
| OpenclUtils.ToLowerCase | fft3d/fft3d/host/src/openclUtils.c:17-24 | `q[i]` becomes `tolower(p[i])` for i below strlen(p), and no other position (no terminator) is written |
| OpenclUtils.CStr | fft3d/fft3d/host/src/openclUtils.c:77 | the C string at a memory start is the NUL-free prefix, followed by a NUL unless memory ends |
| OpenclUtils.CStrAppend | fft3d/fft3d/host/src/openclUtils.c:77 | NUL-free characters followed by more memory read as themselves, then the string there |
| OpenclUtils.TerminatedReadsBack | fft3d/fft3d/host/src/openclUtils.c:77 | characters followed by a NUL read back as exactly those characters |
| OpenclUtils.ContainsIff | fft3d/fft3d/host/src/openclUtils.c:77 | `strstr` finds the needle exactly when it occurs at some position of the haystack |
| OpenclUtils.ContainsShorter | fft3d/fft3d/host/src/openclUtils.c:77 | a needle longer than the haystack is never found |
| OpenclUtils.FirstContaining | fft3d/fft3d/host/src/openclUtils.c:55-82 | the lowest index whose haystack contains the needle, and None exactly when none does |
| OpenclUtils.FirstMatch | fft3d/fft3d/host/src/openclUtils.c:48-82 | the intended search: the lowest-index platform whose folded name contains the folded hint, and None (NULL) exactly when no name does |
| OpenclUtils.HintCaseInsensitive | fft3d/fft3d/host/src/openclUtils.c:48-77 | hints that differ only in letter case select the same platform |
| OpenclUtils.SearchAsWritten | fft3d/fft3d/host/src/openclUtils.c:48-82 | the search as the code performs it: the first platform whose name, read by `strstr` past its buffer, contains the hint, read past its unterminated buffer; None exactly when no platform's name does |
| OpenclUtils.SeenNames | fft3d/fft3d/host/src/openclUtils.c:64-75 | what `strstr` reads for platform t: the folded name running into the unwritten last byte of `plat_name` and the memory after it |
| OpenclUtils.StackBuffer | fft3d/fft3d/host/src/openclUtils.c:50 | a fresh stack buffer of the given length, followed by the given memory |
| OpenclUtils.LowerIntoBuffer | fft3d/fft3d/host/src/openclUtils.c:49-51 | folding a string into a buffer of exactly its length makes `strstr` read the folded string running on into the memory behind the buffer |
| OpenclUtils.FindPlatform | fft3d/fft3d/host/src/openclUtils.c:48-82 | the search loop returns the first platform whose name, as read, contains the hint, as read (`SearchAsWritten`), or None |
| OpenclUtils.TerminatedSearchIsIntended | fft3d/fft3d/host/src/openclUtils.c:48-82 | when a NUL happens to follow both buffers, the search as written is the intended `FirstMatch` |
| OpenclUtils.UnterminatedHintMisses | fft3d/fft3d/host/src/openclUtils.c:49-51 | with an 'x' after `name_search`, hint "FPGA" misses platform "fpga", which `FirstMatch` finds |
| OpenclUtils.StrCat | fft3d/fft3d/host/src/openclUtils.c:146-148 | `strcat` appends the source to the C string in the buffer, terminates it, and leaves the bytes after the terminator unchanged |
| OpenclUtils.BinaryDir | fft3d/fft3d/host/src/openclUtils.c:120-144 | the directory is "bin/emulation/" for 64 and "emulation/" for every other size |
| OpenclUtils.AppendBinaryDir | fft3d/fft3d/host/src/openclUtils.c:120-144 | the switch appends the size's directory to the empty path |
| OpenclUtils.BinaryPathSpelled | fft3d/fft3d/host/src/openclUtils.c:120-147 | the directory, "fft3d" and ".aocx" spell "bin/emulation/fft3d.aocx" for 64 and "emulation/fft3d.aocx" otherwise |
| OpenclUtils.GetBinaryPath | fft3d/fft3d/host/src/openclUtils.c:116-166 | whatever the buffer held, the path is "bin/emulation/fft3d.aocx" when N[0] = 64 and "emulation/fft3d.aocx" otherwise, and the result is exactly the existence test on that path |
| Fft3dHost.SelectBinary | fft3d/fft3d/host/src/fft3d.cpp:186-216 | 16, 32 and 64 load the board file for "emulation/fft3d", and every other size gets "" |
| Fft3dHost.SupportedSizesShareBinary | fft3d/fft3d/host/src/fft3d.cpp:189-209 | all supported sizes select the same binary |
| Fft3dHost.BufferBytes | fft3d/fft3d/host/src/fft3d.cpp:50-56 | `sizeof(cmplex)*N*N*N` in `size_t` is below 2^64 and a whole number of complex values |
| Fft3dHost.BufferHoldsCube | fft3d/fft3d/host/src/fft3d.cpp:50-56 | without wrap-around a buffer holds exactly N³ complex values |
| Fft3dHost.FreshIsDistinct | fft3d/fft3d/host/src/fft3d.cpp:143-181 | handles numbered in order of creation are live, pairwise distinct, and issued |
| Fft3dHost.Opened | fft3d/fft3d/host/src/fft3d.cpp:140-181 | init gives device, context, five queues, program and five kernels fresh handles in creation order, and leaves platform and buffers unchanged |
| Fft3dHost.AfterInit | fft3d/fft3d/host/src/fft3d.cpp:122-184 | a failed directory change leaves the globals unchanged; otherwise platform is the search result; the other handles are fresh only when init succeeds; buffers are untouched |
| Fft3dHost.InitEvents | fft3d/fft3d/host/src/fft3d.cpp:146-181 | a successful init logs thirteen object-creating calls, each of which creates an object or builds the program; among them the program is created from `binary` and built |
| Fft3dHost.InitKernelsAtTheEnd | fft3d/fft3d/host/src/fft3d.cpp:146-181 | init creates kernels only after the context, the queues and the program |
| Fft3dHost.InitNamesKernels | fft3d/fft3d/host/src/fft3d.cpp:172-181 | each kernel global is created under its kernel name: fft3da, fft3db, fetch, transpose, transpose3d |
| Fft3dHost.CallEvents | fft3d/fft3d/host/src/fft3d.cpp:50-109 | one call makes eighteen runtime calls, none of them a release (the call's buffers stay allocated), and the last is the read-back of `d_outData` on `queue` |
| Fft3dHost.CallPhasesInOrder | fft3d/fft3d/host/src/fft3d.cpp:50-110 | within one call, the set-up comes before every launch, every launch before every clFinish, and every clFinish before the read-back |
| Fft3dHost.CallLaunchOrder | fft3d/fft3d/host/src/fft3d.cpp:77-91 | the tasks launched are fetch, fft3da, transpose, fft3db and transpose3d on queue .. queue5, in that order |
| Fft3dHost.CallFinishesEveryQueue | fft3d/fft3d/host/src/fft3d.cpp:94-109 | all five queues are finished, and the read-back is the last call |
| Fft3dHost.CallTransfersWholeCube | fft3d/fft3d/host/src/fft3d.cpp:50-109 | both buffers and both transfers are `sizeof(cmplex)*N*N*N` bytes; the input goes into `d_inData` and the result comes from `d_outData`, both on `queue` |
| Fft3dHost.ReleaseGivesBack | fft3d/fft3d/host/src/fft3d.cpp:219-250 | every cleanup statement but the queue5 one (and that one too, as intended) releases the handle it tests |
| Fft3dHost.Guarded | fft3d/fft3d/host/src/fft3d.cpp:219-251 | a run of `if (h) release(h);` statements issues only releases, at most one per statement |
| Fft3dHost.CleanupEvents | fft3d/fft3d/host/src/fft3d.cpp:219-251 | cleanup as written issues only release calls, at most one for each of its fourteen statements |
| Fft3dHost.IntendedCleanupEvents | fft3d/fft3d/host/src/fft3d.cpp:219-251 | cleanup as intended issues only release calls, at most one for each of its fourteen statements |
| Fft3dHost.GuardedReleasesLive | fft3d/fft3d/host/src/fft3d.cpp:219-250 | statements that release what they test release exactly the non-NULL tested handles, in order |
| Fft3dHost.IntendedCleanupReleasesLive | fft3d/fft3d/host/src/fft3d.cpp:219-251 | the intended cleanup releases exactly the non-NULL handles, each once, where it is tested |
| Fft3dHost.IntendedReleasedInOrder | fft3d/fft3d/host/src/fft3d.cpp:219-251 | with every handle live, the intended cleanup releases all fourteen in statement order |
| Fft3dHost.Queue5Statement | fft3d/fft3d/host/src/fft3d.cpp:244-245 | as written, the queue5 statement releases `queue` when queue5 is non-NULL |
| Fft3dHost.CleanupAsWrittenReleases | fft3d/fft3d/host/src/fft3d.cpp:219-251 | cleanup as written releases the live handles in order, with `queue` (when live) where queue5 should be |
| Fft3dHost.AsWrittenReleasedInOrder | fft3d/fft3d/host/src/fft3d.cpp:219-251 | with every handle live, cleanup as written releases them in order, with `queue` again where queue5 should be |
| Fft3dHost.Queue5NeverReleased | fft3d/fft3d/host/src/fft3d.cpp:236-245 | with distinct live handles, cleanup as written never releases queue5, releases nothing NULL, and releases `queue` exactly twice |
| Fft3dHost.Queue5BranchReleasesNull | fft3d/fft3d/host/src/fft3d.cpp:244-245 | if queue5 were live while queue is NULL, cleanup as written would release NULL |
| Fft3dHost.CallAllocatesTwo | fft3d/fft3d/host/src/fft3d.cpp:50-53 | every call creates two device buffers and releases none |
| Fft3dHost.InitAllocatesNone | fft3d/fft3d/host/src/fft3d.cpp:122-184 | init creates and releases no device buffer |
| Fft3dHost.GuardedMemCounts | fft3d/fft3d/host/src/fft3d.cpp:247-250 | cleanup statements create no buffer, and only the last two can release one |
| Fft3dHost.CleanupReleasesAtMostTwo | fft3d/fft3d/host/src/fft3d.cpp:247-250 | cleanup, as written and as intended, releases at most the two buffers the globals name |
| Fft3dHost.AfterCall | fft3d/fft3d/host/src/fft3d.cpp:36-39 | one call runs init exactly when the counter is 0, runs cleanup exactly when it reaches 50, and keeps the counter below 50 |
| Fft3dHost.AfterCalls | fft3d/fft3d/host/src/fft3d.cpp:24 | the counter starts at 0 and stays below 50 after any number of calls |
| Fft3dHost.CountersClosedForm | fft3d/fft3d/host/src/fft3d.cpp:36-117 | after k calls the counter is k mod 50, init has run ceil(k/50) times and cleanup floor(k/50) times |
| Fft3dHost.InitOnCallsDivisibleByPeriod | fft3d/fft3d/host/src/fft3d.cpp:36-38 | call number k (from 0) initialises exactly when k is a multiple of 50 |
| Fft3dSession.AfterInitIssued | fft3d/fft3d/host/src/fft3d.cpp:140-181 | init keeps every global issued below the runtime's advanced handle counter |
| Fft3dSession.CallKeepsAccounted | fft3d/fft3d/host/src/fft3d.cpp:35-120 | one call moves the counters one step, creates two buffers and releases at most two at cleanup, which keeps the between-calls bookkeeping |
| Fft3dSession.BuffersLeak | fft3d/fft3d/host/src/fft3d.cpp:50-53 | after k calls cleanup has run floor(k/50) times, and at least 2(k - floor(k/50)) device buffers remain unreleased |
| Fft3dSession.CallCounts | fft3d/fft3d/host/src/fft3d.cpp:35-120 | the log of one call (init, transfers, cleanup) creates exactly two buffers and releases at most two, and only on a cleanup call |
| Fft3dSession.Session.constructor | fft3d/fft3d/host/src/fft3d.cpp:16-32 | at process start every global is NULL, the counter is 0, and the invariant holds |
| Fft3dSession.Session.Init | fft3d/fft3d/host/src/fft3d.cpp:122-184 | returns true exactly when the directory change works and a platform matches; the globals become `AfterInit` of the old ones, and the log gains init's events only on success |
| Fft3dSession.Session.OpenDevice | fft3d/fft3d/host/src/fft3d.cpp:140-181 | thirteen fresh handles, the context, queue, program and kernel events in order, and the binary `select_binary` names |
| Fft3dSession.Session.Allocate | fft3d/fft3d/host/src/fft3d.cpp:50-70 | two fresh buffer handles, then the buffer creation, the input copy and the four kernel arguments |
| Fft3dSession.Session.Execute | fft3d/fft3d/host/src/fft3d.cpp:77-103 | the five launches, then the five clFinish calls |
| Fft3dSession.Session.ReadBack | fft3d/fft3d/host/src/fft3d.cpp:109 | logs the read of `d_outData` and writes the device output into the front of `h_outData`, leaving the rest unchanged |
| Fft3dSession.Session.CopyOut | fft3d/fft3d/host/src/fft3d.cpp:109 | the output lands in the front of the host array, and the rest is unchanged |
| Fft3dSession.Session.ReleaseIfLive | fft3d/fft3d/host/src/fft3d.cpp:220-221 | one guarded statement extends the log by the release exactly when its handle is non-NULL |
| Fft3dSession.Session.ReleaseKernels | fft3d/fft3d/host/src/fft3d.cpp:220-229 | the five kernel statements of cleanup |
| Fft3dSession.Session.ReleaseKernelsProgramContext | fft3d/fft3d/host/src/fft3d.cpp:220-234 | the kernel, program and context statements of cleanup |
| Fft3dSession.Session.ReleaseQueues | fft3d/fft3d/host/src/fft3d.cpp:236-243 | the queue .. queue4 statements of cleanup |
| Fft3dSession.Session.ReleaseQueue5Buffers | fft3d/fft3d/host/src/fft3d.cpp:244-250 | the queue5 statement, as intended, and the two buffer statements |
| Fft3dSession.Session.Cleanup | fft3d/fft3d/host/src/fft3d.cpp:219-251 | the log gains the intended cleanup events for the current globals, which release each non-NULL handle once (`IntendedCleanupReleasesLive`) |
| Fft3dSession.Session.Enter | fft3d/fft3d/host/src/fft3d.cpp:36-39 | init runs only when the counter is 0, and its result is ignored; the counter and the call count go up by one; handles stay issued |
| Fft3dSession.Session.Transfer | fft3d/fft3d/host/src/fft3d.cpp:50-110 | two fresh buffers and one call's events over the input array's first N³ values; the output fills the front of `h_outData` |
| Fft3dSession.Session.Leave | fft3d/fft3d/host/src/fft3d.cpp:114-117 | exactly at 50: cleanup, then the counter back to 0 |
| Fft3dSession.Session.Fft3d | fft3d/fft3d/host/src/fft3d.cpp:35-120 | keeps `Valid()`; counter k goes to k+1, or to 0 at 50; init runs only at 0 and cleanup only at 50; the log gains init (when it ran and succeeded), one call's events and cleanup; the binary is reloaded only on init, whatever N is; `h_outData` gets the output |

## Left out

- The OpenCL runtime calls that create, use or release objects are entries of a ghost event log. Their failures are not modelled. Neither are `checkError`/`exit`, the `status` global, or the exits in `findPlatform`.
- Device execution is not modelled: `Fft3d` and `ReadBack` take the data the read-back delivers as the parameter `output`.
- `setCwdToExeDir`, the `clGetPlatformInfo` results and `getBoardBinaryFile` are fields of the `Env` parameter: whether the directory change works, the platform names, and a function from prefix and device to a file name.
- The device `getDevices` returns is taken as the next fresh handle, so every init after a recycle gets a new device handle. The runtime would return the same device each time.
- `findPlatform`, `getDevices` and `createProgramFromBinary` as `init` calls them are `aocl_utils` library code. That library is not part of this model: its platform search is abstracted as `FirstMatch`, and program creation is one logged event.
- `fileTestExists` is the predicate parameter `fileExists`. `getProgramWithBinary` in `openclUtils.c`, with `loadBinary` and `alignedMalloc`, is not part of this model; `init` does not call it.
- Fft3dSession.Session.Fft3d: the elapsed time the function returns (`gettimeofday`) is not modelled. The cleanup it runs is `IntendedCleanupEvents`, the corrected version (see Findings), not the code as written.
- Console output (`printf`) is not modelled.
- The platform and device queries are not logged: the `clGetPlatformIDs` and `clGetPlatformInfo` calls of the library's `findPlatform`, the `clGetDeviceIDs` calls of `getDevices`, and the calls inside `createProgramFromBinary` other than the program creation. The `Env` fields stand for their results.
- InputData.GetInputData: the file written in the random branch holds the samples rounded by `%lf` to six decimals; `saved` is the unrounded values, so a later run that reads the file gets slightly different data.
- Sample values: `fscanf` and `rand`/`fprintf` are a supplied sequence. A file that runs out leaves the remaining slots unchanged, taking both components of a pair together (a half-read pair is not modelled). The random branch is given at least n³ samples.
- `double`/`float` samples are reals; they are only copied, never computed with.
- InputData.FillLoop: only covers cubes (N0 = N1 = N2 = n with n³ < 2³²). For other dims, `coord` itself is modelled (`CoordHelper`, `CoordMain`) and a collision is exhibited (`NonUniformCollision`), but the fill loop is not.
- InputData.GetInputData: takes one side n, although `main` sets N[0], N[1] and N[2] independently from the command line and passes all three; only the cube case is modelled, for the reason given for `FillLoop`.
- Fft3dHost.BufferBytes: `sizeof(cmplex)` is fixed at 16 bytes, the `double2` build; the `TYPE_FLOAT == 1` build, where `cmplex` is an 8-byte `float2`, is not modelled.
- Fft3dSession.Session.Cleanup: the queue5 statement releases queue5, as intended, rather than `queue` (see Findings); the code as written is `Fft3dHost.CleanupEvents`.
- Fft3dSession.Session.ReleaseQueue5Buffers: releases queue5 where the code releases `queue` a second time (see Findings).
- Fft3dSession.Session.Leave: the cleanup it runs at 50 is `IntendedCleanupEvents`, not the `CleanupEvents` of the code as written (see Findings).
- Aliasing between `h_inData` and `h_outData` is not considered. The input sent to the device is the input array's content on entry.
- `main.cpp`, `test_fft.cpp`, the FFTW reference transforms, the timing and throughput output, and the correctness checks are not part of this model.

## Findings

| source | as written | input that shows it | evidently intended | confidence | as-written member | corrected member |
|---|---|---|---|---|---|---|
| fft3d/fft3d/host/src/openclUtils.c:49-51 | `name_search` has exactly `strlen(platform_name)` bytes and no terminator, so `strstr` reads the hint on into whatever memory follows | hint "FPGA" with an 'x' after the buffer and a platform named "fpga": the search reads "fpgax" and finds nothing | the hint is terminated, and the search is the first platform whose folded name contains the folded hint | not executed | OpenclUtils.UnterminatedHintMisses | OpenclUtils.FirstMatch |
| fft3d/fft3d/host/src/fft3d.cpp:244-245 | `if(queue5) clReleaseCommandQueue(queue);` | all fourteen handles live and distinct: `queue` is released exactly twice and queue5 never | `if(queue5) clReleaseCommandQueue(queue5);` | not executed | Fft3dHost.Queue5NeverReleased | Fft3dHost.IntendedCleanupReleasesLive |
