/**
 * The input-buffer fill of the host driver: three buffers of N0*N1*N2 complex
 * samples are filled through the coordinate mapper while i, j and k run
 * row-major over the cube. The samples come either from an input file read in
 * order, or from a pseudo-random stream that is then saved to that file; both
 * are supplied here as sequences.
 */
module InputData {
  import opened Wrappers
  import opened Coord

  /** `cmplx`: the (x, y) pair the host buffers hold. Values are only copied, so reals stand in for floats. */
  datatype Cmplx = Cmplx(x: real, y: real)

  /** `fftw_complex`: a two-element array, [0] the real and [1] the imaginary part. */
  type FftwComplex = (real, real)

  /** Sample t of a stream, or the slot's previous content when the stream ran out (fscanf leaves it untouched). */
  function SampleOr(samples: seq<Cmplx>, t: nat, previous: Cmplx): Cmplx
  {
    if t < |samples| then samples[t] else previous
  }

  /** Slots [0, t) hold their sample and its two copies; slots [t, ..) still hold their original content. */
  ghost predicate FilledUpTo(t: int, samples: seq<Cmplx>, orig: seq<Cmplx>,
                             fftData: array<Cmplx>, fftwData: array<FftwComplex>, fftVerify: array<Cmplx>)
    reads fftData, fftwData, fftVerify
  {
    && 0 <= t <= |orig| == fftData.Length == fftwData.Length == fftVerify.Length
    && (forall w :: 0 <= w < t ==>
          && fftData[w] == SampleOr(samples, w, orig[w])
          && fftwData[w] == (fftData[w].x, fftData[w].y)
          && fftVerify[w] == fftData[w])
    && (forall w :: t <= w < |orig| ==> fftData[w] == orig[w])
  }

  /** The visited triples, in order, lie in the cube and the t-th has offset t. */
  ghost predicate VisitedInOrder(visited: seq<(nat, nat, nat)>, n: nat)
  {
    forall t :: 0 <= t < |visited| ==> InCubeT(visited[t], n) && OffsetT(visited[t], n) == t
  }

  /** The loops visit triples in strictly increasing lexicographic order. */
  lemma VisitOrderIsLexicographic(visited: seq<(nat, nat, nat)>, n: nat)
    requires VisitedInOrder(visited, n)
    ensures forall s, s' :: 0 <= s < s' < |visited| ==> LexLess(visited[s], visited[s'])
  {
    forall s, s' | 0 <= s < s' < |visited|
      ensures LexLess(visited[s], visited[s'])
    {
      OffsetOrderIsLex(visited[s], visited[s'], n);
    }
  }

  /** A complete traversal visits every triple of the cube, each exactly once. */
  lemma VisitCoversCube(visited: seq<(nat, nat, nat)>, n: nat)
    requires VisitedInOrder(visited, n) && |visited| == n * n * n
    ensures forall a :: InCubeT(a, n) ==> a in visited
    ensures forall s, s' :: 0 <= s < s' < |visited| ==> visited[s] != visited[s']
  {
    forall a | InCubeT(a, n)
      ensures a in visited
    {
      CoordRoundTrip(a, n);
      var w := OffsetT(a, n);
      OffsetInjective(visited[w], a, n);
    }
  }

  /** The body of the innermost loop for the triple whose offset is `where`. */
  method StoreSample(where: nat, samples: seq<Cmplx>, ghost orig: seq<Cmplx>,
                     fftData: array<Cmplx>, fftwData: array<FftwComplex>, fftVerify: array<Cmplx>)
    requires where < |orig|
    requires FilledUpTo(where, samples, orig, fftData, fftwData, fftVerify)
    requires fftData != fftVerify
    modifies fftData, fftwData, fftVerify
    ensures FilledUpTo(where + 1, samples, orig, fftData, fftwData, fftVerify)
  {
    if where < |samples| {
      fftData[where] := samples[where];
    }
    fftwData[where] := (fftData[where].x, fftData[where].y);
    fftVerify[where] := Cmplx(fftData[where].x, fftData[where].y);
  }

  /** The k loop for fixed i and j: n consecutive slots starting at coord(N, i, j, 0). */
  method FillRow(n: nat, i: u32, j: u32, samples: seq<Cmplx>, ghost orig: seq<Cmplx>,
                 fftData: array<Cmplx>, fftwData: array<FftwComplex>, fftVerify: array<Cmplx>,
                 ghost visited: seq<(nat, nat, nat)>)
    returns (ghost visited': seq<(nat, nat, nat)>)
    requires FitsU32(n) && i < n && j < n
    requires |orig| == n * n * n && fftData != fftVerify
    requires FilledUpTo(Offset(i, j, 0, n, n, n), samples, orig, fftData, fftwData, fftVerify)
    requires VisitedInOrder(visited, n) && |visited| == Offset(i, j, 0, n, n, n)
    modifies fftData, fftwData, fftVerify
    ensures FilledUpTo(Offset(i, j, 0, n, n, n) + n, samples, orig, fftData, fftwData, fftVerify)
    ensures VisitedInOrder(visited', n) && |visited'| == Offset(i, j, 0, n, n, n) + n
  {
    visited' := visited;
    var k: u32 := 0;
    while k < n
      invariant 0 <= k <= n
      invariant FilledUpTo(Offset(i, j, k, n, n, n), samples, orig, fftData, fftwData, fftVerify)
      invariant VisitedInOrder(visited', n) && |visited'| == Offset(i, j, k, n, n, n)
    {
      CoordUniform(i, j, k, n);
      var where := CoordMain(Cube(n), i, j, k);
      StoreSample(where, samples, orig, fftData, fftwData, fftVerify);
      visited' := visited' + [(i as nat, j as nat, k as nat)];
      k := k + 1;
    }
  }

  /**
   * One fill loop of get_input_data: the triple loop over i, j, k that writes
   * `fft_data[where]` from the sample stream and copies it into `fftw_data`
   * and `fft_verify`, with `where = coord(N, i, j, k)`. For a cube of side n
   * the t-th visited triple lands at offset t, so sample t lands in slot t,
   * every slot is written exactly once, and `visited` lists the triples in
   * visiting order.
   */
  method FillLoop(n: nat, samples: seq<Cmplx>,
                  fftData: array<Cmplx>, fftwData: array<FftwComplex>, fftVerify: array<Cmplx>)
    returns (ghost visited: seq<(nat, nat, nat)>)
    requires FitsU32(n)
    requires fftData.Length == n * n * n && fftwData.Length == n * n * n && fftVerify.Length == n * n * n
    requires fftData != fftVerify
    modifies fftData, fftwData, fftVerify
    ensures FilledUpTo(n * n * n, samples, old(fftData[..]), fftData, fftwData, fftVerify)
    ensures |visited| == n * n * n
    ensures VisitedInOrder(visited, n)
  {
    SideFits(n);
    TraversalSteps(0, 0, n);
    ghost var orig := fftData[..];
    visited := [];
    var i: u32 := 0;
    while i < n
      invariant 0 <= i <= n
      invariant FilledUpTo(Offset(i, 0, 0, n, n, n), samples, orig, fftData, fftwData, fftVerify)
      invariant VisitedInOrder(visited, n) && |visited| == Offset(i, 0, 0, n, n, n)
    {
      var j: u32 := 0;
      while j < n
        invariant 0 <= j <= n
        invariant FilledUpTo(Offset(i, j, 0, n, n, n), samples, orig, fftData, fftwData, fftVerify)
        invariant VisitedInOrder(visited, n) && |visited| == Offset(i, j, 0, n, n, n)
      {
        visited := FillRow(n, i, j, samples, orig, fftData, fftwData, fftVerify, visited);
        TraversalSteps(i, j, n);
        j := j + 1;
      }
      TraversalSteps(i, j, n);
      i := i + 1;
    }
    TraversalSteps(i, 0, n);
  }

  /**
   * get_input_data: when the input file exists its samples are scanned in
   * order; otherwise the pseudo-random stream fills the buffers and is
   * written to the file in the same order. `saved` is the samples before
   * `%lf` formatting: the file itself holds them rounded to six decimals.
   */
  method GetInputData(n: nat, inputFile: Option<seq<Cmplx>>, random: seq<Cmplx>,
                      fftData: array<Cmplx>, fftwData: array<FftwComplex>, fftVerify: array<Cmplx>)
    returns (saved: Option<seq<Cmplx>>)
    requires FitsU32(n)
    requires fftData.Length == n * n * n && fftwData.Length == n * n * n && fftVerify.Length == n * n * n
    requires fftData != fftVerify
    requires inputFile.None? ==> n * n * n <= |random|
    modifies fftData, fftwData, fftVerify
    ensures inputFile.Some? ==> saved.None?
    ensures inputFile.Some? ==> forall w :: 0 <= w < n * n * n ==>
      fftData[w] == SampleOr(inputFile.value, w, old(fftData[w]))
    ensures inputFile.None? ==> saved == Some(random[..n * n * n]) && fftData[..] == random[..n * n * n]
    ensures forall w :: 0 <= w < n * n * n ==>
      fftwData[w] == (fftData[w].x, fftData[w].y) && fftVerify[w] == fftData[w]
  {
    if inputFile.Some? {
      ghost var order := FillLoop(n, inputFile.value, fftData, fftwData, fftVerify);
      saved := None;
    } else {
      ghost var order := FillLoop(n, random, fftData, fftwData, fftVerify);
      saved := Some(random[..n * n * n]);
    }
  }
}
