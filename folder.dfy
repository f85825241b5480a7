/** The folder description of 7zDec.c: coders, bind pairs and pack streams,
    the validator that accepts exactly three coder graphs, and the prefix sum
    that turns pack-stream sizes into byte offsets. */
module Folder {
  import opened SzTypes

  // Coder method identifiers of the 7z format (7zDec.c:19-27).
  const K_COPY: nat := 0
  const K_LZMA2: nat := 0x21
  const K_LZMA: nat := 0x30101
  const K_BCJ: nat := 0x03030103
  const K_PPC: nat := 0x03030205
  const K_ARM: nat := 0x03030501
  const K_ARMT: nat := 0x03030701
  const K_SPARC: nat := 0x03030805
  const K_BCJ2: nat := 0x0303011B

  /** One stage of the folder's pipeline. The method id is a 64-bit value in
      the archive; props is the codec's property blob. */
  datatype Coder = Coder(methodId: nat, numInStreams: nat, numOutStreams: nat, props: seq<byte>)

  /** "Coder input stream inIndex is fed by coder output stream outIndex." */
  datatype BindPair = BindPair(inIndex: nat, outIndex: nat)

  /** A folder as the archive header describes it. The counts NumCoders,
      NumBindPairs and NumPackStreams are the lengths of the sequences. */
  datatype Folder = Folder(
    coders: seq<Coder>,
    bindPairs: seq<BindPair>,
    packStreams: seq<nat>,
    unpackSizes: seq<nat>)

  /** IS_MAIN_METHOD: the codecs that can decode a pack stream on their own.
      PPMd is not among them because this build leaves _7ZIP_PPMD_SUPPPORT
      undefined. The argument is already truncated to 32 bits. */
  predicate IsMainMethod(m: nat) {
    m == K_COPY || m == K_LZMA || m == K_LZMA2
  }

  /** IS_SUPPORTED_CODER: a one-in, one-out coder whose 64-bit method id
      fits in 32 bits and names a main method. */
  predicate IsSupportedCoder(c: Coder) {
    c.numInStreams == 1 &&
    c.numOutStreams == 1 &&
    c.methodId <= 0xFFFF_FFFF &&
    IsMainMethod(c.methodId % UINT32_LIMIT)
  }

  /** IS_BCJ2: the four-input, one-output BCJ2 coder. */
  predicate IsBcj2(c: Coder) {
    c.methodId == K_BCJ2 && c.numInStreams == 4 && c.numOutStreams == 1
  }

  lemma MainMethodsAreNotFilters(m: nat)
    requires IsMainMethod(m)
    ensures m != K_BCJ && m != K_ARM && m != K_BCJ2
    ensures m < UINT32_LIMIT
  {
  }

  // The three accepted coder graphs, stated declaratively.

  /** A Copy, LZMA or LZMA2 coder with one input and one output. */
  predicate IsMainCoder(c: Coder) {
    c.numInStreams == 1 && c.numOutStreams == 1 &&
    c.methodId in {K_COPY, K_LZMA, K_LZMA2}
  }

  /** One main coder fed directly by pack stream 0. */
  predicate IsSingleCoderFolder(f: Folder) {
    |f.coders| == 1 &&
    IsMainCoder(f.coders[0]) &&
    f.packStreams == [0] &&
    f.bindPairs == []
  }

  /** A main coder whose output feeds a BCJ or ARM branch filter. */
  predicate IsBranchFilterFolder(f: Folder) {
    |f.coders| == 2 &&
    IsMainCoder(f.coders[0]) &&
    f.coders[1].numInStreams == 1 && f.coders[1].numOutStreams == 1 &&
    f.coders[1].methodId in {K_BCJ, K_ARM} &&
    f.packStreams == [0] &&
    f.bindPairs == [BindPair(1, 0)]
  }

  /** Three main coders and BCJ2 with the fixed wiring of the format. */
  predicate IsBcj2Folder(f: Folder) {
    |f.coders| == 4 &&
    IsMainCoder(f.coders[0]) && IsMainCoder(f.coders[1]) && IsMainCoder(f.coders[2]) &&
    f.coders[3].methodId == K_BCJ2 &&
    f.coders[3].numInStreams == 4 && f.coders[3].numOutStreams == 1 &&
    f.packStreams == [2, 6, 1, 0] &&
    f.bindPairs == [BindPair(5, 0), BindPair(4, 1), BindPair(3, 2)]
  }

  predicate IsSupportedTopology(f: Folder) {
    IsSingleCoderFolder(f) || IsBranchFilterFolder(f) || IsBcj2Folder(f)
  }

  /** CheckSupportedFolder: accepts exactly the three coder graphs above and
      rejects every other folder with SZ_ERROR_UNSUPPORTED. */
  function CheckSupportedFolder(f: Folder): (r: SRes)
    ensures r == SZ_OK || r == SZ_ERROR_UNSUPPORTED
    ensures r == SZ_OK <==> IsSupportedTopology(f)
    ensures |f.coders| !in {1, 2, 4} ==> r == SZ_ERROR_UNSUPPORTED
    ensures 1 <= |f.coders| && !IsMainCoder(f.coders[0]) ==> r == SZ_ERROR_UNSUPPORTED
  {
    if |f.coders| < 1 || |f.coders| > 4 then SZ_ERROR_UNSUPPORTED
    else if !IsSupportedCoder(f.coders[0]) then SZ_ERROR_UNSUPPORTED
    else if |f.coders| == 1 then
      if |f.packStreams| != 1 || f.packStreams[0] != 0 || |f.bindPairs| != 0 then SZ_ERROR_UNSUPPORTED
      else SZ_OK
    else if |f.coders| == 2 then
      var c := f.coders[1];
      if c.methodId > 0xFFFF_FFFF ||
         c.numInStreams != 1 ||
         c.numOutStreams != 1 ||
         |f.packStreams| != 1 ||
         f.packStreams[0] != 0 ||
         |f.bindPairs| != 1 ||
         f.bindPairs[0].inIndex != 1 ||
         f.bindPairs[0].outIndex != 0
      then SZ_ERROR_UNSUPPORTED
      else if c.methodId % UINT32_LIMIT == K_BCJ || c.methodId % UINT32_LIMIT == K_ARM then SZ_OK
      else SZ_ERROR_UNSUPPORTED
    else if |f.coders| == 4 then
      if !IsSupportedCoder(f.coders[1]) ||
         !IsSupportedCoder(f.coders[2]) ||
         !IsBcj2(f.coders[3])
      then SZ_ERROR_UNSUPPORTED
      else if |f.packStreams| != 4 ||
              f.packStreams[0] != 2 ||
              f.packStreams[1] != 6 ||
              f.packStreams[2] != 1 ||
              f.packStreams[3] != 0 ||
              |f.bindPairs| != 3 ||
              f.bindPairs[0].inIndex != 5 || f.bindPairs[0].outIndex != 0 ||
              f.bindPairs[1].inIndex != 4 || f.bindPairs[1].outIndex != 1 ||
              f.bindPairs[2].inIndex != 3 || f.bindPairs[2].outIndex != 2
      then SZ_ERROR_UNSUPPORTED
      else SZ_OK
    else SZ_ERROR_UNSUPPORTED
  }

  /** IsFilterPresent: reports a branch filter for a two-coder folder whose
      second coder is BCJ and for a four-coder folder ending in BCJ2. */
  function IsFilterPresent(f: Folder): (r: bool)
    ensures CheckSupportedFolder(f) == SZ_OK ==>
      (r <==> IsBcj2Folder(f) || (IsBranchFilterFolder(f) && f.coders[1].methodId == K_BCJ))
    ensures r ==> |f.coders| in {2, 4}
  {
    if |f.coders| == 2 && f.coders[1].methodId == K_BCJ then true
    else if |f.coders| == 4 && f.coders[3].methodId == K_BCJ2 then true
    else false
  }

  /** In the BCJ2 graph, main coder ci (0, 1, 2) reads pack stream
      PackIndexOfCoder(ci); the fourth BCJ2 input is pack stream 1. */
  function PackIndexOfCoder(ci: nat): nat
    requires ci < 3
  {
    [3, 2, 0][ci]
  }

  /** The orchestrator's fixed routing agrees with the folder's declared
      wiring: pack stream PackIndexOfCoder(ci) is bound to coder ci's input
      (in-stream ci), pack stream 1 to BCJ2's fourth input (in-stream 6), and
      the output of main coder k feeds BCJ2 input 2 - k (in-stream 5 - k). */
  lemma Bcj2RoutingMatchesWiring(f: Folder, ci: nat)
    requires IsBcj2Folder(f)
    requires ci < 3
    ensures f.packStreams[PackIndexOfCoder(ci)] == ci
    ensures f.packStreams[1] == 6
    ensures f.bindPairs[ci].outIndex == ci && f.bindPairs[ci].inIndex == 5 - ci
  {
  }

  /** The sum of values[0..n). */
  function Sum(values: seq<nat>, n: nat): nat
    requires n <= |values|
  {
    if n == 0 then 0 else Sum(values, n - 1) + values[n - 1]
  }

  /** GetSum: the offset of pack stream `index` from the folder's first pack
      stream is the sum of the sizes of the pack streams before it. */
  method GetSum(values: seq<nat>, index: nat) returns (sum: nat)
    requires index <= |values|
    ensures sum == Sum(values, index)
  {
    sum := 0;
    for i := 0 to index
      invariant sum == Sum(values, i)
    {
      sum := sum + values[i];
    }
  }

  lemma {:induction false} SumMonotone(values: seq<nat>, i: nat, j: nat)
    requires i <= j <= |values|
    ensures Sum(values, i) <= Sum(values, j)
    decreases j - i
  {
    if i < j {
      SumMonotone(values, i, j - 1);
    }
  }

  /** Pack stream i occupies [Sum(i), Sum(i) + values[i]) and ends at or
      before the start of every later pack stream j, so no two pack streams
      of a folder overlap. */
  lemma {:induction false} PackStreamsDisjoint(values: seq<nat>, i: nat, j: nat)
    requires i < j < |values|
    ensures Sum(values, i) + values[i] <= Sum(values, j)
  {
    assert Sum(values, i + 1) == Sum(values, i) + values[i];
    SumMonotone(values, i + 1, j);
  }

  /** The region of pack stream i lies within the folder's packed total. */
  lemma {:induction false} PackStreamWithinTotal(values: seq<nat>, i: nat)
    requires i < |values|
    ensures Sum(values, i) + values[i] <= Sum(values, |values|)
  {
    SumMonotone(values, i + 1, |values|);
  }
}
