/** The two entry points, and what an accepted callback and an accepted proof guarantee. */
module CallbackRoundTrip {
  import opened Wrappers
  import opened Bytes
  import opened CallbackReasons
  import opened Instructions
  import opened Decoder
  import opened ControlFlow
  import opened Reachability
  import opened PeImage
  import opened CallbackProof
  import Sets
  import Unwind

  function FullImage(data: seq<byte>, h: Headers): Image {
    Image(data, |data|, h, None)
  }

  lemma FullImageValid(data: seq<byte>)
    requires ParseHeaders(data, |data|).Ok?
    ensures FullImage(data, ParseHeaders(data, |data|).value).Valid()
  {
    hide ParseLayout;
    var layout := ParseLayout(data, |data|).value;
    ParsedSectionsValid(data, layout.table, layout.count, |data|, []);
  }

  /** `inspect_callback` as a function. */
  ghost function InspectCallback(data: seq<byte>, c: Capability, digest: Digest): Result<Proof, Reason> {
    if |data| > IMAGE_CAP then Refused(CallbackImageBound)
    else
      var h :- ParseHeaders(data, |data|);
      FullImageValid(data);
      Inspection(FullImage(data, h), c, digest(data), digest)
  }

  method Inspect(data: seq<byte>, c: Capability, digest: Digest) returns (r: Result<Proof, Reason>)
    ensures r == InspectCallback(data, c, digest)
  {
    hide Inspection, ParseHeaders;
    if |data| > IMAGE_CAP {
      return Refused(CallbackImageBound);
    }
    var h := LoadHeaders(data, |data|);
    if h.Refused? {
      return Refused(h.reason);
    }
    FullImageValid(data);
    r := InspectImage(FullImage(data, h.value), c, digest(data), digest);
  }

  predicate IsHexDigest(sha: string) {
    |sha| == 64 && forall ch | ch in sha :: '0' <= ch <= '9' || 'a' <= ch <= 'f'
  }

  function Regions(proof: Proof, h: Headers): seq<Region>
    requires IsU32(proof.unwind) && IsU32(proof.begin)
  {
    [Region(h.exceptionRva, proof.runtimeFunctions), Region(proof.unwind, proof.unwindInfo),
     Region(proof.begin, JoinBytes(proof.instructions))]
  }

  /** The bounds of `_ProofImage.__init__` on the retained fragments. */
  function CheckFragments(proof: Proof): Outcome<Reason> {
    if !(0 < |proof.instructions| <= 20000) then Fail(CallbackProofInstructions)
    else if exists row | row in proof.instructions :: |row.bytes| > 15 then Fail(CallbackProofHexBound)
    else if |JoinBytes(proof.instructions)| > CODE_CAP then Fail(CallbackProofCodeBound)
    else if |proof.runtimeFunctions| > 4 * 1024 * 1024 then Fail(CallbackProofHexBound)
    else if !IsU32(proof.unwind) then Fail(CallbackProofUnwind)
    else if |proof.unwindInfo| > 516 then Fail(CallbackProofHexBound)
    else Need(IsU32(proof.begin), CallbackProofStart)
  }

  function ProofImage(proof: Proof): (r: Result<Image, Reason>)
    ensures r.Ok? ==> r.value.Valid() && r.value.headers.headerEnd <= |r.value.data|
  {
    if |proof.headers| > 2 * 1024 * 1024 then Refused(CallbackProofHexBound)
    else
      var h :- ParseHeaders(proof.headers, proof.executableBytes);
      :- CheckFragments(proof);
      Ok(Image(proof.headers, proof.executableBytes, h, Some(Regions(proof, h))))
  }

  /** `validate_proof` as a function. */
  ghost function ValidateProof(proof: Proof, c: Capability, sha: string, digest: Digest): Result<Proof, Reason> {
    if !IsHexDigest(sha) then Refused(CallbackProofIdentity)
    else
      var image :- ProofImage(proof);
      var derived :- Inspection(image, c, sha, digest);
      if derived == proof then Ok(derived) else Refused(CallbackProofContentDrift)
  }

  method Validate(proof: Proof, c: Capability, sha: string, digest: Digest) returns (r: Result<Proof, Reason>)
    ensures r == ValidateProof(proof, c, sha, digest)
  {
    hide Inspection, ParseHeaders, CheckFragments;
    if !IsHexDigest(sha) {
      return Refused(CallbackProofIdentity);
    }
    if |proof.headers| > 2 * 1024 * 1024 {
      return Refused(CallbackProofHexBound);
    }
    var h := LoadHeaders(proof.headers, proof.executableBytes);
    if h.Refused? {
      return Refused(h.reason);
    }
    var fragments := CheckFragments(proof);
    if fragments.Fail? {
      return Refused(fragments.error);
    }
    var image := ProofImage(proof).value;
    var derived := InspectImage(image, c, sha, digest);
    if derived.Ok? && derived.value != proof {
      return Refused(CallbackProofContentDrift);
    }
    r := derived;
  }

  // ----- every execution path ---------------------------------------------------------------------

  /** On every path from the entry, each address is a decoded row inside the function. */
  ghost predicate PathsInside(rows: seq<Row>, begin: int, end: int) {
    forall p, i | IsPath(Edges(ByAddress(rows)), p) && p[0] == begin && 0 <= i < |p| ::
      exists row :: row in rows && row.rva == p[i] && begin <= p[i] && p[i] + row.size <= end
  }

  ghost predicate ReturnReachable(rows: seq<Row>, begin: int) {
    exists row :: row in rows && row.kind.Return? && Reaches(Edges(ByAddress(rows)), begin, row.rva)
  }

  /** Branches lead to rows; RIP-relative operands and named statics cover each other. */
  ghost predicate ReferencesResolved(rows: seq<Row>, c: Capability) {
    && (forall row | row in rows && row.target.Some? :: exists to :: to in rows && to.rva == row.target.value)
    && (forall row | row in rows && row.ripTarget.Some? :: exists s: Static :: c.Facts(s).Holds(row.ripTarget.value))
    && (forall s: Static :: Referenced(rows, c, s))
  }

  ghost predicate Referenced(rows: seq<Row>, c: Capability, s: Static) {
    exists row :: row in rows && row.ripTarget.Some? && c.Facts(s).Holds(row.ripTarget.value)
  }

  ghost predicate PathSafe(proof: Proof, c: Capability) {
    && Tiles(proof.instructions, proof.begin, proof.end)
    && PathsInside(proof.instructions, proof.begin, proof.end)
    && ReturnReachable(proof.instructions, proof.begin)
    && ReferencesResolved(proof.instructions, c)
  }

  lemma EveryStatic(s: Static)
    ensures s in {Sequence, Incomplete, Records}
  {
    match s
    case Sequence =>
    case Incomplete =>
    case Records =>
  }

  lemma BranchResolved(row: Row, index: map<int, Row>, c: Capability)
    requires CheckRow(row, index, c).Ok? && row.target.Some?
    ensures row.target.value in index
  {
  }

  lemma OperandResolved(row: Row, index: map<int, Row>, c: Capability) returns (s: Static)
    requires CheckRow(row, index, c).Ok? && row.ripTarget.Some?
    ensures c.Facts(s).Holds(row.ripTarget.value) && CheckRow(row, index, c).value == {s}
  {
    s := Matches(c, row.ripTarget.value)[0];
    assert s in Matches(c, row.ripTarget.value);
  }

  lemma SeenHolds(row: Row, index: map<int, Row>, c: Capability, s: Static)
    requires CheckRow(row, index, c).Ok? && s in CheckRow(row, index, c).value
    ensures row.ripTarget.Some? && c.Facts(s).Holds(row.ripTarget.value)
  {
    var only := OperandResolved(row, index, c);
  }

  lemma ReferencesHold(rows: seq<Row>, index: map<int, Row>, c: Capability)
    requires CheckRows(rows, index, c) == Ok({Sequence, Incomplete, Records})
    requires forall a | a in index :: index[a] in rows && index[a].rva == a
    ensures ReferencesResolved(rows, c)
  {
    hide CheckRows, CheckRow;
    CheckRowsEach(rows, index, c);
    forall row | row in rows && row.target.Some? ensures exists to :: to in rows && to.rva == row.target.value {
      BranchResolved(row, index, c);
      var a := row.target.value;
      assert index[a] in rows;
    }
    forall row | row in rows && row.ripTarget.Some?
      ensures exists s: Static :: c.Facts(s).Holds(row.ripTarget.value)
    {
      var s := OperandResolved(row, index, c);
    }
    forall s: Static ensures Referenced(rows, c, s) {
      EveryStatic(s);
      var row :| row in rows && s in CheckRow(row, index, c).value;
      SeenHolds(row, index, c, s);
    }
  }

  lemma PathsHold(rows: seq<Row>, begin: int, end: int)
    requires StaysOnRows(ByAddress(rows), begin)
    requires forall a | a in ByAddress(rows) :: ByAddress(rows)[a] in rows && ByAddress(rows)[a].rva == a
    requires forall row | row in rows :: begin <= row.rva && row.rva + row.size <= end
    ensures PathsInside(rows, begin, end)
  {
    hide ByAddress;
    var index := ByAddress(rows);
    forall p, i | IsPath(Edges(index), p) && p[0] == begin && 0 <= i < |p|
      ensures exists row :: row in rows && row.rva == p[i] && begin <= p[i] && p[i] + row.size <= end
    {
      PathNodesReachable(Edges(index), p, i);
      var a := p[i];
      assert Reaches(Edges(index), begin, a);
      assert a in index;
      assert index[p[i]] in rows;
    }
  }

  lemma ReturnHolds(rows: seq<Row>, begin: int)
    requires |ReachableReturns(ByAddress(rows), begin)| > 0
    requires forall a | a in ByAddress(rows) :: ByAddress(rows)[a] in rows && ByAddress(rows)[a].rva == a
    ensures ReturnReachable(rows, begin)
  {
    hide ByAddress;
    var a := Sets.AnyElement(ReachableReturns(ByAddress(rows), begin));
    assert ByAddress(rows)[a] in rows;
  }

  /** What acceptance decided, step by step. */
  lemma InspectionSteps(image: Image, c: Capability, sha: string, digest: Digest)
    requires image.Valid() && image.headers.headerEnd <= |image.data|
    requires Inspection(image, c, sha, digest).Ok?
    ensures Function(image, c.rva).Ok? && DecodeRows(Function(image, c.rva).value.code, c.rva).Ok?
    ensures var body := Function(image, c.rva).value;
            var rows := DecodeRows(body.code, c.rva).value;
            var proof := Inspection(image, c, sha, digest).value;
            && |rows| <= 20000
            && CheckRows(rows, ByAddress(rows), c) == Ok({Sequence, Incomplete, Records})
            && StaysOnRows(ByAddress(rows), c.rva)
            && |ReachableReturns(ByAddress(rows), c.rva)| > 0
            && proof.instructions == rows && proof.begin == c.rva && proof.end == body.end
            && Retain(image, c, sha, digest, body, rows, |ReachableRows(ByAddress(rows), c.rva)|,
                      |ReachableReturns(ByAddress(rows), c.rva)|) == Ok(proof)
  {
    hide CheckCapability, CheckStatics, Function, DecodeRows, CheckRows, ByAddress, At,
         ReachableRows, ReachableReturns, StaysOnRows;
  }

  /** Every execution path of an accepted callback stays on decoded instruction boundaries. */
  lemma AcceptedIsPathSafe(image: Image, c: Capability, sha: string, digest: Digest)
    requires image.Valid() && image.headers.headerEnd <= |image.data|
    requires Inspection(image, c, sha, digest).Ok?
    ensures PathSafe(Inspection(image, c, sha, digest).value, c)
  {
    hide Inspection, Function, DecodeRows, CheckRows, Retain, ByAddress, Tiles, JoinBytes, PathsInside, ReturnReachable,
         ReferencesResolved, StaysOnRows, ReachableReturns;
    InspectionSteps(image, c, sha, digest);
    var proof := Inspection(image, c, sha, digest).value;
    var rows := proof.instructions;
    DecodedIndex(Function(image, c.rva).value.code, c.rva);
    TilesOrdered(rows, proof.begin, proof.end);
    ReferencesHold(rows, ByAddress(rows), c);
    PathsHold(rows, proof.begin, proof.end);
    ReturnHolds(rows, proof.begin);
  }

  // ----- the round trip ---------------------------------------------------------------------------

  /** Each range that inspection queries lies in one fragment only. */
  predicate FragmentsSeparate(proof: Proof, exceptionRva: nat) {
    var table := Region(exceptionRva, proof.runtimeFunctions);
    IsU32(proof.unwind) && IsU32(proof.begin) &&
    var unwind := Region(proof.unwind, proof.unwindInfo);
    var code := Region(proof.begin, JoinBytes(proof.instructions));
    && !unwind.Holds(table.base, |table.data|) && !code.Holds(table.base, |table.data|)
    && !table.Holds(unwind.base, 4) && !code.Holds(unwind.base, 4)
    && !table.Holds(code.base, |code.data|) && !unwind.Holds(code.base, |code.data|)
  }

  lemma ThreeRegions(a: Region, b: Region, c: Region, at: int, size: int)
    ensures var found := HoldingRegions([a, b, c], at, size);
            |found| == (if a.Holds(at, size) then 1 else 0) + (if b.Holds(at, size) then 1 else 0)
                       + (if c.Holds(at, size) then 1 else 0)
  {
    assert [a, b, c][1..] == [b, c] && [b, c][1..] == [c] && [c][1..] == [];
    assert HoldingRegions([], at, size) == [];
    assert |HoldingRegions([c], at, size)| == if c.Holds(at, size) then 1 else 0;
    assert |HoldingRegions([b, c], at, size)|
        == (if b.Holds(at, size) then 1 else 0) + (if c.Holds(at, size) then 1 else 0);
  }

  /** The queries of `function` and of the proof. */
  ghost predicate SameAnswers(a: Image, b: Image, proof: Proof) {
    && a.Valid() && b.Valid() && a.headers == b.headers
    && At(a, a.headers.exceptionRva, a.headers.exceptionSize) == At(b, a.headers.exceptionRva, a.headers.exceptionSize)
    && At(a, proof.unwind, 4) == At(b, proof.unwind, 4)
    && At(a, proof.unwind, |proof.unwindInfo|) == At(b, proof.unwind, |proof.unwindInfo|)
    && At(a, proof.begin, proof.end - proof.begin) == At(b, proof.begin, proof.end - proof.begin)
  }

  /** What `Function` read on acceptance. */
  lemma FunctionReads(image: Image, start: int)
    requires image.Valid() && Function(image, start).Ok?
    ensures var body := Function(image, start).value;
            var h := image.headers;
            && At(image, h.exceptionRva, h.exceptionSize).Ok? && 0 < h.exceptionSize <= 4 * 1024 * 1024
            && At(image, body.unwind, 4).Ok?
            && At(image, body.unwind, Unwind.InfoSize(At(image, body.unwind, 4).value[2])).Ok?
            && At(image, start, body.end - start) == Ok(body.code) && body.unwind < 0x1_0000_0000
  {
    hide At, SectionAt, Unwind.Verdict, HasFlag, MatchingEntries, Unwind.InfoSize;
  }

  lemma RetainReads(image: Image, c: Capability, sha: string, digest: Digest, body: Body, rows: seq<Row>,
                    reachable: nat, returnCount: nat)
    requires image.Valid() && image.headers.headerEnd <= |image.data|
    requires Retain(image, c, sha, digest, body, rows, reachable, returnCount).Ok?
    ensures var proof := Retain(image, c, sha, digest, body, rows, reachable, returnCount).value;
            var h := image.headers;
            && At(image, h.exceptionRva, h.exceptionSize) == Ok(proof.runtimeFunctions)
            && At(image, body.unwind, 4).Ok?
            && |proof.unwindInfo| == Unwind.InfoSize(At(image, body.unwind, 4).value[2])
            && At(image, body.unwind, |proof.unwindInfo|) == Ok(proof.unwindInfo)
            && proof.headers == image.data[..h.headerEnd] && proof.executableBytes == image.fileSize
            && proof.executableSha == sha && proof.unwind == body.unwind && proof.capability == c
  {
    hide At, SectionAt;
  }

  /** A proof holds what the image answers. */
  ghost predicate Retained(image: Image, c: Capability, sha: string, proof: Proof)
    requires image.Valid() && image.headers.headerEnd <= |image.data|
  {
    var h := image.headers;
    && Function(image, c.rva) == Ok(Body(proof.end, proof.unwind, JoinBytes(proof.instructions)))
    && At(image, h.exceptionRva, h.exceptionSize) == Ok(proof.runtimeFunctions)
    && At(image, proof.unwind, 4).Ok?
    && |proof.unwindInfo| == Unwind.InfoSize(At(image, proof.unwind, 4).value[2])
    && At(image, proof.unwind, |proof.unwindInfo|) == Ok(proof.unwindInfo)
    && At(image, proof.begin, proof.end - proof.begin) == Ok(JoinBytes(proof.instructions))
    && proof.begin == c.rva && proof.headers == image.data[..h.headerEnd]
    && proof.executableBytes == image.fileSize && proof.executableSha == sha
  }

  lemma AcceptedReads(image: Image, c: Capability, sha: string, digest: Digest)
    requires image.Valid() && image.headers.headerEnd <= |image.data|
    requires Inspection(image, c, sha, digest).Ok?
    ensures Retained(image, c, sha, Inspection(image, c, sha, digest).value)
  {
    hide Inspection, Function, Retain, DecodeRows, CheckRows, ByAddress, Tiles, At, JoinBytes, StaysOnRows;
    InspectionSteps(image, c, sha, digest);
    var body := Function(image, c.rva).value;
    var rows := DecodeRows(body.code, c.rva).value;
    DecodedIndex(body.code, c.rva);
    FunctionReads(image, c.rva);
    RetainReads(image, c, sha, digest, body, rows, |ReachableRows(ByAddress(rows), c.rva)|,
                |ReachableReturns(ByAddress(rows), c.rva)|);
  }

  lemma AcceptedBounds(image: Image, c: Capability, sha: string, digest: Digest)
    requires image.Valid() && image.headers.headerEnd <= |image.data|
    requires Inspection(image, c, sha, digest).Ok?
    ensures CheckFragments(Inspection(image, c, sha, digest).value).Pass?
  {
    hide Inspection, Function, Retain, CheckRows, ByAddress, At, StaysOnRows, PathSafe, JoinBytes, DecodeRows;
    InspectionSteps(image, c, sha, digest);
    AcceptedReads(image, c, sha, digest);
    CapabilityStart(image, c, sha, digest);
    FunctionReads(image, c.rva);
    AtSize(image, image.headers.exceptionRva, image.headers.exceptionSize);
    var body := Function(image, c.rva).value;
    RowBounds(body.code, c.rva);
    PaddedSize(At(image, body.unwind, 4).value[2]);
  }

  lemma PaddedSize(count: byte)
    ensures Unwind.InfoSize(count) <= 516
  {
  }

  /** Decoding a nonempty body gives rows, of at most 15 bytes each. */
  lemma RowBounds(code: seq<byte>, base: int)
    requires code != [] && DecodeRows(code, base).Ok?
    ensures DecodeRows(code, base).value != [] && JoinBytes(DecodeRows(code, base).value) == code
    ensures forall row | row in DecodeRows(code, base).value :: |row.bytes| <= 15
  {
    hide DecodeRows;
    DecodedRowsTile(code, base);
    TilesSizes(DecodeRows(code, base).value, base, base + |code|);
  }

  lemma CapabilityStart(image: Image, c: Capability, sha: string, digest: Digest)
    requires image.Valid() && image.headers.headerEnd <= |image.data|
    requires Inspection(image, c, sha, digest).Ok?
    ensures IsU32(c.rva)
  {
    hide InspectRows, Function, CheckStatics, DecodeRows, CheckFact;
  }

  lemma FunctionSame(a: Image, b: Image, start: int, proof: Proof)
    requires SameAnswers(a, b, proof) && Function(a, start).Ok? && proof.begin == start
    requires Function(a, start).value.end == proof.end && Function(a, start).value.unwind == proof.unwind
    requires At(a, proof.unwind, 4).Ok? && |proof.unwindInfo| == Unwind.InfoSize(At(a, proof.unwind, 4).value[2])
    ensures Function(b, start) == Function(a, start)
  {
    hide At, SectionAt, Unwind.Verdict, HasFlag, MatchingEntries, Unwind.InfoSize;
  }

  /** Inspection depends on the image through its headers and the four queries only. */
  lemma InspectionSame(a: Image, b: Image, c: Capability, sha: string, digest: Digest)
    requires a.Valid() && a.headers.headerEnd <= |a.data| && b.headers.headerEnd <= |b.data|
    requires Inspection(a, c, sha, digest).Ok? && SameAnswers(a, b, Inspection(a, c, sha, digest).value)
    requires a.fileSize == b.fileSize && a.data[..a.headers.headerEnd] == b.data[..a.headers.headerEnd]
    ensures Inspection(b, c, sha, digest) == Inspection(a, c, sha, digest)
  {
    AcceptedReads(a, c, sha, digest);
    InspectionSteps(a, c, sha, digest);
    var proof := Inspection(a, c, sha, digest).value;
    FunctionSame(a, b, c.rva, proof);
    hide CheckCapability, CheckStatics, Function, DecodeRows, CheckRows, ByAddress, At, StaysOnRows, ReachableRows,
         ReachableReturns, SameAnswers;
    var body := Function(a, c.rva).value;
    var rows := DecodeRows(body.code, c.rva).value;
    assert Retain(b, c, sha, digest, body, rows, |ReachableRows(ByAddress(rows), c.rva)|,
                  |ReachableReturns(ByAddress(rows), c.rva)|) == Ok(proof) by {
      SameQueries(a, b, proof);
    }
  }

  lemma SameQueries(a: Image, b: Image, proof: Proof)
    requires SameAnswers(a, b, proof)
    ensures a.headers == b.headers
    ensures At(a, a.headers.exceptionRva, a.headers.exceptionSize) == At(b, a.headers.exceptionRva, a.headers.exceptionSize)
    ensures At(a, proof.unwind, 4) == At(b, proof.unwind, 4)
    ensures At(a, proof.unwind, |proof.unwindInfo|) == At(b, proof.unwind, |proof.unwindInfo|)
  {
  }

  lemma AcceptedProofImage(data: seq<byte>, c: Capability, digest: Digest)
    requires InspectCallback(data, c, digest).Ok?
    ensures ParseHeaders(data, |data|).Ok?
    ensures var proof := InspectCallback(data, c, digest).value;
            && IsU32(proof.unwind) && IsU32(proof.begin)
            && ProofImage(proof) == Ok(Image(proof.headers, |data|, ParseHeaders(data, |data|).value,
                                             Some(Regions(proof, ParseHeaders(data, |data|).value))))
  {
    hide Inspection, Function, At, JoinBytes, ParseHeaders, CheckFragments, Regions;
    var h := ParseHeaders(data, |data|).value;
    FullImageValid(data);
    AcceptedReads(FullImage(data, h), c, digest(data), digest);
    AcceptedBounds(FullImage(data, h), c, digest(data), digest);
    HeadersSuffice(data, |data|);
    FragmentBounds(InspectCallback(data, c, digest).value);
  }

  lemma FragmentBounds(proof: Proof)
    requires CheckFragments(proof).Pass?
    ensures IsU32(proof.unwind) && IsU32(proof.begin)
  {
  }

  /** The fragments of an accepted proof are cut from the image. */
  lemma AcceptedFragments(data: seq<byte>, c: Capability, digest: Digest)
    requires InspectCallback(data, c, digest).Ok?
    ensures ParseHeaders(data, |data|).Ok?
    ensures var proof := InspectCallback(data, c, digest).value;
            var h := ParseHeaders(data, |data|).value;
            && IsU32(proof.unwind) && IsU32(proof.begin)
            && ProofImage(proof) == Ok(Image(proof.headers, |data|, h, Some(Regions(proof, h))))
            && FragmentsOf(ProofImage(proof).value, FullImage(data, h))
  {
    hide Inspection, Function, At, JoinBytes, ParseHeaders, ProofImage;
    AcceptedProofImage(data, c, digest);
    var h := ParseHeaders(data, |data|).value;
    FullImageValid(data);
    var full, proof := FullImage(data, h), InspectCallback(data, c, digest).value;
    AcceptedReads(full, c, digest(data), digest);
    AtSize(full, h.exceptionRva, h.exceptionSize);
    AtSize(full, proof.begin, proof.end - proof.begin);
  }

  lemma AtSize(image: Image, at: int, size: int)
    requires image.Valid() && At(image, at, size).Ok?
    ensures |At(image, at, size).value| == size
  {
  }

  /** A query is answered exactly when one fragment holds it, and then as the whole image answers it. */
  lemma FragmentQuery(part: Image, whole: Image, a: Region, b: Region, c: Region, at: int, size: int)
    requires FragmentsOf(part, whole) && part.regions == Some([a, b, c]) && At(whole, at, size).Ok?
    ensures At(part, at, size) ==
            if |HoldingRegions([a, b, c], at, size)| == 1 then At(whole, at, size) else Refused(CallbackProofRegion)
  {
    hide SectionAt, FragmentsOf;
    SameSections(part, whole);
    if |HoldingRegions([a, b, c], at, size)| == 1 {
      FragmentsAgree(part, whole, at, size);
    }
  }

  lemma SameSections(part: Image, whole: Image)
    requires FragmentsOf(part, whole)
    ensures part.Valid() && whole.Valid() && part.headers == whole.headers
  {
  }

  /** With separate fragments, the proof image answers the four queries as the image does. */
  lemma SeparateAnswers(part: Image, whole: Image, proof: Proof)
    requires FragmentsOf(part, whole) && IsU32(proof.unwind) && IsU32(proof.begin)
    requires part.regions == Some(Regions(proof, whole.headers)) && FragmentsSeparate(proof, whole.headers.exceptionRva)
    requires |proof.runtimeFunctions| == whole.headers.exceptionSize
    requires |JoinBytes(proof.instructions)| == proof.end - proof.begin
    requires At(whole, proof.unwind, 4).Ok? && |proof.unwindInfo| >= 4
    ensures SameAnswers(whole, part, proof)
  {
    hide At, SectionAt, HoldingRegions, JoinBytes;
    SameSections(part, whole);
    var table := Region(whole.headers.exceptionRva, proof.runtimeFunctions);
    var unwind := Region(proof.unwind, proof.unwindInfo);
    var code := Region(proof.begin, JoinBytes(proof.instructions));
    assert At(whole, table.base, |table.data|).Ok? && At(whole, unwind.base, |unwind.data|).Ok?
        && At(whole, code.base, |code.data|).Ok? by {
      assert table in part.regions.value && unwind in part.regions.value && code in part.regions.value;
    }
    ThreeRegions(table, unwind, code, table.base, |table.data|);
    ThreeRegions(table, unwind, code, unwind.base, 4);
    ThreeRegions(table, unwind, code, unwind.base, |unwind.data|);
    ThreeRegions(table, unwind, code, code.base, |code.data|);
    FragmentQuery(part, whole, table, unwind, code, table.base, |table.data|);
    FragmentQuery(part, whole, table, unwind, code, unwind.base, 4);
    FragmentQuery(part, whole, table, unwind, code, unwind.base, |unwind.data|);
    FragmentQuery(part, whole, table, unwind, code, code.base, |code.data|);
  }

  /** Equal to the image's answer, or refused because two fragments hold the range. */
  ghost predicate SameOrShadowed(part: Image, whole: Image, at: int, size: int)
    requires part.Valid() && whole.Valid()
  {
    At(part, at, size) == At(whole, at, size) || At(part, at, size) == Refused(CallbackProofRegion)
  }

  /** Some query of a proof with overlapping fragments is refused, and every other one is answered correctly. */
  ghost predicate SomeShadowed(part: Image, whole: Image, proof: Proof) {
    var h := whole.headers;
    && part.Valid() && whole.Valid() && part.headers == h
    && SameOrShadowed(part, whole, h.exceptionRva, h.exceptionSize)
    && SameOrShadowed(part, whole, proof.unwind, 4)
    && SameOrShadowed(part, whole, proof.begin, proof.end - proof.begin)
    && (At(part, proof.unwind, 4).Ok? ==>
          At(part, proof.unwind, |proof.unwindInfo|) == At(whole, proof.unwind, |proof.unwindInfo|))
    && (At(part, h.exceptionRva, h.exceptionSize).Refused? || At(part, proof.unwind, 4).Refused?
        || At(part, proof.begin, proof.end - proof.begin).Refused?)
  }

  lemma OverlapShadows(part: Image, whole: Image, proof: Proof)
    requires FragmentsOf(part, whole) && IsU32(proof.unwind) && IsU32(proof.begin)
    requires part.regions == Some(Regions(proof, whole.headers)) && !FragmentsSeparate(proof, whole.headers.exceptionRva)
    requires |proof.runtimeFunctions| == whole.headers.exceptionSize
    requires |JoinBytes(proof.instructions)| == proof.end - proof.begin
    requires At(whole, proof.unwind, 4).Ok? && |proof.unwindInfo| >= 4
    ensures SomeShadowed(part, whole, proof)
  {
    hide At, SectionAt, HoldingRegions, JoinBytes;
    SameSections(part, whole);
    var table := Region(whole.headers.exceptionRva, proof.runtimeFunctions);
    var unwind := Region(proof.unwind, proof.unwindInfo);
    var code := Region(proof.begin, JoinBytes(proof.instructions));
    assert At(whole, table.base, |table.data|).Ok? && At(whole, unwind.base, |unwind.data|).Ok?
        && At(whole, code.base, |code.data|).Ok? by {
      assert table in part.regions.value && unwind in part.regions.value && code in part.regions.value;
    }
    ThreeRegions(table, unwind, code, table.base, |table.data|);
    ThreeRegions(table, unwind, code, unwind.base, 4);
    ThreeRegions(table, unwind, code, unwind.base, |unwind.data|);
    ThreeRegions(table, unwind, code, code.base, |code.data|);
    FragmentQuery(part, whole, table, unwind, code, table.base, |table.data|);
    FragmentQuery(part, whole, table, unwind, code, unwind.base, 4);
    FragmentQuery(part, whole, table, unwind, code, unwind.base, |unwind.data|);
    FragmentQuery(part, whole, table, unwind, code, code.base, |code.data|);
  }

  lemma ShadowedFunction(part: Image, whole: Image, proof: Proof)
    requires SomeShadowed(part, whole, proof) && Function(whole, proof.begin).Ok?
    requires Function(whole, proof.begin).value.end == proof.end && Function(whole, proof.begin).value.unwind == proof.unwind
    requires At(whole, proof.unwind, 4).Ok? && |proof.unwindInfo| == Unwind.InfoSize(At(whole, proof.unwind, 4).value[2])
    ensures Function(part, proof.begin) == Refused(CallbackProofRegion)
  {
    hide At, SectionAt, Unwind.Verdict, HasFlag, MatchingEntries, Unwind.InfoSize;
  }

  lemma ShadowedInspection(part: Image, whole: Image, c: Capability, sha: string, digest: Digest)
    requires whole.Valid() && whole.headers.headerEnd <= |whole.data| && part.headers.headerEnd <= |part.data|
    requires Inspection(whole, c, sha, digest).Ok?
    requires SomeShadowed(part, whole, Inspection(whole, c, sha, digest).value)
    ensures Inspection(part, c, sha, digest) == Refused(CallbackProofRegion)
  {
    AcceptedReads(whole, c, sha, digest);
    ShadowedFunction(part, whole, Inspection(whole, c, sha, digest).value);
    ShadowedBody(part, whole, c, sha, digest);
  }

  lemma ShadowedBody(part: Image, whole: Image, c: Capability, sha: string, digest: Digest)
    requires whole.Valid() && whole.headers.headerEnd <= |whole.data|
    requires part.Valid() && part.headers.headerEnd <= |part.data| && part.headers == whole.headers
    requires Inspection(whole, c, sha, digest).Ok? && Function(part, c.rva) == Refused(CallbackProofRegion)
    ensures Inspection(part, c, sha, digest) == Refused(CallbackProofRegion)
  {
    hide CheckCapability, CheckStatics, Function, InspectRows, DecodeRows;
  }

  /**
   The round trip: the proof of an accepted callback re-derives itself exactly when its three fragments are
   separate for the ranges that inspection reads; otherwise it is refused at the shadowed range.
   */
  lemma ProofRoundTrip(data: seq<byte>, c: Capability, digest: Digest)
    requires InspectCallback(data, c, digest).Ok? && IsHexDigest(digest(data))
    ensures ParseHeaders(data, |data|).Ok?
    ensures var proof := InspectCallback(data, c, digest).value;
            ValidateProof(proof, c, digest(data), digest) ==
            if FragmentsSeparate(proof, ParseHeaders(data, |data|).value.exceptionRva) then Ok(proof)
            else Refused(CallbackProofRegion)
  {
    hide Inspection, Function, At, JoinBytes, ParseHeaders, ProofImage, FragmentsSeparate, FragmentsOf, SameAnswers;
    AcceptedFragments(data, c, digest);
    var h := ParseHeaders(data, |data|).value;
    FullImageValid(data);
    var full, proof := FullImage(data, h), InspectCallback(data, c, digest).value;
    var part := ProofImage(proof).value;
    AcceptedReads(full, c, digest(data), digest);
    SameSections(part, full);
    AtSize(full, h.exceptionRva, h.exceptionSize);
    AtSize(full, proof.begin, proof.end - proof.begin);
    if FragmentsSeparate(proof, h.exceptionRva) {
      SeparateAnswers(part, full, proof);
      assert part.data[..h.headerEnd] == full.data[..h.headerEnd];
      InspectionSame(full, part, c, digest(data), digest);
    } else {
      OverlapShadows(part, full, proof);
      ShadowedInspection(part, full, c, digest(data), digest);
    }
  }

  predicate RangesDisjoint(proof: Proof, h: Headers) {
    && (h.exceptionRva + h.exceptionSize <= proof.unwind || proof.unwind + |proof.unwindInfo| <= h.exceptionRva)
    && (h.exceptionRva + h.exceptionSize <= proof.begin || proof.end <= h.exceptionRva)
    && (proof.unwind + |proof.unwindInfo| <= proof.begin || proof.end <= proof.unwind)
  }

  lemma DisjointSeparate(proof: Proof, h: Headers)
    requires RangesDisjoint(proof, h) && IsU32(proof.unwind) && IsU32(proof.begin)
    requires |proof.runtimeFunctions| == h.exceptionSize > 0 && |proof.unwindInfo| >= 4
    requires |JoinBytes(proof.instructions)| == proof.end - proof.begin > 0
    ensures FragmentsSeparate(proof, h.exceptionRva)
  {
    hide JoinBytes;
  }

  /** Disjoint pdata, unwind and code ranges are separate, so their proof always re-derives itself. */
  lemma DisjointProofRoundTrip(data: seq<byte>, c: Capability, digest: Digest)
    requires InspectCallback(data, c, digest).Ok? && IsHexDigest(digest(data)) && ParseHeaders(data, |data|).Ok?
    requires RangesDisjoint(InspectCallback(data, c, digest).value, ParseHeaders(data, |data|).value)
    ensures ValidateProof(InspectCallback(data, c, digest).value, c, digest(data), digest)
         == InspectCallback(data, c, digest)
  {
    hide Inspection, Function, At, JoinBytes, ParseHeaders, ProofImage, ValidateProof, RangesDisjoint, FragmentsSeparate,
         FragmentsOf, Regions;
    var h := ParseHeaders(data, |data|).value;
    FullImageValid(data);
    var full, proof := FullImage(data, h), InspectCallback(data, c, digest).value;
    AcceptedReads(full, c, digest(data), digest);
    AtSize(full, h.exceptionRva, h.exceptionSize);
    AtSize(full, proof.begin, proof.end - proof.begin);
    FunctionReads(full, c.rva);
    AcceptedProofImage(data, c, digest);
    DisjointSeparate(proof, h);
    ProofRoundTrip(data, c, digest);
  }

  /** An accepted proof, wherever it came from, is path safe for its own fragments. */
  lemma ValidProofIsPathSafe(proof: Proof, c: Capability, sha: string, digest: Digest)
    requires ValidateProof(proof, c, sha, digest).Ok?
    ensures PathSafe(proof, c) && proof.executableSha == sha
  {
    hide Inspection, ProofImage, PathSafe;
    AcceptedIsPathSafe(ProofImage(proof).value, c, sha, digest);
    AcceptedReads(ProofImage(proof).value, c, sha, digest);
  }
}
