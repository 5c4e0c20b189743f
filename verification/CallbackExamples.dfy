/**
 Two images of 568 bytes that the inspector accepts. They differ in one byte, the address of the unwind information:
 behind the runtime-function table the proof validates, inside the table it is refused.
 */
module CallbackExamples {
  import opened Wrappers
  import opened Bytes
  import opened CallbackReasons
  import opened Instructions
  import opened Decoder
  import opened ControlFlow
  import opened Reachability
  import opened PeImage
  import opened CallbackProof
  import opened CallbackRoundTrip
  import Unwind

  /** Inside the table: the second entry reads as unwind information without operations. */
  const INSIDE: byte := 0x0c
  const BEHIND: byte := 0x40

  const SIZE: nat := 568

  /** The bytes of the image; `unwind` is the low byte of the address of the unwind information. */
  function ByteAt(i: nat, unwind: byte): byte {
    match i
    // DOS and PE headers
    case 0 => 0x4d
    case 1 => 0x5a
    case 60 => 64
    case 64 => 0x50
    case 65 => 0x45
    case 68 => 0x64
    case 69 => 0x86
    case 70 => 2
    case 84 => 144
    case 88 => 0x0b
    case 89 => 0x02
    case 196 => 4
    case 225 => 0x10
    case 228 => 24
    // the code section
    case 245 => 0x10
    case 249 => 1
    case 252 => 0x38
    case 253 => 1
    case 271 => 0x20
    // the data section
    case 280 => 0x80
    case 281 => 0x84
    case 282 => 0x1e
    case 285 => 0x20
    case 311 => 0x80
    // the runtime functions
    case 312 => 0x80
    case 313 => 0x10
    case 316 => 0x93
    case 317 => 0x10
    case 320 => unwind
    case 321 => 0x10
    case 324 => 1
    // the unwind information behind them
    case 376 => 1
    // three loads, and a return
    case 440 => 0x8b
    case 441 => 0x05
    case 442 => 0x7a
    case 443 => 0x0f
    case 446 => 0x8b
    case 447 => 0x05
    case 448 => 0x7c
    case 449 => 0x0f
    case 452 => 0x8b
    case 453 => 0x05
    case 454 => 0x7e
    case 455 => 0x0f
    case 458 => 0xc3
    case _ => 0
  }

  function Data(unwind: byte): (data: seq<byte>)
    ensures |data| == SIZE
  {
    seq(SIZE, i requires 0 <= i < SIZE => ByteAt(i, unwind))
  }

  const CODE_SECTION := Section(0x1000, 0, 256, 312, 0x2000_0000)
  const DATA_SECTION := Section(0x2000, 2_000_000, 0, 0, 0x8000_0000)
  const HEADERS := Headers(312, 0, 0x1000, 24, [CODE_SECTION, DATA_SECTION])

  const CAPABILITY := Capability(0x1080, Fact(0x2000, 8), Fact(0x2008, 4), Fact(0x2010, 1058816))

  /** `mov eax, [rip + displacement]` */
  function Load(low: byte): Insn {
    Insn([], 0, 0x8b, Some(0x05), None, [low, 0x0f, 0, 0], [])
  }

  const RETURN := Insn([], 0, 0xc3, None, None, [], [])
  const INSNS := [Load(0x7a), Load(0x7c), Load(0x7e), RETURN]
  const CODE: seq<byte> := [0x8b, 0x05, 0x7a, 0x0f, 0, 0, 0x8b, 0x05, 0x7c, 0x0f, 0, 0, 0x8b, 0x05, 0x7e, 0x0f, 0, 0, 0xc3]

  function LoadRow(rva: int, low: byte, target: int): Row {
    Row(rva, [0x8b, 0x05, low, 0x0f, 0, 0], 6, 0x8b, Ordinary, None, Some(target))
  }

  const FIRST := LoadRow(0x1080, 0x7a, 0x2000)
  const SECOND := LoadRow(0x1086, 0x7c, 0x2008)
  const THIRD := LoadRow(0x108c, 0x7e, 0x2010)
  const LAST := Row(0x1092, [0xc3], 1, 0xc3, Return, None, None)
  const ROWS := [FIRST, SECOND, THIRD, LAST]

  // ----- the headers ------------------------------------------------------------------------------

  lemma Reads(unwind: byte, at: nat)
    requires at + 8 <= SIZE
    ensures var d := Data(unwind);
            && U16(d, at) == ByteAt(at, unwind) + 0x100 * ByteAt(at + 1, unwind)
            && U32(d, at) == U16(d, at) + 0x1_0000 * U16(d, at + 2)
            && U64(d, at) == U32(d, at) + 0x1_0000_0000 * U32(d, at + 4)
            && U16(d, at + 2) == ByteAt(at + 2, unwind) + 0x100 * ByteAt(at + 3, unwind)
            && U32(d, at) == ByteAt(at, unwind) + 0x100 * ByteAt(at + 1, unwind)
                             + 0x1_0000 * (ByteAt(at + 2, unwind) + 0x100 * ByteAt(at + 3, unwind))
  {
    hide ByteAt;
  }

  lemma LayoutReads(unwind: byte)
    ensures ParseLayout(Data(unwind), SIZE) == Ok(PeImage.Layout(232, 2, 0, 0x1000, 24))
  {
    hide U16, U32, U64;
    var d := Data(unwind);
    assert d[..2] == [0x4d, 0x5a] && d[64..68] == [0x50, 0x45, 0, 0];
    hide Data;
    Reads(unwind, 60);
    Reads(unwind, 68);
    Reads(unwind, 70);
    Reads(unwind, 84);
    Reads(unwind, 88);
    Reads(unwind, 112);
    Reads(unwind, 116);
    Reads(unwind, 196);
    Reads(unwind, 224);
    Reads(unwind, 228);
  }

  lemma SectionReads(unwind: byte)
    ensures ReadSection(Data(unwind), 232) == CODE_SECTION && ReadSection(Data(unwind), 272) == DATA_SECTION
  {
    hide U16, U32, U64, Data;
    Reads(unwind, 240);
    Reads(unwind, 244);
    Reads(unwind, 248);
    Reads(unwind, 252);
    Reads(unwind, 268);
    Reads(unwind, 280);
    Reads(unwind, 284);
    Reads(unwind, 288);
    Reads(unwind, 292);
    Reads(unwind, 308);
  }

  lemma HeadersRead(unwind: byte)
    ensures ParseHeaders(Data(unwind), SIZE) == Ok(HEADERS)
  {
    hide ReadSection, ParseLayout, Data;
    LayoutReads(unwind);
    SectionReads(unwind);
    var d := Data(unwind);
    assert [] + [CODE_SECTION] == [CODE_SECTION] && [CODE_SECTION] + [DATA_SECTION] == [CODE_SECTION, DATA_SECTION];
    assert ParseSections(d, 232, 2, SIZE, [CODE_SECTION, DATA_SECTION]) == Ok([CODE_SECTION, DATA_SECTION]);
    assert ParseSections(d, 232, 2, SIZE, [CODE_SECTION]) == Ok([CODE_SECTION, DATA_SECTION]);
  }

  // ----- the runtime function ---------------------------------------------------------------------

  lemma RawQuery(unwind: byte, at: nat, size: nat)
    requires 0x1000 <= at && 0 < size && at + size <= 0x1100
    ensures FullImage(Data(unwind), HEADERS).Valid()
    ensures SectionAt(HEADERS, at, size, true) == Ok(CODE_SECTION)
    ensures At(FullImage(Data(unwind), HEADERS), at, size) == Ok(Data(unwind)[at - 0x1000 + 312..at - 0x1000 + 312 + size])
  {
    hide Data;
    TwoSections(at, size, true);
  }

  lemma TwoSections(at: int, size: int, rawOnly: bool)
    ensures Holding(HEADERS.sections, at, size, rawOnly)
         == (if CODE_SECTION.Holds(at, size, rawOnly) then [CODE_SECTION] else [])
            + (if DATA_SECTION.Holds(at, size, rawOnly) then [DATA_SECTION] else [])
  {
    assert HEADERS.sections[1..] == [DATA_SECTION] && [DATA_SECTION][1..] == [];
    assert Holding([], at, size, rawOnly) == [];
    assert Holding([DATA_SECTION], at, size, rawOnly)
        == if DATA_SECTION.Holds(at, size, rawOnly) then [DATA_SECTION] else [];
  }

  lemma TableEntries(table: seq<byte>, unwind: byte)
    requires table == Data(unwind)[312..336]
    ensures MatchingEntries(table, 0x1080) == [RuntimeFunction(0x1080, 0x1093, 0x1000 + unwind)]
  {
    hide Data, U16, U32;
    var d, rest := Data(unwind), table[12..];
    assert rest == d[324..336];
    WordInside(d, 312, 336, 0);
    WordInside(d, 312, 336, 4);
    WordInside(d, 312, 336, 8);
    WordInside(d, 324, 336, 0);
    WordInside(d, 324, 336, 4);
    Reads(unwind, 312);
    Reads(unwind, 316);
    Reads(unwind, 320);
    Reads(unwind, 324);
    Reads(unwind, 328);
    assert rest[12..] == [] && MatchingEntries([], 0x1080) == [];
    assert MatchingEntries(rest, 0x1080) == [];
  }

  lemma WordInside(d: seq<byte>, from: nat, to: nat, at: nat)
    requires from + at + 4 <= to <= |d|
    ensures U32(d[from..to], at) == U32(d, from + at)
  {
  }

  lemma FunctionReads(unwind: byte)
    requires unwind == INSIDE || unwind == BEHIND
    ensures FullImage(Data(unwind), HEADERS).Valid()
    ensures Function(FullImage(Data(unwind), HEADERS), 0x1080) == Ok(Body(0x1093, 0x1000 + unwind, CODE))
  {
    hide At, SectionAt, MatchingEntries, Unwind.InfoSize, Unwind.Verdict, Data;
    RawQuery(unwind, 0x1000, 24);
    RawQuery(unwind, 0x1000 + unwind, 4);
    RawQuery(unwind, 0x1080, 19);
    TableEntries(Data(unwind)[312..336], unwind);
    NoOperations();
    BodyBytes(unwind);
  }

  lemma BodyBytes(unwind: byte)
    requires unwind == INSIDE || unwind == BEHIND
    ensures Data(unwind)[312 + unwind..316 + unwind] == [1, 0, 0, 0] && Data(unwind)[440..459] == CODE
  {
  }

  lemma NoOperations()
    ensures Unwind.InfoSize(0) == 4 && Unwind.Verdict([1, 0, 0, 0], 19).Pass?
  {
    var info: seq<byte> := [1, 0, 0, 0];
    assert Unwind.ParseCodes(info, 0, 0, 0, 0) == Ok([]);
  }

  // ----- the instructions -------------------------------------------------------------------------

  lemma LoadWellFormed(low: byte)
    ensures WellFormed(Load(low)) && Encode(Load(low)) == [0x8b, 0x05, low, 0x0f, 0, 0]
  {
    assert Encode(Load(low)) == [0x8b, 0x05, low, 0x0f, 0, 0];
  }

  lemma ReturnWellFormed()
    ensures WellFormed(RETURN) && Encode(RETURN) == [0xc3]
  {
    assert Encode(RETURN) == [0xc3];
  }

  lemma Displacement(low: byte)
    requires low < 128
    ensures Signed([low, 0x0f, 0, 0]) == low + 0x0f00
  {
    var d: seq<byte> := [low, 0x0f, 0, 0];
    assert d[1..] == [0x0f, 0, 0] && d[1..][1..] == [0, 0] && d[1..][1..][1..] == [0];
    assert LittleEndian([0]) == 0 && LittleEndian([0, 0]) == 0;
    assert LittleEndian([0x0f, 0, 0]) == 0x0f;
  }

  lemma CodePrinted()
    ensures AllWellFormed(INSNS) && EncodeAll(INSNS) == CODE
  {
    hide WellFormed, Encode;
    LoadWellFormed(0x7a);
    LoadWellFormed(0x7c);
    LoadWellFormed(0x7e);
    ReturnWellFormed();
    EncodeNext(RETURN, []);
    EncodeNext(Load(0x7e), [RETURN]);
    EncodeNext(Load(0x7c), [Load(0x7e), RETURN]);
    EncodeNext(Load(0x7a), [Load(0x7c), Load(0x7e), RETURN]);
    assert [Load(0x7e)] + [RETURN] == [Load(0x7e), RETURN];
    assert [Load(0x7c)] + [Load(0x7e), RETURN] == [Load(0x7c), Load(0x7e), RETURN];
    assert [Load(0x7a)] + [Load(0x7c), Load(0x7e), RETURN] == INSNS;
  }

  lemma EncodeNext(insn: Insn, rest: seq<Insn>)
    ensures EncodeAll([insn] + rest) == Encode(insn) + EncodeAll(rest) && EncodeAll([]) == []
  {
    hide Encode;
    assert ([insn] + rest)[1..] == rest;
  }

  lemma RowsPrinted()
    ensures RowsOf(INSNS, 0x1080) == ROWS
  {
    hide WellFormed, Encode, Signed;
    LoadWellFormed(0x7a);
    LoadWellFormed(0x7c);
    LoadWellFormed(0x7e);
    ReturnWellFormed();
    Displacement(0x7a);
    Displacement(0x7c);
    Displacement(0x7e);
    assert RowOf(Load(0x7a), 0x1080) == FIRST && RowOf(Load(0x7c), 0x1086) == SECOND && RowOf(Load(0x7e), 0x108c) == THIRD;
    assert RowOf(RETURN, 0x1092) == LAST;
    hide RowOf;
    var rest3, rest2, rest1 := [RETURN], [Load(0x7e), RETURN], [Load(0x7c), Load(0x7e), RETURN];
    assert INSNS[1..] == rest1 && rest1[1..] == rest2 && rest2[1..] == rest3 && rest3[1..] == [];
    assert RowsOf(rest3, 0x1092) == [LAST];
    assert RowsOf(rest2, 0x108c) == [THIRD, LAST];
    assert RowsOf(rest1, 0x1086) == [SECOND, THIRD, LAST];
  }

  lemma CodeDecodes()
    ensures DecodeRows(CODE, 0x1080) == Ok(ROWS)
  {
    hide AllWellFormed, EncodeAll, RowsOf, DecodeFrom;
    CodePrinted();
    DecodeIffPrinted(CODE, 0x1080, INSNS);
    RowsPrinted();
  }

  // ----- the inspection ---------------------------------------------------------------------------

  lemma Statics()
    ensures CheckCapability(CAPABILITY).Pass? && CheckStatics(HEADERS, CAPABILITY).Pass?
  {
    StaticAt(Fact(0x2000, 8));
    StaticAt(Fact(0x2008, 4));
    StaticAt(Fact(0x2010, 1058816));
  }

  lemma StaticAt(fact: Fact)
    requires 0x2000 <= fact.rva && 0 < fact.bytes && fact.rva + fact.bytes <= 0x2000 + 2_000_000
    ensures CheckStatic(HEADERS, fact).Pass?
  {
    TwoSections(fact.rva, fact.bytes, false);
  }

  lemma RowsIndexed()
    ensures ByAddress(ROWS) == map[0x1080 := FIRST, 0x1086 := SECOND, 0x108c := THIRD, 0x1092 := LAST]
  {
    assert ROWS[..3] == [FIRST, SECOND, THIRD] && [FIRST, SECOND, THIRD][..2] == [FIRST, SECOND];
    assert [FIRST, SECOND][..1] == [FIRST] && [FIRST][..0] == [];
    assert ByAddress([]) == map[];
    assert ByAddress([FIRST]) == map[0x1080 := FIRST];
    assert ByAddress([FIRST, SECOND]) == map[0x1080 := FIRST, 0x1086 := SECOND];
    assert ByAddress([FIRST, SECOND, THIRD]) == map[0x1080 := FIRST, 0x1086 := SECOND, 0x108c := THIRD];
  }

  lemma ReferencesResolve(index: map<int, Row>)
    ensures CheckRows(ROWS, index, CAPABILITY) == Ok({Sequence, Incomplete, Records})
  {
    hide CheckRows;
    assert CheckRow(FIRST, index, CAPABILITY) == Ok({Sequence});
    assert CheckRow(SECOND, index, CAPABILITY) == Ok({Incomplete});
    assert CheckRow(THIRD, index, CAPABILITY) == Ok({Records});
    assert [FIRST] + [SECOND] == [FIRST, SECOND] && [FIRST, SECOND] + [THIRD] == [FIRST, SECOND, THIRD];
    assert [] + [FIRST] == [FIRST] && [FIRST, SECOND, THIRD] + [LAST] == ROWS;
    var none: set<Static> := {};
    assert none + {Sequence} == {Sequence} && {Sequence, Incomplete, Records} + none == {Sequence, Incomplete, Records};
    assert {Sequence} + {Incomplete} == {Sequence, Incomplete};
    assert {Sequence, Incomplete} + {Records} == {Sequence, Incomplete, Records};
    CheckRowsNext([], {}, FIRST, {Sequence}, index);
    CheckRowsNext([FIRST], {Sequence}, SECOND, {Incomplete}, index);
    CheckRowsNext([FIRST, SECOND], {Sequence, Incomplete}, THIRD, {Records}, index);
    CheckRowsNext([FIRST, SECOND, THIRD], {Sequence, Incomplete, Records}, LAST, {}, index);
  }

  lemma CheckRowsNext(rows: seq<Row>, before: set<Static>, row: Row, found: set<Static>, index: map<int, Row>)
    requires rows == [] || CheckRows(rows, index, CAPABILITY) == Ok(before)
    requires rows == [] ==> before == {}
    requires CheckRow(row, index, CAPABILITY) == Ok(found)
    ensures CheckRows(rows + [row], index, CAPABILITY) == Ok(before + found)
  {
    assert (rows + [row])[..|rows|] == rows;
  }

  lemma EveryRowReached()
    ensures StaysOnRows(ByAddress(ROWS), 0x1080) && ReachableReturns(ByAddress(ROWS), 0x1080) == {0x1092}
  {
    RowsIndexed();
    var index := ByAddress(ROWS);
    var edges := Edges(index);
    hide ByAddress;
    assert edges(0x1080) == {0x1086} && edges(0x1086) == {0x108c} && edges(0x108c) == {0x1092} && edges(0x1092) == {};
    ReachesSelf(edges, 0x1080);
    ReachesStep(edges, 0x1080, 0x1080, 0x1086);
    ReachesStep(edges, 0x1080, 0x1086, 0x108c);
    ReachesStep(edges, 0x1080, 0x108c, 0x1092);
    ClosedIsReachable(index, 0x1080, {0x1080, 0x1086, 0x108c, 0x1092});
    assert ReachableReturns(index, 0x1080) == {0x1092};
  }

  /** The inspector accepts both images; what it retains starts with the table and the unwind information. */
  lemma Accepted(unwind: byte, digest: Digest)
    requires unwind == INSIDE || unwind == BEHIND
    ensures InspectCallback(Data(unwind), CAPABILITY, digest).Ok?
    ensures var proof := InspectCallback(Data(unwind), CAPABILITY, digest).value;
            && proof.begin == 0x1080 && proof.unwind == 0x1000 + unwind && proof.instructions == ROWS
            && |proof.runtimeFunctions| == 24 && |proof.unwindInfo| == 4
  {
    hide ParseHeaders, CheckCapability, CheckStatics, Function, DecodeRows, CheckRows, ByAddress, StaysOnRows,
         ReachableReturns, At, Unwind.InfoSize, Data;
    HeadersRead(unwind);
    Statics();
    FunctionReads(unwind);
    CodeDecodes();
    ReferencesResolve(ByAddress(ROWS));
    EveryRowReached();
    Retains(unwind, digest, |ReachableRows(ByAddress(ROWS), 0x1080)|, |ReachableReturns(ByAddress(ROWS), 0x1080)|);
  }

  lemma Retains(unwind: byte, digest: Digest, reachable: nat, returnCount: nat)
    requires unwind == INSIDE || unwind == BEHIND
    ensures FullImage(Data(unwind), HEADERS).Valid()
    ensures var r := Retain(FullImage(Data(unwind), HEADERS), CAPABILITY, digest(Data(unwind)), digest,
                            Body(0x1093, 0x1000 + unwind, CODE), ROWS, reachable, returnCount);
              && r.Ok? && r.value.begin == 0x1080 && r.value.unwind == 0x1000 + unwind && r.value.instructions == ROWS
              && |r.value.runtimeFunctions| == 24 && |r.value.unwindInfo| == 4
  {
    hide At, Unwind.InfoSize, Data;
    RawQuery(unwind, 0x1000, 24);
    RawQuery(unwind, 0x1000 + unwind, 4);
    NoOperations();
    BodyBytes(unwind);
  }

  lemma CodeJoins()
    ensures |JoinBytes(ROWS)| == 19
  {
    hide DecodeRows;
    CodeDecodes();
    DecodedRowsTile(CODE, 0x1080);
  }

  /** Unwind information inside the runtime-function table: accepted, and its proof is refused. */
  lemma OverlappingProofRefused(digest: Digest)
    ensures InspectCallback(Data(INSIDE), CAPABILITY, digest).Ok?
    ensures IsHexDigest(digest(Data(INSIDE))) ==>
              ValidateProof(InspectCallback(Data(INSIDE), CAPABILITY, digest).value, CAPABILITY, digest(Data(INSIDE)), digest)
              == Refused(CallbackProofRegion)
  {
    hide InspectCallback, ParseHeaders, ValidateProof, JoinBytes, Data;
    Accepted(INSIDE, digest);
    if IsHexDigest(digest(Data(INSIDE))) {
      ProofRoundTrip(Data(INSIDE), CAPABILITY, digest);
      HeadersRead(INSIDE);
    }
  }

  /** Unwind information behind the table: accepted, and so is its proof. */
  lemma SeparateProofAccepted(digest: Digest)
    ensures InspectCallback(Data(BEHIND), CAPABILITY, digest).Ok?
    ensures IsHexDigest(digest(Data(BEHIND))) ==>
              ValidateProof(InspectCallback(Data(BEHIND), CAPABILITY, digest).value, CAPABILITY, digest(Data(BEHIND)), digest)
              == InspectCallback(Data(BEHIND), CAPABILITY, digest)
  {
    hide InspectCallback, ParseHeaders, ValidateProof, JoinBytes, Data;
    Accepted(BEHIND, digest);
    if IsHexDigest(digest(Data(BEHIND))) {
      ProofRoundTrip(Data(BEHIND), CAPABILITY, digest);
      HeadersRead(BEHIND);
      CodeJoins();
    }
  }
}
