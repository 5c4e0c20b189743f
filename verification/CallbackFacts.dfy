/** What acceptance says about the image itself: its sections, its runtime function and the retained facts. */
module CallbackFacts {
  import opened Wrappers
  import opened Bytes
  import opened CallbackReasons
  import opened Instructions
  import opened Decoder
  import opened ControlFlow
  import opened Reachability
  import opened PeImage
  import opened CallbackProof
  import opened CallbackRoundTrip
  import Unwind

  // ----- sections -------------------------------------------------------------------------------

  /** Bit 29 of the section flags: the section can be executed. */
  predicate Executable(section: Section) {
    section.flags / 0x2000_0000 % 2 == 1
  }

  /** Bit 31 of the section flags: the section can be written. */
  predicate Writable(section: Section) {
    section.flags / 0x8000_0000 % 2 == 1
  }

  /** The range lies in one section only; `raw` leaves out what only exists in memory. */
  predicate Inside(section: Section, sections: seq<Section>, at: int, size: int, raw: bool) {
    && section in sections && size > 0 && section.rva <= at
    && (if raw then at + size <= section.rva + section.rawSize
        else at + size <= section.rva + section.rawSize || at + size <= section.rva + section.virtualSize)
    && forall other | other in sections && other.rva <= at
                      && (at + size <= other.rva + other.rawSize
                          || (!raw && at + size <= other.rva + other.virtualSize)) :: other == section
  }

  lemma SectionIs(h: Headers, at: int, size: int, raw: bool)
    requires SectionAt(h, at, size, raw).Ok?
    ensures Inside(SectionAt(h, at, size, raw).value, h.sections, at, size, raw)
  {
    var section := SectionAt(h, at, size, raw).value;
    forall other | other in h.sections && other.rva <= at
                   && (at + size <= other.rva + other.rawSize || (!raw && at + size <= other.rva + other.virtualSize))
      ensures other == section
    {
      assert other.Holds(at, size, raw);
    }
  }

  /** The three statics of a capability, with their sizes in memory. */
  function StaticRanges(c: Capability): seq<(int, int)> {
    [(c.sequence.rva, 8), (c.incomplete.rva, 4), (c.records.rva, 1058816)]
  }

  ghost predicate CodeProtected(h: Headers, begin: int, end: int) {
    exists s :: Inside(s, h.sections, begin, end - begin, true) && Executable(s) && !Writable(s)
  }

  ghost predicate StaticProtected(h: Headers, at: int, size: int) {
    exists s :: Inside(s, h.sections, at, size, false) && Writable(s) && !Executable(s)
  }

  lemma StaticIs(h: Headers, fact: Fact)
    requires CheckStatic(h, fact).Pass?
    ensures StaticProtected(h, fact.rva, fact.bytes)
  {
    hide Inside;
    SectionIs(h, fact.rva, fact.bytes, false);
  }

  lemma FunctionProtected(image: Image, start: int)
    requires image.Valid() && Function(image, start).Ok?
    ensures CodeProtected(image.headers, start, Function(image, start).value.end)
  {
    hide Function, Inside, SectionAt;
    FunctionSection(image, start);
    SectionIs(image.headers, start, Function(image, start).value.end - start, true);
  }

  lemma FunctionSection(image: Image, start: int)
    requires image.Valid() && Function(image, start).Ok?
    ensures var section := SectionAt(image.headers, start, Function(image, start).value.end - start, true);
            section.Ok? && Executable(section.value) && !Writable(section.value)
  {
    hide At, Unwind.Verdict, Unwind.InfoSize, MatchingEntries, SectionAt;
  }

  lemma StaticsProtected(h: Headers, c: Capability)
    requires CheckCapability(c).Pass? && CheckStatics(h, c).Pass?
    ensures c.sequence.bytes == 8 && c.incomplete.bytes == 4 && c.records.bytes == 1058816
    ensures forall i | 0 <= i < 3 :: StaticProtected(h, StaticRanges(c)[i].0, StaticRanges(c)[i].1)
    ensures forall i, j | 0 <= i < j < 3 ::
              var a, b := StaticRanges(c)[i], StaticRanges(c)[j]; a.0 + a.1 <= b.0 || b.0 + b.1 <= a.0
  {
    hide StaticProtected, CheckStatic;
    StaticIs(h, c.sequence);
    StaticIs(h, c.incomplete);
    StaticIs(h, c.records);
  }

  lemma CapabilitySteps(image: Image, c: Capability, sha: string, digest: Digest)
    requires image.Valid() && image.headers.headerEnd <= |image.data| && Inspection(image, c, sha, digest).Ok?
    ensures CheckCapability(c).Pass? && CheckStatics(image.headers, c).Pass?
  {
    hide CheckCapability, CheckStatics, Function, InspectRows, DecodeRows;
  }

  /**
   An accepted callback lies in one executable section that cannot be written; its three statics have their sizes, do not
   overlap, and lie each in one writable section that cannot be executed.
   */
  lemma AcceptedIsProtected(image: Image, c: Capability, sha: string, digest: Digest)
    requires image.Valid() && image.headers.headerEnd <= |image.data| && Inspection(image, c, sha, digest).Ok?
    ensures var proof := Inspection(image, c, sha, digest).value;
            && CodeProtected(image.headers, proof.begin, proof.end)
            && c.sequence.bytes == 8 && c.incomplete.bytes == 4 && c.records.bytes == 1058816
            && (forall i | 0 <= i < 3 :: StaticProtected(image.headers, StaticRanges(c)[i].0, StaticRanges(c)[i].1))
            && (forall i, j | 0 <= i < j < 3 ::
                  var a, b := StaticRanges(c)[i], StaticRanges(c)[j]; a.0 + a.1 <= b.0 || b.0 + b.1 <= a.0)
  {
    hide Inspection, Function, DecodeRows, CheckRows, ByAddress, StaysOnRows, ReachableReturns, Retain, StaticProtected,
         CodeProtected, CheckStatics, CheckCapability;
    CapabilitySteps(image, c, sha, digest);
    InspectionSteps(image, c, sha, digest);
    FunctionProtected(image, c.rva);
    StaticsProtected(image.headers, c);
  }

  // ----- the runtime function -------------------------------------------------------------------

  /** The range of entry `k` of the runtime-function table holds `start`. */
  predicate Covers(table: seq<byte>, k: nat, start: int)
    requires 12 * k + 12 <= |table|
  {
    U32(table, 12 * k) <= start < U32(table, 12 * k + 4)
  }

  function EntryAt(table: seq<byte>, k: nat): RuntimeFunction
    requires 12 * k + 12 <= |table|
  {
    RuntimeFunction(U32(table, 12 * k), U32(table, 12 * k + 4), U32(table, 12 * k + 8))
  }

  lemma ShiftedEntry(table: seq<byte>, k: nat)
    requires |table| % 12 == 0 && 12 * k + 24 <= |table|
    ensures EntryAt(table[12..], k) == EntryAt(table, k + 1)
  {
  }

  lemma {:induction false} NoMatch(table: seq<byte>, start: int)
    requires |table| % 12 == 0
    ensures MatchingEntries(table, start) == [] <==> forall k: nat | k < |table| / 12 :: !Covers(table, k, start)
  {
    hide Covers;
    if table != [] {
      var rest := table[12..];
      NoMatch(rest, start);
      FirstCovers(table, start);
      forall k: nat | k < |rest| / 12 ensures Covers(rest, k, start) == Covers(table, k + 1, start) {
        CoversShift(table, k, start);
      }
      if MatchingEntries(table, start) == [] {
        forall k: nat | k < |table| / 12 ensures !Covers(table, k, start) {
          if k > 0 {
            assert !Covers(rest, k - 1, start);
          }
        }
      } else if !Covers(table, 0, start) {
        var k: nat :| k < |rest| / 12 && Covers(rest, k, start);
        assert Covers(table, k + 1, start);
      }
    }
  }

  lemma FirstCovers(table: seq<byte>, start: int)
    requires |table| % 12 == 0 && table != []
    ensures MatchingEntries(table, start) ==
            (if Covers(table, 0, start) then [EntryAt(table, 0)] else []) + MatchingEntries(table[12..], start)
  {
    hide U32;
  }

  lemma CoversShift(table: seq<byte>, k: nat, start: int)
    requires |table| % 12 == 0 && 12 * k + 24 <= |table|
    ensures Covers(table[12..], k, start) == Covers(table, k + 1, start)
  {
    ShiftedEntry(table, k);
  }

  /** Entry `k` is the only one that holds `start`. */
  predicate OnlyCover(table: seq<byte>, k: nat, start: int) {
    && k < |table| / 12 && Covers(table, k, start)
    && forall j: nat | j < |table| / 12 && j != k :: !Covers(table, j, start)
  }

  /** One match is the one covering entry. */
  lemma {:induction false} MatchesAre(table: seq<byte>, start: int)
    requires |table| % 12 == 0 && |MatchingEntries(table, start)| == 1
    ensures exists k: nat :: OnlyCover(table, k, start) && EntryAt(table, k) == MatchingEntries(table, start)[0]
  {
    hide Covers, EntryAt;
    var rest := table[12..];
    FirstCovers(table, start);
    forall k: nat | k < |rest| / 12 ensures Covers(rest, k, start) == Covers(table, k + 1, start) {
      CoversShift(table, k, start);
    }
    if Covers(table, 0, start) {
      NoMatch(rest, start);
      forall j: nat | j < |table| / 12 && j != 0 ensures !Covers(table, j, start) {
        assert !Covers(rest, j - 1, start);
      }
      assert OnlyCover(table, 0, start);
    } else {
      MatchesAre(rest, start);
      var k: nat :| OnlyCover(rest, k, start) && EntryAt(rest, k) == MatchingEntries(rest, start)[0];
      ShiftedEntry(table, k);
      forall j: nat | j < |table| / 12 && j != k + 1 ensures !Covers(table, j, start) {
        if j > 0 {
          assert !Covers(rest, j - 1, start);
        }
      }
      assert OnlyCover(table, k + 1, start);
    }
  }

  /** The one entry of the table that covers the callback starts at it and names its end and its unwind information. */
  ghost predicate EntryOf(table: seq<byte>, begin: int, end: int, unwind: int) {
    exists k: nat ::
      && OnlyCover(table, k, begin)
      && U32(table, 12 * k) == begin && U32(table, 12 * k + 4) == end && U32(table, 12 * k + 8) == unwind
  }

  lemma FunctionEntry(image: Image, start: int)
    requires image.Valid() && Function(image, start).Ok?
    ensures var body, h := Function(image, start).value, image.headers;
            && At(image, h.exceptionRva, h.exceptionSize).Ok?
            && EntryOf(At(image, h.exceptionRva, h.exceptionSize).value, start, body.end, body.unwind)
            && body.unwind % 4 == 0 && 0 < body.end - start <= 32768
  {
    hide At, Unwind.Verdict, Unwind.InfoSize, MatchingEntries, SectionAt, HasFlag, U32;
    var table := At(image, image.headers.exceptionRva, image.headers.exceptionSize).value;
    assert |table| % 12 == 0;
    MatchesAre(table, start);
  }

  lemma FunctionUnwind(image: Image, start: int)
    requires image.Valid() && Function(image, start).Ok?
    ensures var body := Function(image, start).value;
            && At(image, body.unwind, 4).Ok?
            && var info := At(image, body.unwind, Unwind.InfoSize(At(image, body.unwind, 4).value[2]));
               info.Ok? && Unwind.Verdict(info.value, body.end - start).Pass?
  {
    hide At, Unwind.Verdict, Unwind.InfoSize, MatchingEntries, SectionAt, HasFlag;
  }

  /** Some admitted list of unwind operations prints to the information. */
  ghost predicate UnwindDescribed(info: seq<byte>, functionSize: nat) {
    exists codes :: Unwind.Describes(codes, info, functionSize)
  }

  // ----- the proof ------------------------------------------------------------------------------

  /**
   Every field of the proof of an accepted callback: the capability and executable it was made for, the function that the
   table names, its accepted unwind information, the digest of its code, and the counts of its rows.
   */
  lemma ProofFields(image: Image, c: Capability, sha: string, digest: Digest)
    requires image.Valid() && image.headers.headerEnd <= |image.data| && Inspection(image, c, sha, digest).Ok?
    ensures var proof := Inspection(image, c, sha, digest).value;
            var rows := proof.instructions;
            && proof.executableSha == sha && proof.executableBytes == image.fileSize && proof.capability == c
            && proof.begin == c.rva && proof.headers == image.data[..image.headers.headerEnd]
            && EntryOf(proof.runtimeFunctions, proof.begin, proof.end, proof.unwind)
            && UnwindDescribed(proof.unwindInfo, proof.end - proof.begin)
            && proof.callbackSha == digest(JoinBytes(rows)) && |JoinBytes(rows)| == proof.end - proof.begin
            && proof.decoded == |rows| <= 20000
            && proof.reachable == |ReachableRows(ByAddress(rows), proof.begin)|
            && proof.reachableReturns == |ReachableReturns(ByAddress(rows), proof.begin)| > 0
  {
    hide Inspection, Function, DecodeRows, CheckRows, ByAddress, Tiles, At, JoinBytes, StaysOnRows, Retain, EntryOf,
         Unwind.Verdict, Unwind.Describes, Unwind.InfoSize, ReachableRows, ReachableReturns;
    InspectionSteps(image, c, sha, digest);
    AcceptedReads(image, c, sha, digest);
    FunctionEntry(image, c.rva);
    FunctionUnwind(image, c.rva);
    var body := Function(image, c.rva).value;
    var proof := Inspection(image, c, sha, digest).value;
    RetainCounts(image, c, sha, digest, body, proof.instructions,
                 |ReachableRows(ByAddress(proof.instructions), c.rva)|, |ReachableReturns(ByAddress(proof.instructions), c.rva)|);
    Unwind.AcceptedIffDescribed(proof.unwindInfo, proof.end - proof.begin);
    BodySize(image, c.rva);
  }

  lemma BodySize(image: Image, start: int)
    requires image.Valid() && Function(image, start).Ok?
    ensures Function(image, start).value.end - start == |Function(image, start).value.code|
  {
    hide Function;
  }

  lemma RetainCounts(image: Image, c: Capability, sha: string, digest: Digest, body: Body, rows: seq<Row>,
                     reachable: nat, returnCount: nat)
    requires image.Valid() && image.headers.headerEnd <= |image.data|
    requires Retain(image, c, sha, digest, body, rows, reachable, returnCount).Ok?
    ensures var proof := Retain(image, c, sha, digest, body, rows, reachable, returnCount).value;
            && proof.callbackSha == digest(body.code) && proof.decoded == |rows| && proof.reachable == reachable
            && proof.reachableReturns == returnCount && proof.capability == c
  {
    hide At;
  }
}
