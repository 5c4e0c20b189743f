/**
 The callback inspector and its retained proof (`inspect_callback`, `_inspect_image`, `validate_proof`).

 SHA-256 is the parameter `digest`. A proof is compared as a value, where the original compares
 canonical JSON.
 */
module CallbackProof {
  import opened Wrappers
  import opened Bytes
  import opened CallbackReasons
  import opened Instructions
  import opened Decoder
  import opened ControlFlow
  import opened Reachability
  import opened PeImage
  import Unwind

  type Digest = seq<byte> -> string

  datatype Static = Sequence | Incomplete | Records

  datatype Fact = Fact(rva: int, bytes: int) {
    predicate Holds(address: int) {
      rva <= address < rva + bytes
    }
  }

  datatype Capability = Capability(rva: int, sequence: Fact, incomplete: Fact, records: Fact) {
    function Facts(s: Static): Fact {
      match s
      case Sequence => sequence
      case Incomplete => incomplete
      case Records => records
    }
  }

  function StaticSize(s: Static): nat {
    match s
    case Sequence => 8
    case Incomplete => 4
    case Records => 1058816
  }

  predicate IsU32(value: int) {
    0 <= value < 0x1_0000_0000
  }

  function CheckFact(fact: Fact, s: Static): Outcome<Reason> {
    if !IsU32(fact.rva) then Fail(CallbackStaticRva)
    else Need(fact.bytes == StaticSize(s) && fact.rva + StaticSize(s) <= 0x1_0000_0000, CallbackStaticLayout)
  }

  /** `validate_capability`, from the typed fields on. */
  function CheckCapability(c: Capability): Outcome<Reason> {
    if !IsU32(c.rva) then Fail(CallbackRva)
    else
      var first, second := CheckFact(c.sequence, Sequence), CheckFact(c.incomplete, Incomplete);
      if first.Fail? then first else if second.Fail? then second else CheckFact(c.records, Records)
  }

  function CheckStatic(h: Headers, fact: Fact): Outcome<Reason> {
    match SectionAt(h, fact.rva, fact.bytes, false)
    case Refused(reason) => Fail(reason)
    case Ok(section) =>
      Need(HasFlag(section.flags, WRITE) && !HasFlag(section.flags, EXECUTE), StaticWritableNonexecutable)
  }

  predicate Apart(a: Fact, b: Fact) {
    a.rva + a.bytes <= b.rva || b.rva + b.bytes <= a.rva
  }

  function CheckStatics(h: Headers, c: Capability): Outcome<Reason> {
    var first, second, third := CheckStatic(h, c.sequence), CheckStatic(h, c.incomplete), CheckStatic(h, c.records);
    if first.Fail? then first else if second.Fail? then second else if third.Fail? then third
    else Need(Apart(c.sequence, c.incomplete) && Apart(c.sequence, c.records) && Apart(c.incomplete, c.records),
              NonoverlappingNamedStatics)
  }

  // ----- references -------------------------------------------------------------------------------

  function Matches(c: Capability, address: int): (found: seq<Static>)
    ensures forall s :: s in found <==> c.Facts(s).Holds(address)
  {
    (if c.sequence.Holds(address) then [Sequence] else [])
    + (if c.incomplete.Holds(address) then [Incomplete] else [])
    + (if c.records.Holds(address) then [Records] else [])
  }

  /** The references of one row: a branch target must be a row, a RIP-relative operand exactly one static. */
  function CheckRow(row: Row, index: map<int, Row>, c: Capability): Result<set<Static>, Reason> {
    if row.target.Some? && row.target.value !in index then Refused(BranchOutsideFunctionOrIntoInstruction)
    else if row.ripTarget.None? then Ok({})
    else
      var found := Matches(c, row.ripTarget.value);
      if |found| == 1 then Ok({found[0]}) else Refused(UnknownRipRelativeReference)
  }

  function CheckRows(rows: seq<Row>, index: map<int, Row>, c: Capability): Result<set<Static>, Reason> {
    if rows == [] then Ok({})
    else
      var before :- CheckRows(rows[..|rows| - 1], index, c);
      var last :- CheckRow(rows[|rows| - 1], index, c);
      Ok(before + last)
  }

  lemma {:induction false} CheckRowsEach(rows: seq<Row>, index: map<int, Row>, c: Capability)
    requires CheckRows(rows, index, c).Ok?
    ensures forall row | row in rows :: CheckRow(row, index, c).Ok?
    ensures forall s :: s in CheckRows(rows, index, c).value <==>
                        exists row :: row in rows && s in CheckRow(row, index, c).value
  {
    hide CheckRow;
    if rows != [] {
      CheckRowsEach(rows[..|rows| - 1], index, c);
      var front, last := rows[..|rows| - 1], rows[|rows| - 1];
      assert forall row :: row in rows <==> row in front || row == last;
    }
  }

  lemma {:induction false} CheckRowsPrefix(rows: seq<Row>, n: nat, index: map<int, Row>, c: Capability)
    requires n <= |rows| && CheckRows(rows[..n], index, c).Refused?
    ensures CheckRows(rows, index, c) == Refused(CheckRows(rows[..n], index, c).reason)
    decreases |rows|
  {
    if n < |rows| {
      assert rows[..|rows| - 1][..n] == rows[..n];
      CheckRowsPrefix(rows[..|rows| - 1], n, index, c);
    } else {
      assert rows[..n] == rows;
    }
  }

  method CheckReferences(rows: seq<Row>, index: map<int, Row>, c: Capability) returns (r: Result<set<Static>, Reason>)
    ensures r == CheckRows(rows, index, c)
  {
    hide CheckRow;
    var seen: set<Static> := {};
    for i := 0 to |rows|
      invariant CheckRows(rows[..i], index, c) == Ok(seen)
    {
      assert rows[..i + 1][..i] == rows[..i];
      var found := CheckRow(rows[i], index, c);
      if found.Refused? {
        CheckRowsPrefix(rows, i + 1, index, c);
        return Refused(found.reason);
      }
      seen := seen + found.value;
    }
    assert rows[..|rows|] == rows;
    r := Ok(seen);
  }

  // ----- inspection -------------------------------------------------------------------------------

  datatype Proof = Proof(
    executableSha: string, executableBytes: int, capability: Capability,
    begin: int, end: int, unwind: int, callbackSha: string,
    headers: seq<byte>, runtimeFunctions: seq<byte>, unwindInfo: seq<byte>,
    instructions: seq<Row>, reachable: nat, decoded: nat, reachableReturns: nat)

  /** What is retained of an accepted image, given its body and rows. */
  function Retain(image: Image, c: Capability, sha: string, digest: Digest, body: Body, rows: seq<Row>,
                  reachable: nat, returnCount: nat): Result<Proof, Reason>
    requires image.Valid() && image.headers.headerEnd <= |image.data|
  {
    var h := image.headers;
    var table :- At(image, h.exceptionRva, h.exceptionSize);
    var header :- At(image, body.unwind, 4);
    var info :- At(image, body.unwind, Unwind.InfoSize(header[2]));
    Ok(Proof(sha, image.fileSize, c, c.rva, body.end, body.unwind, digest(body.code), image.data[..h.headerEnd], table,
             info, rows, reachable, |rows|, returnCount))
  }

  /** The checks on decoded rows, and the proof. */
  ghost function InspectRows(image: Image, c: Capability, sha: string, digest: Digest, body: Body, rows: seq<Row>)
    : Result<Proof, Reason>
    requires image.Valid() && image.headers.headerEnd <= |image.data|
  {
    var index := ByAddress(rows);
    :- Need(|rows| <= 20000, InstructionCountBound);
    var seen :- CheckRows(rows, index, c);
    :- Need(StaysOnRows(index, c.rva), FallthroughOutsideFunction);
    :- Need(|ReachableReturns(index, c.rva)| > 0 && seen == {Sequence, Incomplete, Records},
            ReturnAndAllNamedStaticsRequired);
    Retain(image, c, sha, digest, body, rows, |ReachableRows(index, c.rva)|, |ReachableReturns(index, c.rva)|)
  }

  /** `_inspect_image` as a function of the image. */
  ghost function Inspection(image: Image, c: Capability, sha: string, digest: Digest): Result<Proof, Reason>
    requires image.Valid() && image.headers.headerEnd <= |image.data|
  {
    var capability := CheckCapability(c);
    if capability.Fail? then Refused(capability.error)
    else
      :- CheckStatics(image.headers, c);
      var body :- Function(image, c.rva);
      var rows :- DecodeRows(body.code, c.rva);
      InspectRows(image, c, sha, digest, body, rows)
  }

  lemma DecodedIndex(code: seq<byte>, base: int)
    requires DecodeRows(code, base).Ok?
    ensures var rows := DecodeRows(code, base).value;
            && Tiles(rows, base, base + |code|) && JoinBytes(rows) == code
            && (forall i | 0 <= i < |rows| :: rows[i].rva in ByAddress(rows) && ByAddress(rows)[rows[i].rva] == rows[i])
            && (forall a | a in ByAddress(rows) :: ByAddress(rows)[a] in rows && ByAddress(rows)[a].rva == a)
  {
    hide DecodeRows, ByAddress, Tiles;
    var rows := DecodeRows(code, base).value;
    DecodedRowsTile(code, base);
    TilesOrdered(rows, base, base + |code|);
    TilesSizes(rows, base, base + |code|);
    ByAddressFinds(rows);
  }

  lemma {:induction false} TilesSizes(rows: seq<Row>, from: int, to: int)
    requires Tiles(rows, from, to)
    ensures forall row | row in rows :: 1 <= row.size <= 15 && |row.bytes| == row.size
  {
    if rows != [] {
      TilesSizes(rows[1..], from + rows[0].size, to);
    }
  }

  method InspectImage(image: Image, c: Capability, sha: string, digest: Digest) returns (r: Result<Proof, Reason>)
    requires image.Valid() && image.headers.headerEnd <= |image.data|
    ensures r == Inspection(image, c, sha, digest)
  {
    hide CheckCapability, CheckStatics, Function, DecodeRows, CheckRows, ByAddress, Tiles, JoinBytes, Retain,
         ReachableRows, ReachableReturns, StaysOnRows;
    var capability := CheckCapability(c);
    if capability.Fail? {
      return Refused(capability.error);
    }
    var statics := CheckStatics(image.headers, c);
    if statics.Fail? {
      return Refused(statics.error);
    }
    var body := Function(image, c.rva);
    if body.Refused? {
      return Refused(body.reason);
    }
    var rows := Decode(body.value.code, c.rva);
    if rows.Refused? {
      return Refused(rows.reason);
    }
    DecodedIndex(body.value.code, c.rva);
    var index := ByAddress(rows.value);
    if |rows.value| > 20000 {
      return Refused(InstructionCountBound);
    }
    var seen := CheckReferences(rows.value, index, c);
    if seen.Refused? {
      return Refused(seen.reason);
    }
    var explored := Explore(index, c.rva);
    if explored.Refused? {
      return Refused(explored.reason);
    }
    var (reachable, returnCount) := explored.value;
    if !(returnCount > 0 && seen.value == {Sequence, Incomplete, Records}) {
      return Refused(ReturnAndAllNamedStaticsRequired);
    }
    r := Retain(image, c, sha, digest, body.value, rows.value, |reachable|, returnCount);
  }
}
