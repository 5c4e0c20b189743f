/**
 Where decoded branches and RIP-relative operands lead, read off the bytes of a row: the kind and the target of every
 row, and the printer of a branch to a given address, which the decoder inverts.
 */
module BranchTargets {
  import opened Wrappers
  import opened Bytes
  import opened CallbackReasons
  import opened Instructions
  import opened Decoder

  // ----- displacements --------------------------------------------------------------------------

  /** The four bytes at `at` as an unsigned number. */
  function Word(b: seq<byte>, at: nat): nat
    requires at + 4 <= |b|
  {
    var b0: int, b1: int, b2: int, b3: int := b[at], b[at + 1], b[at + 2], b[at + 3];
    b0 + 0x100 * b1 + 0x1_0000 * b2 + 0x100_0000 * b3
  }

  /** The signed 8-bit number with these bits. */
  predicate Means8(d: int, bits: byte) {
    -0x80 <= d < 0x80 && (d - bits) % 0x100 == 0
  }

  /** The signed 32-bit number with these bits. */
  predicate Means32(d: int, bits: int) {
    -0x8000_0000 <= d < 0x8000_0000 && (d - bits) % 0x1_0000_0000 == 0
  }

  lemma SignedByte(b: seq<byte>)
    requires |b| == 1
    ensures Means8(Signed(b), b[0])
  {
    assert b[1..] == [] && LittleEndian([]) == 0 && LittleEndian(b) == b[0];
    assert Power256(0) == 1 && Power256(1) == 256;
  }

  lemma SignedWord(b: seq<byte>)
    requires |b| == 4
    ensures Means32(Signed(b), Word(b, 0))
  {
    var b1, b2, b3 := b[1..], b[2..], b[3..];
    assert b1[1..] == b2 && b2[1..] == b3 && b3[1..] == [];
    assert LittleEndian([]) == 0 && LittleEndian(b3) == b[3];
    assert LittleEndian(b2) == b[2] + 256 * LittleEndian(b3);
    assert LittleEndian(b1) == b[1] + 256 * LittleEndian(b2);
    assert LittleEndian(b) == Word(b, 0);
    assert Power256(1) == 256 && Power256(2) == 0x1_0000 && Power256(3) == 0x100_0000 && Power256(4) == 0x1_0000_0000;
  }

  /** A signed number is determined by its bits. */
  lemma MeansOne(d: int, e: int, bits: int)
    ensures Means32(d, bits) && Means32(e, bits) ==> d == e
    ensures 0 <= bits < 256 && Means8(d, bits) && Means8(e, bits) ==> d == e
  {
  }

  // ----- the bytes of a row ---------------------------------------------------------------------

  /** The size of the displacement of a branch with these bytes, or 0 for any other instruction. */
  function BranchWidth(b: seq<byte>): nat {
    if |b| >= 2 && (b[0] == 0xeb || 0x70 <= b[0] <= 0x7f) then 1
    else if |b| >= 5 && (b[0] == 0xe9 || (b[0] == 0x0f && 0x80 <= b[1] <= 0x8f)) then 4
    else 0
  }

  predicate IsJump(b: seq<byte>) {
    BranchWidth(b) > 0 && (b[0] == 0xe9 || b[0] == 0xeb)
  }

  /** The number of prefix and REX bytes before the opcode. */
  function Lead(b: seq<byte>): (n: nat)
    ensures n <= |b|
  {
    if b != [] && (b[0] in {0x66, 0x2e, 0xf0, 0xf2, 0xf3} || 0x40 <= b[0] <= 0x4f) then 1 + Lead(b[1..]) else 0
  }

  /** The position after the opcode. */
  function AfterOpcode(b: seq<byte>): nat {
    var n := Lead(b);
    if n < |b| && b[n] == 0x0f then n + 2 else n + 1
  }

  predicate IsReturn(b: seq<byte>) {
    Lead(b) < |b| && b[Lead(b)] == 0xc3
  }

  lemma {:induction false} LeadOf(front: seq<byte>, rest: seq<byte>)
    requires forall x | x in front :: IsPrefix(x) || IsRex(x)
    requires rest != [] && !IsPrefix(rest[0]) && !IsRex(rest[0])
    ensures Lead(front + rest) == |front|
  {
    if front == [] {
      assert front + rest == rest;
    } else {
      assert front[0] in front && (front + rest)[0] == front[0] && (front + rest)[1..] == front[1..] + rest;
      LeadOf(front[1..], rest);
      assert Lead(front + rest) == 1 + Lead((front + rest)[1..]);
    }
  }

  /** Only bytes before the opcode are counted. */
  lemma LeadIsPrefix(b: seq<byte>)
    requires Lead(b) > 0
    ensures IsPrefix(b[0]) || IsRex(b[0])
  {
  }

  /** The bytes of an admitted instruction, part by part. */
  lemma Parts(insn: Insn)
    requires WellFormed(insn)
    ensures var b := Encode(insn);
            && Lead(b) == |insn.prefixes| + |RexBytes(insn.rex)| && AfterOpcode(b) == |HeadBytes(insn)| <= |b|
            && b[Lead(b)..] == OpcodeBytes(insn.opcode) + TailBytes(insn) && b[AfterOpcode(b)..] == TailBytes(insn)
    ensures IsOpcode(insn.opcode) && (insn.opcode < 0x100 ==> insn.opcode != 0x0f)
  {
    hide Classify, PrefixesAdmitted, ExtensionAllowed, LockAdmitted, RepeatAdmitted, MmxAdmitted, IsBranch, TailBytes;
    ClassifiedOpcode(insn.opcode, Width(insn.prefixes, insn.rex), 0x66 in insn.prefixes && insn.rex / 8 % 2 == 1, 0);
    var front, rest := insn.prefixes + RexBytes(insn.rex), OpcodeBytes(insn.opcode) + TailBytes(insn);
    LeadOf(front, rest);
    var b := Encode(insn);
    assert b == front + rest;
    assert b[|front|..] == rest && b[|front|] == rest[0];
    assert rest[|OpcodeBytes(insn.opcode)|..] == TailBytes(insn);
    assert b[|front| + |OpcodeBytes(insn.opcode)|..] == rest[|OpcodeBytes(insn.opcode)|..];
  }

  /** A branch has neither prefixes nor operands: its bytes are its opcode and its displacement. */
  lemma BranchBytes(insn: Insn)
    requires WellFormed(insn) && IsBranch(insn.opcode)
    ensures Encode(insn) == OpcodeBytes(insn.opcode) + insn.imm
    ensures |insn.imm| == if insn.opcode == 0xe9 || insn.opcode >= 0x0f80 then 4 else 1
  {
    assert RexBytes(insn.rex) == [] && TailBytes(insn) == insn.imm;
    assert HeadBytes(insn) == OpcodeBytes(insn.opcode);
  }

  /** The first bytes of an admitted instruction. */
  lemma FirstBytes(insn: Insn)
    requires WellFormed(insn)
    ensures var b, opcode := Encode(insn), insn.opcode;
            && Lead(b) < |b| && opcode != 0x0f && (b[Lead(b)] == 0x0f <==> opcode >= 0x100)
            && (opcode < 0x100 ==> b[Lead(b)] == opcode)
            && (opcode >= 0x100 ==> Lead(b) + 1 < |b| && 0x0f00 <= opcode < 0x1000 && b[Lead(b) + 1] == opcode - 0x0f00)
  {
    Parts(insn);
    hide WellFormed, Encode, TailBytes, HeadBytes, Lead;
    var b := Encode(insn);
    var rest := OpcodeBytes(insn.opcode) + TailBytes(insn);
    assert |rest| == |b| - Lead(b) && b[Lead(b)] == b[Lead(b)..][0] == rest[0];
    if insn.opcode >= 0x100 {
      assert b[Lead(b) + 1] == b[Lead(b)..][1] == rest[1];
    }
  }

  lemma WidthOf(insn: Insn)
    requires WellFormed(insn)
    ensures IsBranch(insn.opcode) <==> BranchWidth(Encode(insn)) > 0
    ensures IsBranch(insn.opcode) ==> |insn.imm| == BranchWidth(Encode(insn))
  {
    FirstBytes(insn);
    if IsBranch(insn.opcode) {
      BranchBytes(insn);
      BranchLead(insn);
    }
    hide WellFormed, Encode, Lead, OpcodeBytes;
    if Lead(Encode(insn)) > 0 {
      LeadIsPrefix(Encode(insn));
    }
  }

  lemma KindFromBytes(insn: Insn)
    requires WellFormed(insn)
    ensures KindOf(insn.opcode).Jump? <==> IsJump(Encode(insn))
    ensures KindOf(insn.opcode).Conditional? <==> BranchWidth(Encode(insn)) > 0 && !IsJump(Encode(insn))
    ensures KindOf(insn.opcode).Return? <==> IsReturn(Encode(insn))
  {
    FirstBytes(insn);
    WidthOf(insn);
    if IsBranch(insn.opcode) {
      BranchLead(insn);
    }
    hide WellFormed, Encode, Lead, OpcodeBytes, BranchWidth;
  }

  /** A branch starts with its opcode and is as long as its displacement needs. */
  lemma BranchLead(insn: Insn)
    requires WellFormed(insn) && IsBranch(insn.opcode)
    ensures Lead(Encode(insn)) == 0
    ensures |Encode(insn)| == (if insn.opcode < 0x100 then 1 else 2) + |insn.imm|
    ensures Encode(insn)[|Encode(insn)| - |insn.imm|..] == insn.imm
  {
    Parts(insn);
    BranchBytes(insn);
    hide Encode, WellFormed, Lead;
    BranchPlain(insn);
  }

  lemma BranchPlain(insn: Insn)
    requires WellFormed(insn) && IsBranch(insn.opcode)
    ensures insn.prefixes == [] && insn.rex == 0
  {
    hide Classify, ExtensionAllowed, LockAdmitted, RepeatAdmitted, MmxAdmitted;
  }

  // ----- every row of an accepted decode --------------------------------------------------------

  /** What the bytes of a row say about its kind and its branch target. */
  ghost predicate BranchOfBytes(row: Row) {
    && row.size == |row.bytes|
    && (row.kind.Jump? <==> IsJump(row.bytes))
    && (row.kind.Conditional? <==> BranchWidth(row.bytes) > 0 && !IsJump(row.bytes))
    && (row.kind.Return? <==> IsReturn(row.bytes))
    && (row.target.Some? <==> BranchWidth(row.bytes) > 0)
    && (BranchWidth(row.bytes) == 1 ==> Means8(row.target.value - (row.rva + row.size), row.bytes[row.size - 1]))
    && (BranchWidth(row.bytes) == 4 ==>
          Means32(row.target.value - (row.rva + row.size), Word(row.bytes, row.size - 4)))
  }

  /** A RIP-relative operand is the displacement after a ModRM byte of mode 0 and base 5, counted from the next row. */
  ghost predicate OperandOfBytes(row: Row) {
    row.ripTarget.Some? ==>
      var m := AfterOpcode(row.bytes);
      && m + 5 <= |row.bytes| && row.bytes[m] / 0x40 == 0 && row.bytes[m] % 8 == 5
      && Means32(row.ripTarget.value - (row.rva + row.size), Word(row.bytes, m + 1))
  }

  lemma RowFields(insn: Insn, rva: int)
    ensures var row, size := RowOf(insn, rva), |Encode(insn)|;
            && row.rva == rva && row.bytes == Encode(insn) && row.size == size && row.kind == KindOf(insn.opcode)
            && row.target == (if IsBranch(insn.opcode) then Some(rva + size + Signed(insn.imm)) else None)
            && (insn.modrm.None? ==> row.ripTarget.None?)
  {
    hide Encode, KindOf, IsBranch, Signed;
  }

  /** The displacement of a branch is the number at the end of its bytes. */
  lemma BranchMeans(insn: Insn)
    requires WellFormed(insn) && IsBranch(insn.opcode)
    ensures var b := Encode(insn);
            && |b| >= 2 && (BranchWidth(b) == 1 ==> Means8(Signed(insn.imm), b[|b| - 1]))
            && (BranchWidth(b) == 4 ==> |b| >= 5 && Means32(Signed(insn.imm), Word(b, |b| - 4)))
  {
    WidthOf(insn);
    BranchLead(insn);
    hide WellFormed, Encode, KindOf, IsBranch, BranchWidth, Signed, IsJump, IsReturn, Word, Means8, Means32;
    var b := Encode(insn);
    if |insn.imm| == 1 {
      SignedByte(insn.imm);
      assert b[|b| - 1] == insn.imm[0];
    } else if |insn.imm| == 4 {
      SignedWord(insn.imm);
      WordOfSuffix(b, insn.imm);
    }
  }

  lemma RowBranch(insn: Insn, rva: int)
    requires WellFormed(insn)
    ensures BranchOfBytes(RowOf(insn, rva))
  {
    hide WellFormed, Encode, KindOf, IsBranch, BranchWidth, Signed, IsJump, IsReturn, Word, Means8, Means32, RowOf;
    RowFields(insn, rva);
    WidthOf(insn);
    KindFromBytes(insn);
    if IsBranch(insn.opcode) {
      BranchMeans(insn);
    }
  }

  lemma WordOfSuffix(b: seq<byte>, tail: seq<byte>)
    requires 4 == |tail| <= |b| && b[|b| - 4..] == tail
    ensures Word(b, |b| - 4) == Word(tail, 0)
  {
    assert forall i | 0 <= i < 4 :: b[|b| - 4 + i] == tail[i];
  }

  predicate RipForm(insn: Insn) {
    insn.modrm.Some? && insn.modrm.value / 0x40 == 0 && insn.modrm.value % 8 == 5
  }

  lemma RipBytes(insn: Insn)
    requires WellFormed(insn) && RipForm(insn)
    ensures var b, m := Encode(insn), AfterOpcode(Encode(insn));
            |insn.disp| == 4 && m + 5 <= |b| && b[m] == insn.modrm.value && Word(b, m + 1) == Word(insn.disp, 0)
  {
    Parts(insn);
    hide Encode, HeadBytes, OpcodeBytes, Classify;
    var b, m := Encode(insn), AfterOpcode(Encode(insn));
    assert insn.sib.None? && |insn.disp| == 4;
    assert b[m..] == [insn.modrm.value] + insn.disp + insn.imm;
    assert forall i | 0 <= i < 5 :: b[m + i] == b[m..][i];
  }

  lemma RowOperand(insn: Insn, rva: int)
    requires WellFormed(insn)
    ensures OperandOfBytes(RowOf(insn, rva))
  {
    if RowOf(insn, rva).ripTarget.Some? {
      RipBytes(insn);
      hide WellFormed, Encode, KindOf, IsBranch, Signed, AfterOpcode;
      SignedWord(insn.disp);
    }
  }

  lemma {:induction false} RowsAreOf(insns: seq<Insn>, rva: int, i: nat)
    requires i < |insns|
    ensures RowsOf(insns, rva)[i] == RowOf(insns[i], RowsOf(insns, rva)[i].rva)
  {
    hide RowOf;
    if i == 0 {
      assert RowsOf(insns, rva)[0] == RowOf(insns[0], rva);
      assert RowOf(insns[0], rva).rva == rva by { RowAddress(insns[0], rva); }
    } else {
      RowsAreOf(insns[1..], rva + |Encode(insns[0])|, i - 1);
    }
  }

  lemma RowAddress(insn: Insn, rva: int)
    ensures RowOf(insn, rva).rva == rva
  {
  }

  /** In every accepted decode, kind, branch target and RIP-relative operand of each row follow from its bytes. */
  lemma RowsFollowBytes(code: seq<byte>, base: int, i: nat)
    requires DecodeRows(code, base).Ok? && i < |DecodeRows(code, base).value|
    ensures BranchOfBytes(DecodeRows(code, base).value[i]) && OperandOfBytes(DecodeRows(code, base).value[i])
  {
    hide WellFormed, RowOf, BranchOfBytes, OperandOfBytes, EncodeAll, DecodeFrom;
    assert code[0..] == code;
    DecodeFromSound(code, base, 0);
    var insns := DecodeFrom(code, base, 0).value;
    RowsAreOf(insns, base, i);
    RowBranch(insns[i], RowsOf(insns, base)[i].rva);
    RowOperand(insns[i], RowsOf(insns, base)[i].rva);
  }

  // ----- printing a reference -------------------------------------------------------------------

  /** The four bytes of a 32-bit number. */
  function Bytes32(d: int): (b: seq<byte>)
    ensures |b| == 4 && (d - Word(b, 0)) % 0x1_0000_0000 == 0
  {
    var u0 := d % 0x1_0000_0000;
    var u1 := u0 / 0x100;
    var u2 := u1 / 0x100;
    [u0 % 0x100, u1 % 0x100, u2 % 0x100, u2 / 0x100]
  }

  predicate ShortBranch(opcode: nat) {
    opcode == 0xeb || 0x70 <= opcode <= 0x7f
  }

  predicate NearBranch(opcode: nat) {
    opcode == 0xe9 || 0x0f80 <= opcode <= 0x0f8f
  }

  /** A branch at `rva` to the address `to`. */
  function PrintBranch(opcode: nat, rva: int, to: int): seq<byte>
    requires ShortBranch(opcode) || NearBranch(opcode)
  {
    if ShortBranch(opcode) then [opcode, (to - (rva + 2)) % 0x100]
    else if opcode == 0xe9 then [0xe9] + Bytes32(to - (rva + 5))
    else [0x0f, opcode - 0x0f00] + Bytes32(to - (rva + 6))
  }

  /** The distance fits the displacement. */
  predicate InReach(opcode: nat, rva: int, to: int) {
    if ShortBranch(opcode) then -0x80 <= to - (rva + 2) < 0x80
    else
      var size := if opcode == 0xe9 then 5 else 6;
      -0x8000_0000 <= to - (rva + size) < 0x8000_0000
  }

  function BranchInsn(opcode: nat, imm: seq<byte>): Insn {
    Insn([], 0, opcode, None, None, [], imm)
  }

  lemma BranchInsnWellFormed(opcode: nat, imm: seq<byte>)
    requires (ShortBranch(opcode) && |imm| == 1) || (NearBranch(opcode) && |imm| == 4)
    ensures WellFormed(BranchInsn(opcode, imm)) && Encode(BranchInsn(opcode, imm)) == OpcodeBytes(opcode) + imm
  {
    var insn := BranchInsn(opcode, imm);
    assert HeadBytes(insn) == OpcodeBytes(opcode) && TailBytes(insn) == imm;
  }

  lemma OneRow(insn: Insn, rva: int)
    requires WellFormed(insn)
    ensures DecodeRows(Encode(insn), rva) == Ok([RowOf(insn, rva)])
  {
    hide WellFormed, Encode, RowOf, DecodeFrom;
    assert EncodeAll([insn]) == Encode(insn) by {
      assert [insn][1..] == [] && EncodeAll([]) == [];
    }
    DecodeIffPrinted(Encode(insn), rva, [insn]);
    assert RowsOf([insn], rva) == [RowOf(insn, rva)];
  }

  /** The decoder reads back the address a branch was printed for. */
  lemma BranchRoundTrip(opcode: nat, rva: int, to: int)
    requires (ShortBranch(opcode) || NearBranch(opcode)) && InReach(opcode, rva, to)
    ensures var decoded := DecodeRows(PrintBranch(opcode, rva, to), rva);
            && decoded.Ok? && |decoded.value| == 1 && decoded.value[0].rva == rva && decoded.value[0].target == Some(to)
            && decoded.value[0].bytes == PrintBranch(opcode, rva, to) && decoded.value[0].ripTarget.None?
  {
    hide WellFormed, DecodeRows, Encode, Signed, PrintBranch, OpcodeBytes, Bytes32, KindOf, InReach, RowOf, IsBranch;
    var imm := Displacement(opcode, rva, to);
    var insn := BranchInsn(opcode, imm);
    BranchPrinted(opcode, rva, to);
    ReadsBack(opcode, rva, to);
    OneRow(insn, rva);
    RowFields(insn, rva);
  }

  function BranchSize(opcode: nat): nat {
    if ShortBranch(opcode) then 2 else if opcode == 0xe9 then 5 else 6
  }

  function Displacement(opcode: nat, rva: int, to: int): seq<byte> {
    var d := to - (rva + BranchSize(opcode));
    if ShortBranch(opcode) then [d % 0x100] else Bytes32(d)
  }

  lemma BranchPrinted(opcode: nat, rva: int, to: int)
    requires ShortBranch(opcode) || NearBranch(opcode)
    ensures var insn := BranchInsn(opcode, Displacement(opcode, rva, to));
            && WellFormed(insn) && Encode(insn) == PrintBranch(opcode, rva, to) && |Encode(insn)| == BranchSize(opcode)
            && IsBranch(opcode)
  {
    hide WellFormed, Encode, Bytes32;
    BranchInsnWellFormed(opcode, Displacement(opcode, rva, to));
  }

  lemma ReadsBack(opcode: nat, rva: int, to: int)
    requires (ShortBranch(opcode) || NearBranch(opcode)) && InReach(opcode, rva, to)
    ensures Signed(Displacement(opcode, rva, to)) == to - (rva + BranchSize(opcode))
  {
    hide Signed, Bytes32;
    var d := to - (rva + BranchSize(opcode));
    if ShortBranch(opcode) {
      SignedByte([d % 0x100]);
      MeansOne(Signed([d % 0x100]), d, d % 0x100);
    } else {
      Bits32(d);
    }
  }

  /** The decoder reads back the address a RIP-relative operand was printed for, except that of a NOP. */
  lemma OperandRoundTrip(insn: Insn, rva: int, to: int)
    requires WellFormed(insn) && RipForm(insn)
    requires -0x8000_0000 <= to - (rva + |Encode(insn)|) < 0x8000_0000
    requires insn.disp == Bytes32(to - (rva + |Encode(insn)|))
    ensures var decoded := DecodeRows(Encode(insn), rva);
            && decoded.Ok? && |decoded.value| == 1 && decoded.value[0].rva == rva
            && decoded.value[0].ripTarget == if insn.opcode == 0x0f1f then None else Some(to)
  {
    hide WellFormed, DecodeRows, Encode, Signed, Word, KindOf, IsBranch, Bytes32;
    OneRow(insn, rva);
    Bits32(to - (rva + |Encode(insn)|));
  }

  lemma Bits32(d: int)
    requires -0x8000_0000 <= d < 0x8000_0000
    ensures Signed(Bytes32(d)) == d
  {
    hide Signed, Word, Bytes32;
    SignedWord(Bytes32(d));
    MeansOne(Signed(Bytes32(d)), d, Word(Bytes32(d), 0));
  }
}
