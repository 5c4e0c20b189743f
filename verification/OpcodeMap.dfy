/**
 The admitted instructions once more, by rows of the opcode map and operand notation of the Intel SDM, Volume 2
 (appendix A and tables 2-2 and 2-3), and the proof that the decoder's tables admit exactly these.
 */
module OpcodeMap {
  import opened Wrappers
  import opened Bytes
  import opened CallbackReasons
  import opened Instructions
  import opened Decoder
  import opened BranchTargets

  /** Immediates: none, one byte, at most 32 bits of the operand size, the operand size; Jb and Jz are branch offsets. */
  datatype Immediate = NoImmediate | Ib | Iz | Iv | Jb | Jz

  /** What follows an opcode: a ModRM byte or not, and an immediate. */
  datatype Operands = Operands(modrm: bool, immediate: Immediate)

  const M := Operands(true, NoImmediate)
  const MIb := Operands(true, Ib)
  const MIz := Operands(true, Iz)
  const Nothing := Operands(false, NoImmediate)

  /** ADD, OR, AND, SUB, XOR and CMP; neither ADC nor SBB. */
  predicate Arithmetic(operation: int) {
    0 <= operation < 8 && operation != 2 && operation != 3
  }

  /** The one-byte opcode map, by columns of the arithmetic block and by rows. */
  function OneByte(opcode: nat): Option<Operands> {
    var row, column := opcode / 0x10, opcode % 0x10;
    if row < 4 then
      if !Arithmetic(opcode / 8) then None
      else if opcode % 8 < 4 then Some(M)
      else if opcode % 8 == 4 then Some(Operands(false, Ib))
      else if opcode % 8 == 5 then Some(Operands(false, Iz))
      else None
    else
      match row
      case 5 => Some(Nothing)
      case 6 => (match column
        case 3 => Some(M)
        case 8 => Some(Operands(false, Iz))
        case 9 => Some(MIz)
        case 10 => Some(Operands(false, Ib))
        case 11 => Some(MIb)
        case _ => None)
      case 7 => Some(Operands(false, Jb))
      case 8 => (match column
        case 0 => Some(MIb)
        case 1 => Some(MIz)
        case 3 => Some(MIb)
        case _ => if 4 <= column <= 11 || column == 13 then Some(M) else None)
      case 9 => if column == 0 || column == 8 || column == 9 then Some(Nothing) else None
      case 10 => (match column
        case 8 => Some(Operands(false, Ib))
        case 9 => Some(Operands(false, Iz))
        case _ => None)
      case 11 => Some(Operands(false, if column < 8 then Ib else Iv))
      case 12 => (match column
        case 0 => Some(MIb)
        case 1 => Some(MIb)
        case 3 => Some(Nothing)
        case 6 => Some(MIb)
        case 7 => Some(MIz)
        case _ => None)
      case 13 => if column < 4 then Some(M) else None
      case 14 => (match column
        case 9 => Some(Operands(false, Jz))
        case 11 => Some(Operands(false, Jb))
        case _ => None)
      case 15 => if column == 6 || column == 7 || column == 14 || column == 15 then Some(M) else None
      case _ => None
  }

  /** The two-byte opcode map, by rows; `opcode` is the byte after the escape. */
  function TwoByte(opcode: nat): Option<Operands> {
    var row, column := opcode / 0x10, opcode % 0x10;
    match row
    case 1 => if column == 0 || column == 1 || column == 15 then Some(M) else None
    case 2 => if column == 8 || column == 9 then Some(M) else None
    case 4 => Some(M)
    case 5 => if column == 7 then Some(M) else None
    case 6 => if column == 15 then Some(M) else None
    case 7 => if column == 15 then Some(M) else None
    case 8 => Some(Operands(false, Jz))
    case 9 => Some(M)
    case 10 => if column == 15 then Some(M) else None
    case 11 => if column in {0, 1, 6, 7, 14, 15} then Some(M) else None
    case 14 => if column == 15 then Some(M) else None
    case _ => None
  }

  function InMap(opcode: nat): Option<Operands> {
    if opcode < 0x100 then OneByte(opcode)
    else if 0x0f00 <= opcode < 0x1000 then TwoByte(opcode - 0x0f00) else None
  }

  /** REX.W: the operand has 64 bits. */
  predicate Wide(rex: int) {
    0x48 <= rex <= 0x4f
  }

  /** The bytes of an immediate. */
  function ImmediateBytes(immediate: Immediate, wide: bool, short: bool): nat {
    match immediate
    case NoImmediate => 0
    case Ib => 1
    case Jb => 1
    case Jz => 4
    case Iz => if short && !wide then 2 else 4
    case Iv => if wide then 8 else if short then 2 else 4
  }

  /** The operation in the ModRM byte of an opcode group that is admitted. */
  predicate InGroup(opcode: int, operation: int) {
    match opcode
    case 0x80 => Arithmetic(operation)
    case 0x81 => Arithmetic(operation)
    case 0x83 => Arithmetic(operation)
    case 0xc6 => operation == 0
    case 0xc7 => operation == 0
    case 0x0f1f => operation == 0
    case 0xf6 => operation == 0 || operation == 2 || operation == 3
    case 0xf7 => operation == 0 || operation == 2 || operation == 3
    case 0xfe => operation < 2
    case 0xff => operation < 2
    case _ =>
      (0xc0 <= opcode <= 0xc1 || 0xd0 <= opcode <= 0xd3) ==> operation == 4 || operation == 5 || operation == 7
  }

  /** TEST of a group takes an immediate, its other operations none. */
  function Testing(opcode: int, operation: int, immediate: Immediate): Immediate {
    if opcode == 0xf6 && operation == 0 then Ib
    else if opcode == 0xf7 && operation == 0 then Iz else immediate
  }

  /** The bytes of a displacement, by the addressing form. */
  function DisplacementBytes(mod: int, rm: int, base: int): nat {
    match mod
    case 0 => if rm == 5 || (rm == 4 && base == 5) then 4 else 0
    case 1 => 1
    case 2 => 4
    case _ => 0
  }

  /** Instructions that are admitted with a LOCK prefix: OR and CMPXCHG to memory. */
  predicate Lockable(insn: Insn) {
    && insn.modrm.Some? && insn.modrm.value < 0xc0
    && (insn.opcode == 0x08 || insn.opcode == 0x09 || insn.opcode == 0x0fb0 || insn.opcode == 0x0fb1
        || ((insn.opcode == 0x80 || insn.opcode == 0x81 || insn.opcode == 0x83) && insn.modrm.value / 8 % 8 == 1))
  }

  /** The prefixes that each instruction admits. */
  predicate PrefixesOf(insn: Insn) {
    var p, op := insn.prefixes, insn.opcode;
    if op == 0x0f1f then |p| <= 14 && forall b | b in p :: b == 0x66 || b == 0x2e
    else if op == 0x0f6f || op == 0x0f7f then p == [0x66] || p == [0xf3]
    else if op == 0x0fef then p == [0x66]
    else if IsJumpOrBranch(op) then p == [] && insn.rex == 0
    else p == [] || p == [0x66] || (Lockable(insn) && (p == [0xf0] || p == [0xf0, 0x66] || p == [0x66, 0xf0]))
  }

  predicate IsJumpOrBranch(opcode: nat) {
    InMap(opcode).Some? && (InMap(opcode).value.immediate == Jb || InMap(opcode).value.immediate == Jz)
  }

  /** A 16-bit PUSH of an immediate that also asks for 64 bits. */
  predicate PushConflict(insn: Insn) {
    (insn.opcode == 0x68 || insn.opcode == 0x6a) && 0x66 in insn.prefixes && Wide(insn.rex)
  }

  /** The parts after the opcode are those that the opcode map asks for. */
  predicate Shaped(insn: Insn, operands: Operands) {
    && (insn.modrm.Some? <==> operands.modrm)
    && var m: int := if insn.modrm.Some? then insn.modrm.value else 0xc0;
       var mod, operation, rm := m / 64, m / 8 % 8, m % 8;
       && (operands.modrm ==> InGroup(insn.opcode, operation) && (insn.opcode == 0x8d ==> mod != 3))
       && (insn.sib.Some? <==> mod != 3 && rm == 4)
       && |insn.disp| == DisplacementBytes(mod, rm, if insn.sib.Some? then insn.sib.value % 8 else 0)
       && |insn.imm| == ImmediateBytes(if operands.modrm then Testing(insn.opcode, operation, operands.immediate)
                                       else operands.immediate, Wide(insn.rex), 0x66 in insn.prefixes)
  }

  // ----- the decoder's tables -------------------------------------------------------------------

  /** The decoder's table agrees with the map at this opcode. */
  predicate Agrees(opcode: nat, wide: bool, short: bool, conflict: bool) {
    var width := if wide then 8 else if short then 2 else 4;
    var form, operands := Classify(opcode, width, conflict, 0), InMap(opcode);
    && (form.Ok? <==> operands.Some? && !((opcode == 0x68 || opcode == 0x6a) && conflict))
    && (form.Ok? ==> form.value.modrm == operands.value.modrm
                     && form.value.immediate == ImmediateBytes(operands.value.immediate, wide, short))
  }

  lemma Row0(opcode: nat, wide: bool, short: bool, conflict: bool)
    requires opcode < 0x10
    ensures Agrees(opcode, wide, short, conflict)
  {
  }

  lemma Row1(opcode: nat, wide: bool, short: bool, conflict: bool)
    requires 0x10 <= opcode < 0x20
    ensures Agrees(opcode, wide, short, conflict)
  {
  }

  lemma Rows2To3(opcode: nat, wide: bool, short: bool, conflict: bool)
    requires 0x20 <= opcode < 0x40
    ensures Agrees(opcode, wide, short, conflict)
  {
  }

  lemma Rows4To5(opcode: nat, wide: bool, short: bool, conflict: bool)
    requires 0x40 <= opcode < 0x60
    ensures Agrees(opcode, wide, short, conflict)
  {
  }

  lemma Rows6To7(opcode: nat, wide: bool, short: bool, conflict: bool)
    requires 0x60 <= opcode < 0x80
    ensures Agrees(opcode, wide, short, conflict)
  {
  }

  lemma Rows8To9(opcode: nat, wide: bool, short: bool, conflict: bool)
    requires 0x80 <= opcode < 0xa0
    ensures Agrees(opcode, wide, short, conflict)
  {
  }

  lemma Rows10To11(opcode: nat, wide: bool, short: bool, conflict: bool)
    requires 0xa0 <= opcode < 0xc0
    ensures Agrees(opcode, wide, short, conflict)
  {
  }

  lemma Row12Start(opcode: nat, wide: bool, short: bool, conflict: bool)
    requires 0xc0 <= opcode < 0xc4
    ensures Agrees(opcode, wide, short, conflict)
  {
  }

  lemma Row12End(opcode: nat, wide: bool, short: bool, conflict: bool)
    requires 0xc4 <= opcode < 0xd0
    ensures Agrees(opcode, wide, short, conflict)
  {
  }

  lemma Row13(opcode: nat, wide: bool, short: bool, conflict: bool)
    requires 0xd0 <= opcode < 0xe0
    ensures Agrees(opcode, wide, short, conflict)
  {
  }

  lemma Rows14To15(opcode: nat, wide: bool, short: bool, conflict: bool)
    requires 0xe0 <= opcode < 0x100
    ensures Agrees(opcode, wide, short, conflict)
  {
  }

  lemma TwoByteRows0To7(opcode: nat, wide: bool, short: bool, conflict: bool)
    requires 0x100 <= opcode < 0x0f80
    ensures Agrees(opcode, wide, short, conflict)
  {
  }

  lemma TwoByteRows8To15(opcode: nat, wide: bool, short: bool, conflict: bool)
    requires 0x0f80 <= opcode
    ensures Agrees(opcode, wide, short, conflict)
  {
  }

  lemma EveryRow(opcode: nat, wide: bool, short: bool, conflict: bool)
    ensures Agrees(opcode, wide, short, conflict)
  {
    if opcode < 0x10 { Row0(opcode, wide, short, conflict); }
    else if opcode < 0x20 { Row1(opcode, wide, short, conflict); }
    else if opcode < 0x40 { Rows2To3(opcode, wide, short, conflict); }
    else if opcode < 0x60 { Rows4To5(opcode, wide, short, conflict); }
    else if opcode < 0x80 { Rows6To7(opcode, wide, short, conflict); }
    else if opcode < 0xa0 { Rows8To9(opcode, wide, short, conflict); }
    else if opcode < 0xc0 { Rows10To11(opcode, wide, short, conflict); }
    else if opcode < 0xc4 { Row12Start(opcode, wide, short, conflict); }
    else if opcode < 0xd0 { Row12End(opcode, wide, short, conflict); }
    else if opcode < 0xe0 { Row13(opcode, wide, short, conflict); }
    else if opcode < 0x100 { Rows14To15(opcode, wide, short, conflict); }
    else if opcode < 0x0f80 { TwoByteRows0To7(opcode, wide, short, conflict); }
    else { TwoByteRows8To15(opcode, wide, short, conflict); }
  }

  lemma Groups(opcode: nat, operation: int)
    requires 0 <= operation < 8
    ensures ExtensionAllowed(opcode, operation) <==> InGroup(opcode, operation)
  {
  }

  lemma BranchesAre(opcode: nat)
    ensures IsBranch(opcode) <==> IsJumpOrBranch(opcode)
  {
  }

  lemma OperandSize(insn: Insn)
    requires insn.rex == 0 || IsRex(insn.rex)
    ensures insn.rex / 8 % 2 == 1 <==> Wide(insn.rex)
    ensures Width(insn.prefixes, insn.rex) == if Wide(insn.rex) then 8 else if 0x66 in insn.prefixes then 2 else 4
  {
  }

  lemma Addressing(modrm: byte, sib: Option<byte>)
    ensures HasSib(Some(modrm)) <==> modrm / 64 != 3 && modrm % 8 == 4
    ensures (sib.Some? <==> HasSib(Some(modrm))) ==>
              DispSize(Some(modrm), sib) ==
              DisplacementBytes(modrm / 64, modrm % 8, if sib.Some? then sib.value % 8 else 0)
  {
  }

  lemma LocksAre(insn: Insn)
    ensures 0xf0 in insn.prefixes ==> (LockAdmitted(insn.prefixes, insn.opcode, insn.modrm) <==> Lockable(insn))
  {
  }

  lemma ThreeOfTwo(p: seq<byte>, a: byte, b: byte)
    requires forall x | x in p :: x == a || x == b
    ensures |p| >= 3 ==> !Distinct(p)
  {
    if |p| >= 3 {
      assert p[0] in p && p[1] in p && p[2] in p;
    }
  }

  /** A sequence of at most two different bytes. */
  lemma OfTwo(p: seq<byte>, a: byte, b: byte)
    requires a != b && Distinct(p) && forall x | x in p :: x == a || x == b
    ensures p == [] || p == [a] || p == [b] || p == [a, b] || p == [b, a]
  {
    ThreeOfTwo(p, a, b);
    if |p| >= 1 {
      assert p[0] in p;
    }
    if |p| == 2 {
      assert p[1] in p && p[0] != p[1];
      assert p == [p[0], p[1]];
    } else if |p| == 1 {
      assert p == [p[0]];
    }
  }

  /** The prefix rules of the decoder on the opcode alone. */
  predicate PrefixRules(insn: Insn) {
    && |insn.prefixes| <= 14 && (forall b | b in insn.prefixes :: IsPrefix(b))
    && PrefixesAdmitted(insn.prefixes, insn.opcode) && (0xf0 in insn.prefixes ==> Lockable(insn))
    && RepeatAdmitted(insn.prefixes, insn.opcode) && MmxAdmitted(insn.prefixes, insn.opcode)
    && (IsJumpOrBranch(insn.opcode) ==> insn.prefixes == [] && insn.rex == 0)
  }

  /** Without the NOP, the prefixes are different ones of operand size, LOCK and REP. */
  lemma PlainPrefixes(insn: Insn)
    requires PrefixRules(insn) && insn.opcode != 0x0f1f
    ensures Distinct(insn.prefixes)
    ensures forall b | b in insn.prefixes :: b == 0x66 || b == 0xf0 || b == 0xf3
    ensures 0xf3 in insn.prefixes ==> (insn.opcode == 0x0f6f || insn.opcode == 0x0f7f) && 0x66 !in insn.prefixes && 0xf0 !in insn.prefixes
    ensures insn.opcode == 0x0f6f || insn.opcode == 0x0f7f || insn.opcode == 0x0fef ==> 0xf0 !in insn.prefixes
  {
    hide InMap;
  }

  lemma PrefixesAre(insn: Insn)
    requires PrefixRules(insn)
    ensures PrefixesOf(insn)
  {
    hide Lockable, InMap, IsJumpOrBranch;
    if insn.opcode == 0x0f1f {
      NopPrefixes(insn);
    } else {
      PlainPrefixes(insn);
      if insn.opcode == 0x0f6f || insn.opcode == 0x0f7f || insn.opcode == 0x0fef {
        OfTwo(insn.prefixes, 0x66, 0xf3);
      } else {
        OfTwo(insn.prefixes, 0x66, 0xf0);
      }
    }
  }

  lemma NopPrefixes(insn: Insn)
    requires insn.opcode == 0x0f1f
    ensures PrefixRules(insn) <==> PrefixesOf(insn)
  {
  }

  lemma PrefixesSuffice(insn: Insn)
    requires PrefixesOf(insn)
    ensures PrefixRules(insn)
  {
    if insn.opcode == 0x0f1f {
      NopPrefixes(insn);
    } else {
      hide InMap;
    }
  }

  /** The admitted instructions, by the opcode map. */
  predicate Described(insn: Insn) {
    && InMap(insn.opcode).Some? && (insn.rex == 0 || 0x40 <= insn.rex <= 0x4f)
    && PrefixesOf(insn) && !PushConflict(insn) && Shaped(insn, InMap(insn.opcode).value)
    && |Encode(insn)| <= 15
  }

  lemma ShapedIs(insn: Insn)
    requires (insn.rex == 0 || IsRex(insn.rex)) && InMap(insn.opcode).Some?
    requires Agrees(insn.opcode, Wide(insn.rex), 0x66 in insn.prefixes, false)
    ensures var width := Width(insn.prefixes, insn.rex);
            var form := Classify(insn.opcode, width, false, 0);
            form.Ok? &&
            (Shaped(insn, InMap(insn.opcode).value) <==>
               && (insn.modrm.Some? <==> form.value.modrm) && (insn.sib.Some? <==> HasSib(insn.modrm))
               && (insn.modrm.Some? ==> ExtensionAllowed(insn.opcode, Reg(insn.modrm.value)))
               && (insn.modrm.Some? && insn.opcode == 0x8d ==> IsMemory(insn.modrm))
               && |insn.disp| == DispSize(insn.modrm, insn.sib)
               && |insn.imm| == ImmediateSize(insn.opcode, form.value, width, insn.modrm))
  {
    OperandSize(insn);
    if insn.modrm.Some? {
      Groups(insn.opcode, Reg(insn.modrm.value));
      Addressing(insn.modrm.value, insn.sib);
    }
    hide Classify, InMap, Width, Wide, ExtensionAllowed, InGroup;
  }

  lemma ConflictIs(insn: Insn)
    requires insn.rex == 0 || IsRex(insn.rex)
    ensures var width := Width(insn.prefixes, insn.rex);
            var conflict := 0x66 in insn.prefixes && insn.rex / 8 % 2 == 1;
            var form := Classify(insn.opcode, width, conflict, 0);
            && (form.Ok? <==> InMap(insn.opcode).Some? && !PushConflict(insn))
            && (form.Ok? ==> form == Classify(insn.opcode, width, false, 0))
  {
    OperandSize(insn);
    EveryRow(insn.opcode, Wide(insn.rex), 0x66 in insn.prefixes, 0x66 in insn.prefixes && insn.rex / 8 % 2 == 1);
    EveryRow(insn.opcode, Wide(insn.rex), 0x66 in insn.prefixes, false);
    hide Classify, InMap, Width, Wide, ImmediateBytes;
  }

  /** The decoder admits exactly the instructions that the opcode map describes. */
  lemma WellFormedIff(insn: Insn)
    ensures WellFormed(insn) <==> Described(insn)
  {
    if insn.rex == 0 || IsRex(insn.rex) {
      EveryRow(insn.opcode, Wide(insn.rex), 0x66 in insn.prefixes, false);
      ConflictIs(insn);
      BranchesAre(insn.opcode);
      LocksAre(insn);
      InMapIsOpcode(insn.opcode);
      if InMap(insn.opcode).Some? {
        ShapedIs(insn);
      }
      if PrefixRules(insn) {
        PrefixesAre(insn);
      }
      if PrefixesOf(insn) {
        PrefixesSuffice(insn);
      }
    }
    hide Classify, InMap, Width, Wide, ExtensionAllowed, Agrees, Shaped, PrefixesOf, PushConflict, Encode, IsBranch,
         IsJumpOrBranch, PrefixesAdmitted, LockAdmitted, RepeatAdmitted, MmxAdmitted, Lockable, DispSize, ImmediateSize,
         HasSib, IsMemory;
  }

  lemma InMapIsOpcode(opcode: nat)
    ensures InMap(opcode).Some? ==> IsOpcode(opcode)
  {
    hide OneByte, TwoByte;
  }

  /** A function body is decoded if and only if it is a sequence of instructions that the opcode map describes. */
  lemma AcceptedIffDescribed(code: seq<byte>, base: int)
    ensures DecodeRows(code, base).Ok? <==>
            exists insns :: EncodeAll(insns) == code && forall insn | insn in insns :: Described(insn)
  {
    forall insn ensures WellFormed(insn) <==> Described(insn) {
      WellFormedIff(insn);
    }
    hide WellFormed, Described, EncodeAll, DecodeFrom;
    if DecodeRows(code, base).Ok? {
      DecodeFromSound(code, base, 0);
      assert code[0..] == code;
    }
    if exists insns :: EncodeAll(insns) == code && forall insn | insn in insns :: Described(insn) {
      var insns :| EncodeAll(insns) == code && forall insn | insn in insns :: Described(insn);
      DecodeIffPrinted(code, base, insns);
    }
  }

  // ----- opcodes and operands of rows -----------------------------------------------------------

  /** The opcode at the head of an instruction, after its prefixes. */
  function OpcodeOf(b: seq<byte>): nat {
    var n := Lead(b);
    if n + 1 < |b| && b[n] == 0x0f then
      var second: int := b[n + 1];
      0x0f00 + second
    else if n < |b| then b[n] else 0
  }

  /** A row names its opcode, and has an operand exactly for the ModRM byte that addresses memory from the next row. */
  predicate OpcodeAndOperand(row: Row) {
    var b, opcode := row.bytes, OpcodeOf(row.bytes);
    && row.opcode == opcode && InMap(opcode).Some?
    && (InMap(opcode).value.modrm ==> AfterOpcode(b) < |b|)
    && (row.ripTarget.Some? <==>
          && InMap(opcode).value.modrm && opcode != 0x0f1f
          && b[AfterOpcode(b)] < 0x40 && b[AfterOpcode(b)] % 8 == 5)
  }

  lemma OpcodeOfInsn(insn: Insn)
    requires WellFormed(insn)
    ensures OpcodeOf(Encode(insn)) == insn.opcode
  {
    FirstBytes(insn);
    hide WellFormed, Encode, Lead;
  }

  lemma ModrmByte(insn: Insn)
    requires WellFormed(insn) && insn.modrm.Some?
    ensures var b := Encode(insn); AfterOpcode(b) < |b| && b[AfterOpcode(b)] == insn.modrm.value
  {
    Parts(insn);
    hide WellFormed, Encode, HeadBytes, AfterOpcode;
    var b := Encode(insn);
    assert TailBytes(insn)[0] == insn.modrm.value;
    assert |b| - AfterOpcode(b) == |TailBytes(insn)| && b[AfterOpcode(b)] == b[AfterOpcode(b)..][0];
  }

  lemma RowIsMapped(insn: Insn, rva: int)
    requires WellFormed(insn)
    ensures OpcodeAndOperand(RowOf(insn, rva))
  {
    OpcodeOfInsn(insn);
    WellFormedIff(insn);
    if insn.modrm.Some? {
      ModrmByte(insn);
    }
    hide WellFormed, Encode, InMap, OpcodeOf, AfterOpcode, Signed, KindOf, IsBranch;
  }

  /** In every accepted decode each row names its opcode and has an operand exactly where its bytes have one. */
  lemma RowsAreMapped(code: seq<byte>, base: int, i: nat)
    requires DecodeRows(code, base).Ok? && i < |DecodeRows(code, base).value|
    ensures OpcodeAndOperand(DecodeRows(code, base).value[i])
  {
    hide WellFormed, RowOf, OpcodeAndOperand, EncodeAll, DecodeFrom;
    assert code[0..] == code;
    DecodeFromSound(code, base, 0);
    var insns := DecodeFrom(code, base, 0).value;
    RowsAreOf(insns, base, i);
    RowIsMapped(insns[i], RowsOf(insns, base)[i].rva);
  }
}
