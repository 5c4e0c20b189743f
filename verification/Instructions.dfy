/**
 The allow-list x86-64 length decoder (`decode`). Instruction format: Intel SDM, Volume 2, section 2.1.

 `DecodeInsn` is the decoder of one instruction, reading `code` at a position. `Encode` and `WellFormed`
 describe the same instructions from the other side: as a list of fields and the bytes they print to.
 The decoder is proved to be exactly the inverse of the printer.
 */
module Instructions {
  import opened Wrappers
  import opened Bytes
  import opened CallbackReasons

  datatype Kind = Ordinary | Return | Jump | Conditional

  /** What an opcode says about the bytes after it. */
  datatype Form = Form(immediate: nat, modrm: bool)

  /** The fields of one instruction; `rex == 0` means that no REX prefix is present. */
  datatype Insn = Insn(prefixes: seq<byte>, rex: byte, opcode: nat, modrm: Option<byte>, sib: Option<byte>,
                       disp: seq<byte>, imm: seq<byte>)

  datatype Decoded = Decoded(insn: Insn, next: nat)

  /** One element of the list that `decode` returns. */
  datatype Row = Row(rva: int, bytes: seq<byte>, size: nat, opcode: nat, kind: Kind,
                     target: Option<int>, ripTarget: Option<int>)

  // ----- tables ------------------------------------------------------------------------------

  predicate IsPrefix(b: int) {
    b == 0x66 || b == 0x2e || b == 0xf0 || b == 0xf2 || b == 0xf3
  }

  predicate IsRex(b: int) {
    0x40 <= b <= 0x4f
  }

  predicate Distinct(s: seq<byte>) {
    forall i, j :: 0 <= i < j < |s| ==> s[i] != s[j]
  }

  /** Duplicate or CS prefixes are admitted on the multi-byte NOP only. */
  predicate PrefixesAdmitted(prefixes: seq<byte>, opcode: int) {
    0x2e in prefixes || !Distinct(prefixes)
    ==> opcode == 0x0f1f && forall b | b in prefixes :: b == 0x66 || b == 0x2e
  }

  function Width(prefixes: seq<byte>, rex: byte): nat {
    if rex / 8 % 2 == 1 then 8 else if 0x66 in prefixes then 2 else 4
  }

  function Min(a: nat, b: nat): nat {
    if a < b then a else b
  }

  predicate IsBranch(opcode: int) {
    opcode == 0xe9 || opcode == 0xeb || 0x70 <= opcode <= 0x7f || 0x0f80 <= opcode <= 0x0f8f
  }

  function KindOf(opcode: int): Kind {
    if opcode == 0xc3 then Return
    else if opcode == 0xe9 || opcode == 0xeb then Jump
    else if IsBranch(opcode) then Conditional else Ordinary
  }

  predicate PlainModrm(opcode: int) {
    || opcode in {0x00, 0x01, 0x02, 0x03, 0x08, 0x09, 0x0a, 0x0b, 0x20, 0x21, 0x22, 0x23, 0x28, 0x29, 0x2a, 0x2b,
                  0x30, 0x31, 0x32, 0x33, 0x38, 0x39, 0x3a, 0x3b, 0x63, 0x84, 0x85, 0x86, 0x87, 0x88, 0x89, 0x8a,
                  0x8b, 0x8d}
    || opcode in {0x0faf, 0x0fb0, 0x0fb1, 0x0fb6, 0x0fb7, 0x0fbe, 0x0fbf, 0x0f10, 0x0f11, 0x0f28, 0x0f29, 0x0f57,
                  0x0f6f, 0x0f7f, 0x0fef}
    || 0x0f40 <= opcode <= 0x0f4f
    || 0x0f90 <= opcode <= 0x0f9f
  }

  function Classify(opcode: int, width: nat, pushConflict: bool, at: int): (r: Result<Form, Reason>) {
    if opcode == 0xc3 then Ok(Form(0, false))
    else if IsBranch(opcode) then
      Ok(Form(if opcode == 0xe9 || opcode >= 0x0f80 then 4 else 1, false))
    else if 0x50 <= opcode <= 0x5f || opcode in {0x90, 0x98, 0x99} then Ok(Form(0, false))
    else if 0xb0 <= opcode <= 0xb7 then Ok(Form(1, false))
    else if 0xb8 <= opcode <= 0xbf then Ok(Form(width, false))
    else if opcode == 0x68 || opcode == 0x6a then
      if pushConflict then Refused(UnsupportedPushSizePrefix)
      else Ok(Form(if opcode == 0x6a then 1 else Min(width, 4), false))
    else if opcode in {0x04, 0x0c, 0x24, 0x2c, 0x34, 0x3c, 0xa8} then Ok(Form(1, false))
    else if opcode in {0x05, 0x0d, 0x25, 0x2d, 0x35, 0x3d, 0xa9} then Ok(Form(Min(width, 4), false))
    else if PlainModrm(opcode) then Ok(Form(0, true))
    else if opcode == 0x69 || opcode == 0x6b then
      Ok(Form(if opcode == 0x6b then 1 else Min(width, 4), true))
    else if opcode in {0x80, 0x81, 0x83} then Ok(Form(if opcode == 0x81 then Min(width, 4) else 1, true))
    else if opcode in {0xc6, 0xc7} then Ok(Form(if opcode == 0xc7 then Min(width, 4) else 1, true))
    else if opcode in {0xc0, 0xc1, 0xd0, 0xd1, 0xd2, 0xd3} then
      Ok(Form(if opcode == 0xc0 || opcode == 0xc1 then 1 else 0, true))
    else if opcode in {0xf6, 0xf7, 0xfe, 0xff, 0x0f1f} then Ok(Form(0, true))
    else Refused(UnknownOpcode(at))
  }

  /** `reg in group`, for the opcodes that have a group. */
  predicate ExtensionAllowed(opcode: int, reg: int) {
    if opcode in {0x80, 0x81, 0x83} then reg in {0, 1, 4, 5, 6, 7}
    else if opcode in {0xc6, 0xc7, 0x0f1f} then reg == 0
    else if opcode in {0xc0, 0xc1, 0xd0, 0xd1, 0xd2, 0xd3} then reg in {4, 5, 7}
    else if opcode in {0xf6, 0xf7} then reg in {0, 2, 3}
    else if opcode in {0xfe, 0xff} then reg in {0, 1}
    else true
  }

  function Mod(modrm: byte): nat { modrm / 64 }
  function Reg(modrm: byte): nat { modrm / 8 % 8 }
  function Rm(modrm: byte): nat { modrm % 8 }

  predicate IsMemory(modrm: Option<byte>) {
    modrm.Some? && Mod(modrm.value) != 3
  }

  predicate IsRipRelative(modrm: Option<byte>) {
    modrm.Some? && Mod(modrm.value) == 0 && Rm(modrm.value) == 5
  }

  predicate HasSib(modrm: Option<byte>) {
    IsMemory(modrm) && Rm(modrm.value) == 4
  }

  function DispSize(modrm: Option<byte>, sib: Option<byte>): nat {
    if !IsMemory(modrm) then 0
    else if Mod(modrm.value) == 1 then 1
    else if Mod(modrm.value) == 2 then 4
    else if sib.Some? then if sib.value % 8 == 5 then 4 else 0
    else if Rm(modrm.value) == 5 then 4 else 0
  }

  /** The TEST forms of F6 and F7 are the only ones whose ModRM byte adds an immediate. */
  function ImmediateSize(opcode: int, form: Form, width: nat, modrm: Option<byte>): nat {
    if modrm.Some? && opcode in {0xf6, 0xf7} && Reg(modrm.value) == 0
    then if opcode == 0xf6 then 1 else Min(width, 4)
    else form.immediate
  }

  predicate LockAdmitted(prefixes: seq<byte>, opcode: int, modrm: Option<byte>) {
    0xf0 in prefixes
    ==> IsMemory(modrm)
        && (opcode in {0x08, 0x09, 0x0fb0, 0x0fb1} || (opcode in {0x80, 0x81, 0x83} && Reg(modrm.value) == 1))
  }

  predicate RepeatAdmitted(prefixes: seq<byte>, opcode: int) {
    0xf2 in prefixes || 0xf3 in prefixes
    ==> 0xf2 !in prefixes && opcode in {0x0f6f, 0x0f7f} && 0x66 !in prefixes && 0xf0 !in prefixes
  }

  predicate MmxAdmitted(prefixes: seq<byte>, opcode: int) {
    opcode in {0x0f6f, 0x0f7f, 0x0fef} ==> 0x66 in prefixes || (0xf3 in prefixes && opcode != 0x0fef)
  }

  // ----- the decoder of one instruction --------------------------------------------------------

  /** Position after the prefix bytes that start at `start`; `pos` is the scan so far. */
  function ScanPrefixes(code: seq<byte>, start: nat, pos: nat): (r: Result<nat, Reason>)
    requires start <= pos <= |code|
    ensures r.Ok? ==> pos <= r.value <= |code| && forall i | pos <= i < r.value :: IsPrefix(code[i])
    ensures r.Ok? && r.value < |code| ==> !IsPrefix(code[r.value])
    ensures r.Ok? && pos - start <= 14 ==> r.value - start <= 14
    decreases |code| - pos
  {
    if pos < |code| && IsPrefix(code[pos]) then
      if pos - start < 14 then ScanPrefixes(code, start, pos + 1) else Refused(PrefixLengthBound)
    else Ok(pos)
  }

  /** ModRM, SIB and the size of what follows. `next` is the position of the displacement. */
  datatype Layout = Layout(modrm: Option<byte>, sib: Option<byte>, next: nat)

  function DecodeModrm(code: seq<byte>, pos: nat, opcode: int, form: Form): (r: Result<Layout, Reason>)
    ensures r.Ok? ==> pos <= r.value.next
  {
    if !form.modrm then Ok(Layout(None, None, pos))
    else
      :- Need(pos < |code|, TruncatedModrm);
      var modrm := Some(code[pos]);
      :- Need(ExtensionAllowed(opcode, Reg(modrm.value)), ForbiddenOpcodeExtension);
      :- Need(opcode == 0x8d ==> IsMemory(modrm), LeaMemoryRequired);
      if HasSib(modrm) then
        :- Need(pos + 1 < |code|, TruncatedSib);
        Ok(Layout(modrm, Some(code[pos + 1]), pos + 2))
      else
        :- Need(IsRipRelative(modrm) ==> pos + 5 <= |code|, TruncatedRipDisplacement);
        Ok(Layout(modrm, None, pos + 1))
  }

  /** The part of `decode` after the opcode: `pos` is the position of the ModRM byte or of the immediate. */
  function DecodeOperands(code: seq<byte>, start: nat, pos: nat, prefixes: seq<byte>, rex: byte, opcode: nat, at: int)
    : (r: Result<Decoded, Reason>)
    requires start <= pos <= |code|
    ensures r.Ok? ==> r.value.next <= |code|
  {
    var width := Width(prefixes, rex);
    :- Need(PrefixesAdmitted(prefixes, opcode), NonNopDuplicateOrSegmentPrefix);
    var form :- Classify(opcode, width, 0x66 in prefixes && rex / 8 % 2 == 1, at);
    var layout :- DecodeModrm(code, pos, opcode, form);
    var dispEnd := layout.next + DispSize(layout.modrm, layout.sib);
    var next := dispEnd + ImmediateSize(opcode, form, width, layout.modrm);
    :- Need(LockAdmitted(prefixes, opcode, layout.modrm), UnsupportedLockForm);
    :- Need(RepeatAdmitted(prefixes, opcode), UnsupportedRepeatPrefix);
    :- Need(MmxAdmitted(prefixes, opcode), MmxForbidden);
    :- Need(next <= |code|, TruncatedInstruction);
    :- Need(IsBranch(opcode) ==> prefixes == [] && rex == 0, PrefixedBranchRefused);
    :- Need(0 < next - start <= 15, InstructionLength);
    Ok(Decoded(Insn(prefixes, rex, opcode, layout.modrm, layout.sib, code[layout.next..dispEnd], code[dispEnd..next]),
               next))
  }

  /** REX byte and opcode; `next` is the position after them. */
  datatype Head = Head(rex: byte, opcode: nat, next: nat)

  function DecodeHead(code: seq<byte>, end: nat): (r: Result<Head, Reason>)
    requires end <= |code|
    ensures r.Ok? ==> end < r.value.next <= |code| && IsOpcode(r.value.opcode)
  {
    if end == |code| then Refused(TruncatedPrefix) else
    var rex := if IsRex(code[end]) then code[end] else 0;
    var lead := if rex != 0 then end + 1 else end;
    :- Need(lead < |code|, TruncatedOpcode);
    if code[lead] == 0x0f then
      :- Need(lead + 1 < |code|, TruncatedTwoByteOpcode);
      var second: int := code[lead + 1];
      Ok(Head(rex, 0x0f00 + second, lead + 2))
    else
      Ok(Head(rex, code[lead], lead + 1))
  }

  function DecodeAfterPrefixes(code: seq<byte>, start: nat, end: nat, base: int): (r: Result<Decoded, Reason>)
    requires start <= end <= |code|
    ensures r.Ok? ==> start < r.value.next <= |code|
  {
    var head :- DecodeHead(code, end);
    DecodeOperands(code, start, head.next, code[start..end], head.rex, head.opcode, base + start)
  }

  function DecodeInsn(code: seq<byte>, start: nat, base: int): (r: Result<Decoded, Reason>)
    requires start <= |code|
    ensures r.Ok? ==> start < r.value.next <= |code|
  {
    var end :- ScanPrefixes(code, start, start);
    DecodeAfterPrefixes(code, start, end, base)
  }

  // ----- the printer ----------------------------------------------------------------------------

  function RexBytes(rex: byte): seq<byte> {
    if rex == 0 then [] else [rex]
  }

  function OpcodeBytes(opcode: nat): seq<byte> {
    if opcode < 0x100 then [opcode] else [0x0f, opcode % 0x100]
  }

  function OptionBytes(b: Option<byte>): seq<byte> {
    if b.Some? then [b.value] else []
  }

  predicate IsOpcode(opcode: nat) {
    opcode < 0x100 || 0x0f00 <= opcode < 0x1000
  }

  function HeadBytes(insn: Insn): seq<byte> {
    insn.prefixes + RexBytes(insn.rex) + OpcodeBytes(insn.opcode)
  }

  function TailBytes(insn: Insn): seq<byte> {
    OptionBytes(insn.modrm) + OptionBytes(insn.sib) + insn.disp + insn.imm
  }

  function Encode(insn: Insn): seq<byte> {
    HeadBytes(insn) + TailBytes(insn)
  }

  /** The admitted instructions, as a condition on the fields alone. */
  predicate WellFormed(insn: Insn) {
    var width := Width(insn.prefixes, insn.rex);
    var form := Classify(insn.opcode, width, 0x66 in insn.prefixes && insn.rex / 8 % 2 == 1, 0);
    && IsOpcode(insn.opcode)
    && |insn.prefixes| <= 14
    && (forall b | b in insn.prefixes :: IsPrefix(b))
    && (insn.rex == 0 || IsRex(insn.rex))
    && form.Ok?
    && PrefixesAdmitted(insn.prefixes, insn.opcode)
    && (insn.modrm.Some? <==> form.value.modrm)
    && (insn.sib.Some? <==> HasSib(insn.modrm))
    && (insn.modrm.Some? ==> ExtensionAllowed(insn.opcode, Reg(insn.modrm.value)))
    && (insn.modrm.Some? && insn.opcode == 0x8d ==> IsMemory(insn.modrm))
    && |insn.disp| == DispSize(insn.modrm, insn.sib)
    && |insn.imm| == ImmediateSize(insn.opcode, form.value, width, insn.modrm)
    && LockAdmitted(insn.prefixes, insn.opcode, insn.modrm)
    && RepeatAdmitted(insn.prefixes, insn.opcode)
    && MmxAdmitted(insn.prefixes, insn.opcode)
    && (IsBranch(insn.opcode) ==> insn.prefixes == [] && insn.rex == 0)
    && |Encode(insn)| <= 15
  }

  /** An admitted opcode is not itself a prefix, a REX byte or the two-byte escape. */
  lemma ClassifiedOpcode(opcode: nat, width: nat, pushConflict: bool, at: int)
    requires Classify(opcode, width, pushConflict, at).Ok?
    ensures opcode < 0x100 ==> !IsPrefix(opcode) && !IsRex(opcode) && opcode != 0x0f
    ensures IsOpcode(opcode)
  {
  }

  lemma ClassifyAnywhere(opcode: nat, width: nat, pushConflict: bool, at: int)
    ensures Classify(opcode, width, pushConflict, at).Ok? ==>
              Classify(opcode, width, pushConflict, 0) == Classify(opcode, width, pushConflict, at)
    ensures Classify(opcode, width, pushConflict, 0).Ok? ==>
              Classify(opcode, width, pushConflict, 0) == Classify(opcode, width, pushConflict, at)
  {
  }

  // ----- the decoder inverts the printer -----------------------------------------------------------

  lemma ModrmSound(code: seq<byte>, pos: nat, opcode: nat, form: Form)
    requires pos <= |code| && DecodeModrm(code, pos, opcode, form).Ok?
    ensures var l := DecodeModrm(code, pos, opcode, form).value;
            && (l.modrm.Some? <==> form.modrm) && (l.sib.Some? <==> HasSib(l.modrm))
            && (l.modrm.Some? ==> ExtensionAllowed(opcode, Reg(l.modrm.value)))
            && (l.modrm.Some? && opcode == 0x8d ==> IsMemory(l.modrm))
            && l.next == pos + |OptionBytes(l.modrm) + OptionBytes(l.sib)|
            && (l.next <= |code| ==> Occurs(code, pos, OptionBytes(l.modrm) + OptionBytes(l.sib)))
  {
    hide ExtensionAllowed;
  }

  lemma TailOccurs(code: seq<byte>, pos: nat, insn: Insn)
    requires Occurs(code, pos, OptionBytes(insn.modrm) + OptionBytes(insn.sib))
    requires Occurs(code, pos + |OptionBytes(insn.modrm) + OptionBytes(insn.sib)|, insn.disp)
    requires Occurs(code, pos + |OptionBytes(insn.modrm) + OptionBytes(insn.sib)| + |insn.disp|, insn.imm)
    ensures Occurs(code, pos, TailBytes(insn))
  {
    hide OptionBytes;
    var modSib := OptionBytes(insn.modrm) + OptionBytes(insn.sib);
    OccursSplit(code, pos, modSib, insn.disp);
    OccursSplit(code, pos, modSib + insn.disp, insn.imm);
  }

  lemma OperandsSound(code: seq<byte>, start: nat, pos: nat, prefixes: seq<byte>, rex: byte, opcode: nat, at: int)
    requires start <= pos <= |code| && IsOpcode(opcode)
    requires DecodeOperands(code, start, pos, prefixes, rex, opcode, at).Ok?
    requires |prefixes| <= 14 && (forall b | b in prefixes :: IsPrefix(b)) && (rex == 0 || IsRex(rex))
    requires pos - start == |prefixes| + |RexBytes(rex)| + |OpcodeBytes(opcode)|
    ensures var d := DecodeOperands(code, start, pos, prefixes, rex, opcode, at).value;
            && WellFormed(d.insn) && d.next == pos + |TailBytes(d.insn)| && Occurs(code, pos, TailBytes(d.insn))
            && d.insn.prefixes == prefixes && d.insn.rex == rex && d.insn.opcode == opcode
  {
    hide Classify, ExtensionAllowed, PrefixesAdmitted, LockAdmitted, RepeatAdmitted, MmxAdmitted, IsBranch, Width,
         DecodeModrm, DispSize, ImmediateSize, HasSib, IsMemory, RexBytes, OpcodeBytes, OptionBytes, IsPrefix;
    var width := Width(prefixes, rex);
    var conflict := 0x66 in prefixes && rex / 8 % 2 == 1;
    var d := DecodeOperands(code, start, pos, prefixes, rex, opcode, at).value;
    ClassifyAnywhere(opcode, width, conflict, at);
    var form := Classify(opcode, width, conflict, at).value;
    ModrmSound(code, pos, opcode, form);
    TailOccurs(code, pos, d.insn);
  }

  lemma HeadSound(code: seq<byte>, end: nat)
    requires end <= |code| && DecodeHead(code, end).Ok?
    ensures var h := DecodeHead(code, end).value;
            && (h.rex == 0 || IsRex(h.rex))
            && Occurs(code, end, RexBytes(h.rex) + OpcodeBytes(h.opcode))
            && h.next == end + |RexBytes(h.rex) + OpcodeBytes(h.opcode)|
  {
    var h := DecodeHead(code, end).value;
    var lead := end + |RexBytes(h.rex)|;
    assert Occurs(code, end, RexBytes(h.rex));
    assert Occurs(code, lead, OpcodeBytes(h.opcode));
    OccursSplit(code, end, RexBytes(h.rex), OpcodeBytes(h.opcode));
  }

  lemma DecodeSound(code: seq<byte>, start: nat, base: int)
    requires start <= |code| && DecodeInsn(code, start, base).Ok?
    ensures var d := DecodeInsn(code, start, base).value;
            && WellFormed(d.insn) && Occurs(code, start, Encode(d.insn)) && d.next == start + |Encode(d.insn)|
  {
    hide DecodeOperands, DecodeHead, WellFormed, RexBytes, OpcodeBytes, TailBytes;
    var end := ScanPrefixes(code, start, start).value;
    var h := DecodeHead(code, end).value;
    var d := DecodeInsn(code, start, base).value;
    HeadSound(code, end);
    OperandsSound(code, start, h.next, code[start..end], h.rex, h.opcode, base + start);
    var rest := RexBytes(h.rex) + OpcodeBytes(h.opcode);
    assert Occurs(code, start, code[start..end]);
    OccursSplit(code, start, code[start..end], rest);
    assert HeadBytes(d.insn) == code[start..end] + rest;
    OccursSplit(code, start, HeadBytes(d.insn), TailBytes(d.insn));
  }

  lemma {:induction false} ScanFinds(code: seq<byte>, start: nat, pos: nat, end: nat)
    requires start <= pos <= end < |code| && end - start <= 14
    requires (forall i | pos <= i < end :: IsPrefix(code[i])) && !IsPrefix(code[end])
    ensures ScanPrefixes(code, start, pos) == Ok(end)
    decreases end - pos
  {
    if pos < end {
      ScanFinds(code, start, pos + 1, end);
    }
  }

  lemma ModrmComplete(code: seq<byte>, pos: nat, opcode: nat, form: Form, modrm: Option<byte>, sib: Option<byte>)
    requires (modrm.Some? <==> form.modrm) && (sib.Some? <==> HasSib(modrm))
    requires modrm.Some? ==> ExtensionAllowed(opcode, Reg(modrm.value)) && (opcode == 0x8d ==> IsMemory(modrm))
    requires Occurs(code, pos, OptionBytes(modrm) + OptionBytes(sib))
    requires pos + |OptionBytes(modrm) + OptionBytes(sib)| + DispSize(modrm, sib) <= |code|
    ensures DecodeModrm(code, pos, opcode, form)
         == Ok(Layout(modrm, sib, pos + |OptionBytes(modrm) + OptionBytes(sib)|))
  {
    hide ExtensionAllowed;
    OccursSplit(code, pos, OptionBytes(modrm), OptionBytes(sib));
    if modrm.Some? {
      OccursAt(code, pos, OptionBytes(modrm), 0);
    }
    if sib.Some? {
      OccursAt(code, pos + 1, OptionBytes(sib), 0);
    }
  }

  lemma OperandsComplete(code: seq<byte>, start: nat, pos: nat, insn: Insn, at: int)
    requires WellFormed(insn) && start <= pos && Occurs(code, pos, TailBytes(insn))
    requires pos - start == |HeadBytes(insn)|
    ensures DecodeOperands(code, start, pos, insn.prefixes, insn.rex, insn.opcode, at)
         == Ok(Decoded(insn, pos + |TailBytes(insn)|))
  {
    hide Classify, ExtensionAllowed, PrefixesAdmitted, LockAdmitted, RepeatAdmitted, MmxAdmitted, IsBranch, Width,
         DecodeModrm, DispSize, ImmediateSize, HasSib, IsMemory, RexBytes, OptionBytes, IsPrefix;
    var width := Width(insn.prefixes, insn.rex);
    var conflict := 0x66 in insn.prefixes && insn.rex / 8 % 2 == 1;
    ClassifyAnywhere(insn.opcode, width, conflict, at);
    var form := Classify(insn.opcode, width, conflict, at).value;
    var modSib := OptionBytes(insn.modrm) + OptionBytes(insn.sib);
    OccursSplit(code, pos, modSib + insn.disp, insn.imm);
    OccursSplit(code, pos, modSib, insn.disp);
    ModrmComplete(code, pos, insn.opcode, form, insn.modrm, insn.sib);
  }

  lemma HeadComplete(code: seq<byte>, end: nat, rex: byte, opcode: nat)
    requires IsOpcode(opcode) && (rex == 0 || IsRex(rex))
    requires opcode < 0x100 ==> !IsRex(opcode) && opcode != 0x0f
    requires Occurs(code, end, RexBytes(rex) + OpcodeBytes(opcode))
    ensures DecodeHead(code, end) == Ok(Head(rex, opcode, end + |RexBytes(rex) + OpcodeBytes(opcode)|))
    ensures end < |code| && ((opcode < 0x100 ==> !IsPrefix(opcode)) ==> !IsPrefix(code[end]))
  {
    var bytes := RexBytes(rex) + OpcodeBytes(opcode);
    var lead := |RexBytes(rex)|;
    OccursAt(code, end, bytes, 0);
    OccursAt(code, end, bytes, lead);
    if opcode >= 0x100 {
      OccursAt(code, end, bytes, lead + 1);
    }
  }

  lemma PrefixesComplete(code: seq<byte>, start: nat, prefixes: seq<byte>)
    requires Occurs(code, start, prefixes) && |prefixes| <= 14 && start + |prefixes| < |code|
    requires (forall b | b in prefixes :: IsPrefix(b)) && !IsPrefix(code[start + |prefixes|])
    ensures ScanPrefixes(code, start, start) == Ok(start + |prefixes|)
  {
    forall i | start <= i < start + |prefixes| ensures IsPrefix(code[i]) {
      OccursAt(code, start, prefixes, i - start);
    }
    ScanFinds(code, start, start, start + |prefixes|);
  }

  lemma DecodeComplete(code: seq<byte>, start: nat, base: int, insn: Insn)
    requires WellFormed(insn) && Occurs(code, start, Encode(insn))
    ensures DecodeInsn(code, start, base) == Ok(Decoded(insn, start + |Encode(insn)|))
  {
    hide DecodeOperands, DecodeHead, TailBytes, Classify, PrefixesAdmitted, LockAdmitted, RepeatAdmitted, MmxAdmitted,
         ExtensionAllowed, IsBranch, Width, DispSize, ImmediateSize, HasSib, IsMemory, IsPrefix, RexBytes, OpcodeBytes,
         ScanPrefixes;
    var prefixes, rest := insn.prefixes, RexBytes(insn.rex) + OpcodeBytes(insn.opcode);
    ClassifiedOpcode(insn.opcode, Width(prefixes, insn.rex), 0x66 in prefixes && insn.rex / 8 % 2 == 1, 0);
    OccursSplit(code, start, HeadBytes(insn), TailBytes(insn));
    assert HeadBytes(insn) == prefixes + rest;
    OccursSplit(code, start, prefixes, rest);
    HeadComplete(code, start + |prefixes|, insn.rex, insn.opcode);
    PrefixesComplete(code, start, prefixes);
    OperandsComplete(code, start, start + |prefixes| + |rest|, insn, base + start);
  }
}
