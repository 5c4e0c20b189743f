/**
 The unwind-array walker (`validate_unwind`). Layout: Microsoft x64 exception handling,
 "struct UNWIND_INFO" and "struct UNWIND_CODE".
 */
module Unwind {
  import opened Wrappers
  import opened Bytes
  import opened CallbackReasons

  /** One operation with the bytes of its extra slots. */
  datatype UnwindCode = UnwindCode(offset: byte, operation: nat, info: nat, operand: seq<byte>)

  predicate Nonvolatile(register: nat) {
    register in {3, 5, 6, 7, 12, 13, 14, 15}
  }

  /** `4 + 2 * ((count + 1) & ~1)`: the array is padded to an even number of slots. */
  function InfoSize(count: nat): nat {
    4 + 2 * ((count + 1) / 2 * 2)
  }

  function ExtraSlots(operation: nat, info: nat): nat {
    match operation
    case 1 => if info == 0 then 1 else 2
    case 4 => 1
    case 5 => 2
    case 8 => 1
    case 9 => 2
    case _ => 0
  }

  /** The form checks of one operation, before its operand is read. */
  function CheckForm(operation: nat, info: nat, frameRegister: nat): Outcome<Reason> {
    match operation
    case 0 => Need(Nonvolatile(info), UnwindNonvolatileRegister)
    case 1 => Need(info == 0 || info == 1, UnwindAllocationForm)
    case 2 => Pass
    case 3 => Need(info == 0 && frameRegister != 0, UnwindFrameOperation)
    case 4 => Need(Nonvolatile(info), UnwindNonvolatileRegister)
    case 5 => Need(Nonvolatile(info), UnwindNonvolatileRegister)
    case 8 => Need(6 <= info <= 15, UnwindNonvolatileXmm)
    case 9 => Need(6 <= info <= 15, UnwindNonvolatileXmm)
    case _ => Fail(UnsupportedUnwindOperation)
  }

  function CheckOperand(operation: nat, info: nat, operand: seq<byte>): Outcome<Reason> {
    var value := LittleEndian(operand);
    match operation
    case 1 => Need(value > 0 && (info == 0 || value % 8 == 0), UnwindAllocationSize)
    case 5 => Need(value % 8 == 0, UnwindSaveOffset)
    case 9 => Need(value % 16 == 0, UnwindSaveOffset)
    case _ => Pass
  }

  /** One turn of the loop over slots. */
  function ParseCode(data: seq<byte>, count: nat, slot: nat, previous: nat, frameRegister: nat)
    : (r: Result<UnwindCode, Reason>)
    requires 4 + 2 * count <= |data| && slot < count
    ensures r.Ok? ==> slot + 1 + ExtraSlots(r.value.operation, r.value.info) <= count
  {
    var at := 4 + 2 * slot;
    var offset, operation, info := data[at], data[at + 1] % 16, data[at + 1] / 16;
    var extra := ExtraSlots(operation, info);
    :- Need(0 < offset <= previous, UnwindCodeOffsetOrder);
    :- CheckForm(operation, info, frameRegister);
    :- Need(slot + extra < count, UnwindOperationSlotBound);
    :- CheckOperand(operation, info, data[at + 2..at + 2 + 2 * extra]);
    Ok(UnwindCode(offset, operation, info, data[at + 2..at + 2 + 2 * extra]))
  }

  function ParseCodes(data: seq<byte>, count: nat, slot: nat, previous: nat, frameRegister: nat)
    : Result<seq<UnwindCode>, Reason>
    requires 4 + 2 * count <= |data| && slot <= count
    decreases count - slot
  {
    if slot == count then Ok([])
    else
      var code :- ParseCode(data, count, slot, previous, frameRegister);
      var rest :- ParseCodes(data, count, slot + 1 + ExtraSlots(code.operation, code.info), code.offset, frameRegister);
      Ok([code] + rest)
  }

  function FrameDefinitions(codes: seq<UnwindCode>): nat {
    if codes == [] then 0 else (if codes[0].operation == 3 then 1 else 0) + FrameDefinitions(codes[1..])
  }

  function CheckHeader(data: seq<byte>, functionSize: nat): (r: Outcome<Reason>)
    ensures r.Pass? ==> |data| >= 4 && |data| == InfoSize(data[2])
  {
    if |data| < 4 || data[0] != 1 then Fail(UnwindVersion)
    else if data[1] > functionSize || |data| != InfoSize(data[2]) then Fail(UnwindPrologOrArrayBound)
    else Need(if data[3] % 16 != 0 then Nonvolatile(data[3] % 16) else data[3] == 0, UnwindFrameRegister)
  }

  function Verdict(data: seq<byte>, functionSize: nat): Outcome<Reason> {
    var header := CheckHeader(data, functionSize);
    if header.Fail? then header
    else
      var codes := ParseCodes(data, data[2], 0, data[1], data[3] % 16);
      if codes.Refused? then Fail(codes.reason)
      else Need(FrameDefinitions(codes.value) == (if data[3] % 16 != 0 then 1 else 0), UnwindFrameDefinition)
  }

  // ----- what an accepted array is ------------------------------------------------------------

  function PrintCode(code: UnwindCode): seq<int> {
    [code.offset, code.operation + 16 * code.info] + code.operand
  }

  function PrintCodes(codes: seq<UnwindCode>): seq<int> {
    if codes == [] then []
    else PrintCode(codes[0]) + PrintCodes(codes[1..])
  }

  predicate CodeAdmitted(code: UnwindCode, frameRegister: nat) {
    && code.operation < 16 && code.info < 16
    && |code.operand| == 2 * ExtraSlots(code.operation, code.info)
    && CheckForm(code.operation, code.info, frameRegister).Pass?
    && CheckOperand(code.operation, code.info, code.operand).Pass?
  }

  /** Admitted operations, by prolog offset in descending order from `previous`. */
  predicate CodesAdmitted(codes: seq<UnwindCode>, previous: nat, frameRegister: nat) {
    codes != [] ==>
      && 0 < codes[0].offset <= previous && CodeAdmitted(codes[0], frameRegister)
      && CodesAdmitted(codes[1..], codes[0].offset, frameRegister)
  }

  /** The accepted unwind information, without reference to the walk. */
  ghost predicate Describes(codes: seq<UnwindCode>, data: seq<byte>, functionSize: nat) {
    && |data| >= 4 && data[0] == 1 && data[1] <= functionSize && |data| == InfoSize(data[2])
    && (data[3] == 0 || Nonvolatile(data[3] % 16))
    && (var count: int := data[2]; PrintCodes(codes) == data[4..4 + 2 * count])
    && CodesAdmitted(codes, data[1], data[3] % 16)
    && FrameDefinitions(codes) == (if data[3] == 0 then 0 else 1)
  }

  lemma ParseCodeSound(data: seq<byte>, count: nat, slot: nat, previous: nat, frameRegister: nat)
    requires 4 + 2 * count <= |data| && slot < count && ParseCode(data, count, slot, previous, frameRegister).Ok?
    ensures var code := ParseCode(data, count, slot, previous, frameRegister).value;
            var next := slot + 1 + ExtraSlots(code.operation, code.info);
            && CodeAdmitted(code, frameRegister) && 0 < code.offset <= previous
            && PrintCode(code) == data[4 + 2 * slot..4 + 2 * next]
  {
    hide CheckForm, CheckOperand, ExtraSlots;
  }

  lemma ParseCodeComplete(data: seq<byte>, count: nat, slot: nat, previous: nat, frameRegister: nat, code: UnwindCode)
    requires 4 + 2 * count <= |data| && CodeAdmitted(code, frameRegister) && 0 < code.offset <= previous
    requires slot + 1 + ExtraSlots(code.operation, code.info) <= count
    requires PrintCode(code) == data[4 + 2 * slot..6 + 2 * slot + |code.operand|]
    ensures ParseCode(data, count, slot, previous, frameRegister) == Ok(code)
  {
    hide CheckForm, CheckOperand, ExtraSlots;
    var at := 4 + 2 * slot;
    var printed := data[at..at + 2 + |code.operand|];
    assert printed[0] == data[at] && printed[1] == data[at + 1];
    assert printed[2..] == code.operand;
    assert data[at + 2..at + 2 + |code.operand|] == printed[2..];
  }

  lemma {:induction false} ParseCodesSound(data: seq<byte>, count: nat, slot: nat, previous: nat, frameRegister: nat)
    requires 4 + 2 * count <= |data| && slot <= count
    requires ParseCodes(data, count, slot, previous, frameRegister).Ok?
    ensures var codes := ParseCodes(data, count, slot, previous, frameRegister).value;
            && CodesAdmitted(codes, previous, frameRegister)
            && PrintCodes(codes) == data[4 + 2 * slot..4 + 2 * count]
    decreases count - slot
  {
    hide ParseCode, ExtraSlots, CodeAdmitted;
    if slot < count {
      var code := ParseCode(data, count, slot, previous, frameRegister).value;
      var at, next := 4 + 2 * slot, slot + 1 + ExtraSlots(code.operation, code.info);
      ParseCodeSound(data, count, slot, previous, frameRegister);
      ParseCodesSound(data, count, next, code.offset, frameRegister);
      var rest := ParseCodes(data, count, next, code.offset, frameRegister).value;
      assert ([code] + rest)[1..] == rest;
      assert data[at..4 + 2 * count] == data[at..4 + 2 * next] + data[4 + 2 * next..4 + 2 * count];
    }
  }

  lemma {:induction false} ParseCodesComplete(data: seq<byte>, count: nat, slot: nat, previous: nat, frameRegister: nat,
                                              codes: seq<UnwindCode>)
    requires 4 + 2 * count <= |data| && slot <= count
    requires CodesAdmitted(codes, previous, frameRegister) && PrintCodes(codes) == data[4 + 2 * slot..4 + 2 * count]
    ensures ParseCodes(data, count, slot, previous, frameRegister) == Ok(codes)
    decreases |codes|
  {
    hide ParseCode, ExtraSlots, CheckForm, CheckOperand;
    if codes != [] {
      var code, rest := codes[0], codes[1..];
      var at, printed := 4 + 2 * slot, data[4 + 2 * slot..4 + 2 * count];
      var size := 2 + |code.operand|;
      assert printed == PrintCode(code) + PrintCodes(rest);
      assert printed[..size] == PrintCode(code) && printed[size..] == PrintCodes(rest);
      assert data[at..at + size] == printed[..size] && data[at + size..4 + 2 * count] == printed[size..];
      ParseCodeComplete(data, count, slot, previous, frameRegister, code);
      ParseCodesComplete(data, count, slot + size / 2, code.offset, frameRegister, rest);
      assert codes == [code] + rest;
    }
  }

  /** Acceptance is existence of a well-formed list of operations that prints to the array. */
  lemma AcceptedIffDescribed(data: seq<byte>, functionSize: nat)
    ensures Verdict(data, functionSize).Pass? <==> exists codes :: Describes(codes, data, functionSize)
  {
    hide ParseCodes, CodesAdmitted, PrintCodes, FrameDefinitions;
    if Verdict(data, functionSize).Pass? {
      ParseCodesSound(data, data[2], 0, data[1], data[3] % 16);
      assert Describes(ParseCodes(data, data[2], 0, data[1], data[3] % 16).value, data, functionSize);
    }
    forall codes | Describes(codes, data, functionSize) ensures Verdict(data, functionSize).Pass? {
      ParseCodesComplete(data, data[2], 0, data[1], data[3] % 16, codes);
    }
  }

  // ----- the loop -----------------------------------------------------------------------------

  method ValidateUnwind(data: seq<byte>, functionSize: nat) returns (r: Outcome<Reason>)
    ensures r == Verdict(data, functionSize)
  {
    hide ParseCode, ExtraSlots;
    var header := CheckHeader(data, functionSize);
    if header.Fail? {
      return header;
    }
    var prolog, count, frameRegister := data[1], data[2], data[3] % 16;
    var slot, previous, frameSet := 0, prolog, 0;
    ghost var all := ParseCodes(data, count, 0, prolog, frameRegister);
    while slot < count
      invariant 0 <= slot <= count
      invariant var rest := ParseCodes(data, count, slot, previous, frameRegister);
                if all.Refused? then rest == all
                else rest.Ok? && FrameDefinitions(all.value) == frameSet + FrameDefinitions(rest.value)
      decreases count - slot
    {
      var code := ParseCode(data, count, slot, previous, frameRegister);
      if code.Refused? {
        return Fail(code.reason);
      }
      previous := code.value.offset;
      if code.value.operation == 3 {
        frameSet := frameSet + 1;
      }
      slot := slot + 1 + ExtraSlots(code.value.operation, code.value.info);
    }
    r := Need(frameSet == (if frameRegister != 0 then 1 else 0), UnwindFrameDefinition);
  }
}
