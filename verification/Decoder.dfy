/** Decoding a whole function body: the loop of `decode`, and the tiling of the body by its rows. */
module Decoder {
  import opened Wrappers
  import opened Bytes
  import opened CallbackReasons
  import opened Instructions

  function RowOf(insn: Insn, rva: int): Row {
    var end := rva + |Encode(insn)|;
    Row(rva, Encode(insn), |Encode(insn)|, insn.opcode, KindOf(insn.opcode),
        if IsBranch(insn.opcode) then Some(end + Signed(insn.imm)) else None,
        if IsRipRelative(insn.modrm) && insn.opcode != 0x0f1f then Some(end + Signed(insn.disp)) else None)
  }

  /** The instructions from `pos` to the end of `code`. */
  function DecodeFrom(code: seq<byte>, base: int, pos: nat): (r: Result<seq<Insn>, Reason>)
    requires pos <= |code|
    decreases |code| - pos
  {
    if pos == |code| then Ok([])
    else
      var d :- DecodeInsn(code, pos, base);
      var rest :- DecodeFrom(code, base, d.next);
      Ok([d.insn] + rest)
  }

  predicate AllWellFormed(insns: seq<Insn>) {
    forall insn | insn in insns :: WellFormed(insn)
  }

  function EncodeAll(insns: seq<Insn>): seq<byte> {
    if insns == [] then [] else Encode(insns[0]) + EncodeAll(insns[1..])
  }

  function RowsOf(insns: seq<Insn>, rva: int): (rows: seq<Row>)
    ensures |rows| == |insns|
  {
    if insns == [] then [] else [RowOf(insns[0], rva)] + RowsOf(insns[1..], rva + |Encode(insns[0])|)
  }

  // ----- decoding inverts printing --------------------------------------------------------------

  lemma {:induction false} DecodeFromSound(code: seq<byte>, base: int, pos: nat)
    requires pos <= |code| && DecodeFrom(code, base, pos).Ok?
    ensures AllWellFormed(DecodeFrom(code, base, pos).value)
    ensures EncodeAll(DecodeFrom(code, base, pos).value) == code[pos..]
    decreases |code| - pos
  {
    hide WellFormed, DecodeInsn, Encode;
    if pos < |code| {
      DecodeSound(code, pos, base);
      var d := DecodeInsn(code, pos, base).value;
      DecodeFromSound(code, base, d.next);
      var rest := DecodeFrom(code, base, d.next).value;
      assert DecodeFrom(code, base, pos).value == [d.insn] + rest;
      assert code[pos..] == code[pos..d.next] + code[d.next..];
    }
  }

  lemma {:induction false} DecodeFromComplete(code: seq<byte>, base: int, pos: nat, insns: seq<Insn>)
    requires AllWellFormed(insns) && pos <= |code| && EncodeAll(insns) == code[pos..]
    ensures DecodeFrom(code, base, pos) == Ok(insns)
    decreases |insns|
  {
    hide WellFormed, DecodeInsn, Encode;
    if insns != [] {
      var first, rest := Encode(insns[0]), EncodeAll(insns[1..]);
      assert code[pos..][..|first|] == first && code[pos..][|first|..] == rest;
      assert Occurs(code, pos, first) && code[pos + |first|..] == rest;
      EncodeSize(insns[0]);
      DecodeComplete(code, pos, base, insns[0]);
      DecodeFromComplete(code, base, pos + |first|, insns[1..]);
      assert insns == [insns[0]] + insns[1..];
    }
  }

  /** The decoder accepts exactly the printed lists of admitted instructions, and returns the list. */
  lemma DecodeIffPrinted(code: seq<byte>, base: int, insns: seq<Insn>)
    ensures DecodeFrom(code, base, 0) == Ok(insns) <==> AllWellFormed(insns) && EncodeAll(insns) == code
  {
    hide WellFormed;
    assert code[0..] == code;
    if DecodeFrom(code, base, 0) == Ok(insns) {
      DecodeFromSound(code, base, 0);
    }
    if AllWellFormed(insns) && EncodeAll(insns) == code {
      DecodeFromComplete(code, base, 0, insns);
    }
  }

  /** The admitted encodings form a prefix code: no instruction begins with another one. */
  lemma PrefixFree(a: Insn, b: Insn)
    requires WellFormed(a) && WellFormed(b) && Encode(a) <= Encode(b)
    ensures a == b
  {
    hide WellFormed, Encode, DecodeInsn;
    var code := Encode(b);
    assert Occurs(code, 0, Encode(b)) && Occurs(code, 0, Encode(a));
    DecodeComplete(code, 0, 0, a);
    DecodeComplete(code, 0, 0, b);
  }

  // ----- tiling -----------------------------------------------------------------------------------

  function JoinBytes(rows: seq<Row>): seq<byte> {
    if rows == [] then [] else rows[0].bytes + JoinBytes(rows[1..])
  }

  /** Consecutive rows from `from` to `to`, each of 1 to 15 bytes. */
  predicate Tiles(rows: seq<Row>, from: int, to: int) {
    if rows == [] then from == to
    else rows[0].rva == from && rows[0].size == |rows[0].bytes| && 1 <= rows[0].size <= 15
         && Tiles(rows[1..], from + rows[0].size, to)
  }

  lemma RowShape(insn: Insn, rva: int)
    requires WellFormed(insn)
    ensures var row := RowOf(insn, rva);
            row.rva == rva && row.bytes == Encode(insn) && row.size == |Encode(insn)| && 1 <= row.size <= 15
  {
    hide IsBranch, KindOf, IsRipRelative, Signed;
    EncodeSize(insn);
  }

  lemma {:induction false} RowsTile(insns: seq<Insn>, rva: int)
    requires AllWellFormed(insns)
    ensures JoinBytes(RowsOf(insns, rva)) == EncodeAll(insns)
    ensures Tiles(RowsOf(insns, rva), rva, rva + |EncodeAll(insns)|)
  {
    hide WellFormed, Encode, RowOf;
    if insns != [] {
      var next := rva + |Encode(insns[0])|;
      RowShape(insns[0], rva);
      RowsTile(insns[1..], next);
      assert RowsOf(insns, rva)[1..] == RowsOf(insns[1..], next);
      assert RowsOf(insns, rva)[0] == RowOf(insns[0], rva);
    }
  }

  lemma EncodeSize(insn: Insn)
    requires WellFormed(insn)
    ensures 1 <= |Encode(insn)| <= 15
  {
  }

  lemma {:induction false} TilesBetween(rows: seq<Row>, from: int, to: int, k: nat)
    requires Tiles(rows, from, to) && k <= |rows|
    ensures Tiles(rows[..k], from, from + |JoinBytes(rows[..k])|)
    ensures Tiles(rows[k..], from + |JoinBytes(rows[..k])|, to)
    ensures k < |rows| ==> rows[k].rva == from + |JoinBytes(rows[..k])|
    ensures from <= to
    decreases |rows|
  {
    if k > 0 {
      TilesBetween(rows[1..], from + rows[0].size, to, k - 1);
      assert rows[..k][1..] == rows[1..][..k - 1] && rows[k..] == rows[1..][k - 1..];
    } else if rows != [] {
      TilesBetween(rows[1..], from + rows[0].size, to, 0);
      assert rows[0..] == rows;
    }
  }

  /** Row starts increase, so an address names at most one row, and all rows lie inside the function. */
  lemma {:induction false} TilesOrdered(rows: seq<Row>, from: int, to: int)
    requires Tiles(rows, from, to)
    ensures forall i | 0 <= i < |rows| :: from <= rows[i].rva && rows[i].rva + rows[i].size <= to
    ensures forall i, j | 0 <= i < j < |rows| :: rows[i].rva + rows[i].size <= rows[j].rva
    ensures from <= to && (rows != [] ==> rows[0].rva == from)
  {
    if rows != [] {
      var rest := rows[1..];
      TilesOrdered(rest, from + rows[0].size, to);
      assert forall i | 1 <= i < |rows| :: rows[i] == rest[i - 1];
    }
  }

  function DecodeRows(code: seq<byte>, base: int): Result<seq<Row>, Reason> {
    match DecodeFrom(code, base, 0)
    case Refused(reason) => Refused(reason)
    case Ok(insns) => Ok(RowsOf(insns, base))
  }

  /** The rows print back to the code, and cover it without gap or overlap. */
  lemma DecodedRowsTile(code: seq<byte>, base: int)
    requires DecodeRows(code, base).Ok?
    ensures JoinBytes(DecodeRows(code, base).value) == code
    ensures Tiles(DecodeRows(code, base).value, base, base + |code|)
  {
    hide WellFormed, DecodeFrom, RowsOf, Tiles, JoinBytes, EncodeAll;
    assert code[0..] == code;
    DecodeFromSound(code, base, 0);
    RowsTile(DecodeFrom(code, base, 0).value, base);
  }

  lemma {:induction false} RowsSuffix(insns: seq<Insn>, rva: int, k: nat)
    requires k <= |insns|
    ensures |EncodeAll(insns)| == |EncodeAll(insns[..k])| + |EncodeAll(insns[k..])|
    ensures EncodeAll(insns)[|EncodeAll(insns[..k])|..] == EncodeAll(insns[k..])
    ensures RowsOf(insns, rva)[k..] == RowsOf(insns[k..], rva + |EncodeAll(insns[..k])|)
    ensures k < |insns| ==> RowsOf(insns, rva)[k].rva == rva + |EncodeAll(insns[..k])|
    decreases k
  {
    hide WellFormed, Encode;
    if k > 0 {
      RowsSuffix(insns[1..], rva + |Encode(insns[0])|, k - 1);
      assert insns[..k][1..] == insns[1..][..k - 1] && insns[k..] == insns[1..][k - 1..];
    } else {
      assert insns[0..] == insns;
    }
  }

  /** Decoding from any row boundary gives the remaining rows. */
  lemma DecodeResumes(code: seq<byte>, base: int, k: nat)
    requires DecodeRows(code, base).Ok? && k < |DecodeRows(code, base).value|
    ensures var rows := DecodeRows(code, base).value;
            && 0 <= rows[k].rva - base <= |code|
            && DecodeRows(code[rows[k].rva - base..], rows[k].rva) == Ok(rows[k..])
  {
    hide WellFormed, DecodeFrom, RowsOf, EncodeAll;
    DecodeFromSound(code, base, 0);
    var insns := DecodeFrom(code, base, 0).value;
    RowsSuffix(insns, base, k);
    var at := |EncodeAll(insns[..k])|;
    assert code[0..] == code && code[at..] == EncodeAll(insns[k..]);
    DecodeFromComplete(code[at..], base + at, 0, insns[k..]);
  }

  // ----- the loop -----------------------------------------------------------------------------------

  /** The inner loop of `decode`: the position after the prefix bytes at `start`. */
  method ConsumePrefixes(code: seq<byte>, start: nat) returns (r: Result<nat, Reason>)
    requires start <= |code|
    ensures r == ScanPrefixes(code, start, start)
  {
    var pos := start;
    while pos < |code| && IsPrefix(code[pos])
      invariant start <= pos <= |code|
      invariant ScanPrefixes(code, start, start) == ScanPrefixes(code, start, pos)
    {
      if pos - start >= 14 {
        return Refused(PrefixLengthBound);
      }
      pos := pos + 1;
    }
    r := Ok(pos);
  }

  method Decode(code: seq<byte>, base: int) returns (r: Result<seq<Row>, Reason>)
    ensures r == DecodeRows(code, base)
  {
    hide WellFormed, DecodeAfterPrefixes, ScanPrefixes, Encode, RowsOf, EncodeAll, KindOf, IsBranch, IsRipRelative, Signed;
    EmptyLists(base);
    PrependNothing(DecodeFrom(code, base, 0));
    var rows: seq<Row> := [];
    var pos := 0;
    ghost var insns: seq<Insn> := [];
    while pos < |code|
      invariant pos <= |code| && AllWellFormed(insns) && rows == RowsOf(insns, base)
      invariant pos == |EncodeAll(insns)|
      invariant DecodeFrom(code, base, 0) == Prepend(insns, DecodeFrom(code, base, pos))
    {
      var start := pos;
      var scanned := ConsumePrefixes(code, start);
      if scanned.Refused? {
        return Refused(scanned.reason);
      }
      pos := scanned.value;
      var decoded := DecodeAfterPrefixes(code, start, pos, base);
      if decoded.Refused? {
        return Refused(decoded.reason);
      }
      DecodeSound(code, start, base);
      var insn := decoded.value.insn;
      pos := decoded.value.next;
      rows := rows + [RowOf(insn, base + start).(bytes := code[start..pos], size := pos - start)];
      PrependTwice(insns, insn, DecodeFrom(code, base, pos));
      assert DecodeFrom(code, base, start) == Prepend([insn], DecodeFrom(code, base, pos));
      AppendRow(insns, insn, base);
      insns := insns + [insn];
    }
    assert insns + [] == insns;
    r := Ok(rows);
  }

  lemma PrependNothing<T, E>(rest: Result<seq<T>, E>)
    ensures Prepend([], rest) == rest
  {
    if rest.Ok? {
      assert [] + rest.value == rest.value;
    }
  }

  lemma PrependTwice<T, E>(front: seq<T>, next: T, rest: Result<seq<T>, E>)
    ensures Prepend(front, Prepend([next], rest)) == Prepend(front + [next], rest)
  {
    if rest.Ok? {
      assert front + ([next] + rest.value) == front + [next] + rest.value;
    }
  }

  lemma EmptyLists(rva: int)
    ensures RowsOf([], rva) == [] && EncodeAll([]) == []
  {
  }

  function Prepend<T, E>(front: seq<T>, rest: Result<seq<T>, E>): Result<seq<T>, E> {
    match rest
    case Ok(back) => Ok(front + back)
    case Refused(e) => Refused(e)
  }

  lemma {:induction false} AppendRow(insns: seq<Insn>, insn: Insn, rva: int)
    ensures RowsOf(insns + [insn], rva) == RowsOf(insns, rva) + [RowOf(insn, rva + |EncodeAll(insns)|)]
    ensures |EncodeAll(insns + [insn])| == |EncodeAll(insns)| + |Encode(insn)|
  {
    hide WellFormed, Encode;
    if insns != [] {
      AppendRow(insns[1..], insn, rva + |Encode(insns[0])|);
      assert (insns + [insn])[1..] == insns[1..] + [insn];
    }
  }
}
