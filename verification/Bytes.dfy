/** Little-endian reads and sequence facts used by the PE reader and the decoder. */
module Bytes {

  type byte = b: int | 0 <= b < 256

  function U16(d: seq<byte>, at: nat): (r: nat)
    requires at + 2 <= |d|
    ensures r < 0x1_0000
  {
    var low: int, high: int := d[at], d[at + 1];
    low + 0x100 * high
  }

  function U32(d: seq<byte>, at: nat): (r: nat)
    requires at + 4 <= |d|
    ensures r < 0x1_0000_0000
  {
    U16(d, at) + 0x1_0000 * U16(d, at + 2)
  }

  function U64(d: seq<byte>, at: nat): nat
    requires at + 8 <= |d|
  {
    U32(d, at) + 0x1_0000_0000 * U32(d, at + 4)
  }

  /** `int.from_bytes(b, "little")`. */
  function LittleEndian(b: seq<byte>): nat {
    if b == [] then 0 else b[0] + 256 * LittleEndian(b[1..])
  }

  function Power256(n: nat): nat {
    if n == 0 then 1 else 256 * Power256(n - 1)
  }

  /** `int.from_bytes(b, "little", signed=True)`. */
  function Signed(b: seq<byte>): int {
    var value := LittleEndian(b);
    if b != [] && b[|b| - 1] >= 128 then value - Power256(|b|) else value
  }

  /** Bit `mask`, a power of two, of a flags word. */
  predicate HasFlag(flags: nat, mask: nat)
    requires mask > 0
  {
    flags / mask % 2 == 1
  }

  /** `part` occurs in `code` at offset `at`. */
  predicate Occurs(code: seq<byte>, at: nat, part: seq<byte>) {
    at + |part| <= |code| && code[at..at + |part|] == part
  }

  lemma OccursSplit(code: seq<byte>, at: nat, left: seq<byte>, right: seq<byte>)
    ensures Occurs(code, at, left + right) <==> Occurs(code, at, left) && Occurs(code, at + |left|, right)
  {
    var whole := left + right;
    if at + |whole| <= |code| {
      assert code[at..at + |whole|] == code[at..at + |left|] + code[at + |left|..at + |whole|];
      assert whole[..|left|] == left && whole[|left|..] == right;
      if code[at..at + |whole|] == whole {
        assert code[at..at + |left|] == whole[..|left|];
        assert code[at + |left|..at + |whole|] == whole[|left|..];
      }
    }
  }

  lemma OccursAt(code: seq<byte>, at: nat, part: seq<byte>, i: nat)
    requires Occurs(code, at, part) && i < |part|
    ensures code[at + i] == part[i]
  {
    assert code[at..at + |part|][i] == code[at + i];
  }

  lemma ReadsPrefix(d: seq<byte>, end: nat, at: nat)
    requires at + 4 <= end <= |d|
    ensures U16(d[..end], at) == U16(d, at) && U32(d[..end], at) == U32(d, at)
    ensures at + 8 <= end ==> U64(d[..end], at) == U64(d, at)
  {
  }
}
