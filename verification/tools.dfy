/**
 * The helpers of adv_tools.h: MIN/MAX/ABS/NABS, ZARRAY_SIZE and the
 * little-endian accessors get_uint8..get_uint64 and
 * set_uint8..set_uint64.
 *
 * The C shifts and masks on unsigned values are written here as division
 * and remainder by powers of two, which is what they compute on
 * non-negative integers: byte i of a value is (value >> 8i) & 0xFF.
 */
module Tools {
  import opened Types

  function Min(a: int, b: int): (r: int)
    ensures r <= a && r <= b
    ensures r == a || r == b
  {
    if a < b then a else b
  }

  function Max(a: int, b: int): (r: int)
    ensures r >= a && r >= b
    ensures r == a || r == b
  {
    if a > b then a else b
  }

  function Abs(a: int): (r: int)
    ensures r >= 0
    ensures r == a || r == -a
  {
    if a > 0 then a else -a
  }

  /** NABS never yields a positive value. */
  function NAbs(a: int): (r: int)
    ensures r <= 0
    ensures r == a || r == -a
  {
    if a < 0 then a else -a
  }

  /** ZARRAY_SIZE: the element count of an array, less one for the terminator. */
  function ZArraySize(a: seq<char>): (n: nat)
    requires |a| >= 1
    ensures n + 1 == |a|
  {
    |a| - 1
  }

  /**
   * For a string literal (its text, then the NUL the compiler appends),
   * ZARRAY_SIZE is the length of the text, and the first ZARRAY_SIZE
   * characters are the text without its terminator.
   */
  lemma LiteralSize(text: seq<char>)
    ensures ZArraySize(text + ['\0']) == |text|
    ensures (text + ['\0'])[..ZArraySize(text + ['\0'])] == text
    ensures (text + ['\0'])[ZArraySize(text + ['\0'])] == '\0'
  {
    assert (text + ['\0'])[..|text|] == text;
  }

  // ---------------------------------------------------------------- encoding

  /** The bytes set_uint16 stores, least significant first. */
  function Le16(v: uint16): (b: seq<uint8>)
    ensures |b| == 2
  {
    [v % 0x100, v / 0x100 % 0x100]
  }

  /** The bytes set_uint32 stores, least significant first. */
  function Le32(v: uint32): (b: seq<uint8>)
    ensures |b| == 4
  {
    [v % 0x100, v / 0x100 % 0x100, v / 0x1_0000 % 0x100, v / 0x100_0000 % 0x100]
  }

  /** The bytes set_uint64 stores: the low word, then the high word. */
  function Le64(v: uint64): (b: seq<uint8>)
    ensures |b| == 8
  {
    Le32(v % 0x1_0000_0000) + Le32(v / 0x1_0000_0000)
  }

  // ---------------------------------------------------------------- decoding

  function GetUint8(buf: seq<uint8>): (v: uint8)
    requires |buf| >= 1
    ensures [v] == buf[..1]
  {
    buf[0]
  }

  /** get_uint16: the little-endian value of buf[0..2); encoding it again gives the same bytes. */
  function GetUint16(buf: seq<uint8>): (v: uint16)
    requires |buf| >= 2
    ensures Le16(v) == buf[..2]
  {
    buf[0] as int + buf[1] as int * 0x100
  }

  /** get_uint32: the little-endian value of buf[0..4); encoding it again gives the same bytes. */
  function GetUint32(buf: seq<uint8>): (v: uint32)
    requires |buf| >= 4
    ensures Le32(v) == buf[..4]
  {
    var hi := buf[1] as int + buf[2] as int * 0x100 + buf[3] as int * 0x1_0000;
    SplitLowByte(buf[0], hi);
    SplitLowByte(buf[1], buf[2] as int + buf[3] as int * 0x100);
    SplitLowByte(buf[2], buf[3]);
    assert hi / 0x100 == buf[2] as int + buf[3] as int * 0x100;
    buf[0] as int + buf[1] as int * 0x100 + buf[2] as int * 0x1_0000 + buf[3] as int * 0x100_0000
  }

  /** Splitting off the low byte of lo + 256 * hi gives back lo and hi. */
  lemma SplitLowByte(lo: uint8, hi: nat)
    ensures (lo + hi * 0x100) % 0x100 == lo
    ensures (lo + hi * 0x100) / 0x100 == hi
    ensures (lo + hi * 0x100) / 0x1_0000 == hi / 0x100
    ensures (lo + hi * 0x100) / 0x100_0000 == hi / 0x1_0000
  {
  }

  /** get_uint64: low word from buf[0..4), high word from buf[4..8). */
  function GetUint64(buf: seq<uint8>): (v: uint64)
    requires |buf| >= 8
    ensures Le64(v) == buf[..8]
  {
    var lo := GetUint32(buf);
    var hi := GetUint32(buf[4..]);
    SplitLowWord(lo, hi);
    assert buf[..8] == buf[..4] + buf[4..][..4];
    lo + hi * 0x1_0000_0000
  }

  /** Splitting off the low word of lo + 2^32 * hi gives back lo and hi, and two words make a uint64. */
  lemma SplitLowWord(lo: uint32, hi: uint32)
    ensures lo + hi * 0x1_0000_0000 < 0x1_0000_0000_0000_0000
    ensures (lo + hi * 0x1_0000_0000) % 0x1_0000_0000 == lo
    ensures (lo + hi * 0x1_0000_0000) / 0x1_0000_0000 == hi
  {
  }

  lemma GetSetUint16(v: uint16)
    ensures GetUint16(Le16(v)) == v
  {
  }

  lemma GetSetUint32(v: uint32)
    ensures GetUint32(Le32(v)) == v
  {
    var q1, q2, q3 := v / 0x100, v / 0x1_0000, v / 0x100_0000;
    assert v == v % 0x100 + q1 * 0x100;
    assert q2 == q1 / 0x100 && q1 == q1 % 0x100 + q2 * 0x100;
    assert q3 == q2 / 0x100 && q2 == q2 % 0x100 + q3 * 0x100;
    assert q3 < 0x100;
  }

  lemma GetSetUint64(v: uint64)
    ensures GetUint64(Le64(v)) == v
  {
    var b := Le64(v);
    assert b[4..] == Le32(v / 0x1_0000_0000);
    GetSetUint32(v % 0x1_0000_0000);
    GetSetUint32(v / 0x1_0000_0000);
  }

  // ---------------------------------------------------------------- stores

  method SetUint8(buf: array<uint8>, at: nat, value: uint8)
    requires at + 1 <= buf.Length
    modifies buf
    ensures buf[at..at + 1] == [value]
    ensures forall i :: 0 <= i < buf.Length && !(at <= i < at + 1) ==> buf[i] == old(buf[i])
  {
    buf[at] := value;
  }

  method SetUint16(buf: array<uint8>, at: nat, value: uint16)
    requires at + 2 <= buf.Length
    modifies buf
    ensures buf[at..at + 2] == Le16(value)
    ensures forall i :: 0 <= i < buf.Length && !(at <= i < at + 2) ==> buf[i] == old(buf[i])
  {
    buf[at] := value % 0x100;
    buf[at + 1] := (value / 0x100) % 0x100;
  }

  method SetUint32(buf: array<uint8>, at: nat, value: uint32)
    requires at + 4 <= buf.Length
    modifies buf
    ensures buf[at..at + 4] == Le32(value)
    ensures forall i :: 0 <= i < buf.Length && !(at <= i < at + 4) ==> buf[i] == old(buf[i])
  {
    buf[at] := value % 0x100;
    buf[at + 1] := (value / 0x100) % 0x100;
    buf[at + 2] := (value / 0x1_0000) % 0x100;
    buf[at + 3] := (value / 0x100_0000) % 0x100;
  }

  /** set_uint64: two set_uint32 calls, the low word at buf, the high word at buf + 4. */
  method SetUint64(buf: array<uint8>, at: nat, value: uint64)
    requires at + 8 <= buf.Length
    modifies buf
    ensures buf[at..at + 8] == Le64(value)
    ensures forall i :: 0 <= i < buf.Length && !(at <= i < at + 8) ==> buf[i] == old(buf[i])
  {
    SetUint32(buf, at, value % 0x1_0000_0000);
    SetUint32(buf, at + 4, value / 0x1_0000_0000);
    assert buf[at..at + 8] == buf[at..at + 4] + buf[at + 4..at + 8];
  }
}
