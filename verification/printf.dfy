/**
 * The part of the C library's formatted output that the traced code relies
 * on: "%0Nx" hexadecimal rendering and the truncation contract of snprintf,
 * which writes at most size - 1 characters plus a terminating NUL and
 * returns the length the complete output would have had.
 */
module Printf {
  import opened Types
  import opened Tools

  /** One lower-case hexadecimal digit. */
  function HexDigit(d: nat): (c: char)
    requires d < 16
    ensures '0' <= c <= '9' || 'a' <= c <= 'f'
    ensures d < 10 <==> '0' <= c <= '9'
  {
    if d < 10 then ('0' as int + d) as char else ('a' as int + d - 10) as char
  }

  /** The value of a lower-case hexadecimal digit (0 for any other character). */
  function DigitValue(c: char): (d: nat)
    ensures d < 16
  {
    if '0' <= c <= '9' then c as int - '0' as int
    else if 'a' <= c <= 'f' then c as int - 'a' as int + 10
    else 0
  }

  /** Each digit reads back as the value it was printed from. */
  lemma DigitRoundTrip(d: nat)
    requires d < 16
    ensures DigitValue(HexDigit(d)) == d
  {
  }

  /** The value of a string of hexadecimal digits, most significant first. */
  function HexValue(s: seq<char>): nat
  {
    if s == [] then 0 else 16 * HexValue(s[..|s| - 1]) + DigitValue(s[|s| - 1])
  }

  /** 16 to the power w: the values "%0<w>x" prints without losing a digit lie below it. */
  function Pow16(w: nat): (p: nat)
    ensures p >= 1
  {
    if w == 0 then 1 else 16 * Pow16(w - 1)
  }

  /** "%0<width>x" of v, most significant digit first (v below 16^width). */
  function Hex(v: nat, width: nat): (s: seq<char>)
    ensures |s| == width
  {
    if width == 0 then [] else Hex(v / 16, width - 1) + [HexDigit(v % 16)]
  }

  /** For v below 16^width, the width digits Hex prints read back as v: they are v in hexadecimal. */
  lemma {:induction false} HexRoundTrip(v: nat, width: nat)
    requires v < Pow16(width)
    ensures HexValue(Hex(v, width)) == v
  {
    if width > 0 {
      assert v / 16 < Pow16(width - 1);
      HexRoundTrip(v / 16, width - 1);
      var s := Hex(v, width);
      assert s[..|s| - 1] == Hex(v / 16, width - 1);
      DigitRoundTrip(v % 16);
    }
  }

  /** "%02x" of one byte: the high nibble, then the low nibble. */
  function Hex2(b: uint8): (s: seq<char>)
    ensures s == [HexDigit(b / 16), HexDigit(b % 16)]
  {
    var hi: nat := b / 16;
    assert hi % 16 == hi;
    assert Hex(hi, 1) == Hex(hi / 16, 0) + [HexDigit(hi % 16)];
    Hex(b, 2)
  }

  /**
   * snprintf(dst + at, size, "%s", s): with size > 0 it writes the first
   * size - 1 characters of s (or all of them) and a NUL after them; with
   * size == 0 it writes nothing. It returns |s| in both cases.
   */
  method Snprintf(dst: array<char>, at: nat, size: nat, s: seq<char>) returns (n: nat)
    requires size > 0 ==> at + size <= dst.Length
    modifies dst
    ensures n == |s|
    ensures size == 0 ==> dst[..] == old(dst[..])
    ensures size > 0 ==> var m := Min(|s|, size - 1);
      (forall i :: 0 <= i < m ==> dst[at + i] == s[i]) &&
      dst[at + m] == '\0' &&
      (forall i :: 0 <= i < dst.Length && !(at <= i <= at + m) ==> dst[i] == old(dst[i]))
  {
    n := |s|;
    if size == 0 {
      return;
    }
    var m := Min(|s|, size - 1);
    var k := 0;
    while k < m
      invariant 0 <= k <= m
      invariant forall i :: 0 <= i < k ==> dst[at + i] == s[i]
      invariant forall i :: 0 <= i < dst.Length && !(at <= i < at + k) ==> dst[i] == old(dst[i])
    {
      dst[at + k] := s[k];
      k := k + 1;
    }
    dst[at + m] := '\0';
  }

  /**
   * snprintf at offset at into the MAX(0, rem) bytes left, as the
   * formatting loops use it: when s fits with its terminator it follows
   * what is already written; nothing before at or past the rem bytes changes.
   */
  method Emit(dst: array<char>, at: nat, rem: int, s: seq<char>) returns (n: nat)
    requires rem > 0 ==> at + rem <= dst.Length
    modifies dst
    ensures n == |s|
    ensures rem > |s| ==> dst[..at + |s|] == old(dst[..at]) + s && dst[at + |s|] == '\0'
    ensures forall i :: 0 <= i < dst.Length && (i < at || i >= at + Max(0, rem)) ==> dst[i] == old(dst[i])
  {
    n := Snprintf(dst, at, Max(0, rem), s);
    if rem > |s| {
      assert dst[..at + |s|] == old(dst[..at]) + s by {
        forall i | 0 <= i < at + |s|
          ensures dst[..at + |s|][i] == (old(dst[..at]) + s)[i]
        {
          if i >= at {
            assert dst[at + (i - at)] == s[i - at];
          }
        }
      }
    }
  }
}
