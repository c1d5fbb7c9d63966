/**
 * pa_trace_build_hex: formats a byte buffer as "xx xx ... xx" into a
 * character buffer of dlen bytes, three characters per byte, the last
 * separator replaced by the NUL terminator.
 */
module TraceHex {
  import opened Types
  import opened Tools
  import opened Printf

  /** The cells "%02x " of a byte sequence, one after the other. */
  function HexCells(bytes: seq<uint8>): (s: seq<char>)
    ensures |s| == 3 * |bytes|
  {
    if bytes == [] then [] else HexCells(bytes[..|bytes| - 1]) + Hex2(bytes[|bytes| - 1]) + [' ']
  }

  /** Cell j holds the two lower-case hex digits of byte j, then a space. */
  lemma {:induction false} HexCellsAt(bytes: seq<uint8>, j: nat)
    requires j < |bytes|
    ensures HexCells(bytes)[3 * j] == HexDigit(bytes[j] / 16)
    ensures HexCells(bytes)[3 * j + 1] == HexDigit(bytes[j] % 16)
    ensures HexCells(bytes)[3 * j + 2] == ' '
  {
    var init := bytes[..|bytes| - 1];
    if j < |bytes| - 1 {
      HexCellsAt(init, j);
      assert init[j] == bytes[j];
    }
  }

  /** Drops the final separator, if any. */
  function Trimmed(s: seq<char>): (t: seq<char>)
    ensures s != [] ==> t + [s[|s| - 1]] == s
    ensures s == [] ==> t == []
  {
    if s == [] then [] else s[..|s| - 1]
  }

  /**
   * How many cells the loop completes: a cell is kept only while its three
   * characters leave room for a further one (snprintf's count below the
   * remaining size), and never more than there are bytes.
   */
  function HexCount(dlen: nat, blen: nat): (k: nat)
    ensures k <= blen
    ensures k == 0 || 3 * k < dlen
    ensures k < blen ==> 3 * (k + 1) >= dlen
  {
    if dlen == 0 then 0 else Min(blen, (dlen - 1) / 3)
  }

  /**
   * One cell "%02x " of byte ix at offset at, into rem remaining characters:
   * when it fits with its terminator the text grows by one cell; the
   * characters before at and those outside [at, at + rem) are left alone.
   */
  method HexStep(dst: array<char>, at: nat, rem: int, buffer: seq<uint8>, ix: nat) returns (count: nat)
    requires ix < |buffer| && at == 3 * ix && at <= dst.Length && (rem > 0 ==> at + rem <= dst.Length)
    modifies dst
    ensures count == 3
    ensures rem > 3 && old(dst[..at]) == HexCells(buffer[..ix]) ==> dst[..at + 3] == HexCells(buffer[..ix + 1])
    ensures forall i :: 0 <= i < dst.Length && (i < at || i >= at + Max(0, rem)) ==> dst[i] == old(dst[i])
  {
    count := Emit(dst, at, rem, Hex2(buffer[ix]) + [' ']);
    assert buffer[..ix + 1][..ix] == buffer[..ix];
  }

  /**
   * The loop of pa_trace_build_hex: a cell per byte at the cursor, into the
   * remaining bytes; stop at the end of the buffer or at the first cell
   * that does not fit with its terminator. Returns the cursor offset.
   */
  method WriteCells(dst: array<char>, dlen: nat, buffer: seq<uint8>) returns (at: nat)
    requires dlen <= dst.Length
    modifies dst
    ensures at == 3 * HexCount(dlen, |buffer|)
    ensures dst[..at] == HexCells(buffer[..HexCount(dlen, |buffer|)])
    ensures forall i :: dlen <= i < dst.Length ==> dst[i] == old(dst[i])
  {
    var ix := 0;
    at := 0;
    var rem: int := dlen;
    while ix < |buffer|
      invariant ix <= |buffer| && at == 3 * ix && rem == dlen - at
      invariant rem >= 1 || ix == 0
      invariant dst[..at] == HexCells(buffer[..ix])
      invariant forall i :: dlen <= i < dst.Length ==> dst[i] == old(dst[i])
      decreases |buffer| - ix
    {
      var count := HexStep(dst, at, rem, buffer, ix);
      if count >= rem {
        StopsAt(dlen, |buffer|, ix);
        break;
      }
      rem := rem - count;
      at := at + count;
      ix := ix + 1;
    }
    if ix == |buffer| {
      StopsAt(dlen, |buffer|, ix);
    }
  }

  /** The loop stops after the cell count: at the end of the buffer, or before the first cell that leaves no room. */
  lemma StopsAt(dlen: nat, blen: nat, ix: nat)
    requires ix <= blen && (ix == 0 || 3 * ix < dlen)
    requires ix == blen || 3 * (ix + 1) >= dlen
    ensures ix == HexCount(dlen, blen)
  {
  }

  /**
   * pa_trace_build_hex as written: the trailing separator becomes the NUL
   * terminator. With dlen == 0 it still writes the NUL at dst[0] and
   * returns 1; dst must therefore hold one character.
   */
  method BuildHex(dst: array<char>, dlen: nat, buffer: seq<uint8>) returns (n: nat)
    requires dlen <= dst.Length && 1 <= dst.Length
    modifies dst
    ensures var k := HexCount(dlen, |buffer|);
      n == (if k > 0 then 3 * k else 1) &&
      dst[..n] == Trimmed(HexCells(buffer[..k])) + ['\0']
    ensures dlen > 0 ==> n <= dlen
    ensures dlen == 0 ==> n == 1 && dst[0] == '\0'
    ensures forall i :: Max(dlen, 1) <= i < dst.Length ==> dst[i] == old(dst[i])
  {
    var at := WriteCells(dst, dlen, buffer);
    ghost var cells := dst[..at];
    if at > 0 {
      at := at - 1;
    }
    dst[at] := '\0';
    n := at + 1;
    assert dst[..at] == Trimmed(cells);
    assert dst[..n] == dst[..at] + ['\0'];
  }

  /**
   * The evidently intended pa_trace_build_hex: a zero-sized destination is
   * left alone and 0 is returned, so nothing is ever written at or past
   * dst[dlen].
   */
  method BuildHexChecked(dst: array<char>, dlen: nat, buffer: seq<uint8>) returns (n: nat)
    requires dlen <= dst.Length
    modifies dst
    ensures n <= dlen
    ensures dlen > 0 ==> var k := HexCount(dlen, |buffer|);
      n == (if k > 0 then 3 * k else 1) &&
      dst[..n] == Trimmed(HexCells(buffer[..k])) + ['\0']
    ensures forall i :: dlen <= i < dst.Length ==> dst[i] == old(dst[i])
  {
    if dlen == 0 {
      return 0;
    }
    n := BuildHex(dst, dlen, buffer);
  }
}
