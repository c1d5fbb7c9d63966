/**
 * _adv_ble_mac_addr_to_str: a 6-byte little-endian BLE address written
 * most significant byte first as "xx:xx:xx:xx:xx:xx" into a character
 * buffer of a given length.
 */
module BleMac {
  import opened Types
  import opened Tools
  import opened Printf

  const BLE_GAP_ADDR_LEN := 6
  /** The text of an address: 17 characters. */
  const MAC_TEXT_LENGTH := 17

  /**
   * Character i of the address text: group i / 3 holds byte 5 - i / 3, high
   * nibble first, and the third character of each group is the ':' separator.
   */
  function MacChar(addr: seq<uint8>, i: nat): char
    requires |addr| == BLE_GAP_ADDR_LEN && i < MAC_TEXT_LENGTH
  {
    var b := addr[BLE_GAP_ADDR_LEN - 1 - i / 3];
    if i % 3 == 0 then HexDigit(b / 16) else if i % 3 == 1 then HexDigit(b % 16) else ':'
  }

  /** The whole address text, character by character. */
  function MacText(addr: seq<uint8>): (s: seq<char>)
    requires |addr| == BLE_GAP_ADDR_LEN
    ensures |s| == MAC_TEXT_LENGTH
    ensures forall i :: 0 <= i < MAC_TEXT_LENGTH ==> s[i] == MacChar(addr, i)
  {
    seq(MAC_TEXT_LENGTH, i requires 0 <= i < MAC_TEXT_LENGTH => MacChar(addr, i))
  }

  /** Step bix of the loop prints byte 5 - bix, with "%02x:" except for the last byte, printed with "%02x". */
  function MacCell(addr: seq<uint8>, bix: nat): (c: seq<char>)
    requires |addr| == BLE_GAP_ADDR_LEN && bix < BLE_GAP_ADDR_LEN
    ensures |c| == if bix < BLE_GAP_ADDR_LEN - 1 then 3 else 2
  {
    Hex2(addr[BLE_GAP_ADDR_LEN - 1 - bix]) + (if bix < BLE_GAP_ADDR_LEN - 1 then [':'] else [])
  }

  /** Where step bix starts: three characters per earlier step; after all six, the end of the text. */
  function CellStart(bix: nat): (at: nat)
    requires bix <= BLE_GAP_ADDR_LEN
    ensures at <= MAC_TEXT_LENGTH
  {
    if bix < BLE_GAP_ADDR_LEN then 3 * bix else MAC_TEXT_LENGTH
  }

  /** What step bix prints is the text from CellStart(bix) to CellStart(bix + 1): the steps spell out the text in order. */
  lemma CellInText(addr: seq<uint8>, bix: nat)
    requires |addr| == BLE_GAP_ADDR_LEN && bix < BLE_GAP_ADDR_LEN
    ensures CellStart(bix) + |MacCell(addr, bix)| == CellStart(bix + 1)
    ensures MacText(addr)[CellStart(bix)..CellStart(bix + 1)] == MacCell(addr, bix)
  {
    var text, cell, at := MacText(addr), MacCell(addr, bix), 3 * bix;
    forall k | 0 <= k < |cell|
      ensures text[at + k] == cell[k]
    {
      CellChar(addr, bix, k);
    }
    assert text[at..at + |cell|] == cell;
  }

  /** Character k of step bix's cell is character 3 * bix + k of the text. */
  lemma CellChar(addr: seq<uint8>, bix: nat, k: nat)
    requires |addr| == BLE_GAP_ADDR_LEN && bix < BLE_GAP_ADDR_LEN && k < |MacCell(addr, bix)|
    ensures 3 * bix + k < MAC_TEXT_LENGTH && MacText(addr)[3 * bix + k] == MacCell(addr, bix)[k]
  {
    GroupOf(bix, k);
    assert MacText(addr)[3 * bix + k] == MacChar(addr, 3 * bix + k);
  }

  /** Character k of group bix sits at 3 * bix + k. */
  lemma GroupOf(bix: nat, k: nat)
    requires k < 3
    ensures (3 * bix + k) / 3 == bix && (3 * bix + k) % 3 == k
  {
  }

  /** The most significant byte comes first and the least significant last. */
  lemma MacTextOrder(addr: seq<uint8>)
    requires |addr| == BLE_GAP_ADDR_LEN
    ensures MacText(addr)[..2] == Hex2(addr[5])
    ensures MacText(addr)[15..] == Hex2(addr[0])
    ensures forall j :: 0 <= j < 5 ==> MacText(addr)[3 * j + 2] == ':'
  {
    var text := MacText(addr);
    assert text[..2] == [text[0], text[1]];
    assert text[15..] == [text[15], text[16]];
    forall j | 0 <= j < 5
      ensures MacText(addr)[3 * j + 2] == ':'
    {
      assert (3 * j + 2) % 3 == 2;
    }
  }

  /**
   * One step of either formatter: "%02x:" (or "%02x" for the last byte) at
   * the start of step bix, into rem remaining characters. When the cell fits
   * with its terminator the text written so far grows by that cell; the
   * characters before at and those outside [at, at + rem) are left alone.
   */
  method MacStep(str: array<char>, at: nat, rem: int, addr: seq<uint8>, bix: nat) returns (len: nat)
    requires |addr| == BLE_GAP_ADDR_LEN && bix < BLE_GAP_ADDR_LEN && at == CellStart(bix)
    requires at <= str.Length && (rem > 0 ==> at + rem <= str.Length)
    modifies str
    ensures at + len == CellStart(bix + 1)
    ensures rem > len ==> str[at + len] == '\0'
    ensures rem > len && old(str[..at]) == MacText(addr)[..at] ==> str[..at + len] == MacText(addr)[..at + len]
    ensures str[..at] == old(str[..at])
    ensures forall i :: 0 <= i < str.Length && (i < at || i >= at + Max(0, rem)) ==> str[i] == old(str[i])
  {
    len := Emit(str, at, rem, MacCell(addr, bix));
    CellInText(addr, bix);
    ghost var text := MacText(addr);
    assert text[..at + len] == text[..at] + text[at..at + len];
  }

  /**
   * _adv_ble_mac_addr_to_str as written: a step is abandoned only when its
   * count exceeds the remaining size (len > rem). When the remaining size
   * equals a "%02x:" count, the truncated step is accepted, rem drops to
   * 0, and the next step writes its NUL at str[length], one past the
   * buffer: this happens for every length in {0, 3, 6, 9, 12, 15}, so for
   * those lengths the buffer needs one character more than length; the
   * firmware's own calls pass the whole 20-character buffer.
   */
  method MacAddrToStrAsWritten(str: array<char>, length: nat, addr: seq<uint8>)
    requires |addr| == BLE_GAP_ADDR_LEN && length <= str.Length
    requires length % 3 == 0 && length <= 15 ==> length < str.Length
    modifies str
    ensures length >= MAC_TEXT_LENGTH + 1 ==> str[..MAC_TEXT_LENGTH + 1] == MacText(addr) + ['\0']
    ensures length % 3 == 0 && length <= 15 ==> str[length] == '\0'
    ensures forall i :: length < i < str.Length ==> str[i] == old(str[i])
  {
    var rem: int := length;
    var at := 0;
    var bix := 0;
    while bix < BLE_GAP_ADDR_LEN
      invariant bix <= BLE_GAP_ADDR_LEN && at == CellStart(bix) && rem == length - at && rem >= 0
      invariant length >= MAC_TEXT_LENGTH + 1 ==> str[..at] == MacText(addr)[..at]
      invariant length >= MAC_TEXT_LENGTH + 1 && bix > 0 ==> str[at] == '\0'
      invariant forall i :: length < i < str.Length ==> str[i] == old(str[i])
    {
      var len := MacStep(str, at, rem, addr, bix);
      if len > rem {
        if length % 3 == 0 && length <= 15 {
          StopsAtLength(length, bix);
        }
        str[at] := '\0';
        return;
      }
      rem := rem - len;
      at := at + len;
      bix := bix + 1;
    }
    if length >= MAC_TEXT_LENGTH + 1 {
      assert str[..MAC_TEXT_LENGTH + 1] == str[..MAC_TEXT_LENGTH] + [str[MAC_TEXT_LENGTH]];
    }
  }

  /** For a length in {0, 3, ..., 15} the first step that does not fit starts exactly at length. */
  lemma StopsAtLength(length: nat, bix: nat)
    requires length % 3 == 0 && length <= 15 && bix < BLE_GAP_ADDR_LEN && 3 * bix <= length
    requires (if bix < BLE_GAP_ADDR_LEN - 1 then 3 else 2) > length - 3 * bix
    ensures 3 * bix == length
  {
  }

  /** Where the corrected formatter puts the terminator for a buffer of length 1..17: after the last group that fits whole. */
  function MacCut(length: nat): (p: nat)
    requires 0 < length <= MAC_TEXT_LENGTH
    ensures p < length && p % 3 == 0 && p <= 15
    ensures p + 3 >= length || p == 15
  {
    3 * ((length - 1) / 3)
  }

  /** The first step that does not fit with its terminator starts at MacCut(length). */
  lemma CutAt(length: nat, bix: nat)
    requires 0 < length <= MAC_TEXT_LENGTH && bix < BLE_GAP_ADDR_LEN && 3 * bix < length
    requires 3 * bix + (if bix < BLE_GAP_ADDR_LEN - 1 then 3 else 2) >= length
    ensures 3 * bix == MacCut(length)
  {
  }

  /**
   * The evidently intended formatter: a step is abandoned when it does not
   * fit with its terminator (len >= rem), and a zero-length buffer is left
   * alone. Nothing is written at or past str[length].
   */
  method MacAddrToStr(str: array<char>, length: nat, addr: seq<uint8>)
    requires |addr| == BLE_GAP_ADDR_LEN && length <= str.Length
    modifies str
    ensures length >= MAC_TEXT_LENGTH + 1 ==> str[..MAC_TEXT_LENGTH + 1] == MacText(addr) + ['\0']
    ensures 0 < length <= MAC_TEXT_LENGTH ==>
      str[..MacCut(length)] == MacText(addr)[..MacCut(length)] && str[MacCut(length)] == '\0'
    ensures forall i :: length <= i < str.Length ==> str[i] == old(str[i])
  {
    var rem: int := length;
    var at := 0;
    var bix := 0;
    while bix < BLE_GAP_ADDR_LEN
      invariant bix <= BLE_GAP_ADDR_LEN && at == CellStart(bix) && rem == length - at
      invariant bix > 0 ==> rem >= 1 && str[at] == '\0'
      invariant str[..at] == MacText(addr)[..at]
      invariant forall i :: length <= i < str.Length ==> str[i] == old(str[i])
    {
      ghost var done := str[..at];
      var len := MacStep(str, at, rem, addr, bix);
      if len >= rem {
        if rem > 0 {
          str[at] := '\0';
        }
        assert str[..at] == done;
        if 0 < length <= MAC_TEXT_LENGTH {
          CutAt(length, bix);
        }
        return;
      }
      rem := rem - len;
      at := at + len;
      bix := bix + 1;
    }
    assert str[..MAC_TEXT_LENGTH + 1] == str[..MAC_TEXT_LENGTH] + [str[MAC_TEXT_LENGTH]];
  }
}
