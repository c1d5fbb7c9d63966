/**
 * The slot contents written by the three producers of adv_trace.c. A slot
 * holds at most ADV_TRACE_MSG_LENGTH (127) characters and the UART sends
 * exactly tm_length of them, so a slot is modelled by those characters.
 * Formatted text is modelled by the complete string the format would
 * produce: its length is the "would-be" length that vsnprintf returns.
 */
module TraceFormat {
  import opened Types
  import opened Tools
  import opened Printf
  import opened LevelStore

  const ADV_TRACE_MSG_LENGTH := 127
  const ADV_TRACE_LOGLEVELS := "CDIWEF."
  /** Where the "...\n" truncation mark starts: ADV_TRACE_MSG_LENGTH - 5. */
  const TRUNCATION_AT := ADV_TRACE_MSG_LENGTH - 5
  const TRUNCATION_MARK := ['.', '.', '.', '\n', '\0']

  /** pa_print: tm_length = MIN(len, ADV_TRACE_MSG_LENGTH) characters of the message are copied. */
  function RawPayload(message: seq<char>): (m: seq<char>)
    ensures |m| <= ADV_TRACE_MSG_LENGTH
    ensures m <= message
    ensures |message| <= ADV_TRACE_MSG_LENGTH ==> m == message
  {
    message[..Min(|message|, ADV_TRACE_MSG_LENGTH)]
  }

  /**
   * The header "^%08x :%02x " of timestamp and message counter: a caret,
   * the whole 32-bit time stamp in eight hex digits, " :", the counter in
   * two hex digits, and a space.
   */
  function Header(now: uint32, count: uint8): (h: seq<char>)
    ensures |h| == 14
    ensures h[0] == '^' && h[1..9] == Hex(now, 8) && h[9..11] == [' ', ':']
    ensures h[11..13] == Hex2(count) && h[13] == ' '
    ensures HexValue(h[1..9]) == now as int
    ensures HexValue(h[11..13]) == count as int
  {
    var h := ['^'] + Hex(now, 8) + [' ', ':'] + Hex2(count) + [' '];
    assert h[1..9] == Hex(now, 8) && h[11..13] == Hex2(count) == Hex(count, 2);
    HexRoundTrip(now as nat, 8);
    HexRoundTrip(count as nat, 2);
    h
  }

  /**
   * The header followed, for a level below PTL_COUNT (and a header under
   * ADV_TRACE_MSG_LENGTH - 2 characters), by the level letter and a space.
   */
  function Prefix(level: nat, now: uint32, count: uint8): (p: seq<char>)
    ensures |p| == if level < PTL_COUNT then 16 else 14
    ensures p[..14] == Header(now, count)
    ensures level < PTL_COUNT ==> p[14] == ADV_TRACE_LOGLEVELS[level] && p[15] == ' '
  {
    var header := Header(now, count);
    if level < PTL_COUNT && |header| < ADV_TRACE_MSG_LENGTH - 2 then
      header + [ADV_TRACE_LOGLEVELS[level], ' ']
    else
      header
  }

  /**
   * pa_trace_printf's slot. After the prefix, vsnprintf gets
   * ADV_TRACE_MSG_LENGTH - |prefix| - 1 bytes, so it keeps at most
   * ADV_TRACE_MSG_LENGTH - |prefix| - 2 characters of the text and a NUL.
   * The slot length is |prefix| + |text|; at 127 or more, characters
   * 122..126 are overwritten by "...\n" and a NUL and the length is 127.
   */
  function TracePayload(level: nat, now: uint32, count: uint8, text: seq<char>): (m: seq<char>)
    ensures |m| == Min(|Prefix(level, now, count)| + |text|, ADV_TRACE_MSG_LENGTH)
  {
    var prefix := Prefix(level, now, count);
    var size := ADV_TRACE_MSG_LENGTH - |prefix| - 1;
    var buf := prefix + text[..Min(|text|, size - 1)] + ['\0'];
    var ret := |prefix| + |text|;
    if ret >= ADV_TRACE_MSG_LENGTH then
      buf[..TRUNCATION_AT] + TRUNCATION_MARK
    else
      buf[..ret]
  }

  /** pa_printf's slot: vsnprintf into 127 bytes, tm_length = MIN(127, would-be length). */
  function PlainPayload(text: seq<char>): (m: seq<char>)
    ensures |m| == Min(|text|, ADV_TRACE_MSG_LENGTH)
  {
    var buf := text[..Min(|text|, ADV_TRACE_MSG_LENGTH - 1)] + ['\0'];
    buf[..Min(ADV_TRACE_MSG_LENGTH, |text|)]
  }

  /**
   * What a leveled trace line looks like: header, level marker, then the
   * text; complete when it fits, cut and marked with "...\n" when the
   * would-be length reaches 127, and, when it is exactly 126, cut by one
   * character (replaced by the NUL vsnprintf wrote) with no mark.
   */
  lemma TracePayloadShape(level: nat, now: uint32, count: uint8, text: seq<char>)
    ensures var m, p := TracePayload(level, now, count, text), Prefix(level, now, count);
      m[..14] == Header(now, count) &&
      (level < PTL_COUNT ==> m[14] == ADV_TRACE_LOGLEVELS[level] && m[15] == ' ') &&
      (|p| + |text| < ADV_TRACE_MSG_LENGTH - 1 ==> m == p + text) &&
      (|p| + |text| == ADV_TRACE_MSG_LENGTH - 1 ==>
         m == p + text[..|text| - 1] + ['\0']) &&
      (|p| + |text| >= ADV_TRACE_MSG_LENGTH ==>
         m == p + text[..TRUNCATION_AT - |p|] + TRUNCATION_MARK)
  {
    var p := Prefix(level, now, count);
    var m := TracePayload(level, now, count, text);
    var size := ADV_TRACE_MSG_LENGTH - |p| - 1;
    var buf := p + text[..Min(|text|, size - 1)] + ['\0'];
    if |p| + |text| >= ADV_TRACE_MSG_LENGTH {
      assert buf[..TRUNCATION_AT] == p + text[..TRUNCATION_AT - |p|];
    } else if |p| + |text| == ADV_TRACE_MSG_LENGTH - 1 {
      assert buf == p + text[..|text| - 1] + ['\0'];
    } else {
      assert buf[..|p| + |text|] == p + text;
    }
    assert m[..14] == p[..14];
  }

  /** An untagged line is kept whole when it fits in 126 characters, and otherwise cut to 126 characters and a NUL. */
  lemma PlainPayloadShape(text: seq<char>)
    ensures |text| < ADV_TRACE_MSG_LENGTH ==> PlainPayload(text) == text
    ensures |text| >= ADV_TRACE_MSG_LENGTH ==> PlainPayload(text) == text[..ADV_TRACE_MSG_LENGTH - 1] + ['\0']
  {
  }
}
