/**
 * The per-source trace level store of adv_trace.c: 32 sources, each with a
 * 4-bit field (3 level bits and one reserved bit) packed eight to a 32-bit
 * word in pt_masks[4]. A message of level L from source s is emitted when L
 * is at least the stored level of s; the all-ones reset value 7 is above
 * every real level and so silences the source.
 */
module LevelStore {
  // enum pa_trace_level (adv_trace.h)
  const PTL_CHATTY := 0
  const PTL_DEBUG := 1
  const PTL_INFO := 2
  const PTL_WARN := 3
  const PTL_ERROR := 4
  const PTL_FATAL := 5
  const PTL_OFF := PTL_FATAL
  const PTL_COUNT := 6
  const PTL_FUNC := PTL_COUNT

  // enum pa_trace_modules (adv_tracesrcs.h)
  const PTM_MAIN := 0
  const PTM_SYS := 1
  const PTM_BLE := 2
  const PTM_COUNT := 32

  const PTS_BITS := 32
  const PTS_MASK: bv32 := 31
  const PTS_SHIFT := 5
  const PTL_LVLBITS := 3
  const PTL_BITS := 4
  const PTL_MASK: bv32 := 7
  const PTL_RESERVED: bv32 := 8
  const PTN_WORDS := 4
  const DISABLE_ALL_TRACES_MASK: bv32 := 0xFFFF_FFFF

  /** The word of pt_masks holding a source's field: (source * PTL_BITS) >> PTS_SHIFT. */
  function WordOf(source: nat): (pos: nat)
    requires source < PTM_COUNT
    ensures pos < PTN_WORDS
  {
    // PTL_BITS == 4, PTS_SHIFT == 5
    (((source * 4) as bv32) >> 5) as nat
  }

  /** The bit offset of a source's field in its word: (source * PTL_BITS) & PTS_MASK. */
  function ShiftOf(source: nat): (shift: bv32)
    requires source < PTM_COUNT
    ensures FieldOffset(shift)
  {
    // PTL_BITS == 4, PTS_MASK == 31
    ((source * 4) as bv32) & 31
  }

  /** The offsets a field can have: the eight multiples of PTL_BITS below 32. */
  predicate FieldOffset(shift: bv32)
  {
    shift < 32 && shift & 3 == 0
  }

  /** The level bits of the field at shift. */
  function Field(word: bv32, shift: bv32): (level: bv32)
    requires shift < 32
    ensures level <= PTL_MASK
  {
    (word >> shift) & PTL_MASK
  }

  /** The reserved fourth bit of the field at shift. */
  function Reserved(word: bv32, shift: bv32): bv32
    requires shift < 32
  {
    (word >> shift) & PTL_RESERVED
  }

  /** Clears the level bits at shift and ORs the new level in. */
  function Place(word: bv32, shift: bv32, level: bv32): bv32
    requires shift < 32
  {
    (word & !(PTL_MASK << shift)) | (level << shift)
  }

  /** pt_masks viewed as the stored level of each source. */
  function LevelOf(masks: seq<bv32>, source: nat): (level: nat)
    requires |masks| == PTN_WORDS && source < PTM_COUNT
    ensures level <= 7
  {
    Field(masks[WordOf(source)], ShiftOf(source)) as nat
  }

  /** The reserved bit of a source's field. */
  function ReservedOf(masks: seq<bv32>, source: nat): bv32
    requires |masks| == PTN_WORDS && source < PTM_COUNT
  {
    Reserved(masks[WordOf(source)], ShiftOf(source))
  }

  /** pt_masks after the store of pa_trace_set_source(source, level). */
  function WithLevel(masks: seq<bv32>, source: nat, level: nat): (r: seq<bv32>)
    requires |masks| == PTN_WORDS && source < PTM_COUNT && level < PTL_COUNT
    ensures |r| == PTN_WORDS
  {
    masks[WordOf(source) := Place(masks[WordOf(source)], ShiftOf(source), level as bv32)]
  }

  /** pt_masks right after the reset of pa_trace_init. */
  const AllDisabledMasks: seq<bv32> := [DISABLE_ALL_TRACES_MASK, DISABLE_ALL_TRACES_MASK, DISABLE_ALL_TRACES_MASK, DISABLE_ALL_TRACES_MASK]

  /** The level test of pa_trace_is_traceable for an initialised, in-range source. */
  predicate Admits(masks: seq<bv32>, source: nat, level: nat)
    requires |masks| == PTN_WORDS && source < PTM_COUNT
  {
    level >= LevelOf(masks, source)
  }

  // ------------------------------------------------------------ word lemmas

  /** Storing a level in a field: it reads back the level and its reserved bit is kept. */
  lemma PlaceSameField(word: bv32, shift: bv32, level: bv32)
    requires FieldOffset(shift) && level <= PTL_MASK
    ensures Field(Place(word, shift, level), shift) == level
    ensures Reserved(Place(word, shift, level), shift) == Reserved(word, shift)
  {
  }

  /** Storing a level in a field leaves every other field of the word, reserved bit included, as it was. */
  lemma PlaceOtherField(word: bv32, shift: bv32, other: bv32, level: bv32)
    requires FieldOffset(shift) && FieldOffset(other) && other != shift && level <= PTL_MASK
    ensures Field(Place(word, shift, level), other) == Field(word, other)
    ensures Reserved(Place(word, shift, level), other) == Reserved(word, other)
  {
  }

  // ------------------------------------------------------------ store lemmas

  /** The eight field offsets, in the order of source % 8. */
  const FieldShifts: seq<bv32> := [0, 4, 8, 12, 16, 20, 24, 28]

  /** The bit index of a source's field, split into word and offset, checked value by value. */
  lemma BitIndexSplit(s: nat)
    requires s < PTM_COUNT
    ensures (((s * 4) as bv32) >> 5) as nat == s / 8
    ensures ((s * 4) as bv32) & 31 == FieldShifts[s % 8]
  {
    if s < 16 {
      BitIndexLow(s);
    } else {
      BitIndexHigh(s);
    }
  }

  /**
   * BitIndexSplit for the sources of words 0 and 1. The solver does not
   * relate a bv32 shift or mask of a converted integer to integer division
   * by itself, so the sources are taken one at a time: each case is then a
   * constant computation.
   */
  lemma BitIndexLow(s: nat)
    requires s < 16
    ensures (((s * 4) as bv32) >> 5) as nat == s / 8
    ensures ((s * 4) as bv32) & 31 == FieldShifts[s % 8]
  {
    if s == 0 {
    } else if s == 1 {
    } else if s == 2 {
    } else if s == 3 {
    } else if s == 4 {
    } else if s == 5 {
    } else if s == 6 {
    } else if s == 7 {
    } else if s == 8 {
    } else if s == 9 {
    } else if s == 10 {
    } else if s == 11 {
    } else if s == 12 {
    } else if s == 13 {
    } else if s == 14 {
    } else {
    }
  }

  /** BitIndexSplit for the sources of words 2 and 3, one source at a time as in BitIndexLow. */
  lemma BitIndexHigh(s: nat)
    requires 16 <= s < PTM_COUNT
    ensures (((s * 4) as bv32) >> 5) as nat == s / 8
    ensures ((s * 4) as bv32) & 31 == FieldShifts[s % 8]
  {
    if s == 16 {
    } else if s == 17 {
    } else if s == 18 {
    } else if s == 19 {
    } else if s == 20 {
    } else if s == 21 {
    } else if s == 22 {
    } else if s == 23 {
    } else if s == 24 {
    } else if s == 25 {
    } else if s == 26 {
    } else if s == 27 {
    } else if s == 28 {
    } else if s == 29 {
    } else if s == 30 {
    } else {
    }
  }

  /** Source s lives in word s / 8 at offset 4 * (s % 8). */
  lemma FieldPosition(source: nat)
    requires source < PTM_COUNT
    ensures WordOf(source) == source / 8
    ensures ShiftOf(source) == FieldShifts[source % 8]
  {
    BitIndexSplit(source);
  }

  /** The offset at index i of FieldShifts is 4 * i. */
  lemma ShiftIndex(i: nat)
    requires i < 8
    ensures FieldShifts[i] as int == 4 * i
  {
  }

  /** Two distinct sources never share a field: they differ in word or in offset. */
  lemma DistinctFields(source: nat, other: nat)
    requires source < PTM_COUNT && other < PTM_COUNT && source != other
    ensures WordOf(source) != WordOf(other) || ShiftOf(source) != ShiftOf(other)
  {
    FieldPosition(source);
    FieldPosition(other);
    ShiftIndex(source % 8);
    ShiftIndex(other % 8);
  }

  /**
   * After pa_trace_set_source(source, level) the source reads back level, so
   * it admits exactly the messages of level or above; its reserved bit and
   * every other source's level and reserved bit are unchanged.
   */
  lemma WithLevelEffect(masks: seq<bv32>, source: nat, level: nat, other: nat)
    requires |masks| == PTN_WORDS && source < PTM_COUNT && level < PTL_COUNT && other < PTM_COUNT
    ensures LevelOf(WithLevel(masks, source, level), source) == level
    ensures forall l: nat :: Admits(WithLevel(masks, source, level), source, l) <==> l >= level
    ensures ReservedOf(WithLevel(masks, source, level), source) == ReservedOf(masks, source)
    ensures other != source ==> LevelOf(WithLevel(masks, source, level), other) == LevelOf(masks, other)
    ensures other != source ==> ReservedOf(WithLevel(masks, source, level), other) == ReservedOf(masks, other)
  {
    WithLevelSame(masks, source, level);
    if other != source {
      WithLevelOther(masks, source, level, other);
    }
  }

  /** The stored field of the source itself: the new level, the old reserved bit. */
  lemma WithLevelSame(masks: seq<bv32>, source: nat, level: nat)
    requires |masks| == PTN_WORDS && source < PTM_COUNT && level < PTL_COUNT
    ensures LevelOf(WithLevel(masks, source, level), source) == level
    ensures ReservedOf(WithLevel(masks, source, level), source) == ReservedOf(masks, source)
  {
    var pos, shift := WordOf(source), ShiftOf(source);
    assert WithLevel(masks, source, level)[pos] == Place(masks[pos], shift, level as bv32);
    PlaceSameField(masks[pos], shift, level as bv32);
  }

  /** The field of any other source is untouched. */
  lemma WithLevelOther(masks: seq<bv32>, source: nat, level: nat, other: nat)
    requires |masks| == PTN_WORDS && source < PTM_COUNT && level < PTL_COUNT && other < PTM_COUNT && other != source
    ensures LevelOf(WithLevel(masks, source, level), other) == LevelOf(masks, other)
    ensures ReservedOf(WithLevel(masks, source, level), other) == ReservedOf(masks, other)
  {
    var pos, shift, opos := WordOf(source), ShiftOf(source), WordOf(other);
    var after := WithLevel(masks, source, level);
    if opos == pos {
      assert after[pos] == Place(masks[pos], shift, level as bv32);
      DistinctFields(source, other);
      PlaceOtherField(masks[pos], shift, ShiftOf(other), level as bv32);
    } else {
      assert after[opos] == masks[opos];
    }
  }

  /** After the reset to DISABLE_ALL_TRACES_MASK every source reads 7 and admits no level up to PTL_FUNC. */
  lemma AllDisabled(source: nat)
    requires source < PTM_COUNT
    ensures LevelOf(AllDisabledMasks, source) == 7
    ensures forall l: nat :: l <= PTL_FUNC ==> !Admits(AllDisabledMasks, source, l)
  {
    var shift := ShiftOf(source);
    assert Field(DISABLE_ALL_TRACES_MASK, shift) == 7;
  }
}
