/**
 * The debug trace port of adv_trace.c: the per-source level store, the
 * 128-slot message ring filled by the producers and drained to the UART one
 * DMA transfer at a time, and the driver event handler that releases a slot
 * once its transfer is over.
 *
 * The UART driver is represented by Uart: it refuses a transfer while one
 * is in flight (NRF_ERROR_BUSY), and otherwise accepts or refuses according
 * to an arbitrary oracle, which stands for every other synchronous failure.
 * The timestamp, the interrupt context and the formatted text are inputs.
 */
module Trace {
  import opened Types
  import opened Tools
  import opened LevelStore
  import opened TraceQueue
  import opened TraceFormat

  /** ADV_TRACE_DEFAULT_LEVELS, indexed by source. */
  const DefaultLevels: seq<nat> := [PTL_DEBUG, PTL_DEBUG, PTL_CHATTY]

  /** The level each source holds once pa_trace_init has returned. */
  function InitialLevel(source: nat): nat
  {
    if source < |DefaultLevels| then DefaultLevels[source] else 7
  }

  /** The UART driver events the trace handler receives. */
  datatype UartEvent = RxDone | TxDone | TxError

  /** The messages whose fate is true (handed to the UART), in their order. */
  ghost function Delivered(msgs: seq<seq<char>>, fates: seq<bool>): seq<seq<char>>
    requires |msgs| == |fates|
  {
    if fates == [] then []
    else Delivered(msgs[..|msgs| - 1], fates[..|fates| - 1]) + (if fates[|fates| - 1] then [msgs[|msgs| - 1]] else [])
  }

  /** With no refused transfer, every message reaches the UART, in order. */
  lemma {:induction false} DeliveredAll(msgs: seq<seq<char>>, fates: seq<bool>)
    requires |msgs| == |fates| && forall i :: 0 <= i < |fates| ==> fates[i]
    ensures Delivered(msgs, fates) == msgs
  {
    if fates != [] {
      DeliveredAll(msgs[..|msgs| - 1], fates[..|fates| - 1]);
    }
  }

  /** Taking the next pushed message off the ring extends the delivered sequence by it exactly when the UART accepts it. */
  lemma HistoryStep(pushed: seq<seq<char>>, fates: seq<bool>, sent: seq<seq<char>>, accepted: bool)
    requires |fates| < |pushed| && sent == Delivered(pushed[..|fates|], fates)
    ensures Delivered(pushed[..|fates| + 1], fates + [accepted]) == sent + (if accepted then [pushed[|fates|]] else [])
  {
    var msgs := pushed[..|fates| + 1];
    assert msgs[..|msgs| - 1] == pushed[..|fates|];
    assert (fates + [accepted])[..|fates|] == fates;
  }

  /**
   * How many queued messages a drain discards: starting at transfer attempt
   * number attempt, each refused attempt drops the head message, and the
   * drain stops at the first accepted one or when the ring is empty.
   */
  function DrainSkip(avail: nat, attempt: nat, refuses: nat -> bool): (j: nat)
    ensures j <= avail
    ensures j < avail ==> !refuses(attempt + j)
    ensures forall k :: attempt <= k < attempt + j ==> refuses(k)
    decreases avail
  {
    if avail == 0 || !refuses(attempt) then 0 else 1 + DrainSkip(avail - 1, attempt + 1, refuses)
  }

  /** The nrfx_uarte driver instance, as far as the trace port observes it. */
  class Uart {
    /** Whether transfer attempt number k would be refused although no transfer is in flight. */
    const refuses: nat -> bool
    /** Calls to nrfx_uarte_tx so far. */
    var attempts: nat
    /** A transfer is in flight. */
    var busy: bool
    /** Every buffer whose transfer was started, in order. */
    var sent: seq<seq<char>>

    constructor(refuses: nat -> bool)
      ensures this.refuses == refuses && attempts == 0 && !busy && sent == []
    {
      this.refuses := refuses;
      attempts := 0;
      busy := false;
      sent := [];
    }

    /** nrfx_uarte_tx: starts a transfer unless one is in flight or the oracle refuses. */
    method Tx(data: seq<char>) returns (ok: bool)
      modifies this
      ensures attempts == old(attempts) + 1
      ensures ok == (!old(busy) && !refuses(old(attempts)))
      ensures busy == (old(busy) || ok)
      ensures sent == old(sent) + (if ok then [data] else [])
    {
      ok := !busy && !refuses(attempts);
      attempts := attempts + 1;
      if ok {
        busy := true;
        sent := sent + [data];
      }
    }

    /** The transfer in flight ends (done or aborted on error). */
    method Finish()
      requires busy
      modifies this
      ensures !busy && attempts == old(attempts) && sent == old(sent)
    {
      busy := false;
    }
  }

  class Trace {
    /** pt_masks */
    const masks: array<bv32>
    /** tq_msgs: the tm_length characters of each slot */
    const slots: array<seq<char>>
    /** pt_uart */
    const uart: Uart
    /** pt_initialized */
    var initialized: bool
    /** pt_count: counts emitted and lost messages, wrapping at 256 */
    var count: uint8
    /** pt_que_active */
    var queActive: bool
    /** tq_read_p */
    var readP: Cursor
    /** tq_write_p */
    var writeP: Cursor

    /** pa_trace_fatal_error has been called: the queue protocol is abandoned. */
    ghost var halted: bool
    /** Every payload committed to the ring, in order. */
    ghost var pushed: seq<seq<char>>
    /** For each message taken from the head of the ring so far: whether the UART accepted it. */
    ghost var fates: seq<bool>

    ghost predicate Sound()
      reads slots
    {
      masks.Length == PTN_WORDS && slots.Length == MSG_QUEUE_SIZE &&
      forall i :: 0 <= i < MSG_QUEUE_SIZE ==> |slots[i]| <= ADV_TRACE_MSG_LENGTH
    }

    /** The queued messages, oldest first; while a transfer is in flight, the first is the one being sent. */
    ghost function Contents(): seq<seq<char>>
      requires Sound()
      reads this, slots
    {
      Window(slots[..], readP, writeP)
    }

    /** What reached the UART is exactly the accepted prefix of the push history. */
    ghost predicate History()
      requires Sound()
      reads this, slots, uart
    {
      |fates| <= |pushed| &&
      uart.sent == Delivered(pushed[..|fates|], fates) &&
      ((forall k :: !uart.refuses(k)) ==> forall i :: 0 <= i < |fates| ==> fates[i])
    }

    /**
     * The drain protocol: the queue is active exactly while a transfer is in
     * flight, that transfer is of the head message, and every other queued
     * message is still ahead of the UART.
     */
    ghost predicate Pending()
      reads this, slots, uart
    {
      Sound() &&
      (!queActive ==> !uart.busy) &&
      (!halted ==>
        History() &&
        (queActive ==> uart.busy && |fates| > 0 && fates[|fates| - 1] && Contents() == pushed[|fates| - 1..]) &&
        (!queActive ==> Contents() == pushed[|fates|..]))
    }

    /** Between calls the ring is idle only when it is empty. */
    ghost predicate Valid()
      reads this, slots, uart
    {
      Pending() && (!halted && !queActive ==> IsEmpty(readP, writeP))
    }

    /** Nothing in flight and every queued message ahead: the state in which the ring may be drained. */
    ghost predicate Idle()
      reads this, slots, uart
    {
      Sound() && !uart.busy && (!halted ==> History() && Contents() == pushed[|fates|..])
    }

    /** The ring, the drain state and the UART are as they were. */
    twostate predicate Unchanged()
      reads this, slots, uart
    {
      readP == old(readP) && writeP == old(writeP) && queActive == old(queActive) &&
      fates == old(fates) && slots[..] == old(slots[..]) &&
      uart.busy == old(uart.busy) && uart.sent == old(uart.sent) && uart.attempts == old(uart.attempts)
    }

    /**
     * The payload went into the slot at the write cursor, the cursor moved
     * on, and a drain started unless one was under way: what pa_print,
     * pa_trace_printf and pa_printf do with a message they keep.
     */
    twostate predicate Stored(payload: seq<char>)
      requires old(Sound()) && Sound()
      reads this, slots, uart
    {
      var q := old(Contents()) + [payload];
      var j := if old(queActive) then 0 else DrainSkip(|q|, old(uart.attempts), uart.refuses);
      Contents() == q[j..] && queActive == (old(queActive) || j < |q|) &&
      uart.sent == old(uart.sent) + (if !old(queActive) && j < |q| then [q[j]] else [])
    }

    /** The zero-initialised static state, before pa_trace_init. */
    constructor(refuses: nat -> bool)
      ensures Valid() && !initialized && !halted && count == 0
      ensures Contents() == [] && pushed == [] && uart.sent == [] && uart.refuses == refuses
    {
      masks := new bv32[PTN_WORDS](_ => 0);
      slots := new seq<char>[MSG_QUEUE_SIZE](_ => []);
      uart := new Uart(refuses);
      initialized := false;
      count := 0;
      queActive := false;
      readP := 0;
      writeP := 0;
      halted := false;
      pushed := [];
      fates := [];
    }

    /** While a transfer is in flight it is the only one and it carries the slot at the read cursor. */
    lemma InFlight()
      requires Valid() && !halted && queActive
      ensures uart.busy && !IsEmpty(readP, writeP)
      ensures uart.sent != [] && uart.sent[|uart.sent| - 1] == slots[readP]
    {
      ReadNext(slots[..], readP, writeP);
    }

    /** Once every attempt is accepted, the UART has received every message taken from the ring, in push order. */
    lemma Lossless()
      requires Valid() && !halted && forall k :: !uart.refuses(k)
      ensures uart.sent == pushed[..|fates|]
    {
      DeliveredAll(pushed[..|fates|], fates);
    }

    // ------------------------------------------------------------ level store

    /** pa_trace_get_source (the source is not range-checked by the C code). */
    function GetSource(source: nat): (level: nat)
      requires Sound() && source < PTM_COUNT
      reads masks, slots
      ensures level == LevelOf(masks[..], source)
    {
      Field(masks[WordOf(source)], ShiftOf(source)) as nat
    }

    /** pa_trace_is_traceable */
    function IsTraceable(source: nat, level: nat): (r: bool)
      requires Sound()
      reads this, masks, slots
      ensures r ==> initialized && source < PTM_COUNT
      ensures initialized && source < PTM_COUNT ==> (r <==> Admits(masks[..], source, level))
    {
      if source >= PTM_COUNT || !initialized then false
      else level >= Field(masks[WordOf(source)], ShiftOf(source)) as nat
    }

    /** pa_trace_is_funcable: function traces pass only for a source at PTL_CHATTY. */
    function IsFuncable(source: nat): (r: bool)
      requires Sound()
      reads this, masks, slots
      ensures r <==> initialized && source < PTM_COUNT && GetSource(source) == PTL_CHATTY
    {
      IsTraceable(source, PTL_CHATTY)
    }

    /** pa_trace_set_source: out-of-range sources and levels are ignored. */
    method SetSource(source: nat, level: nat)
      requires Valid()
      modifies masks
      ensures Valid()
      ensures source < PTM_COUNT && level < PTL_COUNT ==> masks[..] == WithLevel(old(masks[..]), source, level)
      ensures !(source < PTM_COUNT && level < PTL_COUNT) ==> masks[..] == old(masks[..])
      ensures source < PTM_COUNT && level < PTL_COUNT ==> GetSource(source) == level
      ensures forall s :: 0 <= s < PTM_COUNT && s != source ==> GetSource(s) == old(GetSource(s))
    {
      if source >= PTM_COUNT || level >= PTL_COUNT {
        return;
      }
      ghost var before := masks[..];
      var pos := WordOf(source);
      masks[pos] := Place(masks[pos], ShiftOf(source), level as bv32);
      assert masks[..] == WithLevel(before, source, level);
      forall s | 0 <= s < PTM_COUNT
        ensures LevelOf(masks[..], s) == if s == source then level else LevelOf(before, s)
      {
        WithLevelEffect(before, source, level, s);
      }
    }

    // ------------------------------------------------------------ queue drain

    /**
     * One turn of the _pa_trace_pop_queue loop on a non-empty ring: marks the
     * queue active and hands the head message to the UART; a refused
     * transfer drops the head.
     */
    method TryHead() returns (ok: bool)
      requires Idle() && !IsEmpty(readP, writeP)
      modifies this, uart
      ensures Sound() && queActive
      ensures writeP == old(writeP) && count == old(count) && initialized == old(initialized)
      ensures halted == old(halted) && pushed == old(pushed)
      ensures uart.attempts == old(uart.attempts) + 1
      ensures ok == !uart.refuses(old(uart.attempts)) && uart.busy == ok
      ensures ok ==> Pending() && Contents() == old(Contents())
      ensures ok ==> CountAvail(readP, writeP) == old(CountAvail(readP, writeP)) && uart.sent == old(uart.sent) + [old(Contents())[0]]
      ensures !ok ==> Idle() && Contents() == old(Contents())[1..]
      ensures !ok ==> CountAvail(readP, writeP) == old(CountAvail(readP, writeP)) - 1 && uart.sent == old(uart.sent)
    {
      ReadNext(slots[..], readP, writeP);
      queActive := true;
      ghost var before := uart.sent;
      ok := uart.Tx(slots[readP]);
      if !halted {
        HistoryStep(pushed, fates, before, ok);
        assert pushed[|fates|..][1..] == pushed[|fates| + 1..];
      }
      fates := fates + [ok];
      if !ok {
        readP := Next(readP);
      }
    }

    /**
     * _pa_trace_pop_queue: hands the head message to the UART; each refused
     * transfer drops the head and tries the next; the queue stays active
     * only if a transfer was started.
     */
    method PopQueue()
      requires Idle()
      modifies this, uart
      ensures Valid()
      ensures writeP == old(writeP) && count == old(count) && initialized == old(initialized)
      ensures halted == old(halted) && pushed == old(pushed)
      ensures var n := old(CountAvail(readP, writeP));
        var j := DrainSkip(n, old(uart.attempts), uart.refuses);
        CountAvail(readP, writeP) == n - j &&
        Contents() == old(Contents())[j..] &&
        queActive == (j < n) && uart.busy == (j < n) &&
        uart.attempts == old(uart.attempts) + j + (if j < n then 1 else 0) &&
        uart.sent == old(uart.sent) + (if j < n then [old(Contents())[j]] else [])
    {
      var started := DrainHead();
      if !started {
        queActive := false;
      }
    }

    /**
     * The for (;;) loop of _pa_trace_pop_queue: the refused heads are
     * dropped one by one until a transfer starts or the ring is empty.
     */
    method DrainHead() returns (started: bool)
      requires Idle()
      modifies this, uart
      ensures started ==> Pending() && queActive
      ensures !started ==> Idle() && IsEmpty(readP, writeP)
      ensures writeP == old(writeP) && count == old(count) && initialized == old(initialized)
      ensures halted == old(halted) && pushed == old(pushed)
      ensures var n := old(CountAvail(readP, writeP));
        var j := DrainSkip(n, old(uart.attempts), uart.refuses);
        CountAvail(readP, writeP) == n - j &&
        Contents() == old(Contents())[j..] &&
        started == (j < n) && uart.busy == (j < n) &&
        uart.attempts == old(uart.attempts) + j + (if j < n then 1 else 0) &&
        uart.sent == old(uart.sent) + (if j < n then [old(Contents())[j]] else [])
    {
      ghost var n := CountAvail(readP, writeP);
      ghost var j := 0;
      while true
        invariant Idle() && uart.sent == old(uart.sent)
        invariant writeP == old(writeP) && pushed == old(pushed) && halted == old(halted)
        invariant count == old(count) && initialized == old(initialized)
        invariant j <= n && CountAvail(readP, writeP) == n - j
        invariant Contents() == old(Contents())[j..]
        invariant uart.attempts == old(uart.attempts) + j
        invariant DrainSkip(n, old(uart.attempts), uart.refuses) == j + DrainSkip(n - j, uart.attempts, uart.refuses)
        decreases CountAvail(readP, writeP)
      {
        if IsEmpty(readP, writeP) {
          return false;
        }
        ghost var queued := Contents();
        started := TryHead();
        if started {
          assert queued[0] == old(Contents())[j];
          return;
        }
        assert queued[1..] == old(Contents())[j + 1..];
        j := j + 1;
      }
    }

    /** _pa_trace_start_queue: a drain starts only when none is under way. */
    method StartQueue()
      requires Pending()
      modifies this, uart
      ensures Valid()
      ensures writeP == old(writeP) && count == old(count) && initialized == old(initialized)
      ensures halted == old(halted) && pushed == old(pushed)
      ensures var n := old(CountAvail(readP, writeP));
        var j := if old(queActive) then 0 else DrainSkip(n, old(uart.attempts), uart.refuses);
        Contents() == old(Contents())[j..] &&
        queActive == (old(queActive) || j < n) &&
        uart.sent == old(uart.sent) + (if !old(queActive) && j < n then [old(Contents())[j]] else [])
    {
      if !queActive {
        PopQueue();
      }
    }

    /**
     * _nd_trace_uart_event_handler: on TX_DONE or ERROR the driver has
     * ended the transfer; the slot at the read cursor is released and the
     * drain goes on. RX_DONE is ignored.
     */
    method OnUartEvent(ev: UartEvent)
      requires Valid() && (ev != RxDone ==> uart.busy)
      modifies this, uart
      ensures Valid()
      ensures writeP == old(writeP) && count == old(count) && initialized == old(initialized)
      ensures halted == old(halted) && pushed == old(pushed)
      ensures ev == RxDone ==> Unchanged()
      ensures ev != RxDone ==>
        var rest := Window(old(slots[..]), Next(old(readP)), old(writeP));
        var j := DrainSkip(|rest|, old(uart.attempts), uart.refuses);
        Contents() == rest[j..] && queActive == (j < |rest|) &&
        uart.sent == old(uart.sent) + (if j < |rest| then [rest[j]] else [])
      ensures ev != RxDone && !old(halted) ==> Window(old(slots[..]), Next(old(readP)), old(writeP)) == old(Contents())[1..]
      ensures ev != RxDone && old(IsEmpty(readP, writeP)) ==> |Window(old(slots[..]), Next(old(readP)), old(writeP))| == MSG_QUEUE_SIZE - 1
    {
      if ev == RxDone {
        return;
      }
      ReleaseHead();
      PopQueue();
    }

    /**
     * The first half of the TX_DONE/ERROR handling: the transfer is over and
     * the read cursor moves past the slot it carried.
     */
    method ReleaseHead()
      requires Valid() && uart.busy
      modifies this, uart
      ensures Idle() && queActive == old(queActive)
      ensures readP == Next(old(readP)) && writeP == old(writeP) && slots[..] == old(slots[..])
      ensures count == old(count) && initialized == old(initialized) && halted == old(halted) && pushed == old(pushed)
      ensures uart.sent == old(uart.sent) && uart.attempts == old(uart.attempts)
      ensures !old(halted) ==> Contents() == old(Contents())[1..]
      ensures old(IsEmpty(readP, writeP)) ==> CountAvail(readP, writeP) == MSG_QUEUE_SIZE - 1
    {
      uart.Finish();
      if IsEmpty(readP, writeP) {
        ReleaseEmpty(readP);
      } else {
        ReadNext(slots[..], readP, writeP);
      }
      readP := Next(readP);
    }

    // ------------------------------------------------------------ producers

    /** Stores a payload in the write slot, commits it (w_next) and starts the drain. */
    method Enqueue(payload: seq<char>)
      requires Valid() && |payload| <= ADV_TRACE_MSG_LENGTH && !IsFull(readP, writeP)
      modifies this, slots, uart
      ensures Valid()
      ensures count == old(count) && initialized == old(initialized) && halted == old(halted)
      ensures pushed == old(pushed) + [payload] && Stored(payload)
    {
      WriteNext(slots[..], readP, writeP, payload);
      slots[writeP] := payload;
      writeP := Next(writeP);
      pushed := pushed + [payload];
      if !halted {
        assert pushed[..|fates|] == old(pushed)[..|fates|];
      }
      assert Contents() == old(Contents()) + [payload];
      StartQueue();
    }

    /** pa_print: copies at most ADV_TRACE_MSG_LENGTH characters; from an ISR or into a full ring, it only counts the loss. */
    method Print(message: seq<char>, isr: bool) returns (n: int)
      requires Valid()
      modifies this, slots, uart
      ensures Valid()
      ensures initialized == old(initialized) && halted == old(halted)
      ensures !old(initialized) ==> n == 0 && count == old(count) && pushed == old(pushed) && Unchanged()
      ensures old(initialized) && (isr || old(IsFull(readP, writeP))) ==>
        n == 0 && count == (old(count) + 1) % 256 && pushed == old(pushed) && Unchanged()
      ensures old(initialized) && !isr && !old(IsFull(readP, writeP)) ==>
        n == |message| && count == (old(count) + 1) % 256 &&
        pushed == old(pushed) + [RawPayload(message)] && Stored(RawPayload(message))
    {
      if !initialized {
        return 0;
      }
      if isr {
        count := (count + 1) % 256;
        return 0;
      }
      if IsFull(readP, writeP) {
        count := (count + 1) % 256;
        return 0;
      }
      count := (count + 1) % 256;
      Enqueue(RawPayload(message));
      n := |message|;
    }

    /**
     * pa_trace_printf: the slot holds the header (time stamp, message
     * counter before the increment), the level marker and the text,
     * truncated as TracePayload says; the result is the slot length.
     */
    method TracePrintf(level: nat, now: uint32, isr: bool, text: seq<char>) returns (n: int)
      requires Valid()
      modifies this, slots, uart
      ensures Valid()
      ensures initialized == old(initialized) && halted == old(halted)
      ensures !old(initialized) ==> n == 0 && count == old(count) && pushed == old(pushed) && Unchanged()
      ensures old(initialized) && (isr || old(IsFull(readP, writeP))) ==>
        n == 0 && count == (old(count) + 1) % 256 && pushed == old(pushed) && Unchanged()
      ensures old(initialized) && !isr && !old(IsFull(readP, writeP)) ==>
        var m := TracePayload(level, now, old(count), text);
        n == |m| && 0 < n <= ADV_TRACE_MSG_LENGTH && count == (old(count) + 1) % 256 &&
        pushed == old(pushed) + [m] && Stored(m)
    {
      if !initialized {
        return 0;
      }
      if isr {
        count := (count + 1) % 256;
        return 0;
      }
      if IsFull(readP, writeP) {
        count := (count + 1) % 256;
        return 0;
      }
      var payload := TracePayload(level, now, count, text);
      count := (count + 1) % 256;
      Enqueue(payload);
      n := |payload|;
    }

    /**
     * pa_printf: no header and no interrupt-context check; a stored message
     * does not advance the counter, a lost one does. The result is the
     * would-be length of the text, even when the slot holds less of it.
     */
    method Printf(text: seq<char>) returns (n: int)
      requires Valid()
      modifies this, slots, uart
      ensures Valid()
      ensures initialized == old(initialized) && halted == old(halted)
      ensures !old(initialized) ==> n == 0 && count == old(count) && pushed == old(pushed) && Unchanged()
      ensures old(initialized) && old(IsFull(readP, writeP)) ==>
        n == 0 && count == (old(count) + 1) % 256 && pushed == old(pushed) && Unchanged()
      ensures old(initialized) && !old(IsFull(readP, writeP)) ==>
        n == |text| && count == old(count) && pushed == old(pushed) + [PlainPayload(text)] && Stored(PlainPayload(text))
    {
      if !initialized {
        return 0;
      }
      if IsFull(readP, writeP) {
        count := (count + 1) % 256;
        return 0;
      }
      Enqueue(PlainPayload(text));
      n := |text|;
    }

    /**
     * pa_trace_fatal_error: marks the queue active, so that no producer
     * starts a drain until a driver event runs the drain again, and hands the message (its length cast to
     * uint8_t) straight to the UART, which refuses it while a transfer is
     * in flight.
     */
    method FatalError(message: seq<char>)
      requires Valid()
      modifies this, uart
      ensures Valid() && queActive && halted
      ensures initialized == old(initialized) && count == old(count) && pushed == old(pushed)
      ensures readP == old(readP) && writeP == old(writeP)
      ensures uart.sent == old(uart.sent) +
        (if !old(uart.busy) && !uart.refuses(old(uart.attempts)) then [message[..|message| % 256]] else [])
    {
      queActive := true;
      halted := true;
      var _ := uart.Tx(message[..|message| % 256]);
    }

    /** The first loop of pa_trace_init: every word of pt_masks becomes DISABLE_ALL_TRACES_MASK. */
    method DisableAll()
      requires Valid()
      modifies masks
      ensures Valid() && masks[..] == AllDisabledMasks
    {
      for pos := 0 to masks.Length
        invariant Valid() && forall i :: 0 <= i < pos ==> masks[i] == DISABLE_ALL_TRACES_MASK
      {
        masks[pos] := DISABLE_ALL_TRACES_MASK;
      }
      assert masks[..] == AllDisabledMasks;
    }

    /** The last loop of pa_trace_init: pa_trace_set_source for each entry of ADV_TRACE_DEFAULT_LEVELS. */
    method ApplyDefaults()
      requires Valid() && masks[..] == AllDisabledMasks
      modifies masks
      ensures Valid()
      ensures forall s :: 0 <= s < PTM_COUNT ==> GetSource(s) == InitialLevel(s)
      ensures forall s, l: nat :: |DefaultLevels| <= s < PTM_COUNT && l <= PTL_FUNC ==> !IsTraceable(s, l)
    {
      forall s | 0 <= s < PTM_COUNT
        ensures GetSource(s) == 7
      {
        AllDisabled(s);
      }
      for six := 0 to |DefaultLevels|
        invariant Valid()
        invariant forall s :: 0 <= s < six ==> GetSource(s) == DefaultLevels[s]
        invariant forall s :: six <= s < PTM_COUNT ==> GetSource(s) == 7
      {
        SetSource(six, DefaultLevels[six]);
      }
      forall s, l: nat | |DefaultLevels| <= s < PTM_COUNT && l <= PTL_FUNC
        ensures !IsTraceable(s, l)
      {
        assert GetSource(s) == 7;
      }
    }

    /**
     * pa_trace_init: disables every source, marks the port initialised,
     * emits the start-up banner ("\n", the header with a zero time stamp,
     * then location, function name and tick rate, given as location) and
     * applies ADV_TRACE_DEFAULT_LEVELS.
     */
    method Init(location: seq<char>, isr: bool)
      requires Valid() && |location| <= 64
      modifies this, masks, slots, uart
      ensures Valid() && initialized && halted == old(halted)
      ensures forall s :: 0 <= s < PTM_COUNT ==> GetSource(s) == InitialLevel(s)
      ensures forall s, l: nat :: |DefaultLevels| <= s < PTM_COUNT && l <= PTL_FUNC ==> !IsTraceable(s, l)
      ensures count == (old(count) + 1) % 256
      ensures var banner := ['\n'] + Header(0, old(count)) + location;
        !isr && !old(IsFull(readP, writeP)) ==> pushed == old(pushed) + [banner] && Stored(banner)
      ensures isr || old(IsFull(readP, writeP)) ==> pushed == old(pushed) && Unchanged()
    {
      DisableAll();
      Announce(location, isr);
      ApplyDefaults();
    }

    /** The start-up banner of pa_trace_init, printed once the port is marked initialised. */
    method Announce(location: seq<char>, isr: bool)
      requires Valid() && |location| <= 64
      modifies this, slots, uart
      ensures Valid() && initialized && halted == old(halted)
      ensures count == (old(count) + 1) % 256
      ensures var banner := ['\n'] + Header(0, old(count)) + location;
        !isr && !old(IsFull(readP, writeP)) ==> pushed == old(pushed) + [banner] && Stored(banner)
      ensures isr || old(IsFull(readP, writeP)) ==> pushed == old(pushed) && Unchanged()
    {
      var banner := ['\n'] + Header(0, count) + location;
      initialized := true;
      var _ := Print(banner, isr);
    }
  }
}
