/**
 * The message ring of adv_trace.c: 128 slots, a read cursor and a write
 * cursor. One slot is always left unused so that equal cursors mean empty,
 * which caps the number of queued messages at 127. The slots from the read
 * cursor up to (not including) the write cursor are the queued messages,
 * oldest first; the slot at the read cursor is the one handed to the UART.
 */
module TraceQueue {
  const MSG_QUEUE_SIZE := 128
  const MSG_QUEUE_MASK := MSG_QUEUE_SIZE - 1

  type Cursor = p: int | 0 <= p < MSG_QUEUE_SIZE

  /** _pa_trace_queue_count_free: slots a producer may still fill. */
  function CountFree(r: Cursor, w: Cursor): (n: int)
    ensures 0 <= n < MSG_QUEUE_SIZE
  {
    var bytes := r - w;
    (if bytes <= 0 then bytes + MSG_QUEUE_SIZE else bytes) - 1
  }

  /** _pa_trace_queue_count_avail: slots waiting to be transmitted. */
  function CountAvail(r: Cursor, w: Cursor): (n: int)
    ensures 0 <= n < MSG_QUEUE_SIZE
  {
    var bytes := w - r;
    if bytes < 0 then bytes + MSG_QUEUE_SIZE else bytes
  }

  /** _pa_trace_queue_is_empty */
  predicate IsEmpty(r: Cursor, w: Cursor)
  {
    r == w
  }

  /** _pa_trace_queue_is_full */
  predicate IsFull(r: Cursor, w: Cursor)
  {
    CountFree(r, w) <= 0
  }

  /** _pa_trace_queue_r_next / _w_next: (p + 1) & MSG_QUEUE_MASK, which wraps the last slot to the first. */
  function Next(p: Cursor): (q: Cursor)
    ensures q == if p == MSG_QUEUE_MASK then 0 else p + 1
  {
    (p + 1) % MSG_QUEUE_SIZE
  }

  /** The queued messages, oldest first. */
  function Window<T>(slots: seq<T>, r: Cursor, w: Cursor): (q: seq<T>)
    requires |slots| == MSG_QUEUE_SIZE
    ensures |q| == CountAvail(r, w)
  {
    if r <= w then slots[r..w] else slots[r..] + slots[..w]
  }

  /**
   * Free and available slots always add up to 127; the ring is empty
   * exactly when nothing is available and full exactly when 127 messages
   * are queued.
   */
  lemma Accounting(r: Cursor, w: Cursor)
    ensures CountFree(r, w) + CountAvail(r, w) == MSG_QUEUE_SIZE - 1
    ensures IsEmpty(r, w) <==> CountAvail(r, w) == 0
    ensures IsFull(r, w) <==> CountAvail(r, w) == MSG_QUEUE_SIZE - 1
  {
  }

  /** Advancing the read cursor of a non-empty ring releases exactly its oldest message. */
  lemma ReadNext<T>(slots: seq<T>, r: Cursor, w: Cursor)
    requires |slots| == MSG_QUEUE_SIZE && !IsEmpty(r, w)
    ensures CountAvail(Next(r), w) == CountAvail(r, w) - 1
    ensures Window(slots, r, w)[0] == slots[r]
    ensures Window(slots, Next(r), w) == Window(slots, r, w)[1..]
  {
    var q := Window(slots, r, w);
    if r < w {
      assert q == slots[r..w];
      assert Window(slots, Next(r), w) == slots[r + 1..w];
    } else if r == MSG_QUEUE_MASK {
      assert q == slots[r..] + slots[..w];
      assert slots[r..] == [slots[r]];
      assert Window(slots, Next(r), w) == slots[0..w];
    } else {
      assert q == slots[r..] + slots[..w];
      assert slots[r..] == [slots[r]] + slots[r + 1..];
      assert Window(slots, Next(r), w) == slots[r + 1..] + slots[..w];
    }
  }

  /**
   * Advancing the read cursor of an empty ring does not leave it empty: the
   * cursors then read as a full ring of 127 messages, all of them stale slots.
   */
  lemma ReleaseEmpty(r: Cursor)
    ensures CountAvail(Next(r), r) == MSG_QUEUE_SIZE - 1 && IsFull(Next(r), r)
  {
    Accounting(Next(r), r);
  }

  /** Storing into the write slot of a non-full ring and advancing the write cursor appends exactly that message. */
  lemma WriteNext<T>(slots: seq<T>, r: Cursor, w: Cursor, x: T)
    requires |slots| == MSG_QUEUE_SIZE && !IsFull(r, w)
    ensures CountAvail(r, Next(w)) == CountAvail(r, w) + 1
    ensures Window(slots[w := x], r, Next(w)) == Window(slots, r, w) + [x]
  {
    var s := slots[w := x];
    if r <= w {
      if w == MSG_QUEUE_MASK {
        assert r > 0;
        assert Window(s, r, Next(w)) == s[r..] + s[..0];
        assert s[r..] == slots[r..w] + [x];
      } else {
        assert s[r..w + 1] == slots[r..w] + [x];
      }
    } else {
      assert s[r..] == slots[r..];
      assert s[..w + 1] == slots[..w] + [x];
    }
  }
}
