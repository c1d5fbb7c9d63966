/**
 * The GATT request engine of adv_ble.c: attribute lookup by UUID, the
 * error record exposed through ADV_ERROR, the single pending-request
 * record bp_attr_event, the write and read authorisation handlers with
 * their completions, and the background-worker engine with its stalled
 * connection watchdog.
 *
 * SoftDevice calls are represented by what the firmware asks of them:
 * every sd_ble_gatts_rw_authorize_reply is appended to replies, every
 * sd_ble_gap_disconnect counts in disconnects. Attribute writers and
 * readers are application callbacks: their return code (and, for a reader,
 * the attribute length it leaves) are inputs.
 */
module BleAttr {
  import opened Types
  import opened Tools
  import opened Errors

  /** UUID of the first PowerAdvertiser characteristic (ADV_ERROR). */
  const ADV_CHAR_UUID_BASE := 0x1001
  /** enum adv_ble_attr */
  const ADV_ERROR := 0
  const ADV_COUNT := 1
  /** BLE_UUID_TYPE_BLE and BLE_UUID_TYPE_VENDOR_BEGIN of the SoftDevice headers. */
  const BLE_UUID_TYPE_BLE := 1
  const BLE_UUID_TYPE_VENDOR_BEGIN := 2
  /** sizeof(pv_transient) */
  const TRANSIENT_SIZE := 16
  const ADV_BLE_WORKER_PACE_S := 5
  const ADV_BLE_STALL_DELAY_S := 120

  datatype Uuid = Uuid(uuid: uint16, kind: uint8)

  /** The constant part of an adv_ble_attribute: pa_size, pa_varsize and whether pa_reader / pa_writer are set. */
  datatype AttrSpec = AttrSpec(size: nat, varsize: bool, hasReader: bool, hasWriter: bool)

  /** bp_attributes as initialised: ADV_ERROR holds the 8-byte pa_error_desc, fixed size, with neither reader nor writer. */
  const AdvAttributes: seq<AttrSpec> := [AttrSpec(8, false, false, false)]

  /** What ae_data points to: nothing, the SoftDevice's write event buffer, or pv_transient. */
  datatype DataRef = Null | Peer(bytes: seq<uint8>) | Transient

  /** struct adv_ble_attr_event; ae_attr is an attribute index, None for NULL. */
  datatype AttrEvent = AttrEvent(data: DataRef, length: uint16, offset: uint16, attr: Option<nat>)

  const EmptyEvent := AttrEvent(Null, 0, 0, None)

  /** The "previous request never completed" test. */
  predicate Pending(e: AttrEvent)
  {
    e.data != Null || e.attr.Some?
  }

  /** struct pa_error_desc */
  datatype ErrorDesc = ErrorDesc(errno: int8, attr: uint8, state: uint8, comp: uint8, payload: uint32)

  /** The GATT status codes the firmware replies with. */
  datatype GattStatus = Success | ReadNotPermitted | WriteNotPermitted | UnlikelyError | AppFeatureNotSupported

  /** The parameters of an sd_ble_gatts_rw_authorize_reply call. */
  datatype Reply =
    | WriteReply(status: GattStatus, update: bool, offset: uint16, length: uint16, data: DataRef)
    | ReadReply(status: GattStatus, length: uint16)

  /** BLE_GATTS_OP_* */
  datatype WriteOp = WriteReq | WriteCmd | SignWriteCmd | PrepWriteReq | ExecWriteReqNow | ExecWriteReqCancel | WriteInvalid

  /** ble_gatts_evt_write_t; len is |data|. */
  datatype WriteEvent = WriteEvent(uuid: Uuid, op: WriteOp, offset: uint16, data: seq<uint8>)

  /** ble_gatts_evt_read_t */
  datatype ReadEvent = ReadEvent(uuid: Uuid, offset: uint16)

  // ------------------------------------------------------------ pure parts

  /** The attribute index _adv_ble_retrieve_attribute finds for a UUID, None when it rejects it. */
  function LookupAttribute(u: Uuid): (r: Option<nat>)
    ensures r.Some? <==> u.kind == BLE_UUID_TYPE_VENDOR_BEGIN && ADV_CHAR_UUID_BASE <= u.uuid < ADV_CHAR_UUID_BASE + ADV_COUNT
    ensures r.Some? ==> r.value == u.uuid - ADV_CHAR_UUID_BASE && r.value < ADV_COUNT
  {
    if u.uuid < ADV_CHAR_UUID_BASE || u.kind != BLE_UUID_TYPE_VENDOR_BEGIN then None
    else
      var ix := (u.uuid - ADV_CHAR_UUID_BASE) % 0x1_0000;
      if ix >= ADV_COUNT then None else Some(ix)
  }

  /** _adv_ble_attribute_char: the index of an attribute reference, ADV_COUNT for NULL or anything outside the table. */
  function AttributeChar(attr: Option<nat>): (c: nat)
    ensures c <= ADV_COUNT
    ensures c < ADV_COUNT <==> attr.Some? && attr.value < ADV_COUNT
    ensures c < ADV_COUNT ==> c == attr.value
  {
    if attr.None? || attr.value >= ADV_COUNT then ADV_COUNT else attr.value
  }

  /** The (int8_t) conversion: two's complement wrap-around. */
  function ToInt8(x: int): (r: int8)
    ensures (r - x) % 0x100 == 0
    ensures -0x80 <= x < 0x80 ==> r == x
  {
    (x + 0x80) % 0x100 - 0x80
  }

  /** _adv_ble_set_error_on_attr on the error record: an invalid attribute is reported as ADV_ERROR; only pe_errno and pe_attr change. */
  function StoreError(e: ErrorDesc, errno: int, paChar: nat): (r: ErrorDesc)
    ensures r.state == e.state && r.comp == e.comp && r.payload == e.payload
    ensures -0x80 <= errno < 0x80 ==> r.errno == errno
    ensures r.attr == if paChar < ADV_COUNT then paChar else ADV_ERROR
  {
    var c := if paChar >= ADV_COUNT then ADV_ERROR else paChar;
    e.(errno := ToInt8(errno), attr := c % 0x100)
  }

  /**
   * The validation cascade of _adv_ble_write_attribute: 0 when the request
   * is accepted, otherwise the negated code of the first check it fails.
   */
  function WriteCheck(spec: AttrSpec, op: WriteOp, offset: nat, len: nat, pending: bool): (rc: int)
    ensures rc == 0 <==>
      op == WriteReq && offset == 0 && (if spec.varsize then len <= spec.size else len == spec.size) &&
      spec.hasWriter && !pending
    ensures rc != 0 ==> rc < 0
  {
    if op != WriteReq then -PE_INVALID_COMMAND
    else if offset != 0 then -PE_NOT_SUPPORTED
    else if spec.varsize && len > spec.size then -PE_OVERFLOW
    else if !spec.varsize && len != spec.size then -PE_INVALID_REQUEST
    else if !spec.hasWriter then -PE_READ_ONLY
    else if pending then -PE_BUSY
    else 0
  }

  /**
   * The order of the cascade: a request with several faults is reported by
   * the earliest; in particular a busy engine is reported only for a
   * request that is well-formed and writable.
   */
  lemma WriteCheckOrder(spec: AttrSpec, op: WriteOp, offset: nat, len: nat, pending: bool)
    ensures var rc := WriteCheck(spec, op, offset, len, pending);
      (op != WriteReq ==> rc == -PE_INVALID_COMMAND) &&
      (op == WriteReq && offset != 0 ==> rc == -PE_NOT_SUPPORTED) &&
      (rc == -PE_OVERFLOW <==> op == WriteReq && offset == 0 && spec.varsize && len > spec.size) &&
      (rc == -PE_INVALID_REQUEST <==> op == WriteReq && offset == 0 && !spec.varsize && len != spec.size) &&
      (rc == -PE_READ_ONLY ==> op == WriteReq && offset == 0 && !spec.hasWriter) &&
      (rc == -PE_BUSY <==> op == WriteReq && offset == 0 && (if spec.varsize then len <= spec.size else len == spec.size) &&
                           spec.hasWriter && pending)
  {
  }

  /** With the firmware's attribute table no peer write is ever accepted: ADV_ERROR has no writer. */
  lemma ErrorAttributeReadOnly(op: WriteOp, offset: nat, len: nat, pending: bool)
    ensures WriteCheck(AdvAttributes[ADV_ERROR], op, offset, len, pending) != 0
    ensures op == WriteReq && offset == 0 && len == 8 ==> WriteCheck(AdvAttributes[ADV_ERROR], op, offset, len, pending) == -PE_READ_ONLY
  {
  }

  /** The unsigned int difference we_time - we_last_time. */
  function Elapsed(time: uint32, lastTime: uint32): (d: uint32)
    ensures lastTime <= time ==> d == time - lastTime
    ensures time < lastTime ==> d == time + 0x1_0000_0000 - lastTime
  {
    (time - lastTime) % 0x1_0000_0000
  }

  // ------------------------------------------------------------ worker engine

  /** struct adv_ble_worker_engine (the timer handle and the worker storage are not modelled). */
  class WorkerEngine {
    var enable: bool
    var running: bool
    /** Engine time in seconds (unsigned int). */
    var time: uint32
    /** Time of the last BLE request. */
    var lastTime: uint32
    var workerIx: nat

    /** The zero-initialised static instance. */
    constructor()
      ensures !enable && !running && time == 0 && lastTime == 0 && workerIx == 0
    {
      enable := false;
      running := false;
      time := 0;
      lastTime := 0;
      workerIx := 0;
    }

    /** _adv_ble_worker_start: both clocks restart from 0. */
    method Start()
      modifies this
      ensures time == 0 && lastTime == 0
      ensures enable == old(enable) && running == old(running) && workerIx == old(workerIx)
    {
      time := 0;
      lastTime := 0;
    }

    /** _adv_ble_worker_update_ble_status: workers may run only while no connection is active. */
    method UpdateBleStatus(active: bool)
      modifies this
      ensures enable == !active
      ensures running == old(running) && time == old(time) && lastTime == old(lastTime) && workerIx == old(workerIx)
    {
      if !active {
        enable := true;
      } else {
        enable := false;
      }
    }

    /** _adv_ble_worker_feed: a BLE request was seen now. */
    method Feed()
      modifies this
      ensures lastTime == time && time == old(time)
      ensures enable == old(enable) && running == old(running) && workerIx == old(workerIx)
    {
      lastTime := time;
    }

    /** _adv_ble_worker_run_next: there are no workers (BW_COUNT is 0), so the session ends at once. */
    method RunNext()
      modifies this
      ensures !running
      ensures enable == old(enable) && time == old(time) && lastTime == old(lastTime) && workerIx == old(workerIx)
    {
      running := false;
    }
  }

  // ------------------------------------------------------------ request engine

  /** struct adv_ble together with _adv_ble_var (the SoftDevice handles are not modelled). */
  class AdvBle {
    /** The constant part of bp_attributes. */
    const specs: seq<AttrSpec>
    /** pa_length of each attribute. */
    var lengths: seq<nat>
    /** bp_attr_event */
    var event: AttrEvent
    /** _adv_ble_var.pv_error */
    var error: ErrorDesc
    /** _adv_ble_var.pv_transient */
    const transient: array<uint8>
    /** bp_entering_sleep */
    var enteringSleep: bool
    /** bp_reboot */
    var reboot: bool
    /** bp_conn_handle != BLE_CONN_HANDLE_INVALID */
    var connValid: bool
    /** Every authorisation reply requested from the SoftDevice, in order. */
    var replies: seq<Reply>
    /** How many disconnections were requested from the SoftDevice. */
    var disconnects: nat
    /** _adv_ble_worker_engine */
    const worker: WorkerEngine

    ghost predicate Valid()
      reads this, transient, worker
    {
      |specs| == ADV_COUNT && |lengths| == ADV_COUNT && transient.Length == TRANSIENT_SIZE &&
      (event.attr.Some? ==> event.attr.value < ADV_COUNT) &&
      (event.data != Null ==> event.attr.Some?) &&
      !worker.running
    }

    /** The static instance, for a given attribute table, before any connection. */
    constructor(specs: seq<AttrSpec>)
      requires |specs| == ADV_COUNT
      ensures Valid() && this.specs == specs && event == EmptyEvent && replies == [] && disconnects == 0
      ensures !enteringSleep && !reboot && !connValid && fresh(worker) && fresh(transient)
    {
      this.specs := specs;
      lengths := seq(ADV_COUNT, _ => 0);
      event := EmptyEvent;
      error := ErrorDesc(0, 0, 0, 0, 0);
      transient := new uint8[TRANSIENT_SIZE](_ => 0);
      enteringSleep := false;
      reboot := false;
      connValid := false;
      replies := [];
      disconnects := 0;
      worker := new WorkerEngine();
    }

    /** _adv_ble_set_error_on_attr; returns the ADV_ERROR attribute it updated. */
    method SetErrorOnAttr(errno: int, paChar: nat) returns (errAttr: nat)
      modifies this
      ensures errAttr == ADV_ERROR && error == StoreError(old(error), errno, paChar)
      ensures lengths == old(lengths) && event == old(event) && replies == old(replies) && disconnects == old(disconnects)
      ensures enteringSleep == old(enteringSleep) && reboot == old(reboot) && connValid == old(connValid)
    {
      error := StoreError(error, errno, paChar);
      errAttr := ADV_ERROR;
    }

    /** _adv_ble_retrieve_attribute: a rejected UUID is recorded as PE_INVALID_UUID on ADV_ERROR. */
    method RetrieveAttribute(u: Uuid) returns (r: Option<nat>)
      modifies this
      ensures r == LookupAttribute(u)
      ensures r.None? ==> error == StoreError(old(error), -PE_INVALID_UUID, ADV_ERROR)
      ensures r.Some? ==> error == old(error)
      ensures lengths == old(lengths) && event == old(event) && replies == old(replies) && disconnects == old(disconnects)
      ensures enteringSleep == old(enteringSleep) && reboot == old(reboot) && connValid == old(connValid)
    {
      if u.uuid < ADV_CHAR_UUID_BASE || u.kind != BLE_UUID_TYPE_VENDOR_BEGIN {
        var _ := SetErrorOnAttr(-PE_INVALID_UUID, ADV_ERROR);
        return None;
      }
      var ix := (u.uuid - ADV_CHAR_UUID_BASE) % 0x1_0000;
      if ix >= ADV_COUNT {
        var _ := SetErrorOnAttr(-PE_INVALID_UUID, ADV_ERROR);
        return None;
      }
      r := Some(ix);
    }

    /** _adv_ble_disconnect: a disconnection is requested only for a valid connection handle. */
    method Disconnect()
      modifies this
      ensures disconnects == old(disconnects) + (if connValid then 1 else 0)
      ensures lengths == old(lengths) && event == old(event) && error == old(error) && replies == old(replies)
      ensures enteringSleep == old(enteringSleep) && reboot == old(reboot) && connValid == old(connValid)
    {
      if connValid {
        disconnects := disconnects + 1;
      }
    }

    /** _adv_ble_handle_disconnect: the pending-request record is wiped, which ends a request left pending. */
    method HandleDisconnect()
      modifies this
      ensures event == EmptyEvent && !Pending(event)
      ensures lengths == old(lengths) && error == old(error) && replies == old(replies) && disconnects == old(disconnects)
      ensures enteringSleep == old(enteringSleep) && reboot == old(reboot) && connValid == old(connValid)
    {
      event := EmptyEvent;
    }

    /**
     * _adv_ble_enter_sleep: from now on every request is refused. A write
     * is refused with the PE_ABORT marker, which its completion reports
     * only when a deferred write's data is still in the record (ae_data
     * set), and as PE_INTERNAL otherwise; a read is refused as busy while a record is
     * filled, and as PE_INTERNAL otherwise.
     */
    method EnterSleep()
      modifies this
      ensures enteringSleep
      ensures lengths == old(lengths) && event == old(event) && error == old(error) && replies == old(replies)
      ensures disconnects == old(disconnects) && reboot == old(reboot) && connValid == old(connValid)
    {
      enteringSleep := true;
    }

    /**
     * _adv_ble_write_attribute for attribute ix. A rejection leaves the
     * record alone; an accepted request feeds the watchdog and fills the
     * record; a payload larger than pv_transient is refused before the
     * writer runs; a deferred completion keeps the data in pv_transient
     * (or drops the data reference when there is none).
     */
    method WriteAttribute(ix: nat, wr: WriteEvent, writerRc: int) returns (rc: int)
      requires Valid() && ix < ADV_COUNT && |wr.data| < 0x1_0000
      modifies this, transient, worker
      ensures Valid()
      ensures var check := WriteCheck(specs[ix], wr.op, wr.offset, |wr.data|, Pending(old(event)));
        (check != 0 ==> rc == check && event == old(event) && worker.lastTime == old(worker.lastTime) &&
                        transient[..] == old(transient[..])) &&
        (check == 0 ==> worker.lastTime == worker.time) &&
        (check == 0 && |wr.data| > TRANSIENT_SIZE ==>
           rc == -PE_NOT_SUPPORTED && event == AttrEvent(Peer(wr.data), |wr.data|, 0, Some(ix))) &&
        (check == 0 && |wr.data| <= TRANSIENT_SIZE ==> rc == writerRc) &&
        (check == 0 && |wr.data| <= TRANSIENT_SIZE && writerRc != PE_DEFERRED ==>
           event == AttrEvent(Peer(wr.data), |wr.data|, 0, Some(ix))) &&
        (check == 0 && 0 < |wr.data| <= TRANSIENT_SIZE && writerRc == PE_DEFERRED ==>
           event == AttrEvent(Transient, |wr.data|, 0, Some(ix)) && transient[..|wr.data|] == wr.data) &&
        (check == 0 && |wr.data| == 0 && writerRc == PE_DEFERRED ==> event == AttrEvent(Null, 0, 0, Some(ix))) &&
        (!(check == 0 && 0 < |wr.data| <= TRANSIENT_SIZE && writerRc == PE_DEFERRED) ==> transient[..] == old(transient[..]))
      ensures worker.time == old(worker.time) && worker.enable == old(worker.enable)
      ensures lengths == old(lengths) && error == old(error) && replies == old(replies) && disconnects == old(disconnects)
      ensures enteringSleep == old(enteringSleep) && reboot == old(reboot) && connValid == old(connValid)
    {
      var spec := specs[ix];
      if wr.op != WriteReq {
        return -PE_INVALID_COMMAND;
      }
      if wr.offset != 0 {
        return -PE_NOT_SUPPORTED;
      }
      if spec.varsize {
        if |wr.data| > spec.size {
          return -PE_OVERFLOW;
        }
      } else {
        if |wr.data| != spec.size {
          return -PE_INVALID_REQUEST;
        }
      }
      if !spec.hasWriter {
        return -PE_READ_ONLY;
      }
      if event.data != Null || event.attr.Some? {
        return -PE_BUSY;
      }
      worker.Feed();
      event := AttrEvent(Peer(wr.data), |wr.data|, wr.offset, Some(ix));
      if event.length > TRANSIENT_SIZE {
        return -PE_NOT_SUPPORTED;
      }
      rc := writerRc;
      if rc == PE_DEFERRED {
        if event.length > 0 {
          forall i | 0 <= i < |wr.data| {
            transient[i] := wr.data[i];
          }
          event := event.(data := Transient);
        } else {
          event := event.(data := Null, length := 0);
        }
      }
    }

    /**
     * _adv_ble_complete_write_req: a record without data or attribute makes
     * the code PE_INTERNAL; a non-negative code succeeds and sets the
     * attribute length, PE_ABORT is an unlikely error left out of the error
     * record, any other error is stored there. The record is always wiped.
     */
    method CompleteWriteReq(retcode: int)
      requires Valid()
      modifies this
      ensures Valid() && event == EmptyEvent
      ensures var rc := if old(event).data == Null || old(event).attr.None? then -PE_INTERNAL else retcode;
        var e := old(event);
        (rc >= 0 ==>
           lengths == old(lengths)[e.attr.value := e.length + e.offset] && error == old(error) &&
           replies == old(replies) + [WriteReply(Success, rc == 0, e.offset, e.length, e.data)]) &&
        (rc == -PE_ABORT ==>
           lengths == old(lengths) && error == old(error) &&
           replies == old(replies) + [WriteReply(UnlikelyError, false, e.offset, e.length, e.data)]) &&
        (rc < 0 && rc != -PE_ABORT ==>
           lengths == old(lengths) && error == StoreError(old(error), rc, AttributeChar(e.attr)) &&
           replies == old(replies) + [WriteReply(WriteNotPermitted, false, e.offset, e.length, e.data)])
      ensures disconnects == old(disconnects) && enteringSleep == old(enteringSleep) && reboot == old(reboot) && connValid == old(connValid)
    {
      var rc := retcode;
      if event.data == Null || event.attr.None? {
        rc := -PE_INTERNAL;
      }
      var status: GattStatus;
      if rc < 0 {
        if rc != -PE_ABORT {
          var _ := SetErrorOnAttr(rc, AttributeChar(event.attr));
          status := WriteNotPermitted;
        } else {
          status := UnlikelyError;
        }
      } else {
        status := Success;
        lengths := lengths[event.attr.value := event.length + event.offset];
      }
      var reply := WriteReply(status, rc == PE_NO_ERROR, event.offset, event.length, event.data);
      event := EmptyEvent;
      replies := replies + [reply];
    }

    /**
     * _adv_ble_write_req: queued and execute writes are refused outright
     * (APP_FEATURE_NOT_SUPPORTED); otherwise the attribute is looked up,
     * entering sleep overrides with PE_ABORT, the write is checked and run,
     * and unless the writer defers, the request is completed at once. A
     * successful write with a reboot scheduled also closes the connection.
     */
    method WriteRequest(wr: WriteEvent, writerRc: int)
      requires Valid() && |wr.data| < 0x1_0000
      modifies this, transient, worker
      ensures Valid()
      ensures wr.op in {PrepWriteReq, ExecWriteReqNow, ExecWriteReqCancel} ==>
        replies == old(replies) + [WriteReply(AppFeatureNotSupported, false, 0, 0, Null)] &&
        event == old(event) && lengths == old(lengths) && error == old(error) && disconnects == old(disconnects) &&
        worker.lastTime == old(worker.lastTime) && transient[..] == old(transient[..])
      ensures worker.time == old(worker.time) && worker.enable == old(worker.enable)
      ensures !(wr.op in {PrepWriteReq, ExecWriteReqNow, ExecWriteReqCancel}) ==>
        var ix := LookupAttribute(wr.uuid);
        var accepted := ix.Some? && !old(enteringSleep) &&
                        WriteCheck(specs[ix.value], wr.op, wr.offset, |wr.data|, Pending(old(event))) == 0;
        var refusal := if old(enteringSleep) then -PE_ABORT else if ix.None? then -PE_INVALID_UUID
                       else WriteCheck(specs[ix.value], wr.op, wr.offset, |wr.data|, Pending(old(event)));
        var rc := if old(event).data == Null then -PE_INTERNAL else refusal;
        (!accepted ==>
           event == EmptyEvent && lengths == old(lengths) && disconnects == old(disconnects) &&
           replies == old(replies) + [WriteReply(if rc == -PE_ABORT then UnlikelyError else WriteNotPermitted, false,
                                                 old(event).offset, old(event).length, old(event).data)] &&
           error == (if rc != -PE_ABORT then StoreError(old(error), rc, AttributeChar(old(event).attr))
                     else if ix.None? then StoreError(old(error), -PE_INVALID_UUID, ADV_ERROR) else old(error))) &&
        (accepted && |wr.data| > TRANSIENT_SIZE ==>
           event == EmptyEvent && lengths == old(lengths) && disconnects == old(disconnects) &&
           replies == old(replies) + [WriteReply(WriteNotPermitted, false, 0, |wr.data|, Peer(wr.data))] &&
           error == StoreError(old(error), -PE_NOT_SUPPORTED, ix.value)) &&
        (accepted ==> worker.lastTime == worker.time) &&
        (!accepted ==> worker.lastTime == old(worker.lastTime)) &&
        (!(accepted && 0 < |wr.data| <= TRANSIENT_SIZE && writerRc == PE_DEFERRED) ==> transient[..] == old(transient[..])) &&
        (accepted && |wr.data| <= TRANSIENT_SIZE && writerRc == PE_DEFERRED ==>
           Pending(event) && event.attr == ix && replies == old(replies) && lengths == old(lengths) &&
           error == old(error) && disconnects == old(disconnects)) &&
        (accepted && 0 < |wr.data| <= TRANSIENT_SIZE && writerRc == PE_DEFERRED ==>
           event == AttrEvent(Transient, |wr.data|, 0, ix) && transient[..|wr.data|] == wr.data) &&
        (accepted && |wr.data| == 0 && writerRc == PE_DEFERRED ==> event == AttrEvent(Null, 0, 0, ix)) &&
        (accepted && |wr.data| <= TRANSIENT_SIZE && writerRc >= 0 && writerRc != PE_DEFERRED ==>
           event == EmptyEvent && lengths == old(lengths)[ix.value := |wr.data|] && error == old(error) &&
           replies == old(replies) + [WriteReply(Success, writerRc == 0, 0, |wr.data|, Peer(wr.data))] &&
           disconnects == old(disconnects) + (if writerRc == 0 && reboot && connValid then 1 else 0)) &&
        (accepted && |wr.data| <= TRANSIENT_SIZE && writerRc == -PE_ABORT ==>
           event == EmptyEvent && lengths == old(lengths) && error == old(error) && disconnects == old(disconnects) &&
           replies == old(replies) + [WriteReply(UnlikelyError, false, 0, |wr.data|, Peer(wr.data))]) &&
        (accepted && |wr.data| <= TRANSIENT_SIZE && writerRc < 0 && writerRc != -PE_ABORT ==>
           event == EmptyEvent && lengths == old(lengths) && disconnects == old(disconnects) &&
           replies == old(replies) + [WriteReply(WriteNotPermitted, false, 0, |wr.data|, Peer(wr.data))] &&
           error == StoreError(old(error), writerRc, ix.value))
      ensures enteringSleep == old(enteringSleep) && reboot == old(reboot) && connValid == old(connValid)
    {
      if wr.op in {PrepWriteReq, ExecWriteReqNow, ExecWriteReqCancel} {
        replies := replies + [WriteReply(AppFeatureNotSupported, false, 0, 0, Null)];
        return;
      }
      var rc := -PE_INVALID_UUID;
      var attr := RetrieveAttribute(wr.uuid);
      if enteringSleep {
        attr := None;
        rc := -PE_ABORT;
      }
      if attr.Some? {
        rc := WriteAttribute(attr.value, wr, writerRc);
        if rc == PE_DEFERRED {
          return;
        }
      }
      CompleteWriteReq(rc);
      if rc == PE_NO_ERROR && reboot {
        Disconnect();
      }
    }

    /**
     * _adv_ble_complete_read_req: a record without attribute, or a success
     * on an attribute of length 0, becomes PE_INTERNAL; success replies
     * with the attribute length, PE_ABORT with an unlikely error, any other
     * error is stored in the error record. The record is always wiped.
     */
    method CompleteReadReq(retcode: int)
      requires Valid()
      modifies this
      ensures Valid() && event == EmptyEvent && lengths == old(lengths)
      ensures var e := old(event);
        var rc := if e.attr.None? || (retcode == 0 && lengths[e.attr.value] == 0) then -PE_INTERNAL else retcode;
        (rc == 0 ==> error == old(error) && replies == old(replies) + [ReadReply(Success, lengths[e.attr.value] % 0x1_0000)]) &&
        (rc == -PE_ABORT ==> error == old(error) && replies == old(replies) + [ReadReply(UnlikelyError, 0)]) &&
        (rc != 0 && rc != -PE_ABORT ==>
           error == StoreError(old(error), rc, AttributeChar(e.attr)) && replies == old(replies) + [ReadReply(ReadNotPermitted, 0)])
      ensures disconnects == old(disconnects) && enteringSleep == old(enteringSleep) && reboot == old(reboot) && connValid == old(connValid)
    {
      var rc := retcode;
      if event.attr.None? {
        rc := -PE_INTERNAL;
      }
      if rc == 0 {
        if lengths[event.attr.value] == 0 {
          rc := -PE_INTERNAL;
        }
      }
      if rc == 0 {
        replies := replies + [ReadReply(Success, lengths[event.attr.value] % 0x1_0000)];
      } else {
        var status: GattStatus;
        if rc != -PE_ABORT {
          var _ := SetErrorOnAttr(rc, AttributeChar(event.attr));
          status := ReadNotPermitted;
        } else {
          status := UnlikelyError;
        }
        replies := replies + [ReadReply(status, 0)];
      }
      event := EmptyEvent;
    }

    /**
     * _adv_ble_read_req: each failed check overrides the previous code
     * (unknown UUID, non-zero offset, entering sleep, pending request); an
     * accepted read feeds the watchdog, records the attribute, resets its
     * length (0 for variable size, pa_size otherwise) and runs the reader,
     * which may leave a new length; unless it defers, the read completes.
     */
    method ReadRequest(rd: ReadEvent, readerRc: int, readerLength: nat)
      requires Valid()
      modifies this, worker
      ensures Valid()
      ensures var ix := LookupAttribute(rd.uuid);
        var rejected := ix.None? || rd.offset != 0 || old(enteringSleep) || Pending(old(event));
        (rejected ==>
           lengths == old(lengths) && event == EmptyEvent && worker.lastTime == old(worker.lastTime) &&
           replies == old(replies) + [ReadReply(ReadNotPermitted, 0)] &&
           error == StoreError(old(error), if Pending(old(event)) then -PE_BUSY else -PE_INTERNAL, AttributeChar(old(event).attr))) &&
        (!rejected ==> worker.lastTime == worker.time) &&
        (!rejected && specs[ix.value].hasReader && readerRc == PE_DEFERRED ==>
           event == AttrEvent(Null, 0, 0, ix) && replies == old(replies) && error == old(error) &&
           lengths == old(lengths)[ix.value := readerLength]) &&
        (!rejected && specs[ix.value].hasReader && readerRc != PE_DEFERRED ==>
           var rc := if readerRc == 0 && readerLength == 0 then -PE_INTERNAL else readerRc;
           event == EmptyEvent && lengths == old(lengths)[ix.value := readerLength] &&
           (rc == 0 ==> replies == old(replies) + [ReadReply(Success, readerLength % 0x1_0000)] && error == old(error)) &&
           (rc == -PE_ABORT ==> replies == old(replies) + [ReadReply(UnlikelyError, 0)] && error == old(error)) &&
           (rc != 0 && rc != -PE_ABORT ==>
              replies == old(replies) + [ReadReply(ReadNotPermitted, 0)] && error == StoreError(old(error), rc, ix.value))) &&
        (!rejected && !specs[ix.value].hasReader ==>
           var n := if specs[ix.value].varsize then 0 else specs[ix.value].size;
           lengths == old(lengths)[ix.value := n] && event == EmptyEvent &&
           replies == old(replies) + [if n == 0 then ReadReply(ReadNotPermitted, 0) else ReadReply(Success, n % 0x1_0000)] &&
           error == (if n == 0 then StoreError(old(error), -PE_INTERNAL, ix.value) else old(error)))
      ensures worker.time == old(worker.time) && worker.enable == old(worker.enable)
      ensures disconnects == old(disconnects) && enteringSleep == old(enteringSleep) && reboot == old(reboot) && connValid == old(connValid)
    {
      var rc := -PE_INTERNAL;
      var attr := RetrieveAttribute(rd.uuid);
      if attr.None? {
        rc := -PE_INVALID_UUID;
      }
      if rd.offset != 0 {
        attr := None;
        rc := -PE_NOT_SUPPORTED;
      }
      if enteringSleep {
        attr := None;
        rc := -PE_ABORT;
      }
      if event.data != Null || event.attr.Some? {
        attr := None;
        rc := -PE_BUSY;
      }
      if attr.Some? {
        ServeRead(attr.value, readerRc, readerLength);
      } else {
        CompleteReadReq(rc);
      }
    }

    /**
     * The accepted part of _adv_ble_read_req for attribute ix: the watchdog
     * is fed, the record names the attribute, its length is reset and the
     * reader (if any) runs; unless it defers, the read completes.
     */
    method ServeRead(ix: nat, readerRc: int, readerLength: nat)
      requires Valid() && ix < ADV_COUNT && !Pending(event)
      modifies this, worker
      ensures Valid()
      ensures worker.lastTime == worker.time
      ensures specs[ix].hasReader && readerRc == PE_DEFERRED ==>
        event == AttrEvent(Null, 0, 0, Some(ix)) && replies == old(replies) && error == old(error) &&
        lengths == old(lengths)[ix := readerLength]
      ensures specs[ix].hasReader && readerRc != PE_DEFERRED ==>
        var rc := if readerRc == 0 && readerLength == 0 then -PE_INTERNAL else readerRc;
        event == EmptyEvent && lengths == old(lengths)[ix := readerLength] &&
        (rc == 0 ==> replies == old(replies) + [ReadReply(Success, readerLength % 0x1_0000)] && error == old(error)) &&
        (rc == -PE_ABORT ==> replies == old(replies) + [ReadReply(UnlikelyError, 0)] && error == old(error)) &&
        (rc != 0 && rc != -PE_ABORT ==>
           replies == old(replies) + [ReadReply(ReadNotPermitted, 0)] && error == StoreError(old(error), rc, ix))
      ensures !specs[ix].hasReader ==>
        var n := if specs[ix].varsize then 0 else specs[ix].size;
        lengths == old(lengths)[ix := n] && event == EmptyEvent &&
        replies == old(replies) + [if n == 0 then ReadReply(ReadNotPermitted, 0) else ReadReply(Success, n % 0x1_0000)] &&
        error == (if n == 0 then StoreError(old(error), -PE_INTERNAL, ix) else old(error))
      ensures worker.time == old(worker.time) && worker.enable == old(worker.enable)
      ensures disconnects == old(disconnects) && enteringSleep == old(enteringSleep) && reboot == old(reboot) && connValid == old(connValid)
    {
      var rc;
      worker.Feed();
      event := event.(attr := Some(ix));
      if specs[ix].varsize {
        lengths := lengths[ix := 0];
      } else {
        lengths := lengths[ix := specs[ix].size];
      }
      if specs[ix].hasReader {
        event := event.(data := Null, length := 0, offset := 0);
        rc := readerRc;
        lengths := lengths[ix := readerLength];
        if rc == PE_DEFERRED {
          return;
        }
      } else {
        rc := PE_NO_ERROR;
      }
      CompleteReadReq(rc);
    }

    /**
     * _adv_ble_worker_timer_cb: the engine clock advances by the worker pace
     * (unsigned wrap-around). While workers are disabled, a connection idle
     * for more than ADV_BLE_STALL_DELAY_S is closed; otherwise a worker
     * session starts and, with no workers, ends at once.
     */
    method WorkerTimer()
      requires Valid()
      modifies this, worker
      ensures Valid() && !worker.running
      ensures worker.time == (old(worker.time) + ADV_BLE_WORKER_PACE_S) % 0x1_0000_0000
      ensures worker.lastTime == old(worker.lastTime) && worker.enable == old(worker.enable)
      ensures disconnects == old(disconnects) +
        (if !worker.enable && Elapsed(worker.time, worker.lastTime) > ADV_BLE_STALL_DELAY_S && connValid then 1 else 0)
      ensures lengths == old(lengths) && event == old(event) && error == old(error) && replies == old(replies)
      ensures enteringSleep == old(enteringSleep) && reboot == old(reboot) && connValid == old(connValid)
    {
      worker.time := (worker.time + ADV_BLE_WORKER_PACE_S) % 0x1_0000_0000;
      if !worker.enable {
        if Elapsed(worker.time, worker.lastTime) > ADV_BLE_STALL_DELAY_S {
          if connValid {
            Disconnect();
          }
        }
        return;
      }
      if worker.running {
        return;
      }
      worker.running := true;
      worker.workerIx := 0;
      worker.RunNext();
    }
  }
}
