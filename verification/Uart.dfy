/** The serial port driver: bytes of two kinds, those of a stream and realtime ones, go out through the transmit
    buffer of a UART. */
module Uart {
  import opened Basics

  const FIFO_SIZE: nat := 16
  const XON: Byte := 0x11
  const XOFF: Byte := 0x13

  /** A byte written to the UART. */
  datatype Sent = Sent(byte: Byte, realtime: bool)

  datatype Errors = Errors(overflow: bool, lineBreak: bool, other: bool) {
    predicate Any() {
      overflow || lineBreak || other
    }
  }

  const NO_ERRORS := Errors(false, false, false)

  datatype Status = Status(errors: Errors, data: bool, empty: bool)

  /** What the driver finds when it reads the line status: how many bytes the UART has sent out since the last time,
      and the byte received, if there is one. */
  datatype Reading = Reading(status: Status, drained: nat, byte: Byte)

  datatype FlowControl = Continuous | XonXoff | RtrCts

  function Tagged(s: seq<Byte>, realtime: bool): (t: seq<Sent>)
    ensures |t| == |s|
  {
    seq(|s|, i requires 0 <= i < |s| => Sent(s[i], realtime))
  }

  /** The bytes of one kind, in order. */
  function Of(realtime: bool, log: seq<Sent>): seq<Byte> {
    if log == [] then [] else OfOne(realtime, log[0]) + Of(realtime, log[1..])
  }

  function OfOne(realtime: bool, sent: Sent): seq<Byte> {
    if sent.realtime == realtime then [sent.byte] else []
  }

  lemma {:induction false} OfParts(realtime: bool, a: seq<Sent>, b: seq<Sent>)
    ensures Of(realtime, a + b) == Of(realtime, a) + Of(realtime, b)
  {
    if a == [] {
      assert a + b == b;
    } else {
      OfParts(realtime, a[1..], b);
      assert (a + b)[0] == a[0] && (a + b)[1..] == a[1..] + b;
      Associate(OfOne(realtime, a[0]), Of(realtime, a[1..]), Of(realtime, b));
    }
  }

  lemma {:induction false} OfTagged(realtime: bool, s: seq<Byte>, tag: bool)
    ensures Of(realtime, Tagged(s, tag)) == if realtime == tag then s else []
  {
    if s != [] {
      OfTagged(realtime, s[1..], tag);
      assert Tagged(s, tag)[1..] == Tagged(s[1..], tag);
      assert s == [s[0]] + s[1..];
    }
  }

  /** Writing bytes of one kind adds them to that kind, and nothing to the other. */
  lemma OfMore(log: seq<Sent>, s: seq<Byte>, tag: bool)
    ensures Of(tag, log + Tagged(s, tag)) == Of(tag, log) + s
    ensures Of(!tag, log + Tagged(s, tag)) == Of(!tag, log)
  {
    OfParts(tag, log, Tagged(s, tag));
    OfParts(!tag, log, Tagged(s, tag));
    OfTagged(tag, s, tag);
    OfTagged(!tag, s, tag);
    assert Of(!tag, log) + [] == Of(!tag, log);
  }

  /** What an exchange keeps: the bytes meant to be sent and, if it is `held`, the stream as it is. */
  datatype Kept = Kept(committed: seq<Byte>, queued: seq<Byte>, held: bool, tx: seq<Byte>, stop: nat)

  function Min(a: nat, b: nat): nat {
    if a < b then a else b
  }

  /** A byte that was received, with the errors reported for it. */
  datatype Arrival = Arrival(errors: Errors, byte: Byte)

  /** What an exchange receives; the reading at which it ends, if readings do not run out before; and errors that
      are still to be reported. */
  datatype Course = Course(arrivals: seq<Arrival>, end: Option<Reading>, pending: Errors)

  function Union(e: Errors, f: Errors): Errors {
    Errors(e.overflow || f.overflow, e.lineBreak || f.lineBreak, e.other || f.other)
  }

  function Before(arrivals: seq<Arrival>, c: Course): Course {
    c.(arrivals := arrivals + c.arrivals)
  }

  lemma BeforeInParts(a: seq<Arrival>, b: seq<Arrival>, c: Course)
    ensures Before(a, Before(b, c)) == Before(a + b, c)
  {
    Associate(a, b, c.arrivals);
  }

  /** The course from a reading on: `at` is the last one taken, and `received` the number of bytes received so far. */
  function From(pending: Errors, at: Reading, left: seq<Reading>, received: nat, minimum: nat): Course
    decreases |left|, 1
  {
    if at.status.data then Before([Arrival(pending, at.byte)], AfterGet(left, received, minimum))
    else if received >= minimum then Course([], Some(at), pending)
    else if left == [] then Course([], None, pending)
    else From(Union(pending, left[0].status.errors), left[0], left[1..], received, minimum)
  }

  lemma RunsOut(a: seq<Arrival>, b: seq<Arrival>, pending: Errors)
    ensures Before(a, Before(b, Course([], None, pending))) == Course(a + b, None, pending)
  {
    assert b + [] == b;
  }

  lemma EndsHere(got: seq<Arrival>, pending: Errors, at: Reading, left: seq<Reading>, received: nat, minimum: nat)
    requires !at.status.data && (received >= minimum || left == [])
    ensures Before(got, From(pending, at, left, received, minimum)) ==
            Course(got, if received >= minimum then Some(at) else None, pending)
  {
    assert got + [] == got;
  }

  /** Errors are reported once: with the next byte. */
  function AfterGet(left: seq<Reading>, received: nat, minimum: nat): Course
    decreases |left|, 0
  {
    if left == [] then Course([], None, NO_ERRORS)
    else From(left[0].status.errors, left[0], left[1..], received + 1, minimum)
  }

  /** After an overflow, all of the receive buffer is read; its first byte is no worse for it. */
  function CourseOf(rxMinimum: nat, pending: Errors, readings: seq<Reading>): Course
    requires readings != []
  {
    var (first, e) := (readings[0], Union(pending, readings[0].status.errors));
    if e.overflow
      then Before([Arrival(e.(overflow := false), first.byte)], AfterGet(readings[1..], 0, FIFO_SIZE))
    else From(e, first, readings[1..], 0, rxMinimum)
  }

  /** Where an exchange stands: the last status, whether to receive the byte read with it, what is left to read, how
      many bytes were received, and how many sent since the transmitter was empty; and, besides, the last reading
      taken and all that arrived. */
  datatype Turn = Turn(status: Status, get: bool, c: Byte, left: seq<Reading>, received: nat, sent: nat)
  datatype Seen = Seen(at: Reading, got: seq<Arrival>)

  /** The receiving side of a port: flow control, whether a break ends the input, and how much fits. */
  datatype Port = Port(flow: FlowControl, eofOnBreak: bool, rxCapacity: nat) {
    /** XON or XOFF, without any error. */
    predicate IsControl(a: Arrival) {
      flow == XonXoff && !a.errors.Any() && (a.byte == 0x11 || a.byte == 0x13)
    }

    predicate IsEnd(a: Arrival) {
      a.errors.lineBreak && eofOnBreak
    }

    /** The bytes that are for the reader. */
    function Stored(arrivals: seq<Arrival>): seq<Byte> {
      if arrivals == [] then [] else OneStored(arrivals[0]) + Stored(arrivals[1..])
    }

    function OneStored(a: Arrival): seq<Byte> {
      if IsControl(a) || IsEnd(a) then [] else [a.byte]
    }

    /** What fits of more bytes behind those there are. */
    function Within(rx: seq<Byte>, more: seq<Byte>): seq<Byte> {
      if |rx| >= rxCapacity then rx else rx + more[..Min(|more|, rxCapacity - |rx|)]
    }

    /** The receive buffer afterwards. */
    function RxAfter(rx: seq<Byte>, arrivals: seq<Arrival>): seq<Byte> {
      Within(rx, Stored(arrivals))
    }

    /** Whether sending is allowed afterwards: as the last byte for flow control says, if there is one. */
    function CanTxAfter(canTx: bool, arrivals: seq<Arrival>): bool {
      if arrivals == [] then canTx
      else
        var (before, last) := (arrivals[..|arrivals| - 1], arrivals[|arrivals| - 1]);
        if IsControl(last) then last.byte == 0x11 else CanTxAfter(canTx, before)
    }

    lemma {:induction false} StoredInParts(a: seq<Arrival>, b: seq<Arrival>)
      ensures Stored(a + b) == Stored(a) + Stored(b)
    {
      if a == [] {
        assert a + b == b;
      } else {
        StoredInParts(a[1..], b);
        assert (a + b)[0] == a[0] && (a + b)[1..] == a[1..] + b;
        Associate(OneStored(a[0]), Stored(a[1..]), Stored(b));
      }
    }

    lemma RxInParts(rx: seq<Byte>, a: seq<Arrival>, b: seq<Arrival>)
      ensures RxAfter(RxAfter(rx, a), b) == RxAfter(rx, a + b)
    {
      StoredInParts(a, b);
    }

    lemma {:induction false} CanTxInParts(canTx: bool, a: seq<Arrival>, b: seq<Arrival>)
      ensures CanTxAfter(CanTxAfter(canTx, a), b) == CanTxAfter(canTx, a + b)
    {
      if b == [] {
        assert a + b == a;
      } else {
        CanTxInParts(canTx, a, b[..|b| - 1]);
        assert (a + b)[..|a + b| - 1] == a + b[..|b| - 1];
      }
    }

    lemma OneArrives(rx: seq<Byte>, canTx: bool, a: Arrival)
      ensures RxAfter(rx, [a]) == if IsControl(a) || IsEnd(a) || |rx| >= rxCapacity then rx else rx + [a.byte]
      ensures CanTxAfter(canTx, [a]) == if IsControl(a) then a.byte == 0x11 else canTx
    {
      assert Stored([a]) == OneStored(a);
      assert [a][..0] == [];
    }
  }

  /** The bytes of the readings that have data. */
  function Data(readings: seq<Reading>): seq<Byte> {
    if readings == [] then []
    else (if readings[0].status.data then [readings[0].byte] else []) + Data(readings[1..])
  }

  function Bytes(arrivals: seq<Arrival>): (s: seq<Byte>)
    ensures |s| == |arrivals|
  {
    seq(|arrivals|, i requires 0 <= i < |arrivals| => arrivals[i].byte)
  }

  /** What an exchange receives is the data of readings, in order, up to the one where it ends. */
  lemma {:induction false} ArrivalsAreData(pending: Errors, at: Reading, left: seq<Reading>, received: nat,
                                           minimum: nat)
    returns (n: nat)
    ensures var c := From(pending, at, left, received, minimum);
            && n <= |left| && Bytes(c.arrivals) == Data(([at] + left)[..n + 1])
            && (c.end == None ==> n == |left|)
            && (c.end != None ==> c.end == Some(([at] + left)[n]) && received + |c.arrivals| >= minimum)
    decreases |left|
  {
    var c := From(pending, at, left, received, minimum);
    var all := [at] + left;
    if left == [] || (!at.status.data && received >= minimum) {
      n := 0;
      assert all[..1] == [at] && [at][1..] == [];
    } else {
      var e := if at.status.data then left[0].status.errors else Union(pending, left[0].status.errors);
      n := ArrivalsAreData(e, left[0], left[1..], if at.status.data then received + 1 else received, minimum);
      assert [left[0]] + left[1..] == left;
      assert all[..n + 2][0] == at && all[..n + 2][1..] == left[..n + 1];
      n := n + 1;
    }
  }

  lemma DataOfMore(first: Reading, rest: seq<Reading>)
    ensures Data([first] + rest) == (if first.status.data then [first.byte] else []) + Data(rest)
  {
    assert ([first] + rest)[1..] == rest;
  }

  lemma RestIsData(left: seq<Reading>, received: nat, minimum: nat) returns (n: nat)
    ensures var c := AfterGet(left, received, minimum);
            && n <= |left| && Bytes(c.arrivals) == Data(left[..n]) && (c.end == None ==> n == |left|)
            && (c.end != None ==> n > 0 && c.end == Some(left[n - 1]) && received + 1 + |c.arrivals| >= minimum)
  {
    n := 0;
    if left != [] {
      n := ArrivalsAreData(left[0].status.errors, left[0], left[1..], received + 1, minimum);
      assert [left[0]] + left[1..] == left;
      n := n + 1;
    }
  }

  /** A course receives `extra` and the data of the first `n` readings, and ends with the last of those, having
      received as much as it should, or runs out of readings. */
  ghost predicate IsDataOf(c: Course, extra: seq<Byte>, readings: seq<Reading>, n: nat, least: nat) {
    && 1 <= n <= |readings| && Bytes(c.arrivals) == extra + Data(readings[..n])
    && (c.end == None ==> n == |readings|)
    && (c.end != None ==> c.end == Some(readings[n - 1]) && |c.arrivals| >= least)
  }

  /** The same for a whole exchange. After an overflow, the first byte is there even without being announced. */
  lemma ReceivedIsData(rxMinimum: nat, pending: Errors, readings: seq<Reading>) returns (n: nat)
    requires readings != []
    ensures var overflow := pending.overflow || readings[0].status.errors.overflow;
            IsDataOf(CourseOf(rxMinimum, pending, readings),
                     if overflow && !readings[0].status.data then [readings[0].byte] else [], readings, n,
                     if overflow then FIFO_SIZE else rxMinimum)
  {
    var e := Union(pending, readings[0].status.errors);
    if e.overflow {
      n := OverflowIsData(Arrival(e.(overflow := false), readings[0].byte), readings);
    } else {
      n := ArrivalsAreData(e, readings[0], readings[1..], 0, rxMinimum);
      n := n + 1;
      assert [readings[0]] + readings[1..] == readings;
    }
  }

  lemma OverflowIsData(a: Arrival, readings: seq<Reading>) returns (n: nat)
    requires readings != [] && a.byte == readings[0].byte
    ensures IsDataOf(Before([a], AfterGet(readings[1..], 0, FIFO_SIZE)),
                     if readings[0].status.data then [] else [readings[0].byte], readings, n, FIFO_SIZE)
  {
    n := RestIsData(readings[1..], 0, FIFO_SIZE);
    FirstReadings(readings, n);
    BytesOfMore(a, AfterGet(readings[1..], 0, FIFO_SIZE).arrivals);
    n := n + 1;
  }

  lemma FirstReadings(readings: seq<Reading>, n: nat)
    requires n < |readings|
    ensures Data(readings[..n + 1]) ==
            (if readings[0].status.data then [readings[0].byte] else []) + Data(readings[1..][..n])
  {
    assert readings[..n + 1] == [readings[0]] + readings[1..][..n];
    DataOfMore(readings[0], readings[1..][..n]);
  }

  lemma BytesOfMore(a: Arrival, rest: seq<Arrival>)
    ensures Bytes([a] + rest) == [a.byte] + Bytes(rest)
  {
  }

  lemma {:induction false} StoredPlainly(p: Port, arrivals: seq<Arrival>)
    requires forall a | a in arrivals :: !p.IsControl(a) && !p.IsEnd(a)
    ensures p.Stored(arrivals) == Bytes(arrivals)
  {
    if arrivals != [] {
      StoredPlainly(p, arrivals[1..]);
      assert Bytes(arrivals) == [arrivals[0].byte] + Bytes(arrivals[1..]);
    }
  }

  /** Without flow control by bytes, without breaks that end the input, and with room, the reader gets every byte that
      arrives, and sending stays as it is. */
  lemma {:induction false} PlainPortStoresAll(p: Port, rx: seq<Byte>, canTx: bool, arrivals: seq<Arrival>)
    requires p.flow != XonXoff && (forall a | a in arrivals :: !(a.errors.lineBreak && p.eofOnBreak))
    requires |rx| + |arrivals| <= p.rxCapacity
    ensures p.RxAfter(rx, arrivals) == rx + Bytes(arrivals) && p.CanTxAfter(canTx, arrivals) == canTx
  {
    StoredPlainly(p, arrivals);
    if arrivals == [] {
      assert rx + [] == rx;
    } else {
      PlainPortStoresAll(p, rx, canTx, arrivals[..|arrivals| - 1]);
      assert Bytes(arrivals)[..|arrivals|] == Bytes(arrivals);
    }
  }

  class Streambuf {
    const port: Port
    const realtimeCapacity: nat
    // The transmit buffer, of which the first `stop` bytes are meant to be sent; realtime bytes; and what was received.
    var tx: seq<Byte>
    var stop: nat
    var realtime: seq<Byte>
    var rx: seq<Byte>
    var canTx: bool
    var canRx: bool
    var closing: bool
    var lineErrors: Errors
    var txInterrupt: bool
    // The UART's own transmit buffer; what has left it; and all that was ever written to it.
    var fifo: seq<Sent>
    ghost var wire: seq<Sent>
    ghost var log: seq<Sent>

    constructor (port: Port, realtimeCapacity: nat, tx: seq<Byte>)
      ensures Valid() && Committed() == [] && this.tx == tx && canTx
      ensures Queued() == realtime == if port.flow == XonXoff && 0 < realtimeCapacity then [XON] else []
      ensures TxInterruptFits()
    {
      this.port, this.realtimeCapacity := port, realtimeCapacity;
      this.tx, stop, realtime, rx := tx, 0, [], [];
      canTx, canRx, closing, lineErrors, txInterrupt := true, false, false, NO_ERRORS, false;
      fifo, wire, log := [], [], [];
      new;
      SetRts(true);
      SetTx();
    }

    ghost predicate Valid()
      reads `tx, `stop, `fifo, `wire, `log
    {
      stop <= |tx| && |fifo| <= FIFO_SIZE && log == wire + fifo
    }

    /** All stream bytes ever meant to be sent: those that went to the UART, in order, then those that are still to
        go. */
    ghost function Committed(): seq<Byte>
      requires stop <= |tx|
      reads `tx, `stop, `log
    {
      Of(false, log) + tx[..stop]
    }

    /** All realtime bytes ever queued: those that went to the UART, in order, then those that are still to go. */
    ghost function Queued(): seq<Byte>
      reads `realtime, `log
    {
      Of(true, log) + realtime
    }

    /** Nothing that may be sent is left waiting while the UART has room. */
    ghost predicate NothingWaits()
      reads `stop, `realtime, `canTx, `fifo
    {
      |fifo| == FIFO_SIZE || (realtime == [] && (canTx ==> stop == 0))
    }

    /** The UART takes bytes only while there is room for them. */
    method WriteData(s: seq<Byte>, tag: bool)
      requires |fifo| + |s| <= FIFO_SIZE && log == wire + fifo
      modifies `fifo, `log
      ensures log == wire + fifo && log == old(log) + Tagged(s, tag) && |fifo| == old(|fifo|) + |s|
    {
      fifo := fifo + Tagged(s, tag);
      log := log + Tagged(s, tag);
    }

    /** Read the line status. Errors stay until data is read. An empty transmitter has sent out everything. */
    method ReadStatus(r: Reading) returns (status: Status)
      requires Valid()
      modifies `fifo, `wire, `lineErrors
      ensures Valid() && |fifo| <= old(|fifo|) && (status.empty ==> fifo == [])
      ensures status == r.status.(errors := lineErrors)
      ensures lineErrors == Union(old(lineErrors), r.status.errors)
    {
      var n := if r.status.empty then |fifo| else Min(r.drained, |fifo|);
      wire, fifo := wire + fifo[..n], fifo[n..];
      var e := r.status.errors;
      lineErrors := Errors(lineErrors.overflow || e.overflow, lineErrors.lineBreak || e.lineBreak,
                           lineErrors.other || e.other);
      status := r.status.(errors := lineErrors);
    }

    /** Fill the UART, which has taken `sent` bytes since it was last empty: realtime bytes first, then, unless told
        to wait, the stream up to where it is to stop. */
    method Put(status: Status, sent: nat) returns (now: nat)
      requires Valid() && |fifo| <= sent <= FIFO_SIZE && (status.empty ==> fifo == [])
      modifies `tx, `stop, `realtime, `fifo, `log
      ensures Valid() && |fifo| <= now <= FIFO_SIZE && (status.empty ==> |fifo| == now && NothingWaits())
      ensures Committed() == old(Committed()) && Queued() == old(Queued())
      ensures var room := FIFO_SIZE - (if status.empty then 0 else sent);
              var n := Min(room, |old(realtime)|);
              var m := if canTx then Min(room - n, old(stop)) else 0;
              && log == old(log) + Tagged(old(realtime)[..n], true) + Tagged(old(tx)[..m], false)
              && tx == old(tx)[m..] && stop == old(stop) - m && now == FIFO_SIZE - room + n + m
    {
      now := if status.empty then 0 else sent;
      now := PutRealtime(now);
      if canTx {
        now := PutStream(now);
      }
    }

    method PutRealtime(sent: nat) returns (now: nat)
      requires Valid() && |fifo| <= sent <= FIFO_SIZE
      modifies `realtime, `fifo, `log
      ensures Valid() && |fifo| <= now <= FIFO_SIZE && now - |fifo| == sent - |old(fifo)|
      ensures Committed() == old(Committed()) && Queued() == old(Queued())
      ensures var n := Min(FIFO_SIZE - sent, |old(realtime)|);
              log == old(log) + Tagged(old(realtime)[..n], true) && realtime == old(realtime)[n..] && now == sent + n
    {
      var n := Min(FIFO_SIZE - sent, |realtime|);
      ghost var before := log;
      var s := realtime[..n];
      assert realtime == s + realtime[n..];
      realtime := realtime[n..];
      WriteData(s, true);
      OfMore(before, s, true);
      now := sent + n;
    }

    method PutStream(sent: nat) returns (now: nat)
      requires Valid() && |fifo| <= sent <= FIFO_SIZE
      modifies `tx, `stop, `fifo, `log
      ensures Valid() && |fifo| <= now <= FIFO_SIZE && now - |fifo| == sent - |old(fifo)|
      ensures Committed() == old(Committed()) && Queued() == old(Queued())
      ensures var m := Min(FIFO_SIZE - sent, old(stop));
              && log == old(log) + Tagged(old(tx)[..m], false)
              && tx == old(tx)[m..] && stop == old(stop) - m && now == sent + m
    {
      var m := Min(FIFO_SIZE - sent, stop);
      ghost var before := log;
      var s := tx[..m];
      assert tx[..stop] == s + tx[m..][..stop - m];
      tx, stop := tx[m..], stop - m;
      WriteData(s, false);
      OfMore(before, s, false);
      now := sent + m;
    }

    /** Interrupts come from an empty transmitter exactly while there is something to send that may be sent. */
    ghost predicate TxInterruptFits()
      reads `stop, `canTx, `closing, `realtime, `txInterrupt
    {
      txInterrupt <==> (stop > 0 && (canTx || closing)) || realtime != []
    }

    /** Interrupts come exactly while an empty UART would be given something, unless the port is closing with a
        stream left that may not be sent. */
    lemma InterruptExactlyWhenUseful()
      requires TxInterruptFits()
      ensures var n := Min(FIFO_SIZE, |realtime|);
              var m := if canTx then Min(FIFO_SIZE - n, stop) else 0;
              (txInterrupt <==> n + m > 0) <==> !(closing && !canTx && stop > 0 && realtime == [])
    {
    }

    method SetTx()
      modifies `txInterrupt
      ensures TxInterruptFits()
    {
      var enable := stop != 0;
      enable := enable && (canTx || closing);
      enable := enable || realtime != [];
      txInterrupt := enable;
    }

    /** Tell the other side whether it may send. */
    method SetRts(rts: bool)
      modifies `canRx, `realtime
      ensures canRx == (if port.flow == Continuous then old(canRx) else rts && !closing)
      ensures realtime == if port.flow == XonXoff && canRx != old(canRx) && |old(realtime)| < realtimeCapacity
                            then old(realtime) + [if canRx then XON else XOFF] else old(realtime)
    {
      if port.flow != Continuous {
        var now := rts && !closing;
        if canRx != now {
          canRx := now;
          if port.flow == XonXoff && |realtime| < realtimeCapacity {
            realtime := realtime + [if now then XON else XOFF];
          }
        }
      }
    }

    /** Take a received byte; those for flow control are not for the reader. */
    method Get(status: Status, c: Byte)
      modifies `lineErrors, `canTx, `rx
      ensures lineErrors == NO_ERRORS && (port.flow != XonXoff ==> canTx == old(canTx))
      ensures var a := [Arrival(status.errors, c)];
              rx == port.RxAfter(old(rx), a) && canTx == port.CanTxAfter(old(canTx), a)
    {
      port.OneArrives(rx, canTx, Arrival(status.errors, c));
      lineErrors := NO_ERRORS;
      if port.flow == XonXoff && !status.errors.Any() && (c == XON || c == XOFF) {
        canTx := c == XON;
      } else if !(status.errors.lineBreak && port.eofOnBreak) && |rx| < port.rxCapacity {
        rx := rx + [c];
      }
    }

    /** The receiving side is as these arrivals leave it. */
    ghost predicate Took(rx0: seq<Byte>, canTx0: bool, arrivals: seq<Arrival>)
      reads `rx, `canTx
    {
      rx == port.RxAfter(rx0, arrivals) && canTx == port.CanTxAfter(canTx0, arrivals)
    }

    /** Receive one byte more. */
    method GetNext(status: Status, c: Byte, ghost rx0: seq<Byte>, ghost canTx0: bool, ghost got: seq<Arrival>)
      requires Took(rx0, canTx0, got)
      modifies `lineErrors, `canTx, `rx
      ensures lineErrors == NO_ERRORS && (port.flow != XonXoff ==> canTx == old(canTx))
      ensures Took(rx0, canTx0, got + [Arrival(status.errors, c)])
    {
      Get(status, c);
      port.RxInParts(rx0, got, [Arrival(status.errors, c)]);
      port.CanTxInParts(canTx0, got, [Arrival(status.errors, c)]);
    }

    /** Receive while there is data. Not done if readings run out before there is none. */
    method GetAll(first: Status, byte: Byte, readings: seq<Reading>, ghost before: nat, ghost minimum: nat)
        returns (status: Status, received: nat, left: seq<Reading>, done: bool, ghost at: Reading,
                 ghost got: seq<Arrival>)
      requires Valid()
      modifies `fifo, `wire, `lineErrors, `canTx, `rx
      ensures Valid() && |fifo| <= old(|fifo|) && |left| <= |readings|
      ensures done ==> |left| < |readings| && (status.empty ==> fifo == [])
      ensures done ==> !at.status.data && at.status.empty == status.empty
      ensures Took(old(rx), old(canTx), got) && (port.flow != XonXoff ==> canTx == old(canTx))
      ensures Before([Arrival(first.errors, byte)], AfterGet(readings, before, minimum)) ==
              Before(got, if done then From(lineErrors, at, left, before + received, minimum)
                          else Course([], None, lineErrors))
    {
      status, received, left, done, got := first, 0, readings, false, [];
      at := Reading(first, 0, byte);
      var c := byte;
      var more := true;
      ghost var course := Before([Arrival(first.errors, byte)], AfterGet(readings, before, minimum));
      ghost var (rx0, canTx0) := (rx, canTx);
      NothingTaken();
      while more
        invariant Valid() && |fifo| <= old(|fifo|) && |left| <= |readings| && (done ==> !more)
        invariant done ==> |left| < |readings| && (status.empty ==> fifo == [])
        invariant done ==> !at.status.data && at.status.empty == status.empty
        invariant Took(rx0, canTx0, got) && (port.flow != XonXoff ==> canTx == old(canTx))
        invariant course ==
                  Before(got, if more
                                then Before([Arrival(status.errors, c)], AfterGet(left, before + received, minimum))
                              else if done then From(lineErrors, at, left, before + received, minimum)
                              else Course([], None, lineErrors))
        decreases |left|, more
      {
        status, c, left, done, more, at, got :=
          GetOne(status, c, left, before + received, minimum, at, rx0, canTx0, got);
        received := received + 1;
      }
    }

    /** Receive one byte, and take the next reading, if there is one. */
    method GetOne(last: Status, byte: Byte, readings: seq<Reading>, ghost so: nat, ghost minimum: nat,
                  ghost was: Reading, ghost rx0: seq<Byte>, ghost canTx0: bool, ghost had: seq<Arrival>)
        returns (status: Status, c: Byte, left: seq<Reading>, done: bool, more: bool, ghost at: Reading,
                 ghost got: seq<Arrival>)
      requires Valid() && Took(rx0, canTx0, had)
      modifies `fifo, `wire, `lineErrors, `canTx, `rx
      ensures Valid() && |fifo| <= old(|fifo|) && |left| <= |readings| && (done ==> !more)
      ensures done || more ==> |left| < |readings| && (status.empty ==> fifo == [])
      ensures done ==> !at.status.data && at.status.empty == status.empty
      ensures Took(rx0, canTx0, got) && (port.flow != XonXoff ==> canTx == old(canTx))
      ensures Before(had, Before([Arrival(last.errors, byte)], AfterGet(readings, so, minimum))) ==
              Before(got, if more then Before([Arrival(status.errors, c)], AfterGet(left, so + 1, minimum))
                          else if done then From(lineErrors, at, left, so + 1, minimum)
                          else Course([], None, lineErrors))
    {
      GetNext(last, byte, rx0, canTx0, had);
      BeforeInParts(had, [Arrival(last.errors, byte)], AfterGet(readings, so, minimum));
      got := had + [Arrival(last.errors, byte)];
      status, c, left, done, more, at := last, byte, readings, false, false, was;
      if left != [] {
        at := left[0];
        c := left[0].byte;
        status := ReadStatus(left[0]);
        left := left[1..];
        more := status.data;
        done := !more;
      }
    }

    lemma NothingTaken()
      ensures Took(rx, canTx, [])
    {
    }

    /** Nothing is lost, repeated or reordered; and of the stream, nothing leaves the buffer while that is
        forbidden. */
    ghost predicate Keeps(k: Kept)
      reads `tx, `stop, `realtime, `canTx, `fifo, `wire, `log
    {
      && Valid() && Committed() == k.committed && Queued() == k.queued
      && (k.held ==> !canTx && tx == k.tx && stop == k.stop)
    }

    /** Receive and send, until at least so many bytes have been received; not done if readings run out before that. */
    method DoSync(rxMinimum: nat, readings: seq<Reading>) returns (done: bool)
      requires Valid() && readings != []
      modifies this
      ensures Valid() && Committed() == old(Committed()) && old(rx) <= rx
      ensures port.flow != XonXoff && !old(canTx) ==> !canTx && tx == old(tx) && stop == old(stop)
      ensures Queued() == old(Queued()) ||
              (done && port.flow == XonXoff && Queued() == old(Queued()) + [if canRx then XON else XOFF])
      ensures canRx == if done && port.flow != Continuous then |rx| + 32 < port.rxCapacity && !closing else old(canRx)
      ensures canRx == old(canRx) ==> Queued() == old(Queued())
      ensures port.flow == XonXoff && canRx != old(canRx) ==>
                Queued() == old(Queued()) + [if canRx then XON else XOFF] || |realtime| >= realtimeCapacity
      ensures done ==> TxInterruptFits()
      ensures var c := CourseOf(rxMinimum, old(lineErrors), readings);
              && Took(old(rx), old(canTx), c.arrivals) && lineErrors == c.pending && done == c.end.Some?
              && (done && c.end.value.status.empty ==>
                    |fifo| == FIFO_SIZE || ((canTx ==> stop == 0) && |realtime| <= 1))
    {
      ghost var k := Kept(Committed(), Queued(), port.flow != XonXoff && !canTx, tx, stop);
      ghost var rx0 := rx;
      done := Exchange(rxMinimum, readings, k);
      assert rx0 <= rx;
      if done {
        Finish();
      }
    }

    /** Say whether more may come, and have interrupts come as they should. */
    method Finish()
      requires Valid()
      modifies `canRx, `realtime, `txInterrupt
      ensures TxInterruptFits()
      ensures canRx == if port.flow == Continuous then old(canRx) else |rx| + 32 < port.rxCapacity && !closing
      ensures Queued() == old(Queued()) + if port.flow == XonXoff && canRx != old(canRx)
                                              && |old(realtime)| < realtimeCapacity
                                          then [if canRx then XON else XOFF] else []
      ensures |realtime| <= |old(realtime)| + 1 && old(realtime) <= realtime
    {
      ghost var (out, before) := (Of(true, log), realtime);
      SetRts(port.rxCapacity > |rx| + 32);
      SetTx();
      Associate(out, before, [if canRx then XON else XOFF]);
    }

    method Exchange(rxMinimum: nat, readings: seq<Reading>, ghost k: Kept)
        returns (done: bool)
      requires Keeps(k) && readings != [] && (k.held ==> port.flow != XonXoff)
      modifies `tx, `stop, `realtime, `fifo, `wire, `log, `lineErrors, `canTx, `rx
      ensures Keeps(k) && old(rx) <= rx
      ensures var c := CourseOf(rxMinimum, old(lineErrors), readings);
              && Took(old(rx), old(canTx), c.arrivals) && lineErrors == c.pending && done == c.end.Some?
              && (done && c.end.value.status.empty ==> NothingWaits())
    {
      var status := ReadKeeping(readings[0], k);
      if status.errors.overflow {
        var rest := status.(errors := status.errors.(overflow := false));
        done := ExchangeRest(rest, true, FIFO_SIZE, readings, k);
      } else {
        done := ExchangeRest(status, status.data, rxMinimum, readings, k);
      }
    }

    /** The course of an exchange that has taken its first reading. */
    ghost function Rest(first: Status, receive: bool, minimum: nat, readings: seq<Reading>, pending: Errors): Course
      requires readings != []
    {
      var (r, left) := (readings[0], readings[1..]);
      if receive then Before([Arrival(first.errors, r.byte)], AfterGet(left, 0, minimum))
      else From(pending, r, left, 0, minimum)
    }

    /** What is still to come of a course: first a byte, if it is to be read, or the end. */
    ghost function Ahead(get: bool, status: Status, c: Byte, at: Reading, left: seq<Reading>, received: nat,
                         minimum: nat): Course
      reads `lineErrors
    {
      if get then Before([Arrival(status.errors, c)], AfterGet(left, received, minimum))
      else From(lineErrors, at, left, received, minimum)
    }

    /** The exchange after its first reading, which gave the status `first`; it starts by receiving if `receive`
        says so. */
    method ExchangeRest(first: Status, receive: bool, minimum: nat, readings: seq<Reading>, ghost k: Kept)
        returns (done: bool)
      requires Keeps(k) && readings != [] && (k.held ==> port.flow != XonXoff)
      requires (first.empty ==> fifo == []) && first.empty == readings[0].status.empty
      requires readings[0].status.data ==> receive
      modifies `tx, `stop, `realtime, `fifo, `wire, `log, `lineErrors, `canTx, `rx
      ensures Keeps(k) && old(rx) <= rx
      ensures var c := Rest(first, receive, minimum, readings, old(lineErrors));
              && Took(old(rx), old(canTx), c.arrivals) && lineErrors == c.pending && done == c.end.Some?
              && (done && c.end.value.status.empty ==> NothingWaits())
    {
      ghost var (rx0, canTx0, v) := (rx, canTx, Seen(readings[0], []));
      ghost var course := Rest(first, receive, minimum, readings, lineErrors);
      var t := Turn(first, receive, readings[0].byte, readings[1..], 0, FIFO_SIZE);
      NothingTaken();
      var again := true;
      done := true;
      while again
        invariant if again then Stands(t, v, course, minimum, rx0, canTx0, k) else Ended(done, course, rx0, canTx0, k)
        decreases |t.left|, again
      {
        t, again, done, v := Round(t, minimum, v, course, rx0, canTx0, k);
      }
      RxGrows(rx0, course.arrivals);
    }

    /** How things stand between rounds. */
    ghost predicate Stands(t: Turn, v: Seen, course: Course, minimum: nat, rx0: seq<Byte>, canTx0: bool, k: Kept)
      reads `tx, `stop, `realtime, `canTx, `fifo, `wire, `log, `rx, `lineErrors
    {
      && Keeps(k) && Took(rx0, canTx0, v.got) && v.at.status.empty == t.status.empty
      && |fifo| <= t.sent <= FIFO_SIZE && (!t.get ==> !v.at.status.data && (t.status.empty ==> fifo == []))
      && course == Before(v.got, Ahead(t.get, t.status, t.c, v.at, t.left, t.received, minimum))
    }

    ghost predicate Ended(done: bool, course: Course, rx0: seq<Byte>, canTx0: bool, k: Kept)
      reads `tx, `stop, `realtime, `canTx, `fifo, `wire, `log, `rx, `lineErrors
    {
      && Keeps(k) && Took(rx0, canTx0, course.arrivals) && lineErrors == course.pending && done == course.end.Some?
      && (done && course.end.value.status.empty ==> NothingWaits())
    }

    /** Receive while there is data, then send, then take the next reading if more is to be received. */
    method Round(t: Turn, minimum: nat, ghost v: Seen, ghost course: Course, ghost rx0: seq<Byte>, ghost canTx0: bool,
                 ghost k: Kept)
        returns (t': Turn, again: bool, done: bool, ghost v': Seen)
      requires Stands(t, v, course, minimum, rx0, canTx0, k) && (k.held ==> port.flow != XonXoff)
      modifies `tx, `stop, `realtime, `fifo, `wire, `log, `lineErrors, `canTx, `rx
      ensures |t'.left| <= |t.left|
      ensures if again then Stands(t', v', course, minimum, rx0, canTx0, k) && |t'.left| < |t.left|
              else Ended(done, course, rx0, canTx0, k)
    {
      var status, left, received;
      ghost var at, got;
      status, left, received, done, at, got :=
        GetIfTold(t.get, t.status, t.c, t.left, t.received, v.at, minimum, rx0, canTx0, v.got, k);
      t', again, v' := t, false, v;
      if done {
        var sent := PutKeeping(status, t.sent, k);
        done := received >= minimum;
        if !done && left != [] {
          var c;
          status, c, at := ReadNext(at, left, received, minimum, k);
          t', again, v' := Turn(status, status.data, c, left[1..], received, sent), true, Seen(at, got);
        } else {
          EndsHere(got, lineErrors, at, left, received, minimum);
        }
      }
    }

    lemma RxGrows(rx0: seq<Byte>, got: seq<Arrival>)
      ensures rx0 <= port.RxAfter(rx0, got)
    {
    }

    /** Take one reading more. */
    method ReadNext(ghost last: Reading, left: seq<Reading>, received: nat, minimum: nat, ghost k: Kept)
        returns (status: Status, c: Byte, ghost at: Reading)
      requires Keeps(k) && left != [] && received < minimum && !last.status.data
      modifies `fifo, `wire, `lineErrors
      ensures Keeps(k) && |fifo| <= old(|fifo|) && (status.empty ==> fifo == [])
      ensures at.status.empty == status.empty && at.status.data == status.data
      ensures From(old(lineErrors), last, left, received, minimum) ==
              Ahead(status.data, status, c, at, left[1..], received, minimum)
    {
      at := left[0];
      c := left[0].byte;
      status := ReadKeeping(left[0], k);
    }

    method ReadKeeping(r: Reading, ghost k: Kept)
        returns (status: Status)
      requires Keeps(k)
      modifies `fifo, `wire, `lineErrors
      ensures Keeps(k) && |fifo| <= old(|fifo|)
      ensures (status.empty ==> fifo == []) && status == r.status.(errors := lineErrors)
      ensures lineErrors == Union(old(lineErrors), r.status.errors)
    {
      status := ReadStatus(r);
    }

    /** Receive, if there is data; not done if readings run out. */
    method GetIfTold(get: bool, first: Status, c: Byte, readings: seq<Reading>, before: nat, ghost last: Reading,
                     ghost minimum: nat, ghost rx0: seq<Byte>, ghost canTx0: bool, ghost so: seq<Arrival>,
                     ghost k: Kept)
        returns (status: Status, left: seq<Reading>, received: nat, done: bool, ghost at: Reading,
                 ghost got: seq<Arrival>)
      requires Keeps(k) && (k.held ==> port.flow != XonXoff) && Took(rx0, canTx0, so)
      requires last.status.empty == first.empty
      requires !get ==> !last.status.data && (first.empty ==> fifo == [])
      modifies `fifo, `wire, `lineErrors, `canTx, `rx
      ensures Keeps(k) && Took(rx0, canTx0, got) && |fifo| <= old(|fifo|) && |left| <= |readings|
      ensures get && done ==> |left| < |readings|
      ensures done ==> !at.status.data && at.status.empty == status.empty && (status.empty ==> fifo == [])
      ensures Before(so, old(Ahead(get, first, c, last, readings, before, minimum))) ==
              if done then Before(got, From(lineErrors, at, left, received, minimum))
              else Course(got, None, lineErrors)
    {
      status, left, received, done, at, got := first, readings, before, true, last, so;
      if get {
        var n: nat;
        ghost var more;
        status, n, left, done, at, more := GetKeeping(first, c, readings, before, minimum, rx0, canTx0, so, k);
        received := before + n;
        got := so + more;
      }
    }

    method GetKeeping(first: Status, byte: Byte, readings: seq<Reading>, ghost before: nat, ghost minimum: nat,
                      ghost rx0: seq<Byte>, ghost canTx0: bool, ghost got: seq<Arrival>, ghost k: Kept)
        returns (status: Status, received: nat, left: seq<Reading>, done: bool, ghost at: Reading,
                 ghost more: seq<Arrival>)
      requires Keeps(k) && (k.held ==> port.flow != XonXoff) && Took(rx0, canTx0, got)
      modifies `fifo, `wire, `lineErrors, `canTx, `rx
      ensures Keeps(k) && |fifo| <= old(|fifo|) && |left| <= |readings|
      ensures done ==> |left| < |readings| && (status.empty ==> fifo == [])
      ensures done ==> !at.status.data && at.status.empty == status.empty
      ensures Took(rx0, canTx0, got + more)
      ensures Before(got, Before([Arrival(first.errors, byte)], AfterGet(readings, before, minimum))) ==
              if done then Before(got + more, From(lineErrors, at, left, before + received, minimum))
              else Course(got + more, None, lineErrors)
    {
      status, received, left, done, at, more := GetAll(first, byte, readings, before, minimum);
      port.RxInParts(rx0, got, more);
      port.CanTxInParts(canTx0, got, more);
      if done {
        BeforeInParts(got, more, From(lineErrors, at, left, before + received, minimum));
      } else {
        RunsOut(got, more, lineErrors);
      }
    }

    method PutKeeping(status: Status, sent: nat, ghost k: Kept)
        returns (now: nat)
      requires Keeps(k)
      requires |fifo| <= sent <= FIFO_SIZE && (status.empty ==> fifo == [])
      modifies `tx, `stop, `realtime, `fifo, `log
      ensures Keeps(k)
      ensures |fifo| <= now <= FIFO_SIZE && (status.empty ==> NothingWaits())
    {
      now := Put(status, sent);
    }

    /** The writer puts characters behind the stop, where they do not go out yet. */
    method Store(i: nat, c: Byte)
      requires Valid() && stop <= i < |tx|
      modifies `tx
      ensures Valid() && tx == old(tx)[i := c] && Committed() == old(Committed())
    {
      assert tx[i := c][..stop] == tx[..stop];
      tx := tx[i := c];
    }

    /** Everything up to the writer's position is meant to be sent. */
    method UpdateTxStop(pos: nat)
      requires Valid() && stop <= pos <= |tx|
      modifies `stop, `txInterrupt
      ensures Valid() && stop == pos && TxInterruptFits()
      ensures Committed() == old(Committed()) + tx[old(stop)..pos]
    {
      assert tx[..pos] == tx[..stop] + tx[stop..pos];
      Associate(Of(false, log), tx[..stop], tx[stop..pos]);
      stop := pos;
      SetTx();
    }

    /** Queue a realtime byte, once there is room for it. */
    method QueueRealtime(c: Byte, pos: nat)
      requires Valid() && |realtime| < realtimeCapacity && stop <= pos <= |tx|
      modifies `realtime, `stop, `txInterrupt
      ensures Valid() && TxInterruptFits() && Queued() == old(Queued()) + [c]
      ensures Committed() == old(Committed()) + tx[old(stop)..pos]
    {
      Associate(Of(true, log), realtime, [c]);
      realtime := realtime + [c];
      UpdateTxStop(pos);
    }
  }
}
