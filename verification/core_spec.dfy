/**
 * The connection core as functions on values: one function per routine of
 * the reactor, from a snapshot of one connection, the two pools, the
 * collaborators' remaining replies and the effect log, to the snapshot
 * after the routine. The class methods in module Core are proved equal to
 * these functions; module CoreProps proves what the reactor promises about them.
 */
module CoreSpec {
  import opened Buffers
  import opened Collaborators

  /** A buffered socket with its channel: descriptor, level, state, buffers, attached request. */
  datatype Sock = Sock(
    sd: int,
    level: Level,
    state: ConnState,
    rbuf: Buffer,
    wbuf: Buffer,
    data: Option<Request>,
    owner: bool,    // owner set to the reactor context
    hdl: bool)      // handler table bound

  /**
   * One connection in its surroundings: the free slots of the wrapper pool
   * and of the request pool, the collaborators' remaining replies, and the
   * log of effects so far.
   */
  datatype Step = Step(sock: Sock, sockFree: nat, reqFree: nat, oracle: Oracle, trace: seq<Effect>)

  datatype Io = Io(step: Step, status: Status)

  /** Why the post-read request loop stopped. */
  datatype Stop = Drained | Incomplete | BadRequest | OutputFull | PeerQuit | ProcessFailed

  datatype Round = Round(step: Step, stop: Stop)

  /** The listener's work: the step, and the wrapper handed to the reactor, if any. */
  datatype Admission = Admission(step: Step, admitted: Option<Sock>)

  /** The bits of an event mask: EVENT_ERR, EVENT_READ, EVENT_WRITE. */
  datatype Events = Events(err: bool, read: bool, write: bool)

  datatype Outcome = Outcome(step: Step, admitted: Option<Sock>, closed: bool)

  /** Wait timeout of the reactor, in milliseconds. */
  const ReactorTimeout: int := 100

  /** Number of events the readiness backend reports per wait. */
  const EventCapacity: nat := 1024

  /** Number of request objects a socket holds (0 or 1). */
  function Held(s: Sock): nat { if s.data.Some? then 1 else 0 }

  /** The dispatch's closing condition. */
  predicate ShouldClose(s: Sock) { s.state == Closing || (s.state == Eof && RSize(s.wbuf) == 0) }

  predicate Retryable(st: Status) { st == Retry || st == Again }

  /** _close: deregister, terminate, return the request and the wrapper to their pools. */
  function Close(t: Step): (r: Step)
    ensures r.sockFree == t.sockFree + 1
    ensures r.sock.data.None? && r.reqFree + Held(r.sock) == t.reqFree + Held(t.sock)
    ensures r.sock == t.sock.(data := None) && r.oracle == t.oracle
    ensures r.trace == t.trace + [Deregister(t.sock.sd), Terminate(t.sock.sd)]
  {
    Step(t.sock.(data := None), t.sockFree + 1, t.reqFree + Held(t.sock), t.oracle,
         t.trace + [Deregister(t.sock.sd), Terminate(t.sock.sd)])
  }

  /** _write: a send drains bytes from the write buffer. */
  function Write(t: Step): Io
  {
    var reply := t.oracle.Send();
    Io(t.(sock := t.sock.(wbuf := Consume(t.sock.wbuf, reply.bytes)), oracle := t.oracle.AfterSend()),
       reply.status)
  }

  /** _post_write: compact both buffers. */
  function PostWrite(s: Sock): Sock
  {
    s.(rbuf := LShift(s.rbuf), wbuf := LShift(s.wbuf))
  }

  /** _event_write */
  function EventWrite(t: Step): Step
  {
    var w := Write(t);
    var u := w.step;
    var marked := if w.status == Error then u.sock.(state := Closing) else u.sock;
    var trace := if Retryable(w.status) then u.trace + [RegisterWrite(u.sock.sd)] else u.trace;
    u.(sock := PostWrite(marked), trace := trace)
  }

  /** _read: a receive fills the read buffer; a full buffer is reported as a retry. */
  function Read(t: Step): (r: Io)
    ensures r.status != NoMem
    ensures r.status == Retry <==> t.oracle.Recv().status in {NoMem, Retry}
    ensures r.status != Retry ==> r.status == t.oracle.Recv().status
  {
    var reply := t.oracle.Recv();
    var state := if reply.peerClosed then Eof else t.sock.state;
    Io(t.(sock := t.sock.(rbuf := Append(t.sock.rbuf, reply.bytes), state := state),
          oracle := t.oracle.AfterRecv()),
       if reply.status == NoMem then Retry else reply.status)
  }

  /** compose_rsp_msg: a failure to fit the response is only logged. */
  function ComposeRsp(t: Step, kind: RspKind): Step
  {
    var reply := t.oracle.Compose();
    var wbuf := if reply.status == Ok then Append(t.sock.wbuf, reply.bytes) else t.sock.wbuf;
    t.(sock := t.sock.(wbuf := wbuf), oracle := t.oracle.AfterCompose(),
       trace := t.trace + [Composed(kind, reply.status)])
  }

  /** Reuse the attached request, or borrow one from the pool and attach it. */
  function Acquire(t: Step): (r: Step)
    ensures r.reqFree + Held(r.sock) == t.reqFree + Held(t.sock)
    ensures r.sock.data.Some? <==> t.sock.data.Some? || t.reqFree > 0
    ensures t.sock.data.Some? ==> r == t
    ensures r.oracle == t.oracle && r.trace == t.trace && r.sock.rbuf == t.sock.rbuf
  {
    if t.sock.data.Some? then t
    else if t.reqFree > 0 then t.(sock := t.sock.(data := Some(Request(false))), reqFree := t.reqFree - 1)
    else t
  }

  /** parse_swallow: discard the rest of a message being drained. */
  function Drain(t: Step): Io
  {
    var reply := t.oracle.Drain();
    Io(t.(sock := t.sock.(rbuf := Consume(t.sock.rbuf, reply.bytes)), oracle := t.oracle.AfterDrain()),
       reply.status)
  }

  /** parse_req: consume bytes of the read buffer; the parser may set the drain flag. */
  function Parse(t: Step): Io
    requires t.sock.data.Some?
  {
    var p := t.oracle.Parse();
    Io(t.(sock := t.sock.(rbuf := Consume(t.sock.rbuf, p.bytes),
                          data := Some(t.sock.data.value.(swallow := p.swallow))),
          oracle := t.oracle.AfterParse()),
       p.status)
  }

  /** process_request: the response goes into the write buffer. */
  function Process(t: Step): Io
  {
    var q := t.oracle.Process();
    Io(t.(sock := t.sock.(wbuf := Append(t.sock.wbuf, q.bytes)), oracle := t.oracle.AfterProcess()),
       q.status)
  }

  /** request_reset on the attached request, once a message is done with. */
  function ResetRequest(t: Step): Step
    requires t.sock.data.Some?
  {
    t.(sock := t.sock.(data := Some(Reset(t.sock.data.value))))
  }

  /** The parse, process, reset loop of _post_read, up to its `done` label. */
  function ParseLoop(t: Step): Round
    requires t.sock.data.Some?
    decreases |t.oracle.parse|
  {
    if RSize(t.sock.rbuf) == 0 then Round(t, Drained)
    else
      var p := Parse(t);
      if p.status == Unfin then Round(p.step, Incomplete)
      else if p.status != Ok then Round(ComposeRsp(p.step, ClientError), BadRequest)
      else
        var q := Process(p.step);
        var u := q.step;
        if q.status == NoMem then Round(u, OutputFull)
        else if q.status == RdHup then Round(u.(sock := u.sock.(state := Closing)), PeerQuit)
        else if q.status != Ok then Round(ComposeRsp(u, ServerError), ProcessFailed)
        else ParseLoop(ResetRequest(u))
  }

  /** _post_read up to its `done` label: acquire a request, drain, run the loop. */
  function Serve(t: Step): Step
  {
    var a := Acquire(t);
    if a.sock.data.None? then ComposeRsp(a, ServerError)
    else if a.sock.data.value.swallow then
      var d := Drain(a);
      var u := d.step;
      if d.status == Ok then ParseLoop(ResetRequest(u)).step
      else u
    else ParseLoop(a).step
  }

  /** The `done` label of _post_read: write eagerly when a response is pending. */
  function Done(t: Step): Step
  {
    if RSize(t.sock.wbuf) > 0 then EventWrite(t) else t
  }

  /** _post_read */
  function PostRead(t: Step): Step
  {
    Done(Serve(t))
  }

  /** The status check of _event_read on a data channel: only an error marks the channel closing. */
  function MarkRead(io: Io): Step
  {
    if io.status == Error then io.step.(sock := io.step.sock.(state := Closing)) else io.step
  }

  /** _event_read on a data channel. */
  function EventReadData(t: Step): Step
  {
    PostRead(MarkRead(Read(t)))
  }

  /** A wrapper as accept leaves it: a data channel on descriptor `sd`, empty buffers, no request. */
  function Accepted(sd: int, cap: nat): Sock
  {
    Sock(sd, Base, Open, Empty(cap), Empty(cap), None, true, true)
  }

  /** _tcpserver: admission control on the listening channel. */
  function TcpServer(t: Step, cap: nat): Admission
  {
    if t.sockFree == 0 then Admission(t.(trace := t.trace + [Reject(t.sock.sd)]), None)
    else
      var borrowed := t.(sockFree := t.sockFree - 1, oracle := t.oracle.AfterAccept());
      match t.oracle.Accept()
      case None => Admission(borrowed, None)
      case Some(sd) => Admission(borrowed.(trace := borrowed.trace + [RegisterRead(sd)]), Some(Accepted(sd, cap)))
  }

  /** _event_read */
  function EventRead(t: Step, cap: nat): Admission
  {
    match t.sock.level
    case Meta => TcpServer(t, cap)
    case Base => Admission(EventReadData(t), None)
  }

  /** core_event: the dispatch of one event on one wrapper. */
  function CoreEvent(t: Step, ev: Events, cap: nat): Outcome
  {
    if ev.err then Outcome(Close(t), None, true)
    else
      var a := if ev.read then EventRead(t, cap) else Admission(t, None);
      var w := if ev.write then EventWrite(a.step) else a.step;
      if ShouldClose(w.sock) then Outcome(Close(w), a.admitted, true)
      else Outcome(w, a.admitted, false)
  }

  /** core_evwait: a negative wait result is passed on, anything else is CC_OK (0). */
  function EvWait(n: int): (r: int)
    ensures r <= 0
    ensures r < 0 <==> n < 0
    ensures r < 0 ==> r == n
  {
    if n < 0 then n else 0
  }
}
