/**
 * The reactor core as the source runs it: a buffered socket whose fields the
 * routines update in place, and the reactor context holding the two pools
 * and the log of effects. Every per-connection routine except Close is
 * proved to leave exactly the state that the matching function of CoreSpec
 * computes from the state before it; Close, Setup, Teardown and the
 * constructors state their new fields directly.
 */
module Core {
  import opened Buffers
  import opened Collaborators
  import opened CoreSpec

  /** A buf_sock together with the conn it wraps. */
  class BufSock {
    var sd: int
    var level: Level
    var state: ConnState
    var rbuf: Buffer
    var wbuf: Buffer
    var data: Option<Request>
    var owner: bool
    var hdl: bool

    function View(): Sock
      reads this
    {
      Sock(sd, level, state, rbuf, wbuf, data, owner, hdl)
    }

    /** A wrapper as buf_sock_borrow hands it out: no descriptor yet, empty buffers, no request. */
    constructor (cap: nat)
      ensures View() == Sock(-1, Base, Open, Empty(cap), Empty(cap), None, false, false)
    {
      sd, level, state := -1, Base, Open;
      rbuf, wbuf := Empty(cap), Empty(cap);
      data, owner, hdl := None, false, false;
    }
  }

  /** The reactor context, the wrapper and request pools, and the effect log. */
  class Context {
    var evb: bool               // the readiness backend exists
    var nevent: nat             // number of events the backend reports per wait
    var timeout: int
    var server: BufSock?        // the listening wrapper
    var sockFree: nat           // free slots of the buf_sock pool
    var reqFree: nat            // free slots of the request pool
    const bufCap: nat           // capacity of each buffer of a pooled wrapper
    ghost var trace: seq<Effect>

    constructor (sockPool: nat, reqPool: nat, cap: nat)
      ensures !evb && nevent == 0 && server == null && trace == []
      ensures sockFree == sockPool && reqFree == reqPool && bufCap == cap
    {
      evb, nevent, timeout, server := false, 0, 0, null;
      sockFree, reqFree, bufCap := sockPool, reqPool, cap;
      trace := [];
    }

    /** The connection `s` in this context, with the collaborators' replies `o` still to come. */
    ghost function StepOf(s: BufSock, o: Oracle): Step
      reads this, s
    {
      Step(s.View(), sockFree, reqFree, o, trace)
    }

    /** _close */
    method Close(s: BufSock)
      modifies this`sockFree, this`reqFree, this`trace, s`data
      ensures s.View() == old(s.View()).(data := None)
      ensures sockFree == old(sockFree) + 1
      ensures reqFree == old(reqFree) + old(Held(s.View()))
      ensures trace == old(trace) + [Deregister(s.sd), Terminate(s.sd)]
    {
      trace := trace + [Deregister(s.sd), Terminate(s.sd)];
      if s.data.Some? {
        reqFree := reqFree + 1;
        s.data := None;
      }
      sockFree := sockFree + 1;
    }

    /** _write */
    method Write(s: BufSock, o: Oracle) returns (status: Status, o': Oracle)
      modifies s`wbuf
      ensures var w := CoreSpec.Write(old(StepOf(s, o))); StepOf(s, o') == w.step && status == w.status
    {
      var reply := o.Send();
      s.wbuf := Consume(s.wbuf, reply.bytes);
      status, o' := reply.status, o.AfterSend();
    }

    /** _post_write */
    method PostWrite(s: BufSock)
      modifies s`rbuf, s`wbuf
      ensures s.View() == CoreSpec.PostWrite(old(s.View()))
    {
      s.rbuf := LShift(s.rbuf);
      s.wbuf := LShift(s.wbuf);
    }

    /** _event_write */
    method EventWrite(s: BufSock, o: Oracle) returns (o': Oracle)
      modifies this`trace, s`state, s`rbuf, s`wbuf
      ensures StepOf(s, o') == CoreSpec.EventWrite(old(StepOf(s, o)))
    {
      var status;
      status, o' := Write(s, o);
      if status == Retry || status == Again {
        trace := trace + [RegisterWrite(s.sd)];
      } else if status == Error {
        s.state := Closing;
      }
      PostWrite(s);
    }

    /** _read */
    method Read(s: BufSock, o: Oracle) returns (status: Status, o': Oracle)
      modifies s`rbuf, s`state
      ensures var r := CoreSpec.Read(old(StepOf(s, o))); StepOf(s, o') == r.step && status == r.status
    {
      var reply := o.Recv();
      s.rbuf := Append(s.rbuf, reply.bytes);
      if reply.peerClosed {
        s.state := Eof;
      }
      status, o' := reply.status, o.AfterRecv();
      if status == NoMem {
        status := Retry;
      }
    }

    /** compose_rsp_msg, whose failure is only logged */
    method ComposeRsp(s: BufSock, kind: RspKind, o: Oracle) returns (o': Oracle)
      modifies this`trace, s`wbuf
      ensures StepOf(s, o') == CoreSpec.ComposeRsp(old(StepOf(s, o)), kind)
    {
      var reply := o.Compose();
      if reply.status == Ok {
        s.wbuf := Append(s.wbuf, reply.bytes);
      }
      trace := trace + [Composed(kind, reply.status)];
      o' := o.AfterCompose();
    }

    /** The `while (buf_rsize(s->rbuf) > 0)` loop of _post_read, up to its `done` label. */
    method RequestLoop(s: BufSock, o: Oracle) returns (o': Oracle)
      requires s.data.Some?
      modifies this`trace, s`data, s`rbuf, s`wbuf, s`state
      ensures StepOf(s, o') == ParseLoop(old(StepOf(s, o))).step
    {
      o' := o;
      while RSize(s.rbuf) > 0
        invariant s.data.Some?
        invariant ParseLoop(StepOf(s, o')).step == ParseLoop(old(StepOf(s, o))).step
        decreases |o'.parse|
      {
        ghost var before := StepOf(s, o');
        var p := o'.Parse();
        s.rbuf := Consume(s.rbuf, p.bytes);
        s.data := Some(s.data.value.(swallow := p.swallow));
        o' := o'.AfterParse();
        assert StepOf(s, o') == Parse(before).step;
        if p.status == Unfin {
          break;
        }
        if p.status != Ok {
          o' := ComposeRsp(s, ClientError, o');
          break;
        }
        ghost var parsed := StepOf(s, o');
        var q := o'.Process();
        s.wbuf := Append(s.wbuf, q.bytes);
        o' := o'.AfterProcess();
        assert StepOf(s, o') == Process(parsed).step;
        if q.status == NoMem {
          break;
        }
        if q.status == RdHup {
          s.state := Closing;
          break;
        }
        if q.status != Ok {
          o' := ComposeRsp(s, ServerError, o');
          break;
        }
        s.data := Some(Reset(s.data.value));
      }
    }

    /** _post_read */
    method PostRead(s: BufSock, o: Oracle) returns (o': Oracle)
      modifies this`reqFree, this`trace, s`data, s`rbuf, s`wbuf, s`state
      ensures StepOf(s, o') == CoreSpec.PostRead(old(StepOf(s, o)))
    {
      ghost var t0 := StepOf(s, o);
      o' := o;
      label done: {
        if s.data.None? {
          if reqFree > 0 {
            reqFree := reqFree - 1;
            s.data := Some(Request(false));
          }
        }
        assert StepOf(s, o') == Acquire(t0);
        if s.data.None? {
          o' := ComposeRsp(s, ServerError, o');
          break done;
        }
        if s.data.value.swallow {
          var d := o'.Drain();
          s.rbuf := Consume(s.rbuf, d.bytes);
          o' := o'.AfterDrain();
          if d.status == Ok {
            s.data := Some(Reset(s.data.value));
          } else {
            break done;
          }
        }
        o' := RequestLoop(s, o');
      }
      assert StepOf(s, o') == Serve(t0);
      if RSize(s.wbuf) > 0 {
        o' := EventWrite(s, o');
      }
    }

    /** _tcpserver: admit a connection on the listening wrapper `ss`, or reject it. */
    method TcpServer(ss: BufSock, o: Oracle) returns (o': Oracle, s: BufSock?)
      modifies this`sockFree, this`trace
      ensures var a := CoreSpec.TcpServer(old(StepOf(ss, o)), bufCap);
        && StepOf(ss, o') == a.step
        && (s == null <==> a.admitted.None?)
        && (s != null ==> fresh(s) && s.View() == a.admitted.value)
    {
      o', s := o, null;
      if sockFree == 0 {
        trace := trace + [Reject(ss.sd)];
        return;
      }
      sockFree := sockFree - 1;
      var ns := new BufSock(bufCap);
      var accepted := o.Accept();
      o' := o.AfterAccept();
      if accepted.None? {
        return;
      }
      ns.sd, ns.level, ns.state := accepted.value, Base, Open;
      ns.owner, ns.hdl := true, true;
      trace := trace + [RegisterRead(ns.sd)];
      s := ns;
    }

    /** _event_read */
    method EventRead(s: BufSock, o: Oracle) returns (o': Oracle, admitted: BufSock?)
      modifies this`sockFree, this`reqFree, this`trace, s`data, s`rbuf, s`wbuf, s`state
      ensures var a := CoreSpec.EventRead(old(StepOf(s, o)), bufCap);
        && StepOf(s, o') == a.step
        && (admitted == null <==> a.admitted.None?)
        && (admitted != null ==> fresh(admitted) && admitted.View() == a.admitted.value)
    {
      if s.level == Meta {
        o', admitted := TcpServer(s, o);
      } else {
        var status;
        status, o' := Read(s, o);
        if status == Error {
          s.state := Closing;
        }
        o' := PostRead(s, o');
        admitted := null;
      }
    }

    /** core_event: dispatch one event mask on the wrapper `s`. */
    method CoreEvent(s: BufSock, ev: Events, o: Oracle) returns (o': Oracle, closed: bool, admitted: BufSock?)
      modifies this`sockFree, this`reqFree, this`trace, s`data, s`rbuf, s`wbuf, s`state
      ensures var r := CoreSpec.CoreEvent(old(StepOf(s, o)), ev, bufCap);
        && StepOf(s, o') == r.step
        && closed == r.closed
        && (admitted == null <==> r.admitted.None?)
        && (admitted != null ==> fresh(admitted) && admitted.View() == r.admitted.value)
    {
      o', closed, admitted := o, false, null;
      if ev.err {
        Close(s);
        closed := true;
        return;
      }
      if ev.read {
        o', admitted := EventRead(s, o');
      }
      if ev.write {
        o' := EventWrite(s, o');
      }
      if s.state == Closing || (s.state == Eof && RSize(s.wbuf) == 0) {
        Close(s);
        closed := true;
      }
    }

    /**
     * core_setup, given whether the backend could be created and the
     * descriptor the listening channel opened on (None when it failed).
     */
    method Setup(backendOk: bool, listened: Option<int>) returns (status: Status)
      modifies this`evb, this`nevent, this`timeout, this`server, this`sockFree, this`trace
      ensures timeout == ReactorTimeout && evb == backendOk
      ensures nevent == (if backendOk then EventCapacity else old(nevent))
      ensures status == (if backendOk && old(sockFree) > 0 && listened.Some? then Ok else Error)
      ensures !backendOk ==> sockFree == old(sockFree) && server == old(server)
      ensures backendOk && old(sockFree) == 0 ==> sockFree == 0 && server == null
      ensures backendOk && old(sockFree) > 0 ==> sockFree == old(sockFree) - 1 && server != null && fresh(server)
      ensures status == Ok ==> server.View() == Sock(listened.value, Meta, Open, Empty(bufCap), Empty(bufCap), None, false, true)
      ensures trace == old(trace) + (if status == Ok then [RegisterRead(listened.value)] else [])
    {
      timeout := ReactorTimeout;
      evb := backendOk;
      if !backendOk {
        return Error;
      }
      nevent := EventCapacity;
      if sockFree == 0 {
        server := null;
        return Error;
      }
      sockFree := sockFree - 1;
      var ss := new BufSock(bufCap);
      server := ss;
      ss.hdl := true;
      if listened.None? {
        return Error;
      }
      ss.sd := listened.value;
      ss.level := Meta;
      trace := trace + [RegisterRead(ss.sd)];
      status := Ok;
    }

    /** core_teardown: the listening wrapper goes back to its pool and the backend is destroyed. */
    method Teardown()
      modifies this`evb, this`server, this`sockFree
      ensures !evb && server == null
      ensures sockFree == old(sockFree) + (if old(server) != null then 1 else 0)
    {
      if server != null {
        sockFree := sockFree + 1;
        server := null;
      }
      evb := false;
    }
  }
}
