/**
 * What the reactor core promises, proved about the functions of CoreSpec
 * (and so, through the methods' postconditions, about the class methods of Core).
 */
module CoreProps {
  import opened Buffers
  import opened Collaborators
  import opened CoreSpec

  /** The fields of a connection that no routine but accept and setup changes. */
  predicate SameChannel(a: Sock, b: Sock)
  {
    a.sd == b.sd && a.level == b.level && a.owner == b.owner && a.hdl == b.hdl
  }

  // ---------------------------------------------------------------------
  // Close and dispatch
  // ---------------------------------------------------------------------

  /**
   * An event with the error bit closes the connection and does nothing else:
   * no receive, send, parse or accept happens, the wrapper and its request
   * go back to their pools, and the channel is deregistered and terminated.
   */
  lemma ErrorEventOnlyCloses(t: Step, ev: Events, cap: nat)
    requires ev.err
    ensures var r := CoreEvent(t, ev, cap);
      && r.closed && r.admitted.None?
      && r.step.oracle == t.oracle
      && r.step.trace == t.trace + [Deregister(t.sock.sd), Terminate(t.sock.sd)]
      && r.step.sockFree == t.sockFree + 1
      && r.step.reqFree == t.reqFree + Held(t.sock)
      && r.step.sock.data.None?
  {
  }

  /**
   * Without the error bit, the connection is closed exactly when the state
   * left after read and write handling is closing, or end of file with
   * nothing left to send.
   */
  lemma ClosesExactlyWhenFinished(t: Step, ev: Events, cap: nat)
    requires !ev.err
    ensures var r := CoreEvent(t, ev, cap);
      r.closed <==> r.step.sock.state == Closing || (r.step.sock.state == Eof && RSize(r.step.sock.wbuf) == 0)
  {
  }

  /**
   * With both bits set on a data channel, read handling runs before write
   * handling: everything the read logged comes first, and the write event
   * sends once more after the read's own sends.
   */
  lemma DispatchOrder(t: Step, ev: Events, cap: nat)
    requires !ev.err && ev.read && ev.write && t.sock.level == Base
    ensures var a := EventRead(t, cap).step; var r := CoreEvent(t, ev, cap);
      && a.trace <= r.step.trace
      && r.step.oracle.send == Rest(a.oracle.send)
  {
    var a := EventRead(t, cap).step;
    var w := EventWrite(a);
    assert a.trace <= w.trace;
    assert w.oracle.send == Rest(a.oracle.send);
    assert a.trace <= Close(w).trace;
  }

  /** A connection that survives an event is open, or at end of file with bytes still to send. */
  lemma SurvivorHasWork(t: Step, ev: Events, cap: nat)
    ensures var r := CoreEvent(t, ev, cap);
      !r.closed ==> r.step.sock.state == Open || (r.step.sock.state == Eof && RSize(r.step.sock.wbuf) > 0)
  {
  }

  // ---------------------------------------------------------------------
  // Write path
  // ---------------------------------------------------------------------

  /** A send that would block or asks to be retried registers write interest, and nothing else does. */
  lemma WriteRetryRegistersInterest(t: Step)
    ensures var st := t.oracle.Send().status;
      EventWrite(t).trace == t.trace + (if st == Retry || st == Again then [RegisterWrite(t.sock.sd)] else [])
  {
  }

  /** A hard send error marks the channel closing; any other result leaves the state alone. */
  lemma WriteErrorMarksClosing(t: Step)
    ensures EventWrite(t).sock.state == (if t.oracle.Send().status == Error then Closing else t.sock.state)
  {
  }

  /**
   * Whatever the send returned, both buffers are compacted afterwards; the
   * read buffer loses no byte and the write buffer only what was sent.
   */
  lemma WriteAlwaysCompacts(t: Step)
    ensures var r := EventWrite(t).sock; var sent := Min(t.oracle.Send().bytes, RSize(t.sock.wbuf));
      && r.rbuf == LShift(t.sock.rbuf) && r.wbuf == LShift(Consume(t.sock.wbuf, sent))
      && r.rbuf.rpos == 0 && r.wbuf.rpos == 0
      && RSize(r.rbuf) == RSize(t.sock.rbuf) && RSize(r.wbuf) == RSize(t.sock.wbuf) - sent
  {
  }

  /** The write path touches neither the pools nor the attached request. */
  lemma WriteFrame(t: Step)
    ensures var r := EventWrite(t);
      && r.sockFree == t.sockFree && r.reqFree == t.reqFree
      && r.sock.data == t.sock.data && SameChannel(r.sock, t.sock)
      && r.oracle.parse == t.oracle.parse && r.oracle.drain == t.oracle.drain
  {
  }

  /**
   * Post-read ends with a send exactly when a response is pending: with an
   * empty write buffer nothing more happens; otherwise one send reply is
   * used, its bytes leave the write buffer and both buffers are compacted.
   */
  lemma PostReadEagerWrite(t: Step)
    ensures var u := Serve(t); var r := PostRead(t);
      && (RSize(u.sock.wbuf) == 0 ==> r == u)
      && (RSize(u.sock.wbuf) > 0 ==>
            && r.sock.rbuf == LShift(u.sock.rbuf)
            && r.sock.wbuf == LShift(Consume(u.sock.wbuf, u.oracle.Send().bytes))
            && r.oracle.send == Rest(u.oracle.send))
  {
  }

  // ---------------------------------------------------------------------
  // Read path
  // ---------------------------------------------------------------------

  /**
   * After a receive on a data channel the state is closing exactly when the
   * receive failed hard, or when it already was and the peer did not hang up;
   * a full read buffer therefore never closes the connection.
   */
  lemma ReadOnlyErrorCloses(t: Step)
    ensures var reply := t.oracle.Recv(); var r := MarkRead(Read(t));
      && (r.sock.state == Closing <==> reply.status == Error || (t.sock.state == Closing && !reply.peerClosed))
      && (reply.status == NoMem ==> Read(t).status == Retry && (r.sock.state == Closing <==> t.sock.state == Closing && !reply.peerClosed))
  {
  }

  /**
   * Post-read processing runs whatever the receive returned: even after a
   * hard error, bytes already buffered are handed to the parser.
   */
  lemma PostReadRunsAfterError(t: Step)
    requires t.sock.level == Base && t.oracle.Recv().status == Error
    requires (t.sock.data.Some? && !t.sock.data.value.swallow) || (t.sock.data.None? && t.reqFree > 0)
    requires RSize(MarkRead(Read(t)).sock.rbuf) > 0 && |t.oracle.parse| > 0
    ensures var r := EventRead(t, 0).step;
      r.sock.state == Closing && |r.oracle.parse| < |t.oracle.parse|
  {
    var m := MarkRead(Read(t));
    var a := Acquire(m);
    assert a.oracle.parse == t.oracle.parse && a.sock.data.Some? && !a.sock.data.value.swallow;
    assert Serve(m) == ParseLoop(a).step;
    LoopConsumesParse(a);
    LoopClosing(a);
    var l := ParseLoop(a).step;
    WriteFrame(l);
    WriteErrorMarksClosing(l);
  }

  /**
   * Post-read also runs after a hard receive error when the attached request
   * is in drain mode: the drain collaborator is called on the buffered bytes.
   */
  lemma PostReadDrainsAfterError(t: Step)
    requires t.sock.level == Base && t.oracle.Recv().status == Error
    requires t.sock.data.Some? && t.sock.data.value.swallow && |t.oracle.drain| > 0
    ensures var r := EventRead(t, 0).step;
      r.sock.state == Closing && |r.oracle.drain| < |t.oracle.drain|
  {
    var m := MarkRead(Read(t));
    assert Acquire(m) == m;
    var d := Drain(m);
    if d.status == Ok {
      var u := ResetRequest(d.step);
      LoopClosing(u);
      LoopFrame(u);
      var l := ParseLoop(u).step;
      WriteFrame(l);
      WriteErrorMarksClosing(l);
    } else {
      WriteFrame(d.step);
      WriteErrorMarksClosing(d.step);
    }
  }

  /**
   * Post-read also runs after a hard receive error when no request can be
   * had: the first thing logged after the receive is a server-error response.
   */
  lemma PostReadRespondsAfterError(t: Step)
    requires t.sock.level == Base && t.oracle.Recv().status == Error
    requires t.sock.data.None? && t.reqFree == 0
    ensures var r := EventRead(t, 0).step; var n := |t.trace|;
      && r.sock.state == Closing
      && |r.trace| > n && r.trace[n].Composed? && r.trace[n].kind == ServerError
  {
    var m := MarkRead(Read(t));
    assert m.trace == t.trace;
    NoRequestServerError(m);
    var r := PostRead(m);
    var n := |t.trace|;
    assert r.trace[..n + 1][n] == r.trace[n];
    var c := ComposeRsp(m, ServerError);
    assert Serve(m) == c;
    WriteErrorMarksClosing(c);
  }

  // ---------------------------------------------------------------------
  // The request loop
  // ---------------------------------------------------------------------

  /** The loop leaves the pools, the channel and the other collaborators alone, and never detaches the request. */
  lemma {:induction false} LoopFrame(t: Step)
    requires t.sock.data.Some?
    ensures var r := ParseLoop(t).step;
      && r.sockFree == t.sockFree && r.reqFree == t.reqFree
      && r.sock.data.Some? && SameChannel(r.sock, t.sock)
      && r.oracle.recv == t.oracle.recv && r.oracle.send == t.oracle.send
      && r.oracle.accept == t.oracle.accept && r.oracle.drain == t.oracle.drain
    decreases |t.oracle.parse|
  {
    if RSize(t.sock.rbuf) > 0 {
      var p := Parse(t);
      if p.status == Ok {
        var q := Process(p.step);
        if q.status == Ok {
          LoopFrame(ResetRequest(q.step));
        }
      }
    }
  }

  /**
   * The loop composes at most one response, as its last act: a client error
   * exactly when it stopped on a parse failure, a server error exactly when
   * it stopped on a processing failure, and nothing otherwise.
   */
  lemma {:induction false} LoopResponds(t: Step)
    requires t.sock.data.Some?
    ensures var l := ParseLoop(t); var n := |t.trace|;
      && |l.step.trace| == n + (if l.stop == BadRequest || l.stop == ProcessFailed then 1 else 0)
      && l.step.trace[..n] == t.trace
      && (l.stop == BadRequest ==> l.step.trace[n].Composed? && l.step.trace[n].kind == ClientError)
      && (l.stop == ProcessFailed ==> l.step.trace[n].Composed? && l.step.trace[n].kind == ServerError)
    decreases |t.oracle.parse|
  {
    if RSize(t.sock.rbuf) > 0 {
      var p := Parse(t);
      if p.status == Ok {
        var q := Process(p.step);
        if q.status == Ok {
          LoopResponds(ResetRequest(q.step));
        }
      }
    }
  }

  /** The loop marks the channel closing only when the peer asked to quit, and changes the state in no other way. */
  lemma {:induction false} LoopClosing(t: Step)
    requires t.sock.data.Some?
    ensures var l := ParseLoop(t);
      l.step.sock.state == (if l.stop == PeerQuit then Closing else t.sock.state)
    decreases |t.oracle.parse|
  {
    if RSize(t.sock.rbuf) > 0 {
      var p := Parse(t);
      if p.status == Ok {
        var q := Process(p.step);
        if q.status == Ok {
          LoopClosing(ResetRequest(q.step));
        }
      }
    }
  }

  /** The loop runs only while the read buffer has unread bytes: with none it changes nothing. */
  lemma LoopNeedsInput(t: Step)
    requires t.sock.data.Some? && RSize(t.sock.rbuf) == 0
    ensures ParseLoop(t) == Round(t, Drained)
  {
  }

  /**
   * When the loop stops for lack of input the read buffer is empty, and
   * either nothing happened or the last message was served and the request
   * is reset, ready for the next one.
   */
  lemma {:induction false} LoopDrained(t: Step)
    requires t.sock.data.Some?
    ensures var l := ParseLoop(t);
      l.stop == Drained ==> RSize(l.step.sock.rbuf) == 0 && (l.step == t || l.step.sock.data == Some(Request(false)))
    decreases |t.oracle.parse|
  {
    if RSize(t.sock.rbuf) > 0 {
      var p := Parse(t);
      if p.status == Ok {
        var q := Process(p.step);
        if q.status == Ok {
          var u := ResetRequest(q.step);
          assert ParseLoop(t) == ParseLoop(u);
          LoopDrained(u);
        } else {
          assert ParseLoop(t).stop != Drained;
        }
      } else {
        assert ParseLoop(t).stop != Drained;
      }
    }
  }

  /** With bytes to parse and a parser reply waiting, the loop calls the parser at least once. */
  lemma {:induction false} LoopConsumesParse(t: Step)
    requires t.sock.data.Some?
    requires RSize(t.sock.rbuf) > 0 && |t.oracle.parse| > 0
    ensures |ParseLoop(t).step.oracle.parse| < |t.oracle.parse|
  {
    var p := Parse(t);
    if p.status == Ok {
      var q := Process(p.step);
      if q.status == Ok {
        var u := ResetRequest(q.step);
        LoopParseSuffix(u);
      }
    }
  }

  /** The loop only ever takes parser replies from the front of the script. */
  lemma {:induction false} LoopParseSuffix(t: Step)
    requires t.sock.data.Some?
    ensures var r := ParseLoop(t).step;
      |r.oracle.parse| <= |t.oracle.parse| && r.oracle.parse == t.oracle.parse[|t.oracle.parse| - |r.oracle.parse|..]
    decreases |t.oracle.parse|
  {
    var ps := t.oracle.parse;
    if RSize(t.sock.rbuf) > 0 && t.oracle.Parse().status == Ok && t.oracle.Process().status == Ok {
      var u := ResetRequest(Process(Parse(t).step).step);
      ProcessOkContinues(t);
      assert u.oracle.parse == ps[1..];
      LoopParseSuffix(u);
      var rs := ParseLoop(u).step.oracle.parse;
      assert ps[1..][|ps| - 1 - |rs|..] == ps[|ps| - |rs|..];
    }
  }

  /** An unfinished parse stops the loop with no response and no processing. */
  lemma ParseUnfinStops(t: Step)
    requires t.sock.data.Some? && RSize(t.sock.rbuf) > 0
    requires t.oracle.Parse().status == Unfin
    ensures var l := ParseLoop(t);
      && l == Round(Parse(t).step, Incomplete)
      && l.step.trace == t.trace
      && l.step.oracle.process == t.oracle.process && l.step.oracle.compose == t.oracle.compose
  {
  }

  /**
   * Any other parse failure composes exactly one client-error response and
   * ends the loop: the parser is not called again and nothing is processed.
   */
  lemma ParseErrorRespondsOnce(t: Step)
    requires t.sock.data.Some? && RSize(t.sock.rbuf) > 0
    requires t.oracle.Parse().status != Unfin && t.oracle.Parse().status != Ok
    ensures var l := ParseLoop(t);
      && l.stop == BadRequest
      && l.step.trace == t.trace + [Composed(ClientError, t.oracle.Compose().status)]
      && l.step.oracle.parse == Rest(t.oracle.parse)
      && l.step.oracle.process == t.oracle.process
      && l.step.sock.state == t.sock.state
  {
  }

  /** A processing reply of ENOMEM (write buffer full) stops the loop without any error response. */
  lemma ProcessFullStops(t: Step)
    requires t.sock.data.Some? && RSize(t.sock.rbuf) > 0
    requires t.oracle.Parse().status == Ok && t.oracle.Process().status == NoMem
    ensures var l := ParseLoop(t);
      l.stop == OutputFull && l.step.trace == t.trace && l.step.sock.state == t.sock.state
  {
  }

  /** A processing reply of ERDHUP (the client asked to quit) marks the channel closing and stops. */
  lemma ProcessPeerQuitCloses(t: Step)
    requires t.sock.data.Some? && RSize(t.sock.rbuf) > 0
    requires t.oracle.Parse().status == Ok && t.oracle.Process().status == RdHup
    ensures var l := ParseLoop(t);
      l.stop == PeerQuit && l.step.trace == t.trace && l.step.sock.state == Closing
  {
  }

  /** Any other processing failure composes exactly one server-error response and stops. */
  lemma ProcessFailureRespondsOnce(t: Step)
    requires t.sock.data.Some? && RSize(t.sock.rbuf) > 0
    requires t.oracle.Parse().status == Ok
    requires t.oracle.Process().status !in {Ok, NoMem, RdHup}
    ensures var l := ParseLoop(t);
      && l.stop == ProcessFailed
      && l.step.trace == t.trace + [Composed(ServerError, t.oracle.Compose().status)]
      && l.step.sock.state == t.sock.state
  {
  }

  /** A successful process resets the request and the loop goes on with the next message. */
  lemma ProcessOkContinues(t: Step)
    requires t.sock.data.Some? && RSize(t.sock.rbuf) > 0
    requires t.oracle.Parse().status == Ok && t.oracle.Process().status == Ok
    ensures var u := ResetRequest(Process(Parse(t).step).step);
      && !u.sock.data.value.swallow
      && u.trace == t.trace
      && ParseLoop(t) == ParseLoop(u)
  {
  }

  /** A response that does not fit is only logged: the connection itself is left as it was. */
  lemma ComposeFailureOnlyLogged(t: Step, kind: RspKind)
    requires t.oracle.Compose().status != Ok
    ensures var r := ComposeRsp(t, kind);
      r.sock == t.sock && r.trace == t.trace + [Composed(kind, t.oracle.Compose().status)]
  {
  }

  // ---------------------------------------------------------------------
  // Request acquisition and drain mode
  // ---------------------------------------------------------------------

  /** Post-read never changes the wrapper pool or the channel, and keeps requests conserved. */
  lemma PostReadFrame(t: Step)
    ensures var r := PostRead(t);
      && r.sockFree == t.sockFree
      && r.reqFree + Held(r.sock) == t.reqFree + Held(t.sock)
      && SameChannel(r.sock, t.sock)
      && (t.sock.data.Some? || t.reqFree > 0 ==> r.sock.data.Some?)
  {
    var a := Acquire(t);
    if a.sock.data.Some? {
      if a.sock.data.value.swallow {
        var d := Drain(a);
        if d.status == Ok {
          LoopFrame(ResetRequest(d.step));
          WriteFrame(ParseLoop(ResetRequest(d.step)).step);
        }
      } else {
        LoopFrame(a);
        WriteFrame(ParseLoop(a).step);
      }
    }
  }

  /** An attached request is reused: nothing is borrowed from the request pool. */
  lemma AttachedRequestReused(t: Step)
    requires t.sock.data.Some?
    ensures PostRead(t).reqFree == t.reqFree && PostRead(t).sock.data.Some?
  {
    PostReadFrame(t);
  }

  /** Without an attached request one is borrowed from the pool and stays attached. */
  lemma BorrowedRequestAttached(t: Step)
    requires t.sock.data.None? && t.reqFree > 0
    ensures PostRead(t).reqFree == t.reqFree - 1 && PostRead(t).sock.data.Some?
  {
    PostReadFrame(t);
  }

  /**
   * With the request pool empty a server-error response is composed first
   * and nothing is drained, parsed or processed.
   */
  lemma NoRequestServerError(t: Step)
    requires t.sock.data.None? && t.reqFree == 0
    ensures var r := PostRead(t); var n := |t.trace|;
      && |r.trace| > n && r.trace[..n + 1] == t.trace + [Composed(ServerError, t.oracle.Compose().status)]
      && r.oracle.drain == t.oracle.drain && r.oracle.parse == t.oracle.parse && r.oracle.process == t.oracle.process
      && r.sock.data.None? && r.reqFree == 0
  {
    var c := ComposeRsp(t, ServerError);
    assert Serve(t) == c;
    if RSize(c.sock.wbuf) > 0 {
      WriteRetryRegistersInterest(c);
    }
  }

  /** In drain mode an unfinished drain stops processing: no parse, no response, the request keeps draining. */
  lemma UnfinishedDrainWaits(t: Step)
    requires t.sock.data.Some? && t.sock.data.value.swallow
    requires t.oracle.Drain().status != Ok
    ensures var r := Serve(t);
      && r == Drain(t).step
      && r.trace == t.trace && r.oracle.parse == t.oracle.parse && r.oracle.process == t.oracle.process
      && r.sock.data == t.sock.data
  {
  }

  /** In drain mode a completed drain resets the request and the loop runs on what is left. */
  lemma CompletedDrainResumes(t: Step)
    requires t.sock.data.Some? && t.sock.data.value.swallow
    requires t.oracle.Drain().status == Ok
    ensures var u := ResetRequest(Drain(t).step);
      && !u.sock.data.value.swallow
      && RSize(u.sock.rbuf) == RSize(t.sock.rbuf) - Min(t.oracle.Drain().bytes, RSize(t.sock.rbuf))
      && Serve(t) == ParseLoop(u).step
  {
  }

  // ---------------------------------------------------------------------
  // Admission on the listening channel
  // ---------------------------------------------------------------------

  /** With the wrapper pool empty the pending connection is rejected and nothing is registered or accepted. */
  lemma PoolEmptyRejects(t: Step, cap: nat)
    requires t.sockFree == 0
    ensures var a := TcpServer(t, cap);
      && a.admitted.None?
      && a.step.trace == t.trace + [Reject(t.sock.sd)]
      && a.step.oracle == t.oracle && a.step.sockFree == 0 && a.step.sock == t.sock
  {
  }

  /**
   * When accept fails nothing is registered, and the wrapper borrowed for
   * the connection is not given back: the pool has one slot fewer.
   */
  lemma AcceptFailureKeepsWrapper(t: Step, cap: nat)
    requires t.sockFree > 0 && t.oracle.Accept().None?
    ensures var a := TcpServer(t, cap);
      && a.admitted.None?
      && a.step.trace == t.trace
      && a.step.sockFree == t.sockFree - 1
  {
  }

  /**
   * A successful accept yields a data channel with its owner and handler
   * table set, empty buffers and no request, registered for read interest.
   */
  lemma AdmissionRegistersRead(t: Step, cap: nat)
    requires t.sockFree > 0 && t.oracle.Accept().Some?
    ensures var a := TcpServer(t, cap); var sd := t.oracle.Accept().value;
      && a.admitted.Some?
      && var s := a.admitted.value;
      && s.sd == sd && s.level == Base && s.state == Open && s.owner && s.hdl
      && RSize(s.rbuf) == 0 && WSize(s.rbuf) == cap && RSize(s.wbuf) == 0 && WSize(s.wbuf) == cap
      && s.data.None?
      && a.step.trace == t.trace + [RegisterRead(sd)]
      && a.step.sockFree == t.sockFree - 1
  {
  }

  // ---------------------------------------------------------------------
  // Whole events
  // ---------------------------------------------------------------------

  /**
   * Requests are conserved by every event: a request is either free in the
   * pool or attached to the connection, never lost or duplicated.
   */
  lemma EventConservesRequests(t: Step, ev: Events, cap: nat)
    ensures var r := CoreEvent(t, ev, cap);
      r.step.reqFree + Held(r.step.sock) == t.reqFree + Held(t.sock)
  {
    if !ev.err {
      var a := if ev.read then EventRead(t, cap) else Admission(t, None);
      if ev.read && t.sock.level == Base {
        PostReadFrame(MarkRead(Read(t)));
      }
      if ev.write {
        WriteFrame(a.step);
      }
    }
  }

  /**
   * On a data channel an event gives back exactly one wrapper when it closes
   * the connection and borrows none; a request is never borrowed twice.
   */
  lemma EventWrapperBalance(t: Step, ev: Events, cap: nat)
    requires t.sock.level == Base
    ensures var r := CoreEvent(t, ev, cap);
      && r.step.sockFree == t.sockFree + (if r.closed then 1 else 0)
      && r.admitted.None?
  {
    if !ev.err {
      var a := if ev.read then EventRead(t, cap) else Admission(t, None);
      if ev.read {
        PostReadFrame(MarkRead(Read(t)));
        assert a.step.sock.level == Base;
      }
      if ev.write {
        WriteFrame(a.step);
      }
    }
  }

  /**
   * A connection whose peer has hung up stays registered while it still has
   * bytes to send: a write event closes it exactly when the send drains the
   * write buffer.
   */
  lemma EofClosesOnceDrained(t: Step, cap: nat)
    requires t.sock.state == Eof && t.oracle.Send().status != Error
    ensures var r := CoreEvent(t, Events(false, false, true), cap);
      r.closed <==> t.oracle.Send().bytes >= RSize(t.sock.wbuf)
  {
  }
}
