/**
 * What the connection core knows of its surroundings: the status codes it
 * branches on, the state of a channel, the per-connection request, and the
 * replies of the collaborators it calls (transport, parser, request
 * processor, response composer). A collaborator's replies are given in
 * advance as a script that the core consumes one reply per call.
 */
module Collaborators {

  datatype Option<T> = None | Some(value: T)

  /** The subset of rstatus_t codes the core tells apart. */
  datatype Status =
    | Ok          // CC_OK
    | Error       // CC_ERROR
    | Again       // CC_EAGAIN
    | Retry       // CC_ERETRY
    | NoMem       // CC_ENOMEM
    | Unfin       // CC_UNFIN
    | RdHup       // CC_ERDHUP
    | Other(code: int)

  /** Lifecycle of a channel as far as the core looks at it. */
  datatype ConnState = Open | Closing | Eof

  /** CHANNEL_META is the listening socket, CHANNEL_BASE a data connection. */
  datatype Level = Meta | Base

  datatype RspKind = ClientError | ServerError

  /** The pooled request object; the core only reads its drain ("swallow") flag. */
  datatype Request = Request(swallow: bool)

  /** request_reset: the request is ready for the next pipelined message. */
  function Reset(r: Request): (r': Request)
    ensures !r'.swallow
  {
    r.(swallow := false)
  }

  /** Reply of a transport receive: status, bytes offered, and whether the peer hung up (EOF). */
  datatype RecvReply = RecvReply(status: Status, bytes: nat, peerClosed: bool)

  /** Reply of a send, a drain, a process or a compose: status and bytes moved. */
  datatype Reply = Reply(status: Status, bytes: nat)

  /** Reply of parse_req: status, bytes consumed, and the drain flag it leaves on the request. */
  datatype ParseReply = ParseReply(status: Status, bytes: nat, swallow: bool)

  function Rest<T>(s: seq<T>): (r: seq<T>)
    ensures |s| > 0 ==> r == s[1..]
    ensures |s| == 0 ==> r == s
  {
    if |s| > 0 then s[1..] else s
  }

  /**
   * The scripted replies of every collaborator. An exhausted script answers
   * with that collaborator's "no progress" reply: nothing to receive or send
   * (EAGAIN), accept fails, drain and parse are unfinished, and processing
   * and composition find no room (ENOMEM).
   */
  datatype Oracle = Oracle(
    recv: seq<RecvReply>,
    send: seq<Reply>,
    accept: seq<Option<int>>,
    drain: seq<Reply>,
    parse: seq<ParseReply>,
    process: seq<Reply>,
    compose: seq<Reply>)
  {
    function Recv(): RecvReply { if |recv| > 0 then recv[0] else RecvReply(Again, 0, false) }
    function AfterRecv(): Oracle { this.(recv := Rest(recv)) }

    function Send(): Reply { if |send| > 0 then send[0] else Reply(Again, 0) }
    function AfterSend(): Oracle { this.(send := Rest(send)) }

    /** The descriptor of the accepted connection, or None when accept fails. */
    function Accept(): Option<int> { if |accept| > 0 then accept[0] else None }
    function AfterAccept(): Oracle { this.(accept := Rest(accept)) }

    function Drain(): Reply { if |drain| > 0 then drain[0] else Reply(Unfin, 0) }
    function AfterDrain(): Oracle { this.(drain := Rest(drain)) }

    function Parse(): ParseReply { if |parse| > 0 then parse[0] else ParseReply(Unfin, 0, false) }
    function AfterParse(): Oracle { this.(parse := Rest(parse)) }

    function Process(): Reply { if |process| > 0 then process[0] else Reply(NoMem, 0) }
    function AfterProcess(): Oracle { this.(process := Rest(process)) }

    function Compose(): Reply { if |compose| > 0 then compose[0] else Reply(NoMem, 0) }
    function AfterCompose(): Oracle { this.(compose := Rest(compose)) }
  }

  /** Observable side effects on the reactor, the transport and the client. */
  datatype Effect =
    | RegisterRead(sd: int)      // event_add_read
    | RegisterWrite(sd: int)     // event_add_write
    | Deregister(sd: int)        // event_deregister
    | Terminate(sd: int)         // hdl->term
    | Reject(sd: int)            // hdl->reject on the listening channel
    | Composed(kind: RspKind, status: Status)  // compose_rsp_msg and what it returned
}
