/**
 * The forwarder socket (`base::utils::socketInterface::unixDatagram`) as an
 * object with a connected flag and a log of what was done on it; whether a
 * connection succeeds and the status of each send are oracles.
 */
module SocketInterface {

  /** `SendRetval`. */
  datatype SendStatus = Success | SizeTooLong | SocketError

  datatype ChannelOp = Connect(ok: bool) | Send(msg: string, status: SendStatus) | Disconnect

  /** The messages handed to the socket, in order. */
  function Sent(ops: seq<ChannelOp>): (r: seq<string>)
    ensures |r| <= |ops|
  {
    if |ops| == 0 then []
    else Sent(ops[..|ops| - 1]) + (if ops[|ops| - 1].Send? then [ops[|ops| - 1].msg] else [])
  }

  lemma SentAppend(ops: seq<ChannelOp>, op: ChannelOp)
    ensures Sent(ops + [op]) == Sent(ops) + (if op.Send? then [op.msg] else [])
  {
    assert (ops + [op])[..|ops|] == ops;
  }

  class UnixDatagram {
    /** Whether connecting succeeds, given what was done before. */
    const connects: seq<ChannelOp> -> bool
    /** The status of sending a message, given what was done before. */
    const sendStatus: (seq<ChannelOp>, string) -> SendStatus
    var connected: bool
    var ops: seq<ChannelOp>

    constructor(connects: seq<ChannelOp> -> bool, sendStatus: (seq<ChannelOp>, string) -> SendStatus)
      ensures this.connects == connects && this.sendStatus == sendStatus
      ensures !connected && ops == []
    {
      this.connects := connects;
      this.sendStatus := sendStatus;
      connected := false;
      ops := [];
    }

    /** `socketConnect`; a failure (an exception in the engine) is `false`. */
    method SocketConnect() returns (ok: bool)
      modifies this
      ensures ok == connects(old(ops)) && connected == ok
      ensures ops == old(ops) + [Connect(ok)]
    {
      ok := connects(ops);
      connected := ok;
      ops := ops + [Connect(ok)];
    }

    method SendMsg(msg: string) returns (status: SendStatus)
      modifies this
      ensures status == sendStatus(old(ops), msg)
      ensures connected == old(connected) && ops == old(ops) + [Send(msg, status)]
    {
      status := sendStatus(ops, msg);
      ops := ops + [Send(msg, status)];
    }

    method SocketDisconnect()
      modifies this
      ensures !connected && ops == old(ops) + [Disconnect]
    {
      connected := false;
      ops := ops + [Disconnect];
    }
  }
}
