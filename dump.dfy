/**
 * `pushDumpRequest`: asking the agent, through the forwarder socket, to send
 * its whole SCA database again for one policy.
 */
module DumpRequest {
  import opened Util
  import opened DecodeContext
  import opened SocketInterface

  function FlagText(firstScan: bool): string {
    if firstScan then "1" else "0"
  }

  /** The request text: `<agent>:sca-dump:<policy>:<1|0>`. */
  function DumpMessage(agent: string, policyId: string, firstScan: bool): string {
    agent + ":sca-dump:" + policyId + ":" + FlagText(firstScan)
  }

  /** The request splits back into agent, command, policy and flag. */
  lemma DumpMessageFields(agent: string, policyId: string, firstScan: bool)
    requires ':' !in agent && ':' !in policyId
    ensures Split(DumpMessage(agent, policyId, firstScan), ':') == [agent, "sca-dump", policyId, FlagText(firstScan)]
  {
    var parts := [agent, "sca-dump", policyId, FlagText(firstScan)];
    var flag := FlagText(firstScan);
    assert parts[1..][1..][1..] == [flag];
    assert Join(parts[1..][1..], ':') == policyId + [':'] + flag;
    assert Join(parts[1..], ':') == "sca-dump" + [':'] + (policyId + [':'] + flag);
    assert Join(parts, ':') == DumpMessage(agent, policyId, firstScan);
    assert forall i :: 0 <= i < |parts| ==> ':' !in parts[i] by {
      assert "sca-dump"[0] != ':' && "sca-dump"[1] != ':' && "sca-dump"[2] != ':' && "sca-dump"[3] != ':';
      assert "sca-dump"[4] != ':' && "sca-dump"[5] != ':' && "sca-dump"[6] != ':' && "sca-dump"[7] != ':';
    }
    SplitJoin(parts, ':');
  }

  /** The flag tells a first-scan request from a resync. */
  lemma DumpMessageInjective(agent: string, policyId: string, a: bool, b: bool)
    requires DumpMessage(agent, policyId, a) == DumpMessage(agent, policyId, b)
    ensures a == b
  {
    var n := |agent + ":sca-dump:" + policyId + ":"|;
    assert DumpMessage(agent, policyId, a)[n] == FlagText(a)[0];
    assert DumpMessage(agent, policyId, b)[n] == FlagText(b)[0];
  }

  /**
   * The socket after a dump request: connect first when not connected
   * (giving up when that fails), send the request, and disconnect when the
   * send reports a socket error so that the next request reconnects.
   */
  function PushDump(ctx: DecodeCxt, w: World, policyId: string, firstScan: bool): (r: World)
    ensures r.doc == w.doc && r.queries == w.queries
  {
    var socket := ctx.forwarderSocket;
    var linked := w.connected || socket.connects(w.ops);
    var w1 := if w.connected then w else w.(connected := linked, ops := w.ops + [Connect(linked)]);
    if !linked then w1
    else
      var msg := DumpMessage(ctx.agentID, policyId, firstScan);
      var status := socket.sendStatus(w1.ops, msg);
      var w2 := w1.(ops := w1.ops + [Send(msg, status)]);
      if status == SocketError then w2.(connected := false, ops := w2.ops + [Disconnect]) else w2
  }

  /**
   * Exactly the request is sent when the socket is or gets connected, and
   * nothing otherwise; the socket ends disconnected exactly when connecting
   * failed or the send reported a socket error.
   */
  lemma {:induction false} PushDumpSends(ctx: DecodeCxt, w: World, policyId: string, firstScan: bool)
    ensures var r := PushDump(ctx, w, policyId, firstScan);
      var linked := w.connected || ctx.forwarderSocket.connects(w.ops);
      var pre := if w.connected then w.ops else w.ops + [Connect(true)];
      var msg := DumpMessage(ctx.agentID, policyId, firstScan);
      && Sent(r.ops) == Sent(w.ops) + (if linked then [msg] else [])
      && (!linked ==> r.ops == w.ops + [Connect(false)] && !r.connected)
      && (linked ==> (!r.connected <==> ctx.forwarderSocket.sendStatus(pre, msg) == SocketError))
      && (linked ==> (r.ops[|r.ops| - 1] == Disconnect <==> ctx.forwarderSocket.sendStatus(pre, msg) == SocketError))
  {
    var socket := ctx.forwarderSocket;
    var linked := w.connected || socket.connects(w.ops);
    var msg := DumpMessage(ctx.agentID, policyId, firstScan);
    var r := PushDump(ctx, w, policyId, firstScan);
    if !linked {
      assert r.ops == w.ops + [Connect(false)];
      SentAppend(w.ops, Connect(false));
    } else {
      var pre := if w.connected then w.ops else w.ops + [Connect(true)];
      if !w.connected {
        SentAppend(w.ops, Connect(true));
      }
      assert Sent(pre) == Sent(w.ops);
      var status := socket.sendStatus(pre, msg);
      var sent := pre + [Send(msg, status)];
      SentAppend(pre, Send(msg, status));
      if status == SocketError {
        assert r.ops == sent + [Disconnect];
        SentAppend(sent, Disconnect);
      } else {
        assert r.ops == sent;
      }
    }
  }

  /** `pushDumpRequest`. */
  method PushDumpRequest(ctx: DecodeCxt, policyId: string, firstScan: bool)
    modifies ctx.forwarderSocket
    ensures ctx.State() == PushDump(ctx, old(ctx.State()), policyId, firstScan)
  {
    if !ctx.forwarderSocket.connected {
      var ok := ctx.forwarderSocket.SocketConnect();
      if !ok {
        return;
      }
    }
    var msg := DumpMessage(ctx.agentID, policyId, firstScan);
    var status := ctx.forwarderSocket.SendMsg(msg);
    if status == SocketError {
      ctx.forwarderSocket.SocketDisconnect();
    }
  }
}
