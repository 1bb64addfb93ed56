/**
 * A connected TCP socket seen as two message queues. Every service relies on one `recv`
 * returning exactly one message of the peer, so a message is a whole `string` here.
 */
module Net {
  import opened Wrappers

  /** One message on the wire, as seen from this end. */
  datatype Io = In(msg: string) | Out(msg: string)

  /**
   * Why a receive gives no message: the socket was never connected (`recv` raises), or the
   * peer sends nothing more within the modelled run (`recv` would block for ever).
   */
  datatype RecvError = NotConnected | Silent

  /** The messages this end sent, in order. */
  function Outs(io: seq<Io>): seq<string>
  {
    if io == [] then []
    else Outs(io[..|io| - 1]) + (if io[|io| - 1].Out? then [io[|io| - 1].msg] else [])
  }

  /** The messages this end received, in order. */
  function Ins(io: seq<Io>): seq<string>
  {
    if io == [] then []
    else Ins(io[..|io| - 1]) + (if io[|io| - 1].In? then [io[|io| - 1].msg] else [])
  }

  lemma {:induction false} OutsAppend(a: seq<Io>, b: seq<Io>)
    ensures Outs(a + b) == Outs(a) + Outs(b)
    decreases |b|
  {
    if b != [] {
      assert (a + b)[..|a + b| - 1] == a + b[..|b| - 1];
      OutsAppend(a, b[..|b| - 1]);
    } else {
      assert a + b == a;
    }
  }

  lemma {:induction false} InsAppend(a: seq<Io>, b: seq<Io>)
    ensures Ins(a + b) == Ins(a) + Ins(b)
    decreases |b|
  {
    if b != [] {
      assert (a + b)[..|a + b| - 1] == a + b[..|b| - 1];
      InsAppend(a, b[..|b| - 1]);
    } else {
      assert a + b == a;
    }
  }

  /** The two sides of one round: the request received, then the reply sent. */
  lemma RoundTraffic(request: string, reply: string)
    ensures Ins([In(request), Out(reply)]) == [request]
    ensures Outs([In(request), Out(reply)]) == [reply]
  {
    var round := [In(request), Out(reply)];
    assert round[..1] == [In(request)] && round[..1][..0] == [];
    assert Ins(round[..1]) == [request] && Outs(round[..1]) == [];
  }

  /**
   * The wire log of a server that answers every request with one reply before it reads the
   * next: request, reply, request, reply, ... `reply(earlier, request)` is the reply to
   * `request` when `earlier` were the requests before it.
   */
  function Served(reply: (seq<string>, string) -> string, requests: seq<string>): seq<Io>
  {
    if requests == [] then []
    else
      var n := |requests| - 1;
      Served(reply, requests[..n]) + [In(requests[n]), Out(reply(requests[..n], requests[n]))]
  }

  /** The replies such a server sends, in order. */
  function Replies(reply: (seq<string>, string) -> string, requests: seq<string>): (r: seq<string>)
    ensures |r| == |requests|
  {
    if requests == [] then []
    else
      var n := |requests| - 1;
      Replies(reply, requests[..n]) + [reply(requests[..n], requests[n])]
  }

  lemma {:induction false} RepliesAt(reply: (seq<string>, string) -> string, requests: seq<string>, k: nat)
    requires k < |requests|
    ensures Replies(reply, requests)[k] == reply(requests[..k], requests[k])
  {
    var n := |requests| - 1;
    if k < n {
      RepliesAt(reply, requests[..n], k);
      assert requests[..n][..k] == requests[..k];
    }
  }

  /** One more round: the next request received, then its reply sent. */
  lemma ServedStep(reply: (seq<string>, string) -> string, requests: seq<string>, k: nat)
    requires k < |requests|
    ensures Served(reply, requests[..k + 1]) ==
      Served(reply, requests[..k]) + [In(requests[k]), Out(reply(requests[..k], requests[k]))]
  {
    assert requests[..k + 1][..k] == requests[..k];
  }

  /**
   * A server never pipelines: the k-th reply is sent right after the k-th request is
   * received and before the next one is read; nothing else is on the wire.
   */
  lemma {:induction false} ServedAt(reply: (seq<string>, string) -> string, requests: seq<string>)
    ensures |Served(reply, requests)| == 2 * |requests|
    ensures forall k :: 0 <= k < |requests| ==>
      Served(reply, requests)[2 * k] == In(requests[k]) &&
      Served(reply, requests)[2 * k + 1] == Out(reply(requests[..k], requests[k]))
  {
    if requests != [] {
      var n := |requests| - 1;
      ServedAt(reply, requests[..n]);
      forall k | 0 <= k < n
        ensures requests[..n][..k] == requests[..k]
      {
      }
    }
  }

  /** What such a server receives and sends: every request once, and one reply to each. */
  lemma {:induction false} ServedTraffic(reply: (seq<string>, string) -> string, requests: seq<string>)
    ensures Ins(Served(reply, requests)) == requests
    ensures Outs(Served(reply, requests)) == Replies(reply, requests)
  {
    if requests != [] {
      var n := |requests| - 1;
      var round := [In(requests[n]), Out(reply(requests[..n], requests[n]))];
      ServedTraffic(reply, requests[..n]);
      OutsAppend(Served(reply, requests[..n]), round);
      InsAppend(Served(reply, requests[..n]), round);
      RoundTraffic(requests[n], reply(requests[..n], requests[n]));
      assert requests[..n] + [requests[n]] == requests;
    }
  }

  /**
   * The receive-and-answer loop of a request/reply server: one `recv`, then one `send` of the
   * reply, for every message, until the peer sends nothing more. On a socket that is not
   * connected the first `recv` fails.
   */
  method Serve(c: Socket, reply: (seq<string>, string) -> string) returns (stop: RecvError)
    modifies c
    ensures c.connected == old(c.connected)
    ensures !c.connected ==> stop == NotConnected && c.pending == old(c.pending) && c.io == old(c.io)
    ensures c.connected ==> stop == Silent && c.pending == [] && c.io == old(c.io) + Served(reply, old(c.pending))
  {
    if !c.connected {
      return NotConnected;
    }
    ghost var k := 0;
    var earlier: seq<string> := [];
    while true
      invariant c.connected
      invariant k <= |old(c.pending)| && c.pending == old(c.pending)[k..]
      invariant c.io == old(c.io) + Served(reply, old(c.pending)[..k])
      invariant earlier == old(c.pending)[..k]
      decreases |c.pending|
    {
      var received := c.Recv();
      if received.Failure? {
        assert old(c.pending)[..k] == old(c.pending);
        return received.error;
      }
      var _ := c.Send(reply(earlier, received.value));
      ServedStep(reply, old(c.pending), k);
      k := k + 1;
      earlier := earlier + [received.value];
    }
  }

  class Socket {
    /** Whether `connect` or `accept` produced this connection. */
    var connected: bool
    /** The messages the peer has sent and this end has not yet received, oldest first. */
    var pending: seq<string>
    /** Everything this end received and sent, in order. */
    var io: seq<Io>

    /** A fresh `socket.socket(AF_INET, SOCK_STREAM)` of a client, not yet connected. */
    constructor ()
      ensures !connected && pending == [] && io == []
    {
      connected, pending, io := false, [], [];
    }

    /** The socket `accept()` returns to a server: connected to its one peer. */
    constructor Accepted()
      ensures connected && pending == [] && io == []
    {
      connected, pending, io := true, [], [];
    }

    /** The peer's side: messages it sends arrive at the back of the queue. */
    method Deliver(messages: seq<string>)
      modifies this
      ensures pending == old(pending) + messages
      ensures connected == old(connected) && io == old(io)
    {
      pending := pending + messages;
    }

    /** `send` / `sendall` of one message; on a socket that is not connected they raise. */
    method Send(m: string) returns (ok: bool)
      modifies this
      ensures ok == connected
      ensures connected == old(connected) && pending == old(pending)
      ensures io == if ok then old(io) + [Out(m)] else old(io)
    {
      ok := connected;
      if ok {
        io := io + [Out(m)];
      }
    }

    /** `recv`: the oldest message of the peer. */
    method Recv() returns (r: Result<string, RecvError>)
      modifies this
      ensures connected == old(connected)
      ensures !connected ==> r == Failure(NotConnected) && pending == old(pending) && io == old(io)
      ensures connected && old(pending) == [] ==> r == Failure(Silent) && pending == [] && io == old(io)
      ensures connected && old(pending) != [] ==>
        r == Success(old(pending)[0]) && pending == old(pending)[1..] && io == old(io) + [In(old(pending)[0])]
    {
      if !connected {
        r := Failure(NotConnected);
      } else if pending == [] {
        r := Failure(Silent);
      } else {
        r := Success(pending[0]);
        io := io + [In(pending[0])];
        pending := pending[1..];
      }
    }
  }
}
