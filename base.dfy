/**
 * The connection life cycle every service shares (service/base.py): a client connects with a
 * bounded number of attempts; a server binds once, polls until a peer is ready and accepts
 * exactly that one peer.
 */
module Base {
  import opened Wrappers
  import opened Net

  /** `ClientBase.connect`'s defaults: `retry=5`, `wait_time=1` (seconds). */
  const DefaultRetry: nat := 5
  const DefaultWaitTime: nat := 1

  /** What one call of `ClientBase.connect` does, in order: attempts, log lines and sleeps. */
  datatype ClientEvent =
    | Attempted                         // self.socket.connect(...)
    | RetryLogged(attempt: nat, of: nat) // "<exception> (Retry=attempt/of)"
    | Slept(seconds: nat)               // time.sleep(wait_time)
    | ConnectedLogged                   // "Connected to server"
    | FailedLogged                      // "Failed to connect to server"

  /** The first attempt in `from .. retry - 1` that succeeds, or `retry` when none does. */
  function FirstSuccess(from: nat, retry: nat, succeeds: nat -> bool): (k: nat)
    requires from <= retry
    ensures from <= k <= retry
    ensures forall i :: from <= i < k ==> !succeeds(i)
    ensures k < retry ==> succeeds(k)
    decreases retry - from
  {
    if from == retry then retry else if succeeds(from) then from else FirstSuccess(from + 1, retry, succeeds)
  }

  /** The events of `for i in range(from, retry)` in `ClientBase.connect` and what follows it. */
  function Tries(from: nat, retry: nat, waitTime: nat, succeeds: nat -> bool): seq<ClientEvent>
    requires from <= retry
    decreases retry - from
  {
    if from == retry then [FailedLogged]
    else if succeeds(from) then [Attempted, ConnectedLogged]
    else [Attempted, RetryLogged(from + 1, retry), Slept(waitTime)] + Tries(from + 1, retry, waitTime, succeeds)
  }

  /** The log of one call of `ClientBase.connect(retry, wait_time)`. */
  function ConnectLog(retry: nat, waitTime: nat, succeeds: nat -> bool): seq<ClientEvent>
  {
    Tries(0, retry, waitTime, succeeds)
  }

  /** How many connection attempts a log records. */
  function Attempts(log: seq<ClientEvent>): nat
  {
    if log == [] then 0 else (if log[0] == Attempted then 1 else 0) + Attempts(log[1..])
  }

  /** The three events of a failed attempt, logged as attempt `attempt` of `retry`. */
  function FailedRound(attempt: nat, retry: nat, waitTime: nat): seq<ClientEvent>
  {
    [Attempted, RetryLogged(attempt, retry), Slept(waitTime)]
  }

  /** Tries from `from` on: one failed round per failed attempt, then the closing events. */
  lemma {:induction false} TriesLength(from: nat, retry: nat, waitTime: nat, succeeds: nat -> bool)
    requires from <= retry
    ensures var k := FirstSuccess(from, retry, succeeds);
      |Tries(from, retry, waitTime, succeeds)| == 3 * (k - from) + (if k < retry then 2 else 1)
    decreases retry - from
  {
    if from < retry && !succeeds(from) {
      TriesLength(from + 1, retry, waitTime, succeeds);
    }
  }

  /** Every attempt before the first success is logged as a failed round, as attempt `i + 1` of `retry`. */
  lemma {:induction false} TriesRound(from: nat, retry: nat, waitTime: nat, succeeds: nat -> bool, i: nat)
    requires from <= retry && from <= i < FirstSuccess(from, retry, succeeds)
    ensures var log, p := Tries(from, retry, waitTime, succeeds), 3 * (i - from);
      p + 3 <= |log| && log[p..p + 3] == FailedRound(i + 1, retry, waitTime)
    decreases retry - from
  {
    TriesLength(from, retry, waitTime, succeeds);
    var rest := Tries(from + 1, retry, waitTime, succeeds);
    var log := Tries(from, retry, waitTime, succeeds);
    assert log == FailedRound(from + 1, retry, waitTime) + rest;
    if i > from {
      TriesRound(from + 1, retry, waitTime, succeeds, i);
      assert log[3 * (i - from)..3 * (i - from) + 3] == rest[3 * (i - from - 1)..3 * (i - from - 1) + 3];
    }
  }

  /** After the failed rounds the log ends with the connection, or with the failure line when no attempt succeeded. */
  lemma {:induction false} TriesEnd(from: nat, retry: nat, waitTime: nat, succeeds: nat -> bool)
    requires from <= retry
    ensures var log, k := Tries(from, retry, waitTime, succeeds), FirstSuccess(from, retry, succeeds);
      3 * (k - from) <= |log| &&
      log[3 * (k - from)..] == (if k < retry then [Attempted, ConnectedLogged] else [FailedLogged])
    decreases retry - from
  {
    TriesLength(from, retry, waitTime, succeeds);
    if from < retry && !succeeds(from) {
      TriesEnd(from + 1, retry, waitTime, succeeds);
      var rest := Tries(from + 1, retry, waitTime, succeeds);
      var log := Tries(from, retry, waitTime, succeeds);
      var k := FirstSuccess(from, retry, succeeds);
      assert log == FailedRound(from + 1, retry, waitTime) + rest;
      assert log[3 * (k - from)..] == rest[3 * (k - from - 1)..];
    }
  }

  /** The number of attempts from `from` on: up to and including the first success, or all the remaining ones. */
  lemma {:induction false} TriesAttempts(from: nat, retry: nat, waitTime: nat, succeeds: nat -> bool)
    requires from <= retry
    ensures var k := FirstSuccess(from, retry, succeeds);
      Attempts(Tries(from, retry, waitTime, succeeds)) == (if k < retry then k + 1 else retry) - from
    decreases retry - from
  {
    var log := Tries(from, retry, waitTime, succeeds);
    if from < retry && !succeeds(from) {
      TriesAttempts(from + 1, retry, waitTime, succeeds);
      var rest := Tries(from + 1, retry, waitTime, succeeds);
      assert log == FailedRound(from + 1, retry, waitTime) + rest;
      assert log[1..][1..] == log[2..] && log[2..][1..] == log[3..] && log[3..] == rest;
      assert Attempts(log) == 1 + Attempts(log[1..]);
      assert Attempts(log[1..]) == Attempts(log[2..]) == Attempts(rest);
    } else if from < retry {
      assert log[1..] == [ConnectedLogged] && log[1..][1..] == [];
    }
  }

  /** `connect` makes at most `retry` attempts and stops at the first success. */
  lemma ConnectAttempts(retry: nat, waitTime: nat, succeeds: nat -> bool)
    ensures var k := FirstSuccess(0, retry, succeeds);
      Attempts(ConnectLog(retry, waitTime, succeeds)) == (if k < retry then k + 1 else retry) &&
      Attempts(ConnectLog(retry, waitTime, succeeds)) <= retry
  {
    TriesAttempts(0, retry, waitTime, succeeds);
  }

  /** The last log line says how `connect` ended: connected exactly when some attempt succeeded. */
  lemma ConnectOutcomeLogged(retry: nat, waitTime: nat, succeeds: nat -> bool)
    ensures var log := ConnectLog(retry, waitTime, succeeds);
      log != [] &&
      (log[|log| - 1] == ConnectedLogged <==> exists i :: 0 <= i < retry && succeeds(i)) &&
      (log[|log| - 1] == FailedLogged <==> forall i :: 0 <= i < retry ==> !succeeds(i))
  {
    TriesLength(0, retry, waitTime, succeeds);
    TriesEnd(0, retry, waitTime, succeeds);
    var log, k := ConnectLog(retry, waitTime, succeeds), FirstSuccess(0, retry, succeeds);
    assert log[|log| - 1] == log[3 * k..][|log[3 * k..]| - 1];
  }

  /** With `retry = 0` nothing is attempted and the failure is logged. */
  lemma ConnectWithoutRetries(waitTime: nat, succeeds: nat -> bool)
    ensures ConnectLog(0, waitTime, succeeds) == [FailedLogged]
  {
  }

  /** A client of one service (`ClientBase`): its stream socket and its log. */
  class ClientBase {
    const serverIp: string
    const serverPort: int
    const socket: Socket
    var log: seq<ClientEvent>

    constructor (serverIp: string, serverPort: int)
      ensures this.serverIp == serverIp && this.serverPort == serverPort
      ensures fresh(socket) && !socket.connected && socket.pending == [] && socket.io == []
      ensures log == []
    {
      this.serverIp, this.serverPort := serverIp, serverPort;
      socket := new Socket();
      log := [];
    }

    /**
     * `connect(retry, wait_time)`; `succeeds(i)` says whether attempt `i` finds the server.
     * A failure is not raised: the client just stays unconnected.
     */
    method Connect(retry: nat, waitTime: nat, succeeds: nat -> bool)
      modifies this, socket
      ensures log == old(log) + ConnectLog(retry, waitTime, succeeds)
      ensures socket.connected == (old(socket.connected) || FirstSuccess(0, retry, succeeds) < retry)
      ensures socket.pending == old(socket.pending) && socket.io == old(socket.io)
    {
      var i := 0;
      while i < retry
        invariant i <= retry
        invariant forall j :: 0 <= j < i ==> !succeeds(j)
        invariant log + Tries(i, retry, waitTime, succeeds) == old(log) + ConnectLog(retry, waitTime, succeeds)
        invariant FirstSuccess(i, retry, succeeds) == FirstSuccess(0, retry, succeeds)
        invariant socket.connected == old(socket.connected)
        invariant socket.pending == old(socket.pending) && socket.io == old(socket.io)
      {
        log := log + [Attempted];
        if succeeds(i) {
          socket.connected := true;
          log := log + [ConnectedLogged];
          return;
        }
        log := log + [RetryLogged(i + 1, retry), Slept(waitTime)];
        assert Tries(i, retry, waitTime, succeeds) == FailedRound(i + 1, retry, waitTime) + Tries(i + 1, retry, waitTime, succeeds);
        i := i + 1;
      }
      log := log + [FailedLogged];
    }
    /**
     * The request/reply step of every client (`get_text`, `get_answer`): `sendall` the request
     * once, then one `recv`, whose message is returned unchanged.
     */
    method Ask(request: string) returns (r: Result<string, RecvError>)
      modifies socket
      ensures socket.connected == old(socket.connected)
      ensures !socket.connected ==> r == Failure(NotConnected) && socket.pending == old(socket.pending) && socket.io == old(socket.io)
      ensures socket.connected && old(socket.pending) == [] ==>
        r == Failure(Silent) && socket.pending == [] && socket.io == old(socket.io) + [Out(request)]
      ensures socket.connected && old(socket.pending) != [] ==>
        r == Success(old(socket.pending)[0]) && socket.pending == old(socket.pending)[1..] &&
        socket.io == old(socket.io) + [Out(request), In(old(socket.pending)[0])]
    {
      var ok := socket.Send(request);
      if !ok {
        return Failure(NotConnected);
      }
      r := socket.Recv();
    }
  }

  /** The address a server socket is bound to. */
  datatype Address = Address(ip: string, port: int)

  /** The first poll round in which `select` reports the listening socket ready, or `|ready|`. */
  function FirstReady(ready: seq<bool>): (k: nat)
    ensures k <= |ready|
    ensures forall i :: 0 <= i < k ==> !ready[i]
    ensures k < |ready| ==> ready[k]
  {
    if ready == [] then 0 else if ready[0] then 0 else 1 + FirstReady(ready[1..])
  }

  /** A server of one service (`ServerBase`): one listening socket and the one peer it accepts. */
  class ServerBase {
    const serverIp: string
    const port: int
    /** `server_socket`: None, or the address the listening socket is bound to. */
    var serverSocket: Option<Address>
    /** `client_socket`: null (None) until a peer is accepted. */
    var clientSocket: Socket?
    var clientIp: Option<string>
    /** How many times a listening socket was bound, rounds of listen-and-select were run, and peers were accepted. */
    ghost var binds: nat
    ghost var polls: nat
    ghost var accepts: nat

    constructor (ip: string, port: int)
      ensures serverIp == ip && this.port == port
      ensures serverSocket == None && clientSocket == null && clientIp == None
      ensures binds == 0 && polls == 0 && accepts == 0
    {
      serverIp, this.port := ip, port;
      serverSocket, clientSocket, clientIp := None, null, None;
      binds, polls, accepts := 0, 0, 0;
    }

    /**
     * `connect(listen_timeout)`: bind once, then `listen()` and `select` with the timeout until
     * the socket is ready, and accept that one peer. `ready[i]` is what the i-th `select`
     * reports; when no round is ready within the oracle the source polls for ever, and the
     * model returns with no peer.
     */
    method Connect(ready: seq<bool>, peerIp: string)
      modifies this
      ensures serverSocket == Some(Address(serverIp, port)) && binds == old(binds) + 1
      ensures var k := FirstReady(ready);
        polls == old(polls) + (if k < |ready| then k + 1 else |ready|) &&
        accepts == old(accepts) + (if k < |ready| then 1 else 0) &&
        (k < |ready| ==> clientSocket != null && fresh(clientSocket) && clientSocket.connected &&
                         clientSocket.pending == [] && clientSocket.io == [] && clientIp == Some(peerIp)) &&
        (k == |ready| ==> clientSocket == old(clientSocket) && clientIp == old(clientIp))
    {
      serverSocket := Some(Address(serverIp, port));
      binds := binds + 1;
      var i := 0;
      while i < |ready|
        invariant i <= |ready|
        invariant forall j :: 0 <= j < i ==> !ready[j]
        invariant polls == old(polls) + i
        invariant clientSocket == old(clientSocket) && clientIp == old(clientIp) && accepts == old(accepts)
        invariant serverSocket == Some(Address(serverIp, port)) && binds == old(binds) + 1
      {
        polls := polls + 1;
        if ready[i] {
          clientSocket := new Socket.Accepted();
          clientIp := Some(peerIp);
          accepts := accepts + 1;
          return;
        }
        i := i + 1;
      }
    }

    /** The base `run` does nothing. */
    method Run()
      ensures unchanged(this)
    {
    }
  }
}
