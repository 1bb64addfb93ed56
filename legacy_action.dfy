/**
 * The two older action servers, backend_openseeface.py and backends/action_server.py: they
 * speak the answer themselves with pyttsx3 and send nothing back. Both have the same
 * communication loop, the same loader (module Actions, reading `actions/openseeface/`) and
 * the same daemon (module FrameDaemon); they differ only in their defaults.
 */
module LegacyAction {
  import opened Wrappers
  import opened Net
  import opened Base
  import opened Frames
  import opened Actions
  import ActionService

  /** What the loop does besides receiving: set the actor's state, or speak a text. */
  datatype Event = StateSet(state: ActionKind) | Spoke(text: string)

  /** The defaults of backend_openseeface.py and of backends/action_server.py. */
  const OpenSeeFaceFps: int := 20
  const BackendsFps: int := 24
  const DefaultPort: int := 12346
  const RecvBufLen: int := 10240

  /** The wire log of the loop: every message received, nothing sent. */
  function Listened(requests: seq<string>): seq<Io>
  {
    if requests == [] then [] else Listened(requests[..|requests| - 1]) + [In(requests[|requests| - 1])]
  }

  /** What the loop does for one message: nothing when it is empty, else SPEAKING, speak, IDLE. */
  function Speech(m: string): seq<Event>
  {
    if m == [] then [] else [StateSet(Speaking), Spoke(m), StateSet(Idle)]
  }

  /** What the loop does with the messages `requests`, in order. */
  function Spoken(requests: seq<string>): seq<Event>
  {
    if requests == [] then [] else Spoken(requests[..|requests| - 1]) + Speech(requests[|requests| - 1])
  }

  /** The protocol is one way: every message is received, in order, and nothing is ever sent back. */
  lemma {:induction false} ListenedTraffic(requests: seq<string>)
    ensures Ins(Listened(requests)) == requests && Outs(Listened(requests)) == []
  {
    if requests != [] {
      var n := |requests| - 1;
      ListenedTraffic(requests[..n]);
      InsAppend(Listened(requests[..n]), [In(requests[n])]);
      OutsAppend(Listened(requests[..n]), [In(requests[n])]);
      assert [In(requests[n])][..0] == [];
      assert requests[..n] + [requests[n]] == requests;
    }
  }

  /**
   * Each non-empty message, and no empty one, is spoken once, in order; the state is
   * SPEAKING right before it is spoken and IDLE right after, and nothing else happens.
   */
  lemma {:induction false} SpeakingRounds(requests: seq<string>)
    ensures var spoken, ev := ActionService.NonEmpty(requests), Spoken(requests);
      |ev| == 3 * |spoken| &&
      forall i :: 0 <= i < |spoken| ==>
        ev[3 * i] == StateSet(Speaking) && ev[3 * i + 1] == Spoke(spoken[i]) && ev[3 * i + 2] == StateSet(Idle)
  {
    if requests != [] {
      var n := |requests| - 1;
      SpeakingRounds(requests[..n]);
      ActionService.NonEmptyLast(requests);
      SpeechAfter(ActionService.NonEmpty(requests[..n]), Spoken(requests[..n]), requests[n]);
    }
  }

  /** One more message keeps the SPEAKING, text, IDLE pattern of SpeakingRounds. */
  lemma SpeechAfter(spoken: seq<string>, ev: seq<Event>, m: string)
    requires |ev| == 3 * |spoken|
    requires forall i :: 0 <= i < |spoken| ==>
      ev[3 * i] == StateSet(Speaking) && ev[3 * i + 1] == Spoke(spoken[i]) && ev[3 * i + 2] == StateSet(Idle)
    ensures var spoken', ev' := spoken + (if |m| > 0 then [m] else []), ev + Speech(m);
      |ev'| == 3 * |spoken'| &&
      forall i :: 0 <= i < |spoken'| ==>
        ev'[3 * i] == StateSet(Speaking) && ev'[3 * i + 1] == Spoke(spoken'[i]) && ev'[3 * i + 2] == StateSet(Idle)
  {
    if |m| > 0 {
      var spoken', ev' := spoken + [m], ev + Speech(m);
      forall i | 0 <= i < |spoken'|
        ensures ev'[3 * i] == StateSet(Speaking) && ev'[3 * i + 1] == Spoke(spoken'[i]) && ev'[3 * i + 2] == StateSet(Idle)
      {
        if i < |spoken| {
          assert ev'[3 * i] == ev[3 * i] && ev'[3 * i + 1] == ev[3 * i + 1] && ev'[3 * i + 2] == ev[3 * i + 2];
        } else {
          assert i == |spoken| && spoken'[i] == m;
        }
      }
    } else {
      assert spoken + [] == spoken && ev + [] == ev;
    }
  }

  /** After any number of messages the actor is IDLE again, whatever it said. */
  lemma SpeakingEndsIdle(requests: seq<string>)
    requires ActionService.NonEmpty(requests) != []
    ensures Spoken(requests) != [] && Spoken(requests)[|Spoken(requests)| - 1] == StateSet(Idle)
  {
    SpeakingRounds(requests);
    var k := |ActionService.NonEmpty(requests)| - 1;
    assert 3 * k + 2 == |Spoken(requests)| - 1;
  }

  class OneWayActionServer {
    const server: ServerBase
    const actionFps: int
    const openseefaceClientIp: string
    const openseefaceClientPort: int
    /** `openseeface_actions`, loaded when the server is built. */
    const openseefaceActions: map<ActionKind, seq<Frame>>
    /** `actor_state`, which the daemon reads. */
    var actorState: ActionKind
    var daemonStarted: bool
    /** The states set and the texts spoken by the communication loop, in order. */
    var events: seq<Event>

    /** `ActionServer(...)`; `dir` is the listing of `actions/openseeface/`. */
    constructor (dir: seq<DirEntry>, actionFps: int, openseefaceClientIp: string, openseefaceClientPort: int, ip: string, port: int)
      ensures fresh(server) && server.serverIp == ip && server.port == port
      ensures server.serverSocket == None && server.clientSocket == null && server.clientIp == None
      ensures this.actionFps == actionFps && this.openseefaceClientIp == openseefaceClientIp
      ensures this.openseefaceClientPort == openseefaceClientPort
      ensures openseefaceActions == LoadActions(dir)
      ensures actorState == Idle && !daemonStarted && events == []
    {
      var actions := InitActions(dir);
      server := new ServerBase(ip, port);
      this.actionFps := actionFps;
      this.openseefaceClientIp, this.openseefaceClientPort := openseefaceClientIp, openseefaceClientPort;
      openseefaceActions := actions;
      actorState, daemonStarted, events := Idle, false, [];
    }

    /** `connect` (written out again in backend_openseeface.py): bind once, poll until ready, accept one peer. */
    method Connect(ready: seq<bool>, peerIp: string)
      modifies server
      ensures server.serverSocket == Some(Address(server.serverIp, server.port))
      ensures FirstReady(ready) < |ready| ==>
        server.clientSocket != null && fresh(server.clientSocket) && server.clientSocket.connected &&
        server.clientSocket.pending == [] && server.clientSocket.io == [] && server.clientIp == Some(peerIp)
      ensures FirstReady(ready) == |ready| ==> server.clientSocket == old(server.clientSocket) && server.clientIp == old(server.clientIp)
    {
      server.Connect(ready, peerIp);
    }

    /** Set `actor_state`, and note it. */
    method SetState(a: ActionKind)
      modifies this
      ensures actorState == a && events == old(events) + [StateSet(a)] && daemonStarted == old(daemonStarted)
    {
      actorState := a;
      events := events + [StateSet(a)];
    }

    /** The body of the loop for a message received: speak it, in the SPEAKING state, unless it is empty. */
    method Handle(m: string)
      modifies this
      ensures events == old(events) + Speech(m) && daemonStarted == old(daemonStarted)
      ensures actorState == if m == [] then old(actorState) else Idle
    {
      if m != [] {
        SetState(Speaking);
        events := events + [Spoke(m)];
        SetState(Idle);
      }
    }

    /**
     * `run`: start the daemon, then for every message of the front end: skip it when empty,
     * else set SPEAKING, speak it, set IDLE. Nothing is sent back. The loop ends when the
     * front end sends nothing more; without a connected front end the first `recv` fails.
     */
    method Run() returns (stop: RecvError)
      modifies this, server.clientSocket
      ensures daemonStarted
      ensures var c := server.clientSocket;
        (c == null || !c.connected) ==>
          stop == NotConnected && events == old(events) && actorState == old(actorState) &&
          (c != null ==> c.pending == old(c.pending) && c.io == old(c.io))
      ensures var c := server.clientSocket;
        c != null && c.connected ==>
          stop == Silent && c.connected && c.pending == [] &&
          c.io == old(c.io) + Listened(old(c.pending)) &&
          events == old(events) + Spoken(old(c.pending)) &&
          actorState == (if ActionService.NonEmpty(old(c.pending)) == [] then old(actorState) else Idle)
    {
      daemonStarted := true;
      var c := server.clientSocket;
      if c == null || !c.connected {
        return NotConnected;
      }
      ghost var k := 0;
      while true
        invariant server.clientSocket == c && c.connected && daemonStarted
        invariant k <= |old(c.pending)| && c.pending == old(c.pending)[k..]
        invariant c.io == old(c.io) + Listened(old(c.pending)[..k])
        invariant events == old(events) + Spoken(old(c.pending)[..k])
        invariant actorState == (if ActionService.NonEmpty(old(c.pending)[..k]) == [] then old(actorState) else Idle)
        decreases |c.pending|
      {
        ghost var io, ev := c.io, events;
        var received := c.Recv();
        if received.Failure? {
          assert old(c.pending)[..k] == old(c.pending);
          return received.error;
        }
        Handle(received.value);
        LoopStep(old(c.pending), k, old(c.io), old(events), io, ev);
        k := k + 1;
      }
    }
  }

  /** One more message in the loop, after the traffic `io0` and the events `ev0` from before the loop. */
  lemma LoopStep(requests: seq<string>, k: nat, io0: seq<Io>, ev0: seq<Event>, io: seq<Io>, ev: seq<Event>)
    requires k < |requests|
    requires io == io0 + Listened(requests[..k]) && ev == ev0 + Spoken(requests[..k])
    ensures io + [In(requests[k])] == io0 + Listened(requests[..k + 1])
    ensures ev + Speech(requests[k]) == ev0 + Spoken(requests[..k + 1])
    ensures ActionService.NonEmpty(requests[..k + 1]) ==
      ActionService.NonEmpty(requests[..k]) + (if requests[k] == [] then [] else [requests[k]])
  {
    assert requests[..k + 1][..k] == requests[..k];
    assert requests[..k + 1] == requests[..k] + [requests[k]];
    ActionService.NonEmptyAppend(requests[..k], [requests[k]]);
    assert ActionService.NonEmpty([requests[k]]) == if requests[k] == [] then [] else [requests[k]];
  }
}
