/**
 * The text-to-speech service (service/text2speech.py) and its two-phase acknowledgement: for
 * every text the server sends a start ack, reads the text aloud, then sends a finish ack; the
 * client sends the text once and receives the two acks one at a time.
 */
module TextToSpeech {
  import opened Wrappers
  import opened Net
  import opened Base

  const DefaultPort: int := 12347
  const StartReading: string := "[START READING]"
  const FinishReading: string := "[FINISH READING]"
  const StopReading: string := "[STOP READING]"
  const AriaVoice: string := "en-US-AriaNeural"

  /** The server classes: `Text2SpeechServerBase`, `Pyttsx3Server`, `EdgettsServer`. */
  datatype Engine = Plain | Pyttsx3 | Edgetts

  /** The voice each class is constructed with by default. */
  function DefaultVoice(engine: Engine): string
  {
    if engine.Edgetts? then AriaVoice else ""
  }

  /** The second ack: the edge-tts server sends a different literal from the other two. */
  function FinishAck(engine: Engine): (ack: string)
    ensures ack != StartReading
    ensures ack == StopReading <==> engine.Edgetts?
  {
    if engine.Edgetts? then StopReading else FinishReading
  }

  /** The server's own log and its audio side effects, in the order they happen. */
  datatype Event =
    | ReceivedLogged(text: string)
    | SentLogged(message: string)
    | Spoke(text: string)                        // pyttsx3.speak(text)
    | Synthesized(text: string, voice: string)   // edge_tts.Communicate(text, voice).save(mp3)
    | Played(text: string)                       // playsound of that mp3

  /** What `_text_to_speech(text)` of each class does, as events. */
  function Handling(engine: Engine, voice: string, text: string): seq<Event>
  {
    match engine
    case Plain => [SentLogged(StartReading), SentLogged(FinishReading)]
    case Pyttsx3 => [SentLogged(StartReading), Spoke(text), SentLogged(FinishReading)]
    case Edgetts => [Synthesized(text, voice), SentLogged(StartReading), Played(text), SentLogged(StopReading)]
  }

  /** The messages among some events that went out on the socket. */
  function SentIn(events: seq<Event>): seq<string>
  {
    if events == [] then []
    else (if events[0].SentLogged? then [events[0].message] else []) + SentIn(events[1..])
  }

  /**
   * Every class sends exactly two messages per text, the start ack first; the audio of
   * pyttsx3 happens strictly between them, and edge-tts synthesises the whole text before the
   * start ack and plays it between the acks.
   */
  lemma HandlingOrder(engine: Engine, voice: string, text: string)
    ensures SentIn(Handling(engine, voice, text)) == [StartReading, FinishAck(engine)]
    ensures engine.Pyttsx3? ==> Handling(engine, voice, text)[1] == Spoke(text)
    ensures engine.Edgetts? ==>
      Handling(engine, voice, text)[0] == Synthesized(text, voice) &&
      Handling(engine, voice, text)[2] == Played(text)
  {
    var h := Handling(engine, voice, text);
    match engine {
      case Plain =>
        SentInCons(SentLogged(FinishReading), []);
        SentInCons(SentLogged(StartReading), [SentLogged(FinishReading)]);
        assert h == [SentLogged(StartReading)] + ([SentLogged(FinishReading)] + []);
      case Pyttsx3 =>
        SentInCons(SentLogged(FinishReading), []);
        SentInCons(Spoke(text), [SentLogged(FinishReading)]);
        SentInCons(SentLogged(StartReading), [Spoke(text), SentLogged(FinishReading)]);
        assert h == [SentLogged(StartReading)] + ([Spoke(text)] + ([SentLogged(FinishReading)] + []));
      case Edgetts =>
        var tail := [Played(text), SentLogged(StopReading)];
        SentInCons(SentLogged(StopReading), []);
        SentInCons(Played(text), [SentLogged(StopReading)]);
        SentInCons(SentLogged(StartReading), tail);
        SentInCons(Synthesized(text, voice), [SentLogged(StartReading)] + tail);
        assert h == [Synthesized(text, voice)] + ([SentLogged(StartReading)] + ([Played(text)] + ([SentLogged(StopReading)] + [])));
    }
  }

  lemma SentInCons(e: Event, rest: seq<Event>)
    ensures SentIn([e] + rest) == (if e.SentLogged? then [e.message] else []) + SentIn(rest)
  {
    assert ([e] + rest)[1..] == rest;
  }

  /** The wire log of a run of the server over the texts `texts`: each text, then its two acks. */
  function Reading(engine: Engine, texts: seq<string>): seq<Io>
  {
    if texts == [] then []
    else
      var n := |texts| - 1;
      Reading(engine, texts[..n]) + [In(texts[n]), Out(StartReading), Out(FinishAck(engine))]
  }

  /** The server's log over such a run: each text received and logged, then handled. */
  function Narration(engine: Engine, voice: string, texts: seq<string>): seq<Event>
  {
    if texts == [] then []
    else
      var n := |texts| - 1;
      Narration(engine, voice, texts[..n]) + [ReceivedLogged(texts[n])] + Handling(engine, voice, texts[n])
  }

  /** One more text served, after the wire log `io` and the server log `log` of earlier runs. */
  lemma RunStep(engine: Engine, voice: string, texts: seq<string>, k: nat, io: seq<Io>, log: seq<Event>)
    requires k < |texts|
    ensures io + Reading(engine, texts[..k + 1]) ==
      io + Reading(engine, texts[..k]) + [In(texts[k])] + [Out(StartReading), Out(FinishAck(engine))]
    ensures log + Narration(engine, voice, texts[..k + 1]) ==
      log + Narration(engine, voice, texts[..k]) + [ReceivedLogged(texts[k])] + Handling(engine, voice, texts[k])
  {
    assert texts[..k + 1][..k] == texts[..k];
  }

  /**
   * The acks never interleave across texts: text k is followed by its start ack and its
   * finish ack before text k + 1 is read, and every text is served, empty ones included.
   */
  lemma {:induction false} ReadingAt(engine: Engine, texts: seq<string>)
    ensures |Reading(engine, texts)| == 3 * |texts|
    ensures forall k :: 0 <= k < |texts| ==>
      Reading(engine, texts)[3 * k] == In(texts[k]) &&
      Reading(engine, texts)[3 * k + 1] == Out(StartReading) &&
      Reading(engine, texts)[3 * k + 2] == Out(FinishAck(engine))
  {
    if texts != [] {
      ReadingAt(engine, texts[..|texts| - 1]);
    }
  }

  lemma RoundOfReading(text: string, finish: string)
    ensures Ins([In(text), Out(StartReading), Out(finish)]) == [text]
    ensures Outs([In(text), Out(StartReading), Out(finish)]) == [StartReading, finish]
  {
    var round := [In(text), Out(StartReading), Out(finish)];
    assert round[..2] == [In(text), Out(StartReading)] && round[..2][..1] == [In(text)];
    assert round[..2][..1][..0] == [];
    assert Ins(round[..2][..1]) == [text] && Outs(round[..2][..1]) == [];
    assert Ins(round[..2]) == [text] && Outs(round[..2]) == [StartReading];
  }

  /** Over a run the server receives every text once and sends two acks per text. */
  lemma {:induction false} ReadingTraffic(engine: Engine, texts: seq<string>)
    ensures Ins(Reading(engine, texts)) == texts
    ensures |Outs(Reading(engine, texts))| == 2 * |texts|
    ensures forall k :: 0 <= k < |texts| ==>
      Outs(Reading(engine, texts))[2 * k] == StartReading && Outs(Reading(engine, texts))[2 * k + 1] == FinishAck(engine)
  {
    if texts != [] {
      var n := |texts| - 1;
      var round := [In(texts[n]), Out(StartReading), Out(FinishAck(engine))];
      ReadingTraffic(engine, texts[..n]);
      InsAppend(Reading(engine, texts[..n]), round);
      OutsAppend(Reading(engine, texts[..n]), round);
      RoundOfReading(texts[n], FinishAck(engine));
      assert texts[..n] + [texts[n]] == texts;
    }
  }

  class Text2SpeechServer {
    const server: ServerBase
    const engine: Engine
    const voice: string
    /** `platform.system() == 'Windows'`. */
    const onWindows: bool
    /** Whether the event loop that asyncio's policy hands out on this thread has been closed. */
    var loopClosed: bool
    var log: seq<Event>

    constructor (engine: Engine, voice: string, ip: string, port: int, onWindows: bool)
      ensures fresh(server) && server.serverIp == ip && server.port == port
      ensures server.serverSocket == None && server.clientSocket == null && server.clientIp == None
      ensures this.engine == engine && this.voice == voice && this.onWindows == onWindows
      ensures !loopClosed && log == []
    {
      server := new ServerBase(ip, port);
      this.engine, this.voice, this.onWindows := engine, voice, onWindows;
      loopClosed, log := false, [];
    }

    method SendLogged(message: string)
      requires server.clientSocket != null && server.clientSocket.connected
      modifies this, server.clientSocket
      ensures server.clientSocket.io == old(server.clientSocket.io) + [Out(message)]
      ensures server.clientSocket.connected && server.clientSocket.pending == old(server.clientSocket.pending)
      ensures log == old(log) + [SentLogged(message)] && loopClosed == old(loopClosed)
    {
      var _ := server.clientSocket.Send(message);
      log := log + [SentLogged(message)];
    }

    /**
     * `_text_to_speech(text)` of the server's class; the edge-tts synthesis runs on an event
     * loop of its own (see EdgeSynthesizeAsWritten for the source's use of the policy's loop).
     */
    method TextToSpeech(text: string)
      requires server.clientSocket != null && server.clientSocket.connected
      modifies this, server.clientSocket
      ensures server.clientSocket.io == old(server.clientSocket.io) + [Out(StartReading), Out(FinishAck(engine))]
      ensures server.clientSocket.connected && server.clientSocket.pending == old(server.clientSocket.pending)
      ensures log == old(log) + Handling(engine, voice, text) && loopClosed == old(loopClosed)
    {
      if engine.Edgetts? {
        log := log + [Synthesized(text, voice)];
      }
      SendLogged(StartReading);
      if engine.Pyttsx3? {
        log := log + [Spoke(text)];
      } else if engine.Edgetts? {
        log := log + [Played(text)];
      }
      SendLogged(FinishAck(engine));
    }

    /**
     * The synthesis step of `EdgettsServer._text_to_speech` as written: it takes the event
     * loop of asyncio's policy and closes it afterwards. Off Windows the policy keeps handing
     * out that closed loop, so every later request raises before anything is sent; on Windows
     * a new policy, and with it a new loop, is installed first each time.
     */
    method EdgeSynthesizeAsWritten(text: string) returns (raised: bool)
      modifies this
      ensures raised == (!onWindows && old(loopClosed))
      ensures raised ==> log == old(log) && loopClosed == old(loopClosed)
      ensures !raised ==> log == old(log) + [Synthesized(text, voice)] && loopClosed
    {
      if !onWindows && loopClosed {
        return true;
      }
      log := log + [Synthesized(text, voice)];
      loopClosed := true;
      raised := false;
    }

    /**
     * `run`: receive a text and handle it, for every message the peer sends; there is no
     * filter on empty messages. The loop ends when the peer sends nothing more; without a
     * connected peer the first `recv` fails.
     */
    method Run() returns (stop: RecvError)
      modifies this, server.clientSocket
      ensures var c := server.clientSocket;
        (c == null || !c.connected) ==>
          stop == NotConnected && log == old(log) && (c != null ==> c.pending == old(c.pending) && c.io == old(c.io))
      ensures var c := server.clientSocket;
        c != null && c.connected ==>
          stop == Silent && c.connected && c.pending == [] &&
          c.io == old(c.io) + Reading(engine, old(c.pending)) &&
          log == old(log) + Narration(engine, voice, old(c.pending))
    {
      var c := server.clientSocket;
      if c == null || !c.connected {
        return NotConnected;
      }
      ghost var k := 0;
      while true
        invariant server.clientSocket == c && c.connected
        invariant k <= |old(c.pending)| && c.pending == old(c.pending)[k..]
        invariant c.io == old(c.io) + Reading(engine, old(c.pending)[..k])
        invariant log == old(log) + Narration(engine, voice, old(c.pending)[..k])
        decreases |c.pending|
      {
        var received := c.Recv();
        if received.Failure? {
          assert old(c.pending)[..k] == old(c.pending);
          return received.error;
        }
        log := log + [ReceivedLogged(received.value)];
        TextToSpeech(received.value);
        RunStep(engine, voice, old(c.pending), k, old(c.io), old(log));
        k := k + 1;
      }
    }
  }

  /**
   * Two requests to an edge-tts server off Windows as written: the first is synthesised, the
   * second raises.
   */
  method EdgeSecondRequestAsWritten() returns (firstRaised: bool, secondRaised: bool)
    ensures !firstRaised && secondRaised
  {
    var tts := new Text2SpeechServer(Edgetts, AriaVoice, "127.0.0.1", DefaultPort, false);
    firstRaised := tts.EdgeSynthesizeAsWritten("Hello.");
    secondRaised := tts.EdgeSynthesizeAsWritten("Hello again.");
  }

  class Text2SpeechClient {
    const client: ClientBase

    constructor (serverIp: string, serverPort: int)
      ensures fresh(client) && fresh(client.socket) && client.serverIp == serverIp && client.serverPort == serverPort
      ensures !client.socket.connected && client.socket.pending == [] && client.socket.io == [] && client.log == []
    {
      client := new ClientBase(serverIp, serverPort);
    }

    /** The first step of the `read_aloud` generator: send the text once, then yield one received message. */
    method ReadAloudStart(text: string) returns (r: Result<string, RecvError>)
      modifies client.socket
      ensures var s := client.socket;
        s.connected == old(s.connected) &&
        (!s.connected ==> r == Failure(NotConnected) && s.pending == old(s.pending) && s.io == old(s.io)) &&
        (s.connected && old(s.pending) == [] ==> r == Failure(Silent) && s.pending == [] && s.io == old(s.io) + [Out(text)]) &&
        (s.connected && old(s.pending) != [] ==>
          r == Success(old(s.pending)[0]) && s.pending == old(s.pending)[1..] &&
          s.io == old(s.io) + [Out(text), In(old(s.pending)[0])])
    {
      r := client.Ask(text);
    }

    /** The second step of `read_aloud`: yield the next received message; nothing is sent. */
    method ReadAloudFinish() returns (r: Result<string, RecvError>)
      modifies client.socket
      ensures var s := client.socket;
        s.connected == old(s.connected) &&
        (!s.connected ==> r == Failure(NotConnected) && s.pending == old(s.pending) && s.io == old(s.io)) &&
        (s.connected && old(s.pending) == [] ==> r == Failure(Silent) && s.pending == [] && s.io == old(s.io)) &&
        (s.connected && old(s.pending) != [] ==>
          r == Success(old(s.pending)[0]) && s.pending == old(s.pending)[1..] && s.io == old(s.io) + [In(old(s.pending)[0])])
    {
      r := client.socket.Recv();
    }
  }
}
