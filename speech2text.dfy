/**
 * The speech-to-text service (service/speech2text.py): the server receives the path of a WAV
 * file, transcribes it and answers with the text; the client asks for one transcript.
 * The Whisper model is the function `transcribe`, from a path to the recognised segments.
 */
module SpeechToText {
  import opened Wrappers
  import opened Text
  import opened Net
  import opened Base

  /** The sentinel the server answers with when nothing was said. */
  const EmptySpeech: string := "[EMPTY SPEECH]"

  /** One recognised segment of speech. */
  datatype Segment = Segment(text: string)

  /** `''.join([seg.text for seg in segments])`. */
  function Join(segments: seq<Segment>): string
  {
    if segments == [] then [] else Join(segments[..|segments| - 1]) + segments[|segments| - 1].text
  }

  lemma {:induction false} JoinAppend(a: seq<Segment>, b: seq<Segment>)
    ensures Join(a + b) == Join(a) + Join(b)
    decreases |b|
  {
    if b == [] {
      assert a + b == a;
    } else {
      assert (a + b)[..|a + b| - 1] == a + b[..|b| - 1];
      JoinAppend(a, b[..|b| - 1]);
    }
  }

  /** The segment texts appear in the joined text in segment order, each right after the ones before it. */
  lemma JoinInOrder(segments: seq<Segment>, k: nat)
    requires k < |segments|
    ensures var pre := Join(segments[..k]);
      |pre| + |segments[k].text| <= |Join(segments)| &&
      Join(segments)[|pre|..|pre| + |segments[k].text|] == segments[k].text
  {
    assert segments == segments[..k] + [segments[k]] + segments[k + 1..];
    JoinAppend(segments[..k] + [segments[k]], segments[k + 1..]);
    JoinAppend(segments[..k], [segments[k]]);
    assert Join([segments[k]]) == segments[k].text by {
      assert [segments[k]][..0] == [];
    }
  }

  /**
   * `_speech_to_text` on the segments of one file: the joined text with the surrounding
   * whitespace removed, or the sentinel when that leaves nothing. Never empty, never with
   * surrounding whitespace.
   */
  function Transcript(segments: seq<Segment>): (r: string)
    ensures r != [] && IsStripped(r)
  {
    var j := Join(segments);
    StripIsStripped(j);
    SentinelStripped();
    if Strip(j) == [] then EmptySpeech else Strip(j)
  }

  /**
   * What a transcript is: the sentinel when the joined text is all white space, otherwise the
   * joined text less the white space at its two ends.
   */
  lemma TranscriptOfJoin(segments: seq<Segment>)
    ensures var j, r := Join(segments), Transcript(segments);
      (AllSpace(j) ==> r == EmptySpeech) &&
      (!AllSpace(j) ==>
        var i, e := StripStart(j), StripEnd(j);
        r == j[i..e] && SpaceBetween(j, 0, i) && SpaceBetween(j, e, |j|))
  {
    StripEmptyIffAllSpace(Join(segments));
    StripIsInfix(Join(segments));
  }

  lemma SentinelStripped()
    ensures EmptySpeech != [] && IsStripped(EmptySpeech)
  {
    assert EmptySpeech[0] == '[' && EmptySpeech[|EmptySpeech| - 1] == ']';
  }

  /**
   * The sentinel is ambiguous: the client cannot tell silence from speech that was
   * transcribed as the sentinel's own text.
   */
  lemma TranscriptSentinel(segments: seq<Segment>)
    ensures Transcript(segments) == EmptySpeech <==> AllSpace(Join(segments)) || Strip(Join(segments)) == EmptySpeech
  {
    StripEmptyIffAllSpace(Join(segments));
  }

  /** Transcribing again changes nothing: a transcript is its own transcript. */
  lemma TranscriptIdempotent(segments: seq<Segment>)
    ensures Transcript([Segment(Transcript(segments))]) == Transcript(segments)
  {
    var t := Transcript(segments);
    assert Join([Segment(t)]) == t by {
      assert [Segment(t)][..0] == [];
    }
    assert t[0..|t|] == t;
    StripUnique(t, 0, |t|);
    StripEmptyIffAllSpace(t);
  }

  /** What the server answers to a path, whatever it was asked before. */
  function Reply(transcribe: string -> seq<Segment>): (seq<string>, string) -> string
  {
    (earlier: seq<string>, path: string) => Transcript(transcribe(path))
  }

  /**
   * The server's traffic over a run: every path received once, in order, and one non-empty
   * transcript of that path sent before the next path is read.
   */
  lemma RunTraffic(transcribe: string -> seq<Segment>, paths: seq<string>)
    ensures Ins(Served(Reply(transcribe), paths)) == paths
    ensures var out := Outs(Served(Reply(transcribe), paths));
      |out| == |paths| && forall k :: 0 <= k < |paths| ==> out[k] == Transcript(transcribe(paths[k])) && out[k] != []
    ensures |Served(Reply(transcribe), paths)| == 2 * |paths|
    ensures forall k :: 0 <= k < |paths| ==>
      Served(Reply(transcribe), paths)[2 * k] == In(paths[k]) &&
      Served(Reply(transcribe), paths)[2 * k + 1] == Out(Transcript(transcribe(paths[k])))
  {
    ServedTraffic(Reply(transcribe), paths);
    ServedAt(Reply(transcribe), paths);
    forall k | 0 <= k < |paths|
      ensures Replies(Reply(transcribe), paths)[k] == Transcript(transcribe(paths[k]))
    {
      RepliesAt(Reply(transcribe), paths, k);
    }
  }

  class Speech2TextServer {
    const server: ServerBase
    const transcribe: string -> seq<Segment>

    constructor (ip: string, port: int, transcribe: string -> seq<Segment>)
      ensures fresh(server) && server.serverIp == ip && server.port == port
      ensures server.serverSocket == None && server.clientSocket == null && server.clientIp == None
      ensures this.transcribe == transcribe
    {
      server := new ServerBase(ip, port);
      this.transcribe := transcribe;
    }

    /**
     * `run`: receive a path, answer with its transcript, for every message the peer sends;
     * there is no filter on empty messages. The loop ends when the peer sends nothing more;
     * without a connected peer the first `recv` fails.
     */
    method Run() returns (stop: RecvError)
      modifies server.clientSocket
      ensures var c := server.clientSocket;
        (c == null || !c.connected) ==>
          stop == NotConnected && (c != null ==> c.pending == old(c.pending) && c.io == old(c.io))
      ensures var c := server.clientSocket;
        c != null && c.connected ==>
          stop == Silent && c.connected && c.pending == [] &&
          c.io == old(c.io) + Served(Reply(transcribe), old(c.pending))
    {
      if server.clientSocket == null {
        return NotConnected;
      }
      stop := Serve(server.clientSocket, Reply(transcribe));
    }
  }

  /** The default port of the speech-to-text service. */
  const DefaultPort: int := 12344

  class Speech2TextClient {
    const client: ClientBase

    constructor (serverIp: string, serverPort: int)
      ensures fresh(client) && fresh(client.socket) && client.serverIp == serverIp && client.serverPort == serverPort
      ensures !client.socket.connected && client.socket.pending == [] && client.socket.io == [] && client.log == []
    {
      client := new ClientBase(serverIp, serverPort);
    }

    /** `get_text`: send the path once and return the one reply unchanged. */
    method GetText(wavFilePath: string) returns (r: Result<string, RecvError>)
      modifies client.socket
      ensures var s := client.socket;
        s.connected == old(s.connected) &&
        (!s.connected ==> r == Failure(NotConnected) && s.pending == old(s.pending) && s.io == old(s.io)) &&
        (s.connected && old(s.pending) == [] ==> r == Failure(Silent) && s.pending == [] && s.io == old(s.io) + [Out(wavFilePath)]) &&
        (s.connected && old(s.pending) != [] ==>
          r == Success(old(s.pending)[0]) && s.pending == old(s.pending)[1..] &&
          s.io == old(s.io) + [Out(wavFilePath), In(old(s.pending)[0])])
    {
      r := client.Ask(wavFilePath);
    }
  }
}
