/**
 * The language-model service (service/language_model.py): the server answers every prompt
 * inside one chat session; the client asks for one answer. The GPT4All model is the function
 * `generate`, which gives the reply to a prompt after the session's earlier prompts (sampling
 * at temperature 0 makes it a function of those).
 */
module LanguageModel {
  import opened Wrappers
  import opened Text
  import opened Net
  import opened Base

  /** The default port of the language-model service. */
  const DefaultPort: int := 12345

  /** The prompts the model is given for the messages `requests`: each message stripped. */
  function Prompts(requests: seq<string>): (r: seq<string>)
    ensures |r| == |requests|
  {
    if requests == [] then [] else Prompts(requests[..|requests| - 1]) + [Strip(requests[|requests| - 1])]
  }

  lemma {:induction false} PromptsAt(requests: seq<string>, k: nat)
    requires k < |requests|
    ensures Prompts(requests)[k] == Strip(requests[k]) && IsStripped(Prompts(requests)[k])
  {
    var n := |requests| - 1;
    if k < n {
      PromptsAt(requests[..n], k);
    }
    StripIsStripped(requests[k]);
  }

  /**
   * What the server answers to `message` after the messages `earlier` of the same session:
   * the model's reply to the stripped message in a session of the stripped earlier messages,
   * itself stripped.
   */
  function Reply(generate: (seq<string>, string) -> string): (seq<string>, string) -> string
  {
    (earlier: seq<string>, message: string) => Strip(generate(Prompts(earlier), Strip(message)))
  }

  /**
   * There is no filter on empty messages: a message of white space only reaches the model as
   * the empty prompt, and its reply is sent like any other.
   */
  lemma BlankMessageReachesModel(generate: (seq<string>, string) -> string, earlier: seq<string>, message: string)
    requires AllSpace(message)
    ensures Reply(generate)(earlier, message) == Strip(generate(Prompts(earlier), []))
  {
    StripEmptyIffAllSpace(message);
  }

  /**
   * The server's traffic over a run: every message received once, in order, and one reply
   * to it, without surrounding white space, sent before the next message is read; the reply
   * is the model's answer to the stripped message in the session of the messages before it.
   */
  lemma RunTraffic(generate: (seq<string>, string) -> string, messages: seq<string>)
    ensures Ins(Served(Reply(generate), messages)) == messages
    ensures var out := Outs(Served(Reply(generate), messages));
      |out| == |messages| &&
      forall k :: 0 <= k < |messages| ==>
        out[k] == Strip(generate(Prompts(messages[..k]), Strip(messages[k]))) && IsStripped(out[k])
    ensures |Served(Reply(generate), messages)| == 2 * |messages|
    ensures forall k :: 0 <= k < |messages| ==>
      Served(Reply(generate), messages)[2 * k] == In(messages[k]) &&
      Served(Reply(generate), messages)[2 * k + 1].Out?
  {
    ServedTraffic(Reply(generate), messages);
    ServedAt(Reply(generate), messages);
    forall k | 0 <= k < |messages|
      ensures Replies(Reply(generate), messages)[k] == Strip(generate(Prompts(messages[..k]), Strip(messages[k])))
      ensures IsStripped(Replies(Reply(generate), messages)[k])
    {
      RepliesAt(Reply(generate), messages, k);
      StripIsStripped(generate(Prompts(messages[..k]), Strip(messages[k])));
    }
  }

  /** The session the model sees after a run: the stripped messages, in order. */
  lemma SessionPrompts(messages: seq<string>)
    ensures forall k :: 0 <= k < |messages| ==> Prompts(messages)[k] == Strip(messages[k])
  {
    forall k | 0 <= k < |messages|
      ensures Prompts(messages)[k] == Strip(messages[k])
    {
      PromptsAt(messages, k);
    }
  }

  class LanguageModelServer {
    const server: ServerBase
    const generate: (seq<string>, string) -> string

    constructor (ip: string, port: int, generate: (seq<string>, string) -> string)
      ensures fresh(server) && server.serverIp == ip && server.port == port
      ensures server.serverSocket == None && server.clientSocket == null && server.clientIp == None
      ensures this.generate == generate
    {
      server := new ServerBase(ip, port);
      this.generate := generate;
    }

    /**
     * `run`: inside one chat session, receive a message, strip it, generate, strip the reply
     * and send it, for every message the peer sends. The loop ends when the peer sends
     * nothing more; without a connected peer the first `recv` fails.
     */
    method Run() returns (stop: RecvError)
      modifies server.clientSocket
      ensures var c := server.clientSocket;
        (c == null || !c.connected) ==>
          stop == NotConnected && (c != null ==> c.pending == old(c.pending) && c.io == old(c.io))
      ensures var c := server.clientSocket;
        c != null && c.connected ==>
          stop == Silent && c.connected && c.pending == [] &&
          c.io == old(c.io) + Served(Reply(generate), old(c.pending))
    {
      if server.clientSocket == null {
        return NotConnected;
      }
      stop := Serve(server.clientSocket, Reply(generate));
    }
  }

  class LanguageModelClient {
    const client: ClientBase

    constructor (serverIp: string, serverPort: int)
      ensures fresh(client) && fresh(client.socket) && client.serverIp == serverIp && client.serverPort == serverPort
      ensures !client.socket.connected && client.socket.pending == [] && client.socket.io == [] && client.log == []
    {
      client := new ClientBase(serverIp, serverPort);
    }

    /** `get_answer`: send the prompt once and return the one reply unchanged. */
    method GetAnswer(prompt: string) returns (r: Result<string, RecvError>)
      modifies client.socket
      ensures var s := client.socket;
        s.connected == old(s.connected) &&
        (!s.connected ==> r == Failure(NotConnected) && s.pending == old(s.pending) && s.io == old(s.io)) &&
        (s.connected && old(s.pending) == [] ==> r == Failure(Silent) && s.pending == [] && s.io == old(s.io) + [Out(prompt)]) &&
        (s.connected && old(s.pending) != [] ==>
          r == Success(old(s.pending)[0]) && s.pending == old(s.pending)[1..] &&
          s.io == old(s.io) + [Out(prompt), In(old(s.pending)[0])])
    {
      r := client.Ask(prompt);
    }
  }
}
