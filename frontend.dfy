/**
 * The command-line front ends (app-cli.py, and `TalkyTalkyCLI` with `start_services` in app.py):
 * which text-to-speech server is started, where the servers' output goes, and what one turn of
 * a conversation asks of the services. A voice turn records while the space key is held; if
 * anything was recorded it asks the speech-to-text service for a transcript, asks the language
 * model for an answer unless the transcript is the empty-speech sentinel (then the answer is a
 * fixed apology), and always has the action service react to the answer. A keyboard turn asks
 * the language model about any non-empty typed line and has the action service react to it.
 *
 * The front end sees each service through its reply: `stt` maps the path of a recording to the
 * transcript the speech-to-text service sends back, and `lm` maps the prompts it was sent
 * before and the new prompt to the language model's answer.
 */
module Frontend {
  import opened Wrappers
  import opened Frames
  import opened TextToSpeech
  import opened SpeechToText
  import opened ActionService
  import Text

  /** The answer a turn uses when the transcript is the empty-speech sentinel. */
  const Apology: string := "Sorry, I can't hear you clearly. Please try again."

  /** One request of the front end to a service, in the order they are made. */
  datatype Call =
    | GetText(wavPath: string)   // speech2text_client.get_text
    | GetAnswer(prompt: string)  // language_model_client.get_answer
    | ReactTo(answer: string)    // action_client.react_to

  /** The chunks read from the microphone during one turn, and where they were saved. */
  datatype Recording = Recording(chunks: seq<seq<byte>>, wavPath: string)

  // ---------------------------------------------------------------- start-up configuration

  /**
   * The text-to-speech server class `app-cli.py` and `start_services` choose from the
   * `--tts-engine` option: `"pyttsx3"` gives the pyttsx3 server and anything else, `"edge-tts"`
   * or not, the edge-tts server.
   */
  function CliEngine(name: string): (e: Engine)
    ensures e == Pyttsx3 <==> name == "pyttsx3"
    ensures e == Edgetts <==> name != "pyttsx3"
  {
    if name == "pyttsx3" then Pyttsx3
    else if name == "edge-tts" then Edgetts
    else Edgetts
  }

  /** `log_redirect_to`: `None` with `--noecho-server-log`, `"stdout"` otherwise. */
  function LogRedirect(noecho: bool): (r: Option<string>)
    ensures r == None <==> noecho
    ensures r.Some? ==> r.value == "stdout"
  {
    if noecho then None else Some("stdout")
  }

  /**
   * Whether `run_server` leaves a server process printing: it silences `sys.stdout` for `None`
   * and restores the terminal for `"stdout"` and for every other string.
   */
  function Echoes(redirect: Option<string>): (echo: bool)
    ensures echo <==> redirect.Some?
  {
    if redirect == Some("stdout") then true
    else if redirect == None then false
    else true
  }

  /** Servers print exactly when the option to silence them was not given. */
  lemma ServersEchoUnlessSilenced(noecho: bool)
    ensures Echoes(LogRedirect(noecho)) <==> !noecho
  {
  }

  /**
   * What `TalkyTalkyCLI.run` starts for the `--user-input` option. The command line accepts
   * only `voice` and `keyboard` (`choices` at app.py:41-45), so `NoMode` arises only when the
   * class is driven from code.
   */
  datatype Mode = VoiceMode | KeyboardMode | NoMode

  function Dispatch(userInput: string): (m: Mode)
    ensures m == VoiceMode <==> userInput == "voice"
    ensures m == KeyboardMode <==> userInput == "keyboard"
    ensures m == NoMode <==> userInput != "voice" && userInput != "keyboard"
  {
    if userInput == "voice" then VoiceMode
    else if userInput == "keyboard" then KeyboardMode
    else NoMode
  }

  // ---------------------------------------------------------------- what the turns ask for

  /** The prompts among some calls that went to the language model, in order. */
  function Asked(calls: seq<Call>): seq<string>
  {
    if calls == [] then []
    else Asked(calls[..|calls| - 1]) + (if calls[|calls| - 1].GetAnswer? then [calls[|calls| - 1].prompt] else [])
  }

  lemma {:induction false} AskedAppend(a: seq<Call>, b: seq<Call>)
    ensures Asked(a + b) == Asked(a) + Asked(b)
    decreases |b|
  {
    if b == [] {
      assert a + b == a;
    } else {
      assert (a + b)[..|a + b| - 1] == a + b[..|b| - 1];
      AskedAppend(a, b[..|b| - 1]);
    }
  }

  /** The answers among some calls that were handed to the action service, in order. */
  function Reactions(calls: seq<Call>): seq<string>
  {
    if calls == [] then []
    else Reactions(calls[..|calls| - 1]) + (if calls[|calls| - 1].ReactTo? then [calls[|calls| - 1].answer] else [])
  }

  lemma {:induction false} ReactionsAppend(a: seq<Call>, b: seq<Call>)
    ensures Reactions(a + b) == Reactions(a) + Reactions(b)
    decreases |b|
  {
    if b == [] {
      assert a + b == a;
    } else {
      assert (a + b)[..|a + b| - 1] == a + b[..|b| - 1];
      ReactionsAppend(a, b[..|b| - 1]);
    }
  }

  /** One voice turn, after `earlier` prompts went to the language model in this session. */
  function VoiceTurnCalls(recorded: nat, wavPath: string, stt: string -> string,
                          lm: (seq<string>, string) -> string, earlier: seq<string>): seq<Call>
  {
    if recorded == 0 then []
    else
      var prompt := stt(wavPath);
      if prompt == EmptySpeech then [GetText(wavPath), ReactTo(Apology)]
      else [GetText(wavPath), GetAnswer(prompt), ReactTo(lm(earlier, prompt))]
  }

  /** The calls of a sequence of voice turns, after `asked0` prompts went to the language model. */
  function VoiceCalls(turns: seq<Recording>, stt: string -> string,
                      lm: (seq<string>, string) -> string, asked0: seq<string>): seq<Call>
  {
    if turns == [] then []
    else
      var prev := VoiceCalls(turns[..|turns| - 1], stt, lm, asked0);
      var last := turns[|turns| - 1];
      prev + VoiceTurnCalls(|last.chunks|, last.wavPath, stt, lm, asked0 + Asked(prev))
  }

  /** One keyboard turn for a typed line. */
  function TypedTurnCalls(prompt: string, lm: (seq<string>, string) -> string, earlier: seq<string>): seq<Call>
  {
    if |prompt| > 0 then [GetAnswer(prompt), ReactTo(lm(earlier, prompt))] else []
  }

  function TypedCalls(prompts: seq<string>, lm: (seq<string>, string) -> string, asked0: seq<string>): seq<Call>
  {
    if prompts == [] then []
    else
      var prev := TypedCalls(prompts[..|prompts| - 1], lm, asked0);
      prev + TypedTurnCalls(prompts[|prompts| - 1], lm, asked0 + Asked(prev))
  }

  // ---------------------------------------------------------------- properties of the turns

  lemma CallsOne(c: Call)
    ensures Asked([c]) == (if c.GetAnswer? then [c.prompt] else [])
    ensures Reactions([c]) == (if c.ReactTo? then [c.answer] else [])
  {
    assert [c][..0] == [];
  }

  /** The prompts and reactions of one voice turn and of one keyboard turn. */
  lemma VoiceTurnFacts(recorded: nat, wavPath: string, stt: string -> string,
                       lm: (seq<string>, string) -> string, earlier: seq<string>)
    ensures var t := VoiceTurnCalls(recorded, wavPath, stt, lm, earlier);
      (t == [] <==> recorded == 0) &&
      Asked(t) == (if recorded > 0 && stt(wavPath) != EmptySpeech then [stt(wavPath)] else []) &&
      Reactions(t) == (if recorded == 0 then []
                       else if stt(wavPath) == EmptySpeech then [Apology]
                       else [lm(earlier, stt(wavPath))])
  {
    if recorded > 0 {
      var p := stt(wavPath);
      var a, r := GetText(wavPath), ReactTo(if p == EmptySpeech then Apology else lm(earlier, p));
      CallsOne(a);
      CallsOne(r);
      if p == EmptySpeech {
        assert VoiceTurnCalls(recorded, wavPath, stt, lm, earlier) == [a] + [r];
        AskedAppend([a], [r]);
        ReactionsAppend([a], [r]);
      } else {
        var q := GetAnswer(p);
        CallsOne(q);
        assert VoiceTurnCalls(recorded, wavPath, stt, lm, earlier) == [a] + [q] + [r];
        AskedAppend([a], [q]);
        AskedAppend([a] + [q], [r]);
        ReactionsAppend([a], [q]);
        ReactionsAppend([a] + [q], [r]);
      }
    }
  }

  lemma TypedTurnFacts(prompt: string, lm: (seq<string>, string) -> string, earlier: seq<string>)
    ensures var t := TypedTurnCalls(prompt, lm, earlier);
      Asked(t) == (if |prompt| > 0 then [prompt] else []) &&
      Reactions(t) == (if |prompt| > 0 then [lm(earlier, prompt)] else []) &&
      forall c :: c in t ==> !c.GetText?
  {
    if |prompt| > 0 {
      var q, r := GetAnswer(prompt), ReactTo(lm(earlier, prompt));
      CallsOne(q);
      CallsOne(r);
      assert TypedTurnCalls(prompt, lm, earlier) == [q] + [r];
      AskedAppend([q], [r]);
      ReactionsAppend([q], [r]);
    }
  }

  /** The recorded turns' transcripts other than the sentinel: the prompts the language model gets. */
  function HeardPrompts(turns: seq<Recording>, stt: string -> string): seq<string>
  {
    if turns == [] then []
    else
      var last := turns[|turns| - 1];
      HeardPrompts(turns[..|turns| - 1], stt) +
        (if |last.chunks| > 0 && stt(last.wavPath) != EmptySpeech then [stt(last.wavPath)] else [])
  }

  /** The turns that recorded something. */
  function RecordedTurns(turns: seq<Recording>): seq<Recording>
  {
    if turns == [] then []
    else RecordedTurns(turns[..|turns| - 1]) + (if |turns[|turns| - 1].chunks| > 0 then [turns[|turns| - 1]] else [])
  }

  /**
   * A voice session: the language model gets exactly the non-sentinel transcripts of the
   * recorded turns, in order, and there is one `react_to` per recorded turn and none for a turn
   * that recorded nothing.
   */
  lemma {:induction false} VoiceSessionCalls(turns: seq<Recording>, stt: string -> string,
                                             lm: (seq<string>, string) -> string, asked0: seq<string>)
    ensures Asked(VoiceCalls(turns, stt, lm, asked0)) == HeardPrompts(turns, stt)
    ensures |Reactions(VoiceCalls(turns, stt, lm, asked0))| == |RecordedTurns(turns)|
  {
    if turns != [] {
      var prev := VoiceCalls(turns[..|turns| - 1], stt, lm, asked0);
      var last := turns[|turns| - 1];
      var t := VoiceTurnCalls(|last.chunks|, last.wavPath, stt, lm, asked0 + Asked(prev));
      VoiceSessionCalls(turns[..|turns| - 1], stt, lm, asked0);
      VoiceTurnFacts(|last.chunks|, last.wavPath, stt, lm, asked0 + Asked(prev));
      AskedAppend(prev, t);
      ReactionsAppend(prev, t);
    }
  }

  /** A keyboard session asks the language model about exactly the non-empty lines typed, in order, and never transcribes. */
  lemma TypedSessionCalls(prompts: seq<string>, lm: (seq<string>, string) -> string, asked0: seq<string>)
    ensures Asked(TypedCalls(prompts, lm, asked0)) == NonEmpty(prompts)
    ensures |Reactions(TypedCalls(prompts, lm, asked0))| == |NonEmpty(prompts)|
    ensures forall c :: c in TypedCalls(prompts, lm, asked0) ==> !c.GetText?
  {
    TypedSessionAsked(prompts, lm, asked0);
    TypedSessionReactions(prompts, lm, asked0);
    TypedSessionNoText(prompts, lm, asked0);
  }

  lemma {:induction false} TypedSessionAsked(prompts: seq<string>, lm: (seq<string>, string) -> string, asked0: seq<string>)
    ensures Asked(TypedCalls(prompts, lm, asked0)) == NonEmpty(prompts)
  {
    if prompts != [] {
      var init, p := prompts[..|prompts| - 1], prompts[|prompts| - 1];
      var prev := TypedCalls(init, lm, asked0);
      var t := TypedTurnCalls(p, lm, asked0 + Asked(prev));
      assert TypedCalls(prompts, lm, asked0) == prev + t;
      TypedSessionAsked(init, lm, asked0);
      TypedTurnFacts(p, lm, asked0 + Asked(prev));
      AskedAppend(prev, t);
      NonEmptyLast(prompts);
    }
  }

  lemma {:induction false} TypedSessionReactions(prompts: seq<string>, lm: (seq<string>, string) -> string, asked0: seq<string>)
    ensures |Reactions(TypedCalls(prompts, lm, asked0))| == |NonEmpty(prompts)|
  {
    if prompts != [] {
      var init, p := prompts[..|prompts| - 1], prompts[|prompts| - 1];
      var prev := TypedCalls(init, lm, asked0);
      var t := TypedTurnCalls(p, lm, asked0 + Asked(prev));
      assert TypedCalls(prompts, lm, asked0) == prev + t;
      TypedSessionReactions(init, lm, asked0);
      TypedTurnFacts(p, lm, asked0 + Asked(prev));
      ReactionsAppend(prev, t);
      NonEmptyLast(prompts);
    }
  }

  lemma {:induction false} TypedSessionNoText(prompts: seq<string>, lm: (seq<string>, string) -> string, asked0: seq<string>)
    ensures forall c :: c in TypedCalls(prompts, lm, asked0) ==> !c.GetText?
  {
    if prompts != [] {
      var init, p := prompts[..|prompts| - 1], prompts[|prompts| - 1];
      var prev := TypedCalls(init, lm, asked0);
      var t := TypedTurnCalls(p, lm, asked0 + Asked(prev));
      assert TypedCalls(prompts, lm, asked0) == prev + t;
      TypedSessionNoText(init, lm, asked0);
      TypedTurnFacts(p, lm, asked0 + Asked(prev));
    }
  }

  /**
   * The order of the calls of a voice session, in three parts. Every `get_text` is followed by
   * a `get_answer` or a `react_to`, and the session ends after a `react_to`:
   */
  ghost predicate TextsFollowed(calls: seq<Call>)
  {
    (calls == [] || calls[|calls| - 1].ReactTo?) &&
    forall i :: 0 <= i < |calls| && calls[i].GetText? ==>
      i + 1 < |calls| && (calls[i + 1].GetAnswer? || calls[i + 1].ReactTo?)
  }

  /**
   * every `get_answer` comes right after a `get_text`, is given the transcript that came back,
   * which is not the sentinel, and is followed by a `react_to`:
   */
  ghost predicate AnswersFollowed(calls: seq<Call>, stt: string -> string)
  {
    forall i :: 0 <= i < |calls| && calls[i].GetAnswer? ==>
      0 < i && i + 1 < |calls| && calls[i - 1].GetText? && calls[i + 1].ReactTo? &&
      calls[i].prompt == stt(calls[i - 1].wavPath) && calls[i].prompt != EmptySpeech
  }

  /**
   * and every `react_to` is given either the language model's answer to the prompt just sent,
   * given the prompts sent before it, or the apology right after a transcript that was the sentinel.
   */
  ghost predicate ReactionsJustified(calls: seq<Call>, stt: string -> string, lm: (seq<string>, string) -> string, asked0: seq<string>)
  {
    forall i :: 0 <= i < |calls| && calls[i].ReactTo? ==> Justified(calls, i, stt, lm, asked0)
  }

  ghost predicate Justified(calls: seq<Call>, i: int, stt: string -> string, lm: (seq<string>, string) -> string, asked0: seq<string>)
  {
    0 < i < |calls| && calls[i].ReactTo? &&
    ((calls[i - 1].GetAnswer? && calls[i].answer == lm(asked0 + Asked(calls[..i - 1]), calls[i - 1].prompt)) ||
     (calls[i - 1].GetText? && stt(calls[i - 1].wavPath) == EmptySpeech && calls[i].answer == Apology))
  }

  lemma TextsFollowedAppend(prev: seq<Call>, t: seq<Call>, recorded: nat, wavPath: string, stt: string -> string,
                            lm: (seq<string>, string) -> string, earlier: seq<string>)
    requires TextsFollowed(prev) && t == VoiceTurnCalls(recorded, wavPath, stt, lm, earlier)
    ensures TextsFollowed(prev + t)
  {
    var c, n := prev + t, |prev|;
    forall i | 0 <= i < |c| && c[i].GetText?
      ensures i + 1 < |c| && (c[i + 1].GetAnswer? || c[i + 1].ReactTo?)
    {
      if i < n {
        assert c[i] == prev[i] && i + 1 < n && c[i + 1] == prev[i + 1];
      } else {
        assert i == n && c[n + 1] == t[1];
      }
    }
  }

  lemma AnswersFollowedAppend(prev: seq<Call>, t: seq<Call>, recorded: nat, wavPath: string, stt: string -> string,
                              lm: (seq<string>, string) -> string, earlier: seq<string>)
    requires AnswersFollowed(prev, stt) && (prev == [] || prev[|prev| - 1].ReactTo?)
    requires t == VoiceTurnCalls(recorded, wavPath, stt, lm, earlier)
    ensures AnswersFollowed(prev + t, stt)
  {
    var c, n := prev + t, |prev|;
    forall i | 0 <= i < |c| && c[i].GetAnswer?
      ensures 0 < i && i + 1 < |c| && c[i - 1].GetText? && c[i + 1].ReactTo? &&
        c[i].prompt == stt(c[i - 1].wavPath) && c[i].prompt != EmptySpeech
    {
      if i < n {
        assert c[i] == prev[i] && c[i - 1] == prev[i - 1] && i + 1 < n && c[i + 1] == prev[i + 1];
      } else {
        assert i == n + 1 && c[n] == t[0] && c[n + 2] == t[2];
      }
    }
  }

  lemma JustifiedEarlier(prev: seq<Call>, t: seq<Call>, i: nat, stt: string -> string,
                         lm: (seq<string>, string) -> string, asked0: seq<string>)
    requires i < |prev| && Justified(prev, i, stt, lm, asked0)
    ensures Justified(prev + t, i, stt, lm, asked0)
  {
    var c := prev + t;
    assert c[..i - 1] == prev[..i - 1];
    assert c[i - 1] == prev[i - 1] && c[i] == prev[i];
  }

  lemma JustifiedInTurn(prev: seq<Call>, recorded: nat, wavPath: string, stt: string -> string,
                        lm: (seq<string>, string) -> string, asked0: seq<string>)
    requires recorded > 0
    ensures var t := VoiceTurnCalls(recorded, wavPath, stt, lm, asked0 + Asked(prev));
      Justified(prev + t, |prev + t| - 1, stt, lm, asked0)
  {
    var p := stt(wavPath);
    var g := GetText(wavPath);
    if p == EmptySpeech {
      var c := prev + [g, ReactTo(Apology)];
      assert c[|c| - 2] == g;
    } else {
      var q := lm(asked0 + Asked(prev), p);
      var c := prev + [g, GetAnswer(p), ReactTo(q)];
      var i := |c| - 1;
      assert c[..i - 1] == prev + [g];
      AskedAppend(prev, [g]);
      CallsOne(g);
      assert c[i - 1] == GetAnswer(p) && c[i] == ReactTo(q);
      assert Asked(c[..i - 1]) == Asked(prev);
    }
  }

  lemma ReactionsJustifiedAppend(prev: seq<Call>, t: seq<Call>, recorded: nat, wavPath: string, stt: string -> string,
                                 lm: (seq<string>, string) -> string, asked0: seq<string>)
    requires ReactionsJustified(prev, stt, lm, asked0)
    requires t == VoiceTurnCalls(recorded, wavPath, stt, lm, asked0 + Asked(prev))
    ensures ReactionsJustified(prev + t, stt, lm, asked0)
  {
    var c, n := prev + t, |prev|;
    forall i | 0 <= i < |c| && c[i].ReactTo?
      ensures Justified(c, i, stt, lm, asked0)
    {
      if i < n {
        assert c[i] == prev[i];
        JustifiedEarlier(prev, t, i, stt, lm, asked0);
      } else {
        assert i == |c| - 1;
        JustifiedInTurn(prev, recorded, wavPath, stt, lm, asked0);
      }
    }
  }

  /** The calls of every voice session are in the order TextsFollowed, AnswersFollowed and ReactionsJustified describe. */
  lemma {:induction false} VoiceSessionOrdered(turns: seq<Recording>, stt: string -> string,
                                               lm: (seq<string>, string) -> string, asked0: seq<string>)
    ensures var calls := VoiceCalls(turns, stt, lm, asked0);
      TextsFollowed(calls) && AnswersFollowed(calls, stt) && ReactionsJustified(calls, stt, lm, asked0)
  {
    if turns != [] {
      var last := turns[|turns| - 1];
      var prev := VoiceCalls(turns[..|turns| - 1], stt, lm, asked0);
      var t := VoiceTurnCalls(|last.chunks|, last.wavPath, stt, lm, asked0 + Asked(prev));
      VoiceSessionOrdered(turns[..|turns| - 1], stt, lm, asked0);
      TextsFollowedAppend(prev, t, |last.chunks|, last.wavPath, stt, lm, asked0 + Asked(prev));
      AnswersFollowedAppend(prev, t, |last.chunks|, last.wavPath, stt, lm, asked0 + Asked(prev));
      ReactionsJustifiedAppend(prev, t, |last.chunks|, last.wavPath, stt, lm, asked0);
    }
  }

  /**
   * With the speech-to-text service of this model behind the front end, the language model is
   * never asked about an empty prompt, and a turn reacts with the apology exactly when what was
   * said was only white space or stripped to the sentinel's own text, or the model itself
   * answered with the apology's words.
   */
  lemma VoiceTurnWithService(recorded: nat, wavPath: string, transcribe: string -> seq<Segment>,
                             lm: (seq<string>, string) -> string, earlier: seq<string>)
    requires recorded > 0
    ensures var stt := (p: string) => Transcript(transcribe(p));
      var t := VoiceTurnCalls(recorded, wavPath, stt, lm, earlier);
      (forall c :: c in t && c.GetAnswer? ==> c.prompt != []) &&
      (t[|t| - 1] == ReactTo(Apology) <==>
        Text.AllSpace(Join(transcribe(wavPath))) || Text.Strip(Join(transcribe(wavPath))) == EmptySpeech ||
        lm(earlier, Transcript(transcribe(wavPath))) == Apology)
  {
    TranscriptSentinel(transcribe(wavPath));
  }

  /** A voice step of the loop: the calls of one more turn. */
  lemma VoiceCallsStep(turns: seq<Recording>, k: nat, stt: string -> string,
                       lm: (seq<string>, string) -> string, asked0: seq<string>)
    requires k < |turns|
    ensures VoiceCalls(turns[..k + 1], stt, lm, asked0) ==
      VoiceCalls(turns[..k], stt, lm, asked0) +
      VoiceTurnCalls(|turns[k].chunks|, turns[k].wavPath, stt, lm, asked0 + Asked(VoiceCalls(turns[..k], stt, lm, asked0)))
  {
    assert turns[..k + 1][..k] == turns[..k];
  }

  lemma TypedCallsStep(prompts: seq<string>, k: nat, lm: (seq<string>, string) -> string, asked0: seq<string>)
    requires k < |prompts|
    ensures TypedCalls(prompts[..k + 1], lm, asked0) ==
      TypedCalls(prompts[..k], lm, asked0) + TypedTurnCalls(prompts[k], lm, asked0 + Asked(TypedCalls(prompts[..k], lm, asked0)))
  {
    assert prompts[..k + 1][..k] == prompts[..k];
  }

  // ---------------------------------------------------------------- the interaction loops

  /**
   * `TalkyTalkyCLI` and the `interact` loop of app-cli.py: the services' replies, the audio
   * frames of the current turn, and the calls made so far.
   */
  class TalkyTalkyCli {
    const stt: string -> string
    const lm: (seq<string>, string) -> string
    var frames: seq<seq<byte>>
    var calls: seq<Call>

    constructor (stt: string -> string, lm: (seq<string>, string) -> string)
      ensures this.stt == stt && this.lm == lm && frames == [] && calls == []
    {
      this.stt := stt;
      this.lm := lm;
      frames := [];
      calls := [];
    }

    /** `frames.clear()`, then append every chunk read while the space key is held. */
    method Record(held: seq<seq<byte>>)
      modifies this
      ensures frames == held && calls == old(calls)
    {
      frames := [];
      var i := 0;
      while i < |held|
        invariant i <= |held| && frames == held[..i] && calls == old(calls)
      {
        frames := frames + [held[i]];
        i := i + 1;
      }
    }

    /** One pass of the voice loop. */
    method VoiceTurn(r: Recording)
      modifies this
      ensures frames == r.chunks
      ensures calls == old(calls) + VoiceTurnCalls(|r.chunks|, r.wavPath, stt, lm, Asked(old(calls)))
    {
      var earlier := Asked(calls);
      Record(r.chunks);
      if |frames| > 0 {
        calls := calls + [GetText(r.wavPath)];
        var prompt := stt(r.wavPath);
        var answer;
        if prompt == EmptySpeech {
          answer := Apology;
        } else {
          calls := calls + [GetAnswer(prompt)];
          answer := lm(earlier, prompt);
        }
        calls := calls + [ReactTo(answer)];
      }
    }

    /** `voice_interact` (and `interact` of app-cli.py) over the turns the user takes. */
    method VoiceInteract(turns: seq<Recording>)
      modifies this
      ensures calls == old(calls) + VoiceCalls(turns, stt, lm, Asked(old(calls)))
    {
      ghost var base, a0 := calls, Asked(calls);
      var k := 0;
      while k < |turns|
        invariant k <= |turns|
        invariant calls == base + VoiceCalls(turns[..k], stt, lm, a0)
      {
        ghost var done := VoiceCalls(turns[..k], stt, lm, a0);
        ghost var next := VoiceTurnCalls(|turns[k].chunks|, turns[k].wavPath, stt, lm, a0 + Asked(done));
        AskedAppend(base, done);
        VoiceCallsStep(turns, k, stt, lm, a0);
        VoiceTurn(turns[k]);
        assert calls == (base + done) + next;
        Assoc(base, done, next);
        k := k + 1;
      }
      assert turns[..|turns|] == turns;
    }

    /** One pass of the keyboard loop, for the line typed. */
    method KeyboardTurn(prompt: string)
      modifies this
      ensures frames == old(frames)
      ensures calls == old(calls) + TypedTurnCalls(prompt, lm, Asked(old(calls)))
    {
      if |prompt| > 0 {
        var answer := lm(Asked(calls), prompt);
        calls := calls + [GetAnswer(prompt), ReactTo(answer)];
      }
    }

    /** `keyboard_interact` over the lines the user types. */
    method KeyboardInteract(prompts: seq<string>)
      modifies this
      ensures frames == old(frames)
      ensures calls == old(calls) + TypedCalls(prompts, lm, Asked(old(calls)))
    {
      ghost var base, a0 := calls, Asked(calls);
      var k := 0;
      while k < |prompts|
        invariant k <= |prompts| && frames == old(frames)
        invariant calls == base + TypedCalls(prompts[..k], lm, a0)
      {
        ghost var done := TypedCalls(prompts[..k], lm, a0);
        ghost var next := TypedTurnCalls(prompts[k], lm, a0 + Asked(done));
        AskedAppend(base, done);
        TypedCallsStep(prompts, k, lm, a0);
        KeyboardTurn(prompts[k]);
        assert calls == (base + done) + next;
        Assoc(base, done, next);
        k := k + 1;
      }
      assert prompts[..|prompts|] == prompts;
    }

    /** `run`: the loop the `--user-input` option selects, or nothing. */
    method Run(userInput: string, turns: seq<Recording>, prompts: seq<string>)
      modifies this
      ensures Dispatch(userInput) == VoiceMode ==> calls == old(calls) + VoiceCalls(turns, stt, lm, Asked(old(calls)))
      ensures Dispatch(userInput) == KeyboardMode ==> calls == old(calls) + TypedCalls(prompts, lm, Asked(old(calls)))
      ensures Dispatch(userInput) == NoMode ==> calls == old(calls) && frames == old(frames)
    {
      if userInput == "voice" {
        VoiceInteract(turns);
      } else if userInput == "keyboard" {
        KeyboardInteract(prompts);
      }
    }
  }
}
