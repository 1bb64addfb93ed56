/**
 * The terminal front ends: `TalkyTalkyApp` of app-tui.py, where the space key starts and stops
 * a recording and a thread runs the voice loop, and the record buttons of `TalkyTalkyTUI` in
 * app.py. The voice loop makes the calls of a voice turn of the command-line front end
 * (module Frontend), and holds `is_answering` from the first call of a recorded turn until
 * `react_to` returned; while it is held the space key is ignored.
 */
module Tui {
  import opened Frames
  import opened TextToSpeech
  import opened SpeechToText
  import opened Frontend
  import ActionService

  /**
   * `run_tts_server` of app-tui.py: `"edge-tts"` gives the edge-tts server and anything else,
   * `"pyttsx3"` or not, the pyttsx3 server.
   */
  function TuiEngine(name: string): (e: Engine)
    ensures e == Edgetts <==> name == "edge-tts"
    ensures e == Pyttsx3 <==> name != "edge-tts"
  {
    if name == "pyttsx3" then Pyttsx3
    else if name == "edge-tts" then Edgetts
    else Pyttsx3
  }

  /**
   * The two front ends start the same server for the two documented names and different ones
   * for any other name. The command lines accept only those two names (`choices` at
   * app-cli.py:31-35 and app-tui.py:24-28), so the difference shows only when the classes are
   * driven from code.
   */
  lemma EngineFallbacksDiffer(name: string)
    ensures CliEngine(name) == TuiEngine(name) <==> name == "pyttsx3" || name == "edge-tts"
    ensures name != "pyttsx3" && name != "edge-tts" ==> CliEngine(name) == Edgetts && TuiEngine(name) == Pyttsx3
  {
  }

  /** What the voice loop of the app does, in order: a service call or a write of `is_answering`. */
  datatype Step = Called(call: Call) | AnsweringSet(on: bool)

  function AsSteps(calls: seq<Call>): (steps: seq<Step>)
    ensures |steps| == |calls| && forall i :: 0 <= i < |calls| ==> steps[i] == Called(calls[i])
  {
    seq(|calls|, i requires 0 <= i < |calls| => Called(calls[i]))
  }

  /** The service calls among some steps, in order. */
  function CallsOf(steps: seq<Step>): seq<Call>
  {
    if steps == [] then []
    else CallsOf(steps[..|steps| - 1]) + (if steps[|steps| - 1].Called? then [steps[|steps| - 1].call] else [])
  }

  lemma {:induction false} CallsOfAppend(a: seq<Step>, b: seq<Step>)
    ensures CallsOf(a + b) == CallsOf(a) + CallsOf(b)
    decreases |b|
  {
    if b == [] {
      assert a + b == a;
    } else {
      assert (a + b)[..|a + b| - 1] == a + b[..|b| - 1];
      CallsOfAppend(a, b[..|b| - 1]);
    }
  }

  lemma {:induction false} CallsOfSteps(calls: seq<Call>)
    ensures CallsOf(AsSteps(calls)) == calls
    decreases |calls|
  {
    if calls != [] {
      assert AsSteps(calls)[..|calls| - 1] == AsSteps(calls[..|calls| - 1]);
      CallsOfSteps(calls[..|calls| - 1]);
    }
  }

  /** The value of `is_answering` after some steps, from `False`. */
  function Answering(steps: seq<Step>): bool
  {
    if steps == [] then false
    else if steps[|steps| - 1].AnsweringSet? then steps[|steps| - 1].on
    else Answering(steps[..|steps| - 1])
  }

  /** Service calls leave `is_answering` as it was. */
  lemma {:induction false} AnsweringAfterCalls(a: seq<Step>, calls: seq<Call>)
    ensures Answering(a + AsSteps(calls)) == Answering(a)
    decreases |calls|
  {
    if calls == [] {
      assert a + AsSteps(calls) == a;
    } else {
      var s := AsSteps(calls);
      assert (a + s)[..|a + s| - 1] == a + AsSteps(calls[..|calls| - 1]);
      AnsweringAfterCalls(a, calls[..|calls| - 1]);
    }
  }

  /** One recorded turn: raise the flag, make the calls of a voice turn, lower the flag. */
  function TuiTurnSteps(recorded: nat, wavPath: string, stt: string -> string,
                        lm: (seq<string>, string) -> string, earlier: seq<string>): seq<Step>
  {
    if recorded == 0 then []
    else [AnsweringSet(true)] + AsSteps(VoiceTurnCalls(recorded, wavPath, stt, lm, earlier)) + [AnsweringSet(false)]
  }

  function TuiSteps(turns: seq<Recording>, stt: string -> string,
                    lm: (seq<string>, string) -> string, asked0: seq<string>): seq<Step>
  {
    if turns == [] then []
    else
      var prev := TuiSteps(turns[..|turns| - 1], stt, lm, asked0);
      var last := turns[|turns| - 1];
      prev + TuiTurnSteps(|last.chunks|, last.wavPath, stt, lm, asked0 + Asked(CallsOf(prev)))
  }

  lemma TuiTurnCalls(recorded: nat, wavPath: string, stt: string -> string,
                     lm: (seq<string>, string) -> string, earlier: seq<string>)
    ensures CallsOf(TuiTurnSteps(recorded, wavPath, stt, lm, earlier)) == VoiceTurnCalls(recorded, wavPath, stt, lm, earlier)
  {
    if recorded > 0 {
      var calls := VoiceTurnCalls(recorded, wavPath, stt, lm, earlier);
      CallsOfAppend([AnsweringSet(true)], AsSteps(calls));
      CallsOfAppend([AnsweringSet(true)] + AsSteps(calls), [AnsweringSet(false)]);
      CallsOfSteps(calls);
      assert CallsOf([AnsweringSet(true)]) == [] by {
        assert [AnsweringSet(true)][..0] == [];
      }
      assert CallsOf([AnsweringSet(false)]) == [] by {
        assert [AnsweringSet(false)][..0] == [];
      }
    }
  }

  /** The app makes exactly the calls of the command-line voice loop, so every property of those holds for it. */
  lemma {:induction false} TuiMakesVoiceCalls(turns: seq<Recording>, stt: string -> string,
                                              lm: (seq<string>, string) -> string, asked0: seq<string>)
    ensures CallsOf(TuiSteps(turns, stt, lm, asked0)) == VoiceCalls(turns, stt, lm, asked0)
  {
    if turns != [] {
      var prev := TuiSteps(turns[..|turns| - 1], stt, lm, asked0);
      var last := turns[|turns| - 1];
      TuiMakesVoiceCalls(turns[..|turns| - 1], stt, lm, asked0);
      var earlier := asked0 + Asked(CallsOf(prev));
      CallsOfAppend(prev, TuiTurnSteps(|last.chunks|, last.wavPath, stt, lm, earlier));
      TuiTurnCalls(|last.chunks|, last.wavPath, stt, lm, earlier);
    }
  }

  /** `is_answering` is set at every call of a turn and cleared after it. */
  lemma TuiTurnAnswering(a: seq<Step>, recorded: nat, wavPath: string, stt: string -> string,
                         lm: (seq<string>, string) -> string, earlier: seq<string>)
    requires recorded > 0
    ensures var t := TuiTurnSteps(recorded, wavPath, stt, lm, earlier);
      !Answering(a + t) && forall j :: 0 <= j < |t| && t[j].Called? ==> Answering(a + t[..j])
  {
    var calls := VoiceTurnCalls(recorded, wavPath, stt, lm, earlier);
    var t := TuiTurnSteps(recorded, wavPath, stt, lm, earlier);
    forall j | 0 <= j < |t| && t[j].Called?
      ensures Answering(a + t[..j])
    {
      assert 0 < j <= |calls|;
      assert a + t[..j] == (a + [AnsweringSet(true)]) + AsSteps(calls[..j - 1]);
      AnsweringAfterCalls(a + [AnsweringSet(true)], calls[..j - 1]);
    }
  }

  /**
   * Over the whole session the app is answering at every service call, and is not answering
   * once each turn is over, so a press of the space key is ignored exactly while a turn is
   * being answered.
   */
  lemma {:induction false} AnsweringAroundCalls(turns: seq<Recording>, stt: string -> string,
                                                lm: (seq<string>, string) -> string, asked0: seq<string>)
    ensures var steps := TuiSteps(turns, stt, lm, asked0);
      !Answering(steps) && forall i :: 0 <= i < |steps| && steps[i].Called? ==> Answering(steps[..i])
  {
    if turns != [] {
      var prev := TuiSteps(turns[..|turns| - 1], stt, lm, asked0);
      var last := turns[|turns| - 1];
      var t := TuiTurnSteps(|last.chunks|, last.wavPath, stt, lm, asked0 + Asked(CallsOf(prev)));
      var steps := prev + t;
      AnsweringAroundCalls(turns[..|turns| - 1], stt, lm, asked0);
      if |last.chunks| > 0 {
        TuiTurnAnswering(prev, |last.chunks|, last.wavPath, stt, lm, asked0 + Asked(CallsOf(prev)));
      } else {
        assert steps == prev;
      }
      forall i | 0 <= i < |steps| && steps[i].Called?
        ensures Answering(steps[..i])
      {
        if i < |prev| {
          assert steps[..i] == prev[..i] && steps[i] == prev[i];
        } else {
          var j := i - |prev|;
          assert steps[..i] == prev + t[..j] && steps[i] == t[j];
        }
      }
    }
  }

  /** `TalkyTalkyApp`: the two flags, the log box, the frames of the current turn and the steps of its voice loop. */
  class TalkyTalkyApp {
    const stt: string -> string
    const lm: (seq<string>, string) -> string
    var isRecording: bool
    var isAnswering: bool
    var logbox: seq<string>
    var frames: seq<seq<byte>>
    var steps: seq<Step>

    /** The flag is the one the steps so far leave behind. */
    ghost predicate Valid()
      reads this
    {
      isAnswering == Answering(steps)
    }

    constructor (stt: string -> string, lm: (seq<string>, string) -> string)
      ensures this.stt == stt && this.lm == lm
      ensures !isRecording && !isAnswering && logbox == [] && frames == [] && steps == []
      ensures Valid()
    {
      this.stt := stt;
      this.lm := lm;
      isRecording := false;
      isAnswering := false;
      logbox := [];
      frames := [];
      steps := [];
    }

    /** `key_space`: ignored while answering; otherwise it toggles recording and says so in the log box. */
    method KeySpace()
      modifies this
      ensures old(isAnswering) ==> isRecording == old(isRecording) && logbox == old(logbox)
      ensures !old(isAnswering) ==>
        isRecording == !old(isRecording) &&
        logbox == old(logbox) + [if old(isRecording) then "[ Finish Recording ]" else "[ Start Recording ]"]
      ensures isAnswering == old(isAnswering) && frames == old(frames) && steps == old(steps)
    {
      if !isAnswering {
        if isRecording {
          isRecording := false;
          logbox := logbox + ["[ Finish Recording ]"];
        } else {
          isRecording := true;
          logbox := logbox + ["[ Start Recording ]"];
        }
      }
    }

    /**
     * `frames.clear()`, then append every chunk read while `is_recording` holds; the key press
     * that clears it comes from another thread, so the chunks read meanwhile are the input.
     */
    method Record(held: seq<seq<byte>>)
      modifies this
      ensures frames == held
      ensures isRecording == old(isRecording) && isAnswering == old(isAnswering) && steps == old(steps)
    {
      frames := [];
      var i := 0;
      while i < |held|
        invariant i <= |held| && frames == held[..i]
        invariant isRecording == old(isRecording) && isAnswering == old(isAnswering) && steps == old(steps)
      {
        frames := frames + [held[i]];
        i := i + 1;
      }
    }

    /** One pass of `interact`. */
    method Turn(r: Recording)
      modifies this
      ensures frames == r.chunks && isRecording == old(isRecording)
      ensures steps == old(steps) + TuiTurnSteps(|r.chunks|, r.wavPath, stt, lm, Asked(CallsOf(old(steps))))
      ensures isAnswering == (if |r.chunks| > 0 then false else old(isAnswering))
      ensures old(Valid()) ==> Valid()
    {
      var earlier := Asked(CallsOf(steps));
      Record(r.chunks);
      if |frames| > 0 {
        ghost var before := steps;
        isAnswering := true;
        steps := steps + [AnsweringSet(true)];
        var calls: seq<Call> := [GetText(r.wavPath)];
        var prompt := stt(r.wavPath);
        var answer;
        if prompt == EmptySpeech {
          answer := Apology;
        } else {
          calls := calls + [GetAnswer(prompt)];
          answer := lm(earlier, prompt);
        }
        calls := calls + [ReactTo(answer)];
        steps := steps + AsSteps(calls) + [AnsweringSet(false)];
        isAnswering := false;
        assert calls == VoiceTurnCalls(|r.chunks|, r.wavPath, stt, lm, earlier);
        ActionService.Assoc(before, [AnsweringSet(true)], AsSteps(calls));
        ActionService.Assoc(before, [AnsweringSet(true)] + AsSteps(calls), [AnsweringSet(false)]);
      }
    }

    /** `interact`, over the turns the space key delimits. */
    method Interact(turns: seq<Recording>)
      modifies this
      ensures steps == old(steps) + TuiSteps(turns, stt, lm, Asked(CallsOf(old(steps))))
      ensures isRecording == old(isRecording)
      ensures old(Valid()) ==> Valid()
    {
      ghost var base, a0 := steps, Asked(CallsOf(steps));
      var k := 0;
      while k < |turns|
        invariant k <= |turns| && isRecording == old(isRecording)
        invariant steps == base + TuiSteps(turns[..k], stt, lm, a0)
        invariant old(Valid()) ==> Valid()
      {
        ghost var done := TuiSteps(turns[..k], stt, lm, a0);
        ghost var next := TuiTurnSteps(|turns[k].chunks|, turns[k].wavPath, stt, lm, a0 + Asked(CallsOf(done)));
        CallsOfAppend(base, done);
        AskedAppend(CallsOf(base), CallsOf(done));
        assert turns[..k + 1][..k] == turns[..k];
        Turn(turns[k]);
        assert steps == (base + done) + next;
        ActionService.Assoc(base, done, next);
        k := k + 1;
      }
      assert turns[..|turns|] == turns;
    }
  }

  /** The record buttons of `TalkyTalkyTUI` in app.py and the transcript they put in the input box. */
  class TalkyTalkyTuiRecorder {
    const stt: string -> string
    var isRecording: bool
    var frames: seq<seq<byte>>
    var inputValue: string
    var calls: seq<Call>

    constructor (stt: string -> string)
      ensures this.stt == stt && !isRecording && frames == [] && inputValue == [] && calls == []
    {
      this.stt := stt;
      isRecording := false;
      frames := [];
      inputValue := [];
      calls := [];
    }

    /** `stop_record`: clear the flag if it is set. */
    method StopRecord()
      modifies this
      ensures !isRecording && frames == old(frames) && inputValue == old(inputValue) && calls == old(calls)
    {
      if isRecording {
        isRecording := false;
      }
    }

    /**
     * `start_record`: nothing while a recording runs; otherwise set the flag, keep the chunks
     * read until `stop_record` clears it, and put the transcript of a non-empty recording in the
     * input box. Submitting the input box is not part of this model.
     */
    method StartRecord(r: Recording) returns (started: bool)
      modifies this
      ensures started == !old(isRecording)
      ensures !started ==> isRecording && frames == old(frames) && inputValue == old(inputValue) && calls == old(calls)
      ensures started ==> !isRecording && frames == r.chunks
      ensures started && |r.chunks| == 0 ==> inputValue == old(inputValue) && calls == old(calls)
      ensures started && |r.chunks| > 0 ==> inputValue == stt(r.wavPath) && calls == old(calls) + [GetText(r.wavPath)]
    {
      if isRecording {
        return false;
      }
      started := true;
      isRecording := true;
      frames := [];
      var i := 0;
      while i < |r.chunks|
        invariant i <= |r.chunks| && frames == r.chunks[..i] && isRecording
        invariant inputValue == old(inputValue) && calls == old(calls)
      {
        frames := frames + [r.chunks[i]];
        i := i + 1;
      }
      // the press of the stop button that ends the capture loop
      StopRecord();
      if |frames| > 0 {
        calls := calls + [GetText(r.wavPath)];
        inputValue := stt(r.wavPath);
      }
    }
  }
}
