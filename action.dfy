/**
 * The action service (service/action.py): the server receives the bot's answer from the
 * front end, has the text-to-speech service read it aloud, keeps the actor's state in step
 * with the reading (SPEAKING from the start acknowledgement, IDLE again after the finish one)
 * and tells the front end when it is done. A daemon thread streams the state's frames to
 * OpenSeeFace meanwhile (module FrameDaemon).
 */
module ActionService {
  import opened Wrappers
  import opened Net
  import opened Base
  import opened Frames
  import opened Actions
  import opened TextToSpeech
  import opened FrameDaemon

  /** The default port of the action service. */
  const DefaultPort: int := 12346
  /** The reply sent to the front end after each answer was acted out. */
  const ActionDone: string := "[ACTION DONE]"

  /** Why the communication loop stops: a `recv` from the front end or an exchange with the text-to-speech service fails. */
  datatype Halt = ClientStopped(error: RecvError) | TtsStopped(error: RecvError)

  /**
   * A run of the communication loop: the traffic with the front end and with the
   * text-to-speech service, the states the actor was put in, why the loop stopped, and the
   * messages of each peer left unread.
   */
  datatype Session = Session(clientIo: seq<Io>, ttsIo: seq<Io>, states: seq<ActionKind>, halt: Halt,
                             requestsLeft: seq<string>, acksLeft: seq<string>)

  /**
   * What one message of the front end leads to, once received, with the text-to-speech
   * service's messages `acks` still unread; `ttsUp` says whether the text-to-speech client is
   * connected. An empty message is skipped. Any other is sent to be read aloud; the first
   * acknowledgement sets SPEAKING, the second sets IDLE, and then the front end is told.
   * `halt` is None when the loop goes on to the next message.
   */
  datatype Round = Round(clientIo: seq<Io>, ttsIo: seq<Io>, states: seq<ActionKind>, acksLeft: seq<string>, halt: Option<Halt>)

  function RoundOf(m: string, acks: seq<string>, ttsUp: bool): Round
  {
    if m == [] then Round([In(m)], [], [], acks, None)
    else if !ttsUp then Round([In(m)], [], [], acks, Some(TtsStopped(NotConnected)))
    else if acks == [] then Round([In(m)], [Out(m)], [], [], Some(TtsStopped(Silent)))
    else if |acks| == 1 then Round([In(m)], [Out(m), In(acks[0])], [Speaking], [], Some(TtsStopped(Silent)))
    else Round([In(m), Out(ActionDone)], [Out(m), In(acks[0]), In(acks[1])], [Speaking, Idle], acks[2..], None)
  }

  /**
   * The communication loop on the front end's messages `requests`, with the front end
   * connected, until a `recv` fails.
   */
  function Acting(requests: seq<string>, acks: seq<string>, ttsUp: bool): Session
    decreases |requests|
  {
    if requests == [] then Session([], [], [], ClientStopped(Silent), [], acks)
    else
      var r := RoundOf(requests[0], acks, ttsUp);
      if r.halt.Some? then Session(r.clientIo, r.ttsIo, r.states, r.halt.value, requests[1..], r.acksLeft)
      else
        var rest := Acting(requests[1..], r.acksLeft, ttsUp);
        Session(r.clientIo + rest.clientIo, r.ttsIo + rest.ttsIo, r.states + rest.states, rest.halt,
                rest.requestsLeft, rest.acksLeft)
  }

  /** One round of the loop, then the rest of it. */
  lemma ActingUnfold(requests: seq<string>, acks: seq<string>, ttsUp: bool)
    requires requests != []
    ensures var s, r := Acting(requests, acks, ttsUp), RoundOf(requests[0], acks, ttsUp);
      var rest := Acting(requests[1..], r.acksLeft, ttsUp);
      s == if r.halt.None? then Session(r.clientIo + rest.clientIo, r.ttsIo + rest.ttsIo, r.states + rest.states, rest.halt,
                          rest.requestsLeft, rest.acksLeft)
           else Session(r.clientIo, r.ttsIo, r.states, r.halt.value, requests[1..], r.acksLeft)
  {
  }

  lemma Assoc<T>(a: seq<T>, b: seq<T>, c: seq<T>)
    ensures (a + b) + c == a + (b + c)
  {
  }

  /** The messages of `ms` that are not empty, in order. */
  function NonEmpty(ms: seq<string>): seq<string>
  {
    if ms == [] then [] else (if ms[0] == [] then [] else [ms[0]]) + NonEmpty(ms[1..])
  }

  lemma {:induction false} NonEmptyAppend(a: seq<string>, b: seq<string>)
    ensures NonEmpty(a + b) == NonEmpty(a) + NonEmpty(b)
    decreases |a|
  {
    if a == [] {
      assert a + b == b;
    } else {
      assert (a + b)[1..] == a[1..] + b;
      NonEmptyAppend(a[1..], b);
    }
  }

  /** NonEmpty, taken from the back. */
  lemma NonEmptyLast(ms: seq<string>)
    requires ms != []
    ensures var p := ms[|ms| - 1];
      NonEmpty(ms) == NonEmpty(ms[..|ms| - 1]) + (if |p| > 0 then [p] else [])
  {
    var init, p := ms[..|ms| - 1], ms[|ms| - 1];
    assert ms == init + [p];
    NonEmptyAppend(init, [p]);
    assert NonEmpty([p]) == (if p == [] then [] else [p]) by {
      assert [p][1..] == [];
    }
  }

  /** The first acknowledgement puts the actor in SPEAKING, the second back in IDLE, and so on. */
  predicate Alternating(states: seq<ActionKind>)
  {
    forall i :: 0 <= i < |states| ==> states[i] == if i % 2 == 0 then Speaking else Idle
  }

  /** The two sides of the short exchanges of one round. */
  lemma ShortTraffic(m: string, a0: string, a1: string)
    ensures Ins([In(m)]) == [m] && Outs([In(m)]) == []
    ensures Ins([Out(m)]) == [] && Outs([Out(m)]) == [m]
    ensures Ins([Out(m), In(a0)]) == [a0] && Outs([Out(m), In(a0)]) == [m]
    ensures Ins([Out(m), In(a0), In(a1)]) == [a0, a1] && Outs([Out(m), In(a0), In(a1)]) == [m]
  {
    var one, two, three := [Out(m)], [Out(m), In(a0)], [Out(m), In(a0), In(a1)];
    assert [In(m)][..0] == [] && one[..0] == [];
    assert two[..1] == one && three[..2] == two;
    assert Ins(two) == Ins(one) + [a0] && Outs(two) == Outs(one);
    assert Ins(three) == Ins(two) + [a1] && Outs(three) == Outs(two);
  }

  /**
   * One round on the front end's side: the message is read, and answered with
   * `[ACTION DONE]` only when it was non-empty and read aloud to the end; the loop goes on
   * only then or when the message was empty.
   */
  lemma RoundClient(m: string, acks: seq<string>, ttsUp: bool)
    ensures var r := RoundOf(m, acks, ttsUp);
      Ins(r.clientIo) == [m] &&
      Outs(r.clientIo) == (if m != [] && r.halt.None? then [ActionDone] else []) &&
      (r.halt.None? <==> m == [] || (ttsUp && |acks| >= 2)) &&
      (r.halt.Some? ==> m != [] && r.halt.value.TtsStopped?)
  {
    var r := RoundOf(m, acks, ttsUp);
    ShortTraffic(m, [], []);
    if m == [] || !ttsUp || |acks| < 2 {
      assert r.clientIo == [In(m)];
    } else {
      Net.RoundTraffic(m, ActionDone);
      assert r.clientIo == [In(m), Out(ActionDone)] && r.halt == None;
    }
  }

  /**
   * One round on the text-to-speech side: a non-empty message is forwarded, an empty one is
   * not, and at most two acknowledgements are read, in order.
   */
  lemma RoundTts(m: string, acks: seq<string>, ttsUp: bool)
    ensures var r := RoundOf(m, acks, ttsUp);
      Ins(r.ttsIo) + r.acksLeft == acks &&
      Outs(r.ttsIo) == (if ttsUp then NonEmpty([m]) else []) && (!ttsUp ==> r.ttsIo == [])
  {
    assert NonEmpty([m]) == (if m == [] then [] else [m]);
    if |acks| >= 2 {
      ShortTraffic(m, acks[0], acks[1]);
      assert [acks[0], acks[1]] + acks[2..] == acks;
    } else if |acks| == 1 {
      ShortTraffic(m, acks[0], []);
    } else {
      ShortTraffic(m, [], []);
    }
  }

  /**
   * One round on the actor's side: one state per acknowledgement read, SPEAKING then IDLE;
   * the actor is left SPEAKING only when no second acknowledgement came.
   */
  lemma RoundStates(m: string, acks: seq<string>, ttsUp: bool)
    ensures var r := RoundOf(m, acks, ttsUp);
      |r.states| == |Ins(r.ttsIo)| && r.states == [Speaking, Idle][..|r.states|] &&
      (|r.states| == 1 ==> r.halt == Some(TtsStopped(Silent)) && r.acksLeft == []) &&
      (r.halt.None? ==> |r.states| == 0 || |r.states| == 2) &&
      |r.states| / 2 == |Outs(r.clientIo)|
  {
    var r := RoundOf(m, acks, ttsUp);
    if m == [] || !ttsUp || acks == [] {
      ShortTraffic(m, [], []);
      assert r.states == [] && Outs(r.clientIo) == [];
    } else if |acks| == 1 {
      ShortTraffic(m, acks[0], []);
      assert r.states == [Speaking] && Outs(r.clientIo) == [];
    } else {
      ShortTraffic(m, acks[0], acks[1]);
      Net.RoundTraffic(m, ActionDone);
      assert r.states == [Speaking, Idle] && Outs(r.clientIo) == [ActionDone];
    }
  }

  /** Every message of the front end is read once, in order, and the loop stops only when they run out or the text-to-speech exchange fails. */
  lemma {:induction false} ActingReadsInOrder(requests: seq<string>, acks: seq<string>, ttsUp: bool)
    ensures var s := Acting(requests, acks, ttsUp);
      Ins(s.clientIo) + s.requestsLeft == requests && (s.halt.ClientStopped? ==> s.requestsLeft == [])
    decreases |requests|
  {
    if requests != [] {
      var s, r := Acting(requests, acks, ttsUp), RoundOf(requests[0], acks, ttsUp);
      ActingUnfold(requests, acks, ttsUp);
      RoundClient(requests[0], acks, ttsUp);
      assert requests == [requests[0]] + requests[1..];
      if r.halt.None? {
        var rest := Acting(requests[1..], r.acksLeft, ttsUp);
        assert s.clientIo == r.clientIo + rest.clientIo && s.requestsLeft == rest.requestsLeft && s.halt == rest.halt;
        ActingReadsInOrder(requests[1..], r.acksLeft, ttsUp);
        InsAppend(r.clientIo, rest.clientIo);
        Assoc([requests[0]], Ins(rest.clientIo), rest.requestsLeft);
      } else {
        assert s.clientIo == r.clientIo && s.requestsLeft == requests[1..] && s.halt == r.halt.value;
      }
    }
  }

  /** The non-empty messages read, and only those, go to the text-to-speech service, in order. */
  lemma {:induction false} ActingForwards(requests: seq<string>, acks: seq<string>, ttsUp: bool)
    ensures var s := Acting(requests, acks, ttsUp);
      Outs(s.ttsIo) == (if ttsUp then NonEmpty(Ins(s.clientIo)) else []) && (!ttsUp ==> s.ttsIo == [])
    decreases |requests|
  {
    if requests != [] {
      var s, r := Acting(requests, acks, ttsUp), RoundOf(requests[0], acks, ttsUp);
      ActingUnfold(requests, acks, ttsUp);
      RoundClient(requests[0], acks, ttsUp);
      RoundTts(requests[0], acks, ttsUp);
      if r.halt.None? {
        var rest := Acting(requests[1..], r.acksLeft, ttsUp);
        assert s.clientIo == r.clientIo + rest.clientIo && s.ttsIo == r.ttsIo + rest.ttsIo;
        ActingForwards(requests[1..], r.acksLeft, ttsUp);
        InsAppend(r.clientIo, rest.clientIo);
        OutsAppend(r.ttsIo, rest.ttsIo);
        NonEmptyAppend([requests[0]], Ins(rest.clientIo));
      }
    }
  }

  /**
   * The front end is answered with `[ACTION DONE]` and nothing else, once per non-empty
   * message read, except for the one whose reading failed.
   */
  lemma {:induction false} ActingAnswers(requests: seq<string>, acks: seq<string>, ttsUp: bool)
    ensures var s := Acting(requests, acks, ttsUp);
      (forall i :: 0 <= i < |Outs(s.clientIo)| ==> Outs(s.clientIo)[i] == ActionDone) &&
      |Outs(s.clientIo)| + (if s.halt.TtsStopped? then 1 else 0) == |NonEmpty(Ins(s.clientIo))|
    decreases |requests|
  {
    if requests != [] {
      var s, r := Acting(requests, acks, ttsUp), RoundOf(requests[0], acks, ttsUp);
      ActingUnfold(requests, acks, ttsUp);
      RoundClient(requests[0], acks, ttsUp);
      if r.halt.None? {
        var rest := Acting(requests[1..], r.acksLeft, ttsUp);
        assert s.clientIo == r.clientIo + rest.clientIo && s.halt == rest.halt;
        ActingAnswers(requests[1..], r.acksLeft, ttsUp);
        AnswersStep(requests[0], r.clientIo, rest.clientIo, rest.halt.TtsStopped?);
      } else {
        assert s.clientIo == r.clientIo && s.halt == r.halt.value;
        assert NonEmpty([requests[0]]) == [requests[0]];
      }
    }
  }

  /** A round that went on, followed by the rest of the loop, keeps the count of ActingAnswers. */
  lemma AnswersStep(m: string, io: seq<Io>, restIo: seq<Io>, ttsStopped: bool)
    requires Ins(io) == [m] && Outs(io) == (if m != [] then [ActionDone] else [])
    requires forall i :: 0 <= i < |Outs(restIo)| ==> Outs(restIo)[i] == ActionDone
    requires |Outs(restIo)| + (if ttsStopped then 1 else 0) == |NonEmpty(Ins(restIo))|
    ensures forall i :: 0 <= i < |Outs(io + restIo)| ==> Outs(io + restIo)[i] == ActionDone
    ensures |Outs(io + restIo)| + (if ttsStopped then 1 else 0) == |NonEmpty(Ins(io + restIo))|
  {
    InsAppend(io, restIo);
    OutsAppend(io, restIo);
    AnswersCount(m, Outs(io), Outs(restIo), Ins(restIo), ttsStopped);
  }

  lemma AnswersCount(m: string, outs: seq<string>, restOuts: seq<string>, restIns: seq<string>, ttsStopped: bool)
    requires outs == (if m != [] then [ActionDone] else [])
    requires forall i :: 0 <= i < |restOuts| ==> restOuts[i] == ActionDone
    requires |restOuts| + (if ttsStopped then 1 else 0) == |NonEmpty(restIns)|
    ensures forall i :: 0 <= i < |outs + restOuts| ==> (outs + restOuts)[i] == ActionDone
    ensures |outs + restOuts| + (if ttsStopped then 1 else 0) == |NonEmpty([m] + restIns)|
  {
    NonEmptyAppend([m], restIns);
    assert NonEmpty([m]) == (if m != [] then [m] else []) by {
      assert [m][1..] == [];
    }
  }

  /** Every acknowledgement of the text-to-speech service is read once, in order, and nothing else is read from it. */
  lemma {:induction false} ActingAcks(requests: seq<string>, acks: seq<string>, ttsUp: bool)
    ensures var s := Acting(requests, acks, ttsUp);
      Ins(s.ttsIo) + s.acksLeft == acks
    decreases |requests|
  {
    if requests != [] {
      var s, r := Acting(requests, acks, ttsUp), RoundOf(requests[0], acks, ttsUp);
      ActingUnfold(requests, acks, ttsUp);
      RoundTts(requests[0], acks, ttsUp);
      if r.halt.None? {
        var rest := Acting(requests[1..], r.acksLeft, ttsUp);
        assert s.ttsIo == r.ttsIo + rest.ttsIo && s.acksLeft == rest.acksLeft;
        ActingAcks(requests[1..], r.acksLeft, ttsUp);
        InsAppend(r.ttsIo, rest.ttsIo);
        Assoc(Ins(r.ttsIo), Ins(rest.ttsIo), rest.acksLeft);
      }
    }
  }

  lemma AlternatingAfterRound(st: seq<ActionKind>)
    requires Alternating(st)
    ensures Alternating([Speaking, Idle] + st)
  {
    var all := [Speaking, Idle] + st;
    forall i | 2 <= i < |all|
      ensures all[i] == if i % 2 == 0 then Speaking else Idle
    {
      assert all[i] == st[i - 2] && (i - 2) % 2 == i % 2;
    }
  }

  /**
   * Each acknowledgement moves the actor to the next state of SPEAKING, IDLE, SPEAKING, ...;
   * every second one is followed by an answer to the front end; the actor is left SPEAKING
   * only when the service fell silent in the middle of a reading.
   */
  lemma {:induction false} ActingStates(requests: seq<string>, acks: seq<string>, ttsUp: bool)
    ensures var s := Acting(requests, acks, ttsUp);
      |s.states| == |Ins(s.ttsIo)| && Alternating(s.states) && |s.states| / 2 == |Outs(s.clientIo)| &&
      (|s.states| % 2 == 1 ==> s.halt == TtsStopped(Silent) && s.acksLeft == [])
    decreases |requests|
  {
    if requests != [] {
      var s, r := Acting(requests, acks, ttsUp), RoundOf(requests[0], acks, ttsUp);
      ActingUnfold(requests, acks, ttsUp);
      RoundStates(requests[0], acks, ttsUp);
      if r.halt.None? {
        var rest := Acting(requests[1..], r.acksLeft, ttsUp);
        assert s.clientIo == r.clientIo + rest.clientIo && s.ttsIo == r.ttsIo + rest.ttsIo &&
          s.states == r.states + rest.states && s.halt == rest.halt && s.acksLeft == rest.acksLeft;
        ActingStates(requests[1..], r.acksLeft, ttsUp);
        StatesStep(r.clientIo, r.ttsIo, r.states, rest);
      } else {
        assert s.clientIo == r.clientIo && s.ttsIo == r.ttsIo && s.states == r.states &&
          s.halt == r.halt.value && s.acksLeft == r.acksLeft;
      }
    }
  }

  /** A round that went on, followed by the rest of the loop, keeps the properties of ActingStates. */
  lemma StatesStep(io: seq<Io>, tio: seq<Io>, states: seq<ActionKind>, rest: Session)
    requires |states| == |Ins(tio)| && (states == [] || states == [Speaking, Idle]) && |states| / 2 == |Outs(io)|
    requires |rest.states| == |Ins(rest.ttsIo)| && Alternating(rest.states) &&
      |rest.states| / 2 == |Outs(rest.clientIo)| &&
      (|rest.states| % 2 == 1 ==> rest.halt == TtsStopped(Silent) && rest.acksLeft == [])
    ensures var st := states + rest.states;
      |st| == |Ins(tio + rest.ttsIo)| && Alternating(st) && |st| / 2 == |Outs(io + rest.clientIo)| &&
      (|st| % 2 == 1 ==> rest.halt == TtsStopped(Silent) && rest.acksLeft == [])
  {
    InsAppend(tio, rest.ttsIo);
    OutsAppend(io, rest.clientIo);
    if states == [] {
      assert states + rest.states == rest.states;
    } else {
      AlternatingAfterRound(rest.states);
    }
  }

  /**
   * A run that ends because the front end sends nothing more acted out every message: all
   * non-empty messages were read aloud, each was answered, and the actor is IDLE again.
   */
  lemma CompleteRun(requests: seq<string>, acks: seq<string>)
    requires Acting(requests, acks, true).halt.ClientStopped?
    ensures var s := Acting(requests, acks, true);
      Ins(s.clientIo) == requests && Outs(s.ttsIo) == NonEmpty(requests) &&
      |Outs(s.clientIo)| == |NonEmpty(requests)| &&
      |s.states| == 2 * |NonEmpty(requests)| && (s.states != [] ==> s.states[|s.states| - 1] == Idle)
  {
    ActingReadsInOrder(requests, acks, true);
    ActingForwards(requests, acks, true);
    ActingAnswers(requests, acks, true);
    ActingStates(requests, acks, true);
    CompleteCounts(Acting(requests, acks, true), requests);
  }

  /** The arithmetic of CompleteRun, on the facts of the four lemmas above. */
  lemma CompleteCounts(s: Session, requests: seq<string>)
    requires s.halt.ClientStopped? && Ins(s.clientIo) + s.requestsLeft == requests && s.requestsLeft == []
    requires Outs(s.ttsIo) == NonEmpty(Ins(s.clientIo))
    requires |Outs(s.clientIo)| == |NonEmpty(Ins(s.clientIo))|
    requires |s.states| == |Ins(s.ttsIo)| && Alternating(s.states) && |s.states| / 2 == |Outs(s.clientIo)| && |s.states| % 2 == 0
    ensures Ins(s.clientIo) == requests && Outs(s.ttsIo) == NonEmpty(requests) &&
      |Outs(s.clientIo)| == |NonEmpty(requests)| &&
      |s.states| == 2 * |NonEmpty(requests)| && (s.states != [] ==> s.states[|s.states| - 1] == Idle)
  {
    assert Ins(s.clientIo) == requests;
    var k := |s.states|;
    if k > 0 {
      assert s.states[k - 1] == if (k - 1) % 2 == 0 then Speaking else Idle;
      assert (k - 1) % 2 == 1;
    }
  }

  /**
   * Where the traffic and the states stand after one round that started from `io`, `tio`
   * and `log`: at the end of the run when the round halts, otherwise at the start of the
   * run on the messages still unread.
   */
  lemma AfterRound(requests: seq<string>, acks: seq<string>, ttsUp: bool, io: seq<Io>, tio: seq<Io>, log: seq<ActionKind>,
                   io': seq<Io>, tio': seq<Io>, log': seq<ActionKind>)
    requires requests != []
    requires var r := RoundOf(requests[0], acks, ttsUp);
      io' == io + r.clientIo && tio' == tio + r.ttsIo && log' == log + r.states
    ensures var s, r := Acting(requests, acks, ttsUp), RoundOf(requests[0], acks, ttsUp);
      r.halt.Some? ==>
        s.halt == r.halt.value && s.requestsLeft == requests[1..] && s.acksLeft == r.acksLeft &&
        io' == io + s.clientIo && tio' == tio + s.ttsIo && log' == log + s.states &&
        (|s.states| % 2 == 1 <==> |r.states| == 1)
    ensures var s, r := Acting(requests, acks, ttsUp), RoundOf(requests[0], acks, ttsUp);
      r.halt.None? ==>
        var rest := Acting(requests[1..], r.acksLeft, ttsUp);
        rest.halt == s.halt && rest.requestsLeft == s.requestsLeft && rest.acksLeft == s.acksLeft &&
        io' + rest.clientIo == io + s.clientIo && tio' + rest.ttsIo == tio + s.ttsIo && log' + rest.states == log + s.states &&
        |log'| == |log| + |r.states| && |r.states| % 2 == 0
  {
    ActingUnfold(requests, acks, ttsUp);
    RoundStates(requests[0], acks, ttsUp);
    var r := RoundOf(requests[0], acks, ttsUp);
    var rest := Acting(requests[1..], r.acksLeft, ttsUp);
    Assoc(io, r.clientIo, rest.clientIo);
    Assoc(tio, r.ttsIo, rest.ttsIo);
    Assoc(log, r.states, rest.states);
  }

  /**
   * The traffic `io`, `tio` and states `log` followed by the run `s` are the traffic
   * `io0`, `tio0` and states `log0` followed by the run `s0`, after whole rounds.
   */
  predicate Resumes(io: seq<Io>, tio: seq<Io>, log: seq<ActionKind>, s: Session,
                    io0: seq<Io>, tio0: seq<Io>, log0: seq<ActionKind>, s0: Session)
  {
    s.halt == s0.halt && s.requestsLeft == s0.requestsLeft && s.acksLeft == s0.acksLeft &&
    io + s.clientIo == io0 + s0.clientIo && tio + s.ttsIo == tio0 + s0.ttsIo && log + s.states == log0 + s0.states &&
    |log| >= |log0| && (|log| - |log0|) % 2 == 0
  }

  lemma ResumesTrans(io: seq<Io>, tio: seq<Io>, log: seq<ActionKind>, s: Session,
                     io1: seq<Io>, tio1: seq<Io>, log1: seq<ActionKind>, s1: Session,
                     io0: seq<Io>, tio0: seq<Io>, log0: seq<ActionKind>, s0: Session)
    requires Resumes(io, tio, log, s, io1, tio1, log1, s1) && Resumes(io1, tio1, log1, s1, io0, tio0, log0, s0)
    ensures Resumes(io, tio, log, s, io0, tio0, log0, s0)
  {
  }

  /** At the end of the run the traffic and states are those of the whole run. */
  lemma ResumesEnd(io: seq<Io>, tio: seq<Io>, log: seq<ActionKind>, s: Session,
                   io0: seq<Io>, tio0: seq<Io>, log0: seq<ActionKind>, s0: Session)
    requires Resumes(io, tio, log, s, io0, tio0, log0, s0)
    ensures io + s.clientIo == io0 + s0.clientIo && tio + s.ttsIo == tio0 + s0.ttsIo && log + s.states == log0 + s0.states
    ensures s.halt == s0.halt && s.requestsLeft == s0.requestsLeft && s.acksLeft == s0.acksLeft
    ensures |s.states| % 2 == |s0.states| % 2
  {
    assert |log| + |s.states| == |log0| + |s0.states|;
  }

  class ActionServer {
    const server: ServerBase
    const ttsClient: Text2SpeechClient
    const actionFps: int
    const openseefaceClientIp: string
    const openseefaceClientPort: int
    /** `openseeface_actions`: the frames of each state, loaded when the server is built. */
    const openseefaceActions: map<ActionKind, seq<Frame>>
    /** `actor_state`, which the daemon reads. */
    var actorState: ActionKind
    /** Whether `run` has started the daemon thread. */
    var daemonStarted: bool
    /** Every value assigned to `actor_state` by the communication loop, in order. */
    ghost var stateLog: seq<ActionKind>

    /** `ActionServer(...)`; `dir` is the listing of `action/openseeface/`. */
    constructor (dir: seq<DirEntry>, actionFps: int, ttsServerIp: string, ttsServerPort: int,
                 openseefaceClientIp: string, openseefaceClientPort: int, ip: string, port: int)
      ensures fresh(server) && server.serverIp == ip && server.port == port
      ensures server.serverSocket == None && server.clientSocket == null && server.clientIp == None
      ensures fresh(ttsClient) && fresh(ttsClient.client) && fresh(ttsClient.client.socket)
      ensures ttsClient.client.serverIp == ttsServerIp && ttsClient.client.serverPort == ttsServerPort
      ensures !ttsClient.client.socket.connected && ttsClient.client.socket.pending == [] && ttsClient.client.socket.io == []
      ensures this.actionFps == actionFps && this.openseefaceClientIp == openseefaceClientIp
      ensures this.openseefaceClientPort == openseefaceClientPort
      ensures openseefaceActions == LoadActions(dir)
      ensures actorState == Idle && !daemonStarted && stateLog == []
    {
      var actions := InitActions(dir);
      server := new ServerBase(ip, port);
      ttsClient := new Text2SpeechClient(ttsServerIp, ttsServerPort);
      this.actionFps := actionFps;
      this.openseefaceClientIp, this.openseefaceClientPort := openseefaceClientIp, openseefaceClientPort;
      openseefaceActions := actions;
      actorState, daemonStarted, stateLog := Idle, false, [];
    }

    /** `connect`: accept the front end, then connect to the text-to-speech service with the default retries. */
    method Connect(ready: seq<bool>, peerIp: string, ttsSucceeds: nat -> bool)
      modifies server, ttsClient.client, ttsClient.client.socket
      ensures server.serverSocket == Some(Address(server.serverIp, server.port))
      ensures FirstReady(ready) < |ready| ==>
        server.clientSocket != null && fresh(server.clientSocket) && server.clientSocket.connected &&
        server.clientSocket.pending == [] && server.clientSocket.io == [] && server.clientIp == Some(peerIp)
      ensures FirstReady(ready) == |ready| ==> server.clientSocket == old(server.clientSocket)
      ensures ttsClient.client.log == old(ttsClient.client.log) + ConnectLog(DefaultRetry, DefaultWaitTime, ttsSucceeds)
      ensures ttsClient.client.socket.connected ==
        (old(ttsClient.client.socket.connected) || FirstSuccess(0, DefaultRetry, ttsSucceeds) < DefaultRetry)
      ensures ttsClient.client.socket.pending == old(ttsClient.client.socket.pending)
      ensures ttsClient.client.socket.io == old(ttsClient.client.socket.io)
    {
      server.Connect(ready, peerIp);
      ttsClient.client.Connect(DefaultRetry, DefaultWaitTime, ttsSucceeds);
    }

    /** Assign `actor_state`. */
    method SetState(a: ActionKind)
      modifies this
      ensures actorState == a && stateLog == old(stateLog) + [a] && daemonStarted == old(daemonStarted)
    {
      actorState := a;
      stateLog := stateLog + [a];
    }

    /**
     * The body of the loop for a message received from the front end: have it read aloud,
     * following the reading with `actor_state`, and report back.
     */
    method ActOut(m: string) returns (halt: Option<Halt>)
      requires server.clientSocket != null && server.clientSocket.connected
      requires server.clientSocket != ttsClient.client.socket && actorState == Idle
      modifies this, server.clientSocket, ttsClient.client.socket
      ensures var c, t := server.clientSocket, ttsClient.client.socket;
        var r := RoundOf(m, old(t.pending), t.connected);
        halt == r.halt && c.connected && c.pending == old(c.pending) && t.connected == old(t.connected) &&
        c.io == old(c.io) + r.clientIo[1..] && t.io == old(t.io) + r.ttsIo && t.pending == r.acksLeft &&
        stateLog == old(stateLog) + r.states && daemonStarted == old(daemonStarted) &&
        actorState == (if |r.states| == 1 then Speaking else Idle)
    {
      var c := server.clientSocket;
      if m == [] {
        return None;
      }
      var start := ttsClient.ReadAloudStart(m);
      if start.Failure? {
        return Some(TtsStopped(start.error));
      }
      SetState(Speaking);
      var finish := ttsClient.ReadAloudFinish();
      if finish.Failure? {
        return Some(TtsStopped(finish.error));
      }
      SetState(Idle);
      var _ := c.Send(ActionDone);
      halt := None;
    }

    /**
     * One pass of the communication loop: receive a message from the front end and act it
     * out. `halt` is None when the loop goes on; what is left of the run is then the run on
     * the messages still unread.
     */
    method Step() returns (halt: Option<Halt>)
      requires server.clientSocket != null && server.clientSocket.connected
      requires server.clientSocket != ttsClient.client.socket && actorState == Idle
      modifies this, server.clientSocket, ttsClient.client.socket
      ensures var c, t := server.clientSocket, ttsClient.client.socket;
        c.connected && t.connected == old(t.connected) && daemonStarted == old(daemonStarted)
      ensures var c, t := server.clientSocket, ttsClient.client.socket;
        var s := Acting(old(c.pending), old(t.pending), t.connected);
        halt.Some? ==>
          halt.value == s.halt && c.pending == s.requestsLeft && t.pending == s.acksLeft &&
          c.io == old(c.io) + s.clientIo && t.io == old(t.io) + s.ttsIo && stateLog == old(stateLog) + s.states &&
          actorState == (if |s.states| % 2 == 1 then Speaking else Idle)
      ensures var c, t := server.clientSocket, ttsClient.client.socket;
        var s, rest := Acting(old(c.pending), old(t.pending), t.connected), Acting(c.pending, t.pending, t.connected);
        halt.None? ==>
          |c.pending| < |old(c.pending)| && actorState == Idle &&
          Resumes(c.io, t.io, stateLog, rest, old(c.io), old(t.io), old(stateLog), s)
    {
      var c, t := server.clientSocket, ttsClient.client.socket;
      ghost var requests, acks, io, tio, log := c.pending, t.pending, c.io, t.io, stateLog;
      var received := c.Recv();
      if received.Failure? {
        assert c.io + [] == c.io && t.io + [] == t.io && stateLog + [] == stateLog;
        return Some(ClientStopped(received.error));
      }
      ghost var r := RoundOf(received.value, acks, t.connected);
      halt := ActOut(received.value);
      assert c.io == io + r.clientIo by {
        assert r.clientIo == [In(received.value)] + r.clientIo[1..];
      }
      AfterRound(requests, acks, t.connected, io, tio, log, c.io, t.io, stateLog);
    }

    /** The communication loop of `run`, with the front end connected. */
    method Communicate() returns (halt: Halt)
      requires server.clientSocket != null && server.clientSocket.connected
      requires server.clientSocket != ttsClient.client.socket && actorState == Idle
      modifies this, server.clientSocket, ttsClient.client.socket
      ensures var c, t := server.clientSocket, ttsClient.client.socket;
        var s := Acting(old(c.pending), old(t.pending), t.connected);
        halt == s.halt && c.connected && t.connected == old(t.connected) &&
        c.io == old(c.io) + s.clientIo && c.pending == s.requestsLeft &&
        t.io == old(t.io) + s.ttsIo && t.pending == s.acksLeft &&
        stateLog == old(stateLog) + s.states && daemonStarted == old(daemonStarted) &&
        actorState == (if |s.states| % 2 == 1 then Speaking else Idle)
    {
      var c, t := server.clientSocket, ttsClient.client.socket;
      ghost var s0 := Acting(c.pending, t.pending, t.connected);
      ghost var io0, tio0, log0 := c.io, t.io, stateLog;
      while true
        invariant server.clientSocket == c && ttsClient.client.socket == t && c.connected
        invariant t.connected == old(t.connected) && actorState == Idle && daemonStarted == old(daemonStarted)
        invariant Resumes(c.io, t.io, stateLog, Acting(c.pending, t.pending, t.connected), io0, tio0, log0, s0)
        decreases |c.pending|
      {
        ghost var cur := Acting(c.pending, t.pending, t.connected);
        ghost var io, tio, log := c.io, t.io, stateLog;
        var h := Step();
        if h.Some? {
          ResumesEnd(io, tio, log, cur, io0, tio0, log0, s0);
          return h.value;
        }
        ResumesTrans(c.io, t.io, stateLog, Acting(c.pending, t.pending, t.connected), io, tio, log, cur, io0, tio0, log0, s0);
      }
    }

    /**
     * `run`: start the daemon, then act out every message of the front end until a `recv`
     * fails; without a connected front end the first `recv` fails.
     */
    method Run() returns (halt: Halt)
      requires server.clientSocket != ttsClient.client.socket
      requires actorState == Idle
      modifies this, server.clientSocket, ttsClient.client.socket
      ensures daemonStarted
      ensures var c := server.clientSocket;
        (c == null || !c.connected) ==>
          halt == ClientStopped(NotConnected) && stateLog == old(stateLog) && actorState == Idle &&
          ttsClient.client.socket.io == old(ttsClient.client.socket.io) &&
          (c != null ==> c.pending == old(c.pending) && c.io == old(c.io))
      ensures var c, t := server.clientSocket, ttsClient.client.socket;
        c != null && c.connected ==>
          var s := Acting(old(c.pending), old(t.pending), t.connected);
          halt == s.halt && c.connected && t.connected == old(t.connected) &&
          c.io == old(c.io) + s.clientIo && c.pending == s.requestsLeft &&
          t.io == old(t.io) + s.ttsIo && t.pending == s.acksLeft &&
          stateLog == old(stateLog) + s.states &&
          actorState == (if |s.states| % 2 == 1 then Speaking else Idle)
    {
      daemonStarted := true;
      if server.clientSocket == null || !server.clientSocket.connected {
        return ClientStopped(NotConnected);
      }
      halt := Communicate();
    }
  }

  class ActionClient {
    const client: ClientBase

    constructor (serverIp: string, serverPort: int)
      ensures fresh(client) && fresh(client.socket) && client.serverIp == serverIp && client.serverPort == serverPort
      ensures !client.socket.connected && client.socket.pending == [] && client.socket.io == [] && client.log == []
    {
      client := new ClientBase(serverIp, serverPort);
    }

    /** `react_to`: send the sentence once, then wait for one reply, which is dropped. */
    method ReactTo(sentence: string)
      modifies client.socket
      ensures var s := client.socket;
        s.connected == old(s.connected) &&
        (!s.connected ==> s.pending == old(s.pending) && s.io == old(s.io)) &&
        (s.connected && old(s.pending) == [] ==> s.pending == [] && s.io == old(s.io) + [Out(sentence)]) &&
        (s.connected && old(s.pending) != [] ==>
          s.pending == old(s.pending)[1..] && s.io == old(s.io) + [Out(sentence), In(old(s.pending)[0])])
    {
      var _ := client.Ask(sentence);
    }
  }
}
