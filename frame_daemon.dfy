/**
 * The frame daemon of the action servers (`_action_daemon` in service/action.py and
 * backends/action_server.py, `action_daemon` in backend_openseeface.py, all alike): a
 * thread that keeps sending the frames of the actor's current state to OpenSeeFace over UDP,
 * checking the state again before every frame.
 *
 * The thread is modelled against `obs`, the values its successive reads of `actor_state`
 * return; the reads are taken in order, from a position in `obs` on.
 */
module FrameDaemon {
  import opened Wrappers
  import opened Frames
  import opened Actions

  /** How one pass of the daemon's outer `while True` ends. */
  datatype PassEnd =
    | Completed   // every frame of the state's sequence was sent
    | Abandoned   // a check before a frame saw another state; the rest of the sequence is dropped
    | Unmatched   // the state changed between the two checks of the `for action in Action` header
    | Missing     // no frames were loaded for the state: a KeyError ends the thread
    | Exhausted   // the observations ran out, which ends the model's horizon

  /**
   * One pass: the state whose frames it streamed, how many frames it sent, the position of
   * the first observation after it, and how it ended.
   */
  datatype Pass = Pass(streamed: Option<ActionKind>, sent: nat, next: nat, end: PassEnd)

  /** How many of the observations from `from` on, and at most `n`, agree with `a`. */
  function Agreeing(obs: seq<ActionKind>, from: nat, a: ActionKind, n: nat): (k: nat)
    ensures k <= n && (from + k <= |obs| || k == 0)
    ensures forall j :: from <= j < from + k ==> obs[j] == a
    ensures k < n && from + k < |obs| ==> obs[from + k] != a
    decreases n
  {
    if n == 0 || from >= |obs| || obs[from] != a then 0 else 1 + Agreeing(obs, from + 1, a, n - 1)
  }

  /** `Agreeing` is the length of the agreeing run: a run of `k` agreeing observations that cannot be extended. */
  lemma {:induction false} AgreeingIs(obs: seq<ActionKind>, from: nat, a: ActionKind, n: nat, k: nat)
    requires k <= n && from + k <= |obs|
    requires forall j :: from <= j < from + k ==> obs[j] == a
    requires k == n || from + k == |obs| || obs[from + k] != a
    ensures Agreeing(obs, from, a, n) == k
    decreases k
  {
    if k > 0 {
      AgreeingIs(obs, from + 1, a, n - 1, k - 1);
    }
  }

  /**
   * The inner `for frame in actions[a]` loop, whose first check reads the observation at
   * `from`: one check, then one frame, for as long as the checks see `a`.
   */
  function StreamOf(actions: map<ActionKind, seq<Frame>>, a: ActionKind, obs: seq<ActionKind>, from: nat): (p: Pass)
    requires from <= |obs|
    ensures p.streamed == Some(a) && from <= p.next <= |obs|
  {
    if a !in actions then Pass(Some(a), 0, from, Missing)
    else
      var frames := actions[a];
      var k := Agreeing(obs, from, a, |frames|);
      if k == |frames| then Pass(Some(a), k, from + k, Completed)
      else if from + k < |obs| then Pass(Some(a), k, from + k + 1, Abandoned)
      else Pass(Some(a), k, from + k, Exhausted)
  }

  /** One pass of the outer loop, reading the observations from `from` on. */
  function PassAt(actions: map<ActionKind, seq<Frame>>, obs: seq<ActionKind>, from: nat): (p: Pass)
    requires from <= |obs|
    ensures from <= p.next <= |obs|
    ensures p.end.Completed? || p.end.Abandoned? || p.end.Unmatched? ==> p.next > from
  {
    if from == |obs| then Pass(None, 0, from, Exhausted)
    else if obs[from] == Idle then StreamOf(actions, Idle, obs, from + 1)
    else if from + 1 == |obs| then Pass(None, 0, from + 1, Exhausted)
    else if obs[from + 1] == Speaking then StreamOf(actions, Speaking, obs, from + 2)
    else Pass(None, 0, from + 2, Unmatched)
  }

  /** The frames a pass sent. */
  function SentBy(actions: map<ActionKind, seq<Frame>>, p: Pass): seq<Frame>
  {
    if p.streamed.Some? && p.streamed.value in actions && p.sent <= |actions[p.streamed.value]|
    then actions[p.streamed.value][..p.sent] else []
  }

  /** What the daemon does with the observations from `from` on: the frames it sends, and whether it is still running. */
  datatype Streaming = Streaming(frames: seq<Frame>, alive: bool)

  function Daemon(actions: map<ActionKind, seq<Frame>>, obs: seq<ActionKind>, from: nat): Streaming
    requires from <= |obs|
    decreases |obs| - from
  {
    var p := PassAt(actions, obs, from);
    if p.end.Exhausted? then Streaming(SentBy(actions, p), true)
    else if p.end.Missing? then Streaming([], false)
    else
      var rest := Daemon(actions, obs, p.next);
      Streaming(SentBy(actions, p) + rest.frames, rest.alive)
  }

  /** The number of observations the header of the `for action in Action` loop reads before streaming `a`. */
  function HeaderReads(a: ActionKind): nat
  {
    if a == Idle then 1 else 2
  }

  /**
   * A pass sends an in-order prefix, from frame 0, of the sequence of the state it found;
   * it found that state at its start (SPEAKING only when IDLE did not match and the second
   * check saw SPEAKING), and the check before every frame it sent saw that state.
   */
  lemma PassSendsPrefix(actions: map<ActionKind, seq<Frame>>, obs: seq<ActionKind>, from: nat)
    requires from <= |obs|
    ensures var p := PassAt(actions, obs, from);
      p.streamed.Some? ==>
        var a, h := p.streamed.value, HeaderReads(p.streamed.value);
        from + h <= |obs| && obs[from + h - 1] == a && (a == Speaking ==> obs[from] == Speaking) &&
        (forall j :: from + h <= j < from + h + p.sent ==> obs[j] == a) &&
        (a in actions ==> p.sent <= |actions[a]| && SentBy(actions, p) == actions[a][..p.sent])
    ensures var p := PassAt(actions, obs, from);
      p.streamed.None? ==> SentBy(actions, p) == [] && p.sent == 0
  {
  }

  /**
   * A pass stops at the first check that sees another state: that check is its last read,
   * and no frame of the sequence is sent after it.
   */
  lemma AbandonOnChange(actions: map<ActionKind, seq<Frame>>, obs: seq<ActionKind>, from: nat)
    requires from <= |obs|
    ensures var p := PassAt(actions, obs, from);
      p.end.Abandoned? ==>
        p.streamed.Some? && p.streamed.value in actions && p.sent < |actions[p.streamed.value]| &&
        p.next == from + HeaderReads(p.streamed.value) + p.sent + 1 &&
        obs[p.next - 1] != p.streamed.value
    ensures var p := PassAt(actions, obs, from);
      p.end.Completed? ==> p.streamed.Some? && p.streamed.value in actions && p.sent == |actions[p.streamed.value]|
  {
  }

  /**
   * After a pass the daemon starts over: the frames of the run are those of the pass
   * followed by those of a fresh pass from the next observation.
   */
  lemma DaemonPasses(actions: map<ActionKind, seq<Frame>>, obs: seq<ActionKind>, from: nat)
    requires from <= |obs|
    ensures var p := PassAt(actions, obs, from);
      (p.end.Completed? || p.end.Abandoned? || p.end.Unmatched?) ==>
        Daemon(actions, obs, from).frames == SentBy(actions, p) + Daemon(actions, obs, p.next).frames
  {
  }

  /**
   * The restart is at frame 0: when the state stays `b` after a pass abandoned a sequence,
   * the next pass streams `b` and (if anything) sends the first frame of `b`'s sequence first.
   */
  lemma RestartAtFirstFrame(actions: map<ActionKind, seq<Frame>>, obs: seq<ActionKind>, from: nat, b: ActionKind)
    requires from <= |obs|
    requires PassAt(actions, obs, from).end.Abandoned?
    requires var n := PassAt(actions, obs, from).next;
      n + HeaderReads(b) + 1 <= |obs| && forall j :: n <= j < n + HeaderReads(b) + 1 ==> obs[j] == b
    requires b in actions && |actions[b]| > 0
    ensures var q := PassAt(actions, obs, PassAt(actions, obs, from).next);
      q.streamed == Some(b) && q.sent >= 1 && SentBy(actions, q)[0] == actions[b][0]
  {
    var n := PassAt(actions, obs, from).next;
    assert obs[n] == b;
    if b == Speaking {
      assert obs[n + 1] == b && obs[n + 2] == b;
    } else {
      assert obs[n + 1] == b;
    }
  }

  /**
   * While the state holds, a pass sends the whole sequence of that state and the next pass
   * starts right after its last check: the daemon loops the state's animation.
   */
  lemma SteadyStateSendsAll(actions: map<ActionKind, seq<Frame>>, obs: seq<ActionKind>, from: nat, a: ActionKind)
    requires a in actions
    requires var n := from + HeaderReads(a) + |actions[a]|;
      n <= |obs| && forall j :: from <= j < n ==> obs[j] == a
    ensures var p := PassAt(actions, obs, from);
      p.end == Completed && p.streamed == Some(a) && SentBy(actions, p) == actions[a] &&
      p.next == from + HeaderReads(a) + |actions[a]|
  {
    assert obs[from] == a;
    if a == Speaking {
      assert obs[from + 1] == a;
    }
    AgreeingIs(obs, from + HeaderReads(a), a, |actions[a]|, |actions[a]|);
    assert actions[a][..|actions[a]|] == actions[a];
  }

  /** With frames loaded for both states the daemon never dies. */
  lemma {:induction false} BothLoadedStaysAlive(actions: map<ActionKind, seq<Frame>>, obs: seq<ActionKind>, from: nat)
    requires from <= |obs|
    requires Idle in actions && Speaking in actions
    ensures Daemon(actions, obs, from).alive
    decreases |obs| - from
  {
    var p := PassAt(actions, obs, from);
    if !p.end.Exhausted? && !p.end.Missing? {
      BothLoadedStaysAlive(actions, obs, p.next);
    }
  }

  /** A missing action file ends the thread as soon as its state is found: nothing more is sent. */
  lemma MissingStateStops(actions: map<ActionKind, seq<Frame>>, obs: seq<ActionKind>, from: nat)
    requires from < |obs| && obs[from] == Idle && Idle !in actions
    ensures Daemon(actions, obs, from) == Streaming([], false)
  {
  }

  class FrameDaemon {
    /** `openseeface_actions`. */
    const actions: map<ActionKind, seq<Frame>>
    const clientIp: string
    const clientPort: int
    /** The datagrams sent to OpenSeeFace, in order. */
    var sent: seq<Frame>
    /** Whether the thread is still running. */
    var alive: bool

    constructor (actions: map<ActionKind, seq<Frame>>, clientIp: string, clientPort: int)
      ensures this.actions == actions && this.clientIp == clientIp && this.clientPort == clientPort
      ensures sent == [] && alive
    {
      this.actions, this.clientIp, this.clientPort := actions, clientIp, clientPort;
      sent, alive := [], true;
    }

    /** `for frame in self.openseeface_actions[a]`, its first check reading the observation at `from`. */
    method Stream(a: ActionKind, obs: seq<ActionKind>, from: nat) returns (p: Pass)
      requires from <= |obs|
      modifies this
      ensures p == StreamOf(actions, a, obs, from)
      ensures sent == old(sent) + SentBy(actions, p)
      ensures alive == (old(alive) && !p.end.Missing?)
    {
      if a !in actions {
        alive := false;
        return Pass(Some(a), 0, from, Missing);
      }
      var frames := actions[a];
      var i := 0;
      while i < |frames|
        invariant i <= |frames| && from + i <= |obs|
        invariant forall j :: from <= j < from + i ==> obs[j] == a
        invariant sent == old(sent) + frames[..i] && alive == old(alive)
      {
        if from + i == |obs| || obs[from + i] != a {
          AgreeingIs(obs, from, a, |frames|, i);
          return if from + i == |obs| then Pass(Some(a), i, from + i, Exhausted)
            else Pass(Some(a), i, from + i + 1, Abandoned);
        }
        sent := sent + [frames[i]];
        assert frames[..i + 1] == frames[..i] + [frames[i]];
        i := i + 1;
      }
      assert frames[..|frames|] == frames;
      AgreeingIs(obs, from, a, |frames|, i);
      return Pass(Some(a), i, from + i, Completed);
    }

    /** One pass of the outer loop: check IDLE, then SPEAKING, and stream the first that matches. */
    method OnePass(obs: seq<ActionKind>, from: nat) returns (p: Pass)
      requires from <= |obs|
      modifies this
      ensures p == PassAt(actions, obs, from)
      ensures sent == old(sent) + SentBy(actions, p)
      ensures alive == (old(alive) && !p.end.Missing?)
    {
      if from == |obs| {
        return Pass(None, 0, from, Exhausted);
      }
      if obs[from] == Idle {
        p := Stream(Idle, obs, from + 1);
        return;
      }
      if from + 1 == |obs| {
        return Pass(None, 0, from + 1, Exhausted);
      }
      if obs[from + 1] == Speaking {
        p := Stream(Speaking, obs, from + 2);
        return;
      }
      return Pass(None, 0, from + 2, Unmatched);
    }

    /** The thread's `while True` loop, for as long as there are observations and the thread runs. */
    method Run(obs: seq<ActionKind>)
      requires alive
      modifies this
      ensures sent == old(sent) + Daemon(actions, obs, 0).frames
      ensures alive == Daemon(actions, obs, 0).alive
    {
      var pos := 0;
      while true
        invariant pos <= |obs| && alive
        invariant old(sent) + Daemon(actions, obs, 0).frames == sent + Daemon(actions, obs, pos).frames
        invariant Daemon(actions, obs, 0).alive == Daemon(actions, obs, pos).alive
        decreases |obs| - pos
      {
        var p := OnePass(obs, pos);
        if p.end.Exhausted? || p.end.Missing? {
          return;
        }
        pos := p.next;
      }
    }
  }
}
