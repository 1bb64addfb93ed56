/**
 * The two OpenSeeFace packet tools: the recorder stores every full-size UDP datagram it
 * receives in one binary file; the player cuts that file back into packets and
 * sends them again and again, in file order.
 */
module PacketTools {
  import opened Frames

  /** `sock.recvfrom(2048)`: a longer datagram is cut to the buffer size. */
  const RecvBufSize: nat := 2048

  function Received(datagram: seq<byte>): (r: seq<byte>)
    ensures |r| <= RecvBufSize && |r| <= |datagram| && r == datagram[..|r|]
    ensures |datagram| <= RecvBufSize ==> r == datagram
  {
    if |datagram| <= RecvBufSize then datagram else datagram[..RecvBufSize]
  }

  /** The recorder writes a datagram exactly when what it received is one full frame. */
  predicate Kept(datagram: seq<byte>)
  {
    |Received(datagram)| == FrameLen
  }

  /** The received datagrams that reach the file, in arrival order. */
  function Accepted(datagrams: seq<seq<byte>>): seq<Frame>
  {
    if datagrams == [] then []
    else
      var last := datagrams[|datagrams| - 1];
      Accepted(datagrams[..|datagrams| - 1]) + (if Kept(last) then [Received(last)] else [])
  }

  /** The length filter does not depend on the receive buffer: 1785 bytes fit in it whole. */
  lemma KeptIffFullFrame(datagram: seq<byte>)
    ensures Kept(datagram) <==> |datagram| == FrameLen
    ensures Kept(datagram) ==> Received(datagram) == datagram
  {
  }

  /** Accepted keeps exactly the datagrams of 1785 bytes, unchanged and in order. */
  lemma {:induction false} AcceptedFilters(datagrams: seq<seq<byte>>)
    ensures AllFull(Accepted(datagrams))
    ensures forall f :: f in Accepted(datagrams) ==> f in datagrams
    ensures forall d :: d in datagrams && |d| == FrameLen ==> d in Accepted(datagrams)
    ensures |Accepted(datagrams)| <= |datagrams|
  {
    if datagrams != [] {
      var init, last := datagrams[..|datagrams| - 1], datagrams[|datagrams| - 1];
      AcceptedFilters(init);
      KeptIffFullFrame(last);
      assert datagrams == init + [last];
    }
  }

  /**
   * The recording loop of tool/openseeface_record_packet.py over the datagrams that arrive
   * before the user stops it; `file` is what ends up in received_data.bin (opened "wb").
   */
  method Record(datagrams: seq<seq<byte>>) returns (file: seq<byte>)
    ensures file == Flatten(Accepted(datagrams))
    ensures |file| % FrameLen == 0
    ensures |file| == FrameLen * |Accepted(datagrams)|
  {
    file := [];
    var i := 0;
    while i < |datagrams|
      invariant i <= |datagrams|
      invariant file == Flatten(Accepted(datagrams[..i]))
      invariant |file| % FrameLen == 0
    {
      var data := Received(datagrams[i]);
      assert datagrams[..i + 1][..i] == datagrams[..i];
      assert datagrams[..i + 1][i] == datagrams[i];
      assert Accepted(datagrams[..i + 1]) == Accepted(datagrams[..i]) + (if |data| == FrameLen then [data] else []);
      if |data| == FrameLen {
        FlattenAppend(Accepted(datagrams[..i]), data);
        file := file + data;
      } else {
        assert Accepted(datagrams[..i]) + [] == Accepted(datagrams[..i]);
      }
      i := i + 1;
    }
    assert datagrams[..i] == datagrams;
    AcceptedFilters(datagrams);
    FlattenAllFullLength(Accepted(datagrams));
  }

  /** Record, then load: the player recovers exactly the datagrams the recorder kept. */
  lemma RecordThenLoad(datagrams: seq<seq<byte>>)
    ensures Chunks(Flatten(Accepted(datagrams))) == Accepted(datagrams)
  {
    AcceptedFilters(datagrams);
    AllFullWellChunked(Accepted(datagrams));
    ChunksOfFlatten(Accepted(datagrams));
  }

  /** `rounds` complete passes of the player's `for frame in frames` loop, laid end to end. */
  function Cycle(frames: seq<Frame>, rounds: nat): seq<Frame>
  {
    if rounds == 0 then [] else Cycle(frames, rounds - 1) + frames
  }

  lemma {:induction false} CycleLength(frames: seq<Frame>, rounds: nat)
    ensures |Cycle(frames, rounds)| == rounds * |frames|
  {
    if rounds > 0 {
      CycleLength(frames, rounds - 1);
      assert (rounds - 1) * |frames| + |frames| == rounds * |frames|;
    }
  }

  /** The sent stream is periodic with the file's frame count as its period. */
  lemma {:induction false} CyclePeriodic(frames: seq<Frame>, rounds: nat)
    ensures rounds > 0 ==> |Cycle(frames, rounds)| >= |frames| && Cycle(frames, rounds)[..|frames|] == frames
    ensures forall i :: 0 <= i < |Cycle(frames, rounds)| - |frames| ==>
      Cycle(frames, rounds)[i + |frames|] == Cycle(frames, rounds)[i]
  {
    if rounds > 0 {
      CyclePeriodic(frames, rounds - 1);
      var prev := Cycle(frames, rounds - 1);
      var c := prev + frames;
      assert c == Cycle(frames, rounds);
      if rounds > 1 {
        CycleTail(frames, rounds - 1);
        assert c[..|frames|] == prev[..|frames|];
        forall i | 0 <= i < |c| - |frames| ensures c[i + |frames|] == c[i] {
          if i + |frames| >= |prev| {
            assert prev[i] == prev[|prev| - |frames|..][i - (|prev| - |frames|)];
          }
        }
      }
    }
  }

  /** The last pass of a cycle is the frame list itself. */
  lemma CycleTail(frames: seq<Frame>, rounds: nat)
    requires rounds > 0
    ensures |Cycle(frames, rounds)| >= |frames|
    ensures Cycle(frames, rounds)[|Cycle(frames, rounds)| - |frames|..] == frames
  {
  }

  /**
   * The send loop of tools/openseeface_play_packet.py,
   * `while True: for frame in frames: sock.sendto(frame, ...)`, here for `rounds` passes.
   */
  method SendCycle(frames: seq<Frame>, rounds: nat) returns (sent: seq<Frame>)
    ensures |sent| == rounds * |frames|
    ensures rounds > 0 ==> sent[..|frames|] == frames
    ensures forall i :: 0 <= i < |sent| - |frames| ==> sent[i + |frames|] == sent[i]
  {
    sent := [];
    var r := 0;
    while r < rounds
      invariant r <= rounds
      invariant sent == Cycle(frames, r)
    {
      var i := 0;
      while i < |frames|
        invariant i <= |frames|
        invariant sent == Cycle(frames, r) + frames[..i]
      {
        sent := sent + [frames[i]];
        i := i + 1;
      }
      assert frames[..i] == frames;
      r := r + 1;
    }
    CycleLength(frames, rounds);
    CyclePeriodic(frames, rounds);
  }

  /** The player: load the recording with the 1785-byte loop, then send it cyclically. */
  method Play(file: seq<byte>, rounds: nat) returns (frames: seq<Frame>, sent: seq<Frame>)
    ensures Flatten(frames) == file && WellChunked(frames)
    ensures |sent| == rounds * |frames|
    ensures rounds > 0 ==> sent[..|frames|] == frames
    ensures forall i :: 0 <= i < |sent| - |frames| ==> sent[i + |frames|] == sent[i]
  {
    frames := ReadFrames(file);
    sent := SendCycle(frames, rounds);
  }
}
