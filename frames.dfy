/**
 * OpenSeeFace animation frames. Every action file and every recording is a headerless
 * concatenation of 1785-byte packets; the action servers and the replay tool cut a file
 * back into packets by reading 1785 bytes at a time until a read comes back empty.
 */
module Frames {

  newtype byte = x: int | 0 <= x < 256

  type Frame = seq<byte>

  /** OPENSEEFACE_FRAME_LEN / DATA_FRAME_LEN: the size of one OpenSeeFace packet. */
  const FrameLen: nat := 1785

  /** The bytes of a sequence of frames laid end to end. */
  function Flatten(frames: seq<Frame>): seq<byte>
  {
    if frames == [] then [] else frames[0] + Flatten(frames[1..])
  }

  /** `fp.read(n)` on a binary file positioned at `pos`: at most `n` bytes, fewer at the end. */
  function ReadAt(file: seq<byte>, pos: nat, n: nat): (r: seq<byte>)
    requires pos <= |file|
    ensures |r| <= n && pos + |r| <= |file| && r == file[pos..pos + |r|]
    ensures r == [] <==> (pos == |file| || n == 0)
  {
    if pos + n <= |file| then file[pos..pos + n] else file[pos..]
  }

  /** The reference splitting of `data` into frames: full frames, then one shorter tail if any. */
  function Chunks(data: seq<byte>): seq<Frame>
    decreases |data|
  {
    if data == [] then []
    else if |data| <= FrameLen then [data]
    else [data[..FrameLen]] + Chunks(data[FrameLen..])
  }

  /** Every frame is non-empty and at most FrameLen bytes; all but the last are exactly FrameLen. */
  predicate WellChunked(frames: seq<Frame>)
  {
    (forall k :: 0 <= k < |frames| ==> 0 < |frames[k]| <= FrameLen) &&
    (forall k :: 0 <= k < |frames| - 1 ==> |frames[k]| == FrameLen)
  }

  /** All frames are full packets, as the recorder writes them. */
  predicate AllFull(frames: seq<Frame>)
  {
    forall k :: 0 <= k < |frames| ==> |frames[k]| == FrameLen
  }

  lemma {:induction false} FlattenAppend(frames: seq<Frame>, f: Frame)
    ensures Flatten(frames + [f]) == Flatten(frames) + f
  {
    if frames != [] {
      assert (frames + [f])[1..] == frames[1..] + [f];
      FlattenAppend(frames[1..], f);
    }
  }

  /** Splitting loses nothing: the frames laid end to end are the original bytes. */
  lemma {:induction false} FlattenChunks(data: seq<byte>)
    ensures Flatten(Chunks(data)) == data
    decreases |data|
  {
    if |data| > FrameLen {
      FlattenChunks(data[FrameLen..]);
      assert data == data[..FrameLen] + data[FrameLen..];
    }
  }

  /** The splitting has the shape the loader promises for every frame. */
  lemma {:induction false} ChunksWellChunked(data: seq<byte>)
    ensures WellChunked(Chunks(data))
    decreases |data|
  {
    if |data| > FrameLen {
      ChunksWellChunked(data[FrameLen..]);
      var rest := Chunks(data[FrameLen..]);
      assert Chunks(data) == [data[..FrameLen]] + rest;
      assert rest != [] by { assert data[FrameLen..] != []; }
    }
  }

  /**
   * The shape determines the splitting: any well-chunked sequence of frames is the splitting
   * of its own concatenation. With FlattenChunks and ChunksWellChunked, Chunks is the only
   * function with those two properties.
   */
  lemma {:induction false} ChunksOfFlatten(frames: seq<Frame>)
    requires WellChunked(frames)
    ensures Chunks(Flatten(frames)) == frames
  {
    if |frames| == 1 {
      assert Flatten(frames) == frames[0] + Flatten(frames[1..]);
      assert Flatten(frames) == frames[0];
      assert frames == [frames[0]];
    } else if |frames| > 1 {
      var rest := frames[1..];
      assert WellChunked(rest) by {
        forall k | 0 <= k < |rest| ensures 0 < |rest[k]| <= FrameLen { assert rest[k] == frames[k + 1]; }
        forall k | 0 <= k < |rest| - 1 ensures |rest[k]| == FrameLen { assert rest[k] == frames[k + 1]; }
      }
      ChunksOfFlatten(rest);
      var data := Flatten(frames);
      assert data == frames[0] + Flatten(rest);
      assert |frames[0]| == FrameLen;
      assert Flatten(rest) == rest[0] + Flatten(rest[1..]);
      assert |rest[0]| > 0;
      assert data[..FrameLen] == frames[0];
      assert data[FrameLen..] == Flatten(rest);
    }
  }

  /** Full frames are a special case of the loader's shape. */
  lemma AllFullWellChunked(frames: seq<Frame>)
    requires AllFull(frames)
    ensures WellChunked(frames)
  {
  }

  /** A concatenation of full frames is a whole number of frames long. */
  lemma {:induction false} FlattenAllFullLength(frames: seq<Frame>)
    requires AllFull(frames)
    ensures |Flatten(frames)| == FrameLen * |frames|
  {
    if frames != [] {
      assert AllFull(frames[1..]) by {
        forall k | 0 <= k < |frames[1..]| ensures |frames[1..][k]| == FrameLen { assert frames[1..][k] == frames[k + 1]; }
      }
      FlattenAllFullLength(frames[1..]);
    }
  }

  /**
   * The loop `while True: frame = fp.read(1785); if not frame: break; frames.append(frame)`
   * that service/action.py, both older action servers and the replay tool run over a file.
   */
  method ReadFrames(file: seq<byte>) returns (frames: seq<Frame>)
    ensures Flatten(frames) == file
    ensures WellChunked(frames)
    ensures frames == Chunks(file)
  {
    frames := [];
    var pos: nat := 0;
    while true
      invariant pos <= |file|
      invariant frames + Chunks(file[pos..]) == Chunks(file)
      decreases |file| - pos
    {
      var frame := ReadAt(file, pos, FrameLen);
      if frame == [] {
        assert file[pos..] == [];
        break;
      }
      ghost var rest := file[pos..];
      assert rest[|frame|..] == file[pos + |frame|..];
      if |rest| <= FrameLen {
        assert frame == rest && rest[|frame|..] == [];
      } else {
        assert frame == rest[..FrameLen];
      }
      assert Chunks(rest) == [frame] + Chunks(rest[|frame|..]);
      frames := frames + [frame];
      pos := pos + |frame|;
    }
    assert Chunks(file[pos..]) == [];
    assert frames == Chunks(file);
    FlattenChunks(file);
    ChunksWellChunked(file);
  }
}
