/** Audio blocks as the capture callbacks deliver them: a block is a sequence of
  * frames, a frame holds one sample per channel.  Sample values only matter to
  * the level meter and the mixer, which stay abstract. */
module Audio {

  type Sample = real
  type Frame = seq<Sample>
  type Block = seq<Frame>

  /** The tag a capture callback puts on each block it enqueues. */
  datatype Source = Mic | System

  datatype Tagged = Tagged(source: Source, data: Block)

  function Min(a: int, b: int): (m: int)
    ensures m <= a && m <= b && (m == a || m == b)
  {
    if a <= b then a else b
  }

  /** `np.concatenate(blocks)` along the frame axis. */
  function Concat(blocks: seq<Block>): (r: seq<Frame>)
    decreases |blocks|
  {
    if blocks == [] then [] else Concat(blocks[..|blocks| - 1]) + blocks[|blocks| - 1]
  }

  /** Total number of frames in a list of blocks. */
  function FrameCount(blocks: seq<Block>): nat
    decreases |blocks|
  {
    if blocks == [] then 0 else FrameCount(blocks[..|blocks| - 1]) + |blocks[|blocks| - 1]|
  }

  /** Concatenation keeps every frame: its length is the sum of the block lengths. */
  lemma {:induction false} ConcatLength(blocks: seq<Block>)
    ensures |Concat(blocks)| == FrameCount(blocks)
    decreases |blocks|
  {
    if blocks != [] {
      ConcatLength(blocks[..|blocks| - 1]);
    }
  }

  /** Concatenation distributes over appending lists of blocks. */
  lemma {:induction false} ConcatAppend(a: seq<Block>, b: seq<Block>)
    ensures Concat(a + b) == Concat(a) + Concat(b)
    decreases |b|
  {
    if b == [] {
      assert a + b == a;
    } else {
      assert (a + b)[..|a + b| - 1] == a + b[..|b| - 1];
      ConcatAppend(a, b[..|b| - 1]);
    }
  }

  /** A block is mono when every frame has exactly one channel
    * (`data.shape[1] == 1`; an empty block of a mono stream has that shape too). */
  predicate IsMono(b: Block) {
    forall i :: 0 <= i < |b| ==> |b[i]| == 1
  }

  /** The widening both capture callbacks apply before enqueuing:
    * `np.repeat(data, 2, axis=1)` on a mono block, the block itself otherwise. */
  function ToStereo(b: Block): (r: Block)
    ensures |r| == |b|
    ensures IsMono(b) ==> forall i :: 0 <= i < |r| ==> |r[i]| == 2 && r[i][0] == r[i][1] == b[i][0]
    ensures !IsMono(b) ==> r == b
  {
    if IsMono(b) then seq(|b|, i requires 0 <= i < |b| => [b[i][0], b[i][0]]) else b
  }

  /** Channel `c` of a block, as a mono block. */
  function Column(b: Block, c: nat): (r: Block)
    requires forall i :: 0 <= i < |b| ==> c < |b[i]|
    ensures |r| == |b| && IsMono(r)
  {
    seq(|b|, i requires 0 <= i < |b| => [b[i][c]])
  }

  /** Widening loses nothing: each channel of the widened block is the original
    * mono block. */
  lemma StereoColumns(b: Block)
    requires IsMono(b)
    ensures Column(ToStereo(b), 0) == b && Column(ToStereo(b), 1) == b
  {
    var w := ToStereo(b);
    assert forall i :: 0 <= i < |b| ==> Column(w, 0)[i] == [b[i][0]] == b[i];
    assert forall i :: 0 <= i < |b| ==> Column(w, 1)[i] == [b[i][0]] == b[i];
  }

  /** Widening an already widened block changes nothing. */
  lemma StereoIdempotent(b: Block)
    ensures ToStereo(ToStereo(b)) == ToStereo(b)
  {
    var w := ToStereo(b);
    if IsMono(b) && |b| > 0 {
      assert |w[0]| == 2;
      assert !IsMono(w);
    }
  }
}
