/** The `AudioRecorder` class of `audio_recorder.py`: a flag and a list of
  * captured blocks that the stream callback fills while the flag is set, and
  * the WAV file `save_audio` writes from them. */
module SimpleRecorder {
  import opened Wrappers
  import opened Audio

  /** What `save_audio` writes: the header fields and the frames. */
  datatype WavFile = WavFile(channels: nat, sampleWidth: nat, frameRate: nat, frames: seq<Frame>)

  class AudioRecorder {
    var recording: bool
    var audioData: seq<Block>
    const sampleRate: nat
    const channels: nat

    constructor ()
      ensures !recording && audioData == [] && sampleRate == 44100 && channels == 2
    {
      recording := false;
      audioData := [];
      sampleRate := 44100;
      channels := 2;
    }

    /** The stream callback: a copy of the block is kept only while recording. */
    method Callback(indata: Block)
      modifies this`audioData
      ensures audioData == if recording then old(audioData) + [indata] else old(audioData)
    {
      if recording {
        audioData := audioData + [indata];
      }
    }

    /** Sets the flag and drops whatever was captured before. */
    method StartRecording()
      modifies this`recording, this`audioData
      ensures recording && audioData == []
    {
      recording := true;
      audioData := [];
    }

    /** Clears the flag; what was captured stays. */
    method StopRecording()
      modifies this`recording
      ensures !recording
    {
      recording := false;
    }

    /** `save_audio`: nothing is written when nothing was captured; otherwise
      * a two-channel, 16-bit file at the sample rate holding the captured
      * blocks one after the other, every frame of each. */
    method SaveAudio() returns (written: Option<WavFile>)
      ensures written == None <==> audioData == []
      ensures written.Some? ==> (written.value.frames == Concat(audioData)
        && |written.value.frames| == FrameCount(audioData)
        && written.value.channels == channels && written.value.sampleWidth == 2
        && written.value.frameRate == sampleRate)
    {
      if audioData == [] {
        return None;
      }
      ConcatLength(audioData);
      var frames := Concat(audioData);
      written := Some(WavFile(channels, 2, sampleRate, frames));
    }

    /** The stream delivering `blocks` to the callback, one after another. */
    method Stream(blocks: seq<Block>)
      modifies this`audioData
      ensures audioData == if recording then old(audioData) + blocks else old(audioData)
    {
      for i := 0 to |blocks|
        invariant audioData == if recording then old(audioData) + blocks[..i] else old(audioData)
      {
        assert blocks[..i + 1] == blocks[..i] + [blocks[i]];
        Callback(blocks[i]);
      }
      assert blocks[..|blocks|] == blocks;
    }
  }

  /** The script at the bottom of `audio_recorder.py`: start, capture `first`
    * for the twenty-second save, capture `rest`, stop, and save again; blocks
    * in `late` arrive after the stop.  The complete file holds the frames of
    * the first file followed by those captured since, and none after the
    * stop. */
  method Script(first: seq<Block>, rest: seq<Block>, late: seq<Block>)
    returns (clip: Option<WavFile>, complete: Option<WavFile>)
    ensures clip == None <==> first == []
    ensures clip.Some? ==> clip.value.frames == Concat(first)
    ensures complete == None <==> first == [] && rest == []
    ensures complete.Some? ==> complete.value.frames == Concat(first) + Concat(rest)
  {
    var recorder := new AudioRecorder();
    recorder.StartRecording();
    recorder.Stream(first);
    assert recorder.audioData == first;
    clip := recorder.SaveAudio();
    recorder.Stream(rest);
    recorder.StopRecording();
    recorder.Stream(late);
    assert recorder.audioData == first + rest;
    complete := recorder.SaveAudio();
    ConcatAppend(first, rest);
  }
}
