/** `transcribe_audio` of app.py: check the WAVE header, then read the samples
    in batches of 4000 frames, feed each batch to a streaming recogniser, keep
    the text of every utterance the recogniser closes, add its final result and
    trim the whole. */
module Transcriber {
  import opened Wrappers
  import opened PyStr
  import opened Slicing

  type Byte = b: int | 0 <= b < 256
  type Batch = seq<Byte>

  const FramesPerRead: nat := 4000
  const MinFrameRate := 8000
  const MaxFrameRate := 48000
  const FormatError := "Audio must be WAV mono PCM (16-bit)."

  /** An opened WAVE file: the header fields, the bytes of the data chunk, a
      read position and whether it has been closed. `Reads` records, for the
      proofs, every batch `ReadFrames` has handed out. */
  class AudioSource {
    const channels: nat
    const sampleWidth: nat
    const frameRate: int
    const samples: seq<Byte>
    var pos: nat
    var closed: bool
    ghost var Reads: seq<Batch>

    ghost predicate Valid()
      reads this
    {
      pos <= |samples|
    }

    /** Bytes per frame: one sample per channel. */
    function FrameSize(): nat
    {
      channels * sampleWidth
    }

    /** `wave.open(path, "rb")`, with the header already parsed. */
    constructor Open(channels: nat, sampleWidth: nat, frameRate: int, samples: seq<Byte>)
      ensures Valid() && !closed && pos == 0 && Reads == []
      ensures this.channels == channels && this.sampleWidth == sampleWidth
      ensures this.frameRate == frameRate && this.samples == samples
    {
      this.channels, this.sampleWidth, this.frameRate := channels, sampleWidth, frameRate;
      this.samples := samples;
      pos, closed, Reads := 0, false, [];
    }

    /** `readframes(n)`: the next `n` frames' worth of bytes, fewer at the end of
      the data, and none once everything has been read. */
    method ReadFrames(n: nat) returns (data: Batch)
      requires Valid() && !closed
      modifies this`pos, this`Reads
      ensures Valid()
      ensures data == Slice(samples[old(pos)..], 0, n * FrameSize())
      ensures pos == old(pos) + |data|
      ensures Reads == old(Reads) + [data]
    {
      data := Slice(samples, pos, pos + n * FrameSize());
      SliceShift(samples, pos, 0, n * FrameSize());
      pos := pos + |data|;
      Reads := Reads + [data];
    }

    /** `close()`. */
    method Close()
      modifies this`closed
      ensures closed
    {
      closed := true;
    }
  }

  /** The speech model as an oracle. The recogniser is stateful across batches,
      so each answer is a function of the sample rate and of every batch fed
      so far: whether the latest batch closed an utterance, the text of that
      utterance (the `"text"` field of `Result()`, `""` when absent), and the
      text of what is still pending at the end (`FinalResult()`). */
  datatype SpeechModel = SpeechModel(
    boundary: (int, seq<Batch>) -> bool,
    utterance: (int, seq<Batch>) -> string,
    final: (int, seq<Batch>) -> string)

  /** The loaded `vosk_model`: its answers, and a record of every recogniser
      built on it, so that creating one is visible to callers. */
  class VoskModel {
    const answers: SpeechModel
    ghost var Recognizers: seq<Recognizer>

    constructor (answers: SpeechModel)
      ensures this.answers == answers && Recognizers == []
    {
      this.answers := answers;
      Recognizers := [];
    }
  }

  /** `KaldiRecognizer(vosk_model, rate)`: one per transcription, remembering
      what it has been fed. */
  class Recognizer {
    const model: SpeechModel
    const sampleRate: int
    var fed: seq<Batch>

    constructor (vosk: VoskModel, sampleRate: int)
      modifies vosk`Recognizers
      ensures model == vosk.answers && this.sampleRate == sampleRate && fed == []
      ensures vosk.Recognizers == old(vosk.Recognizers) + [this]
    {
      model, this.sampleRate := vosk.answers, sampleRate;
      fed := [];
      new;
      vosk.Recognizers := vosk.Recognizers + [this];
    }

    /** `AcceptWaveform(data)`: feed one batch; true when it closed an utterance. */
    method AcceptWaveform(data: Batch) returns (boundary: bool)
      modifies this`fed
      ensures fed == old(fed) + [data]
      ensures boundary == model.boundary(sampleRate, fed)
    {
      fed := fed + [data];
      boundary := model.boundary(sampleRate, fed);
    }

    /** `json.loads(Result()).get("text", "")`. */
    method Result() returns (text: string)
      ensures text == model.utterance(sampleRate, fed)
    {
      text := model.utterance(sampleRate, fed);
    }

    /** `json.loads(FinalResult()).get("text", "")`. */
    method FinalResult() returns (text: string)
      ensures text == model.final(sampleRate, fed)
    {
      text := model.final(sampleRate, fed);
    }
  }

  /** The header test of line 93, negated: mono, two-byte samples, and a frame
      rate from 8000 to 48000 inclusive. */
  predicate FormatOk(channels: int, sampleWidth: int, frameRate: int)
  {
    channels == 1 && sampleWidth == 2 && MinFrameRate <= frameRate <= MaxFrameRate
  }

  /** What one fed batch adds to the running text: the utterance and a space
      when the batch closed an utterance, nothing otherwise. `fed` ends with
      that batch. */
  function Segment(m: SpeechModel, rate: int, fed: seq<Batch>): string
  {
    if m.boundary(rate, fed) then m.utterance(rate, fed) + " " else ""
  }

  /** The running text after feeding `fed`, one batch at a time. */
  function Accumulated(m: SpeechModel, rate: int, fed: seq<Batch>): string
    decreases |fed|
  {
    if fed == [] then "" else Accumulated(m, rate, fed[..|fed| - 1]) + Segment(m, rate, fed)
  }

  /** Feeding one more batch appends that batch's segment. */
  lemma AccumulatedSnoc(m: SpeechModel, rate: int, fed: seq<Batch>, data: Batch)
    ensures Accumulated(m, rate, fed + [data]) == Accumulated(m, rate, fed) + Segment(m, rate, fed + [data])
  {
    assert (fed + [data])[..|fed|] == fed;
  }

  /** The transcript: the running text, then the final result, trimmed. */
  function Transcript(m: SpeechModel, rate: int, fed: seq<Batch>): string
  {
    Strip(Accumulated(m, rate, fed) + m.final(rate, fed))
  }

  /** The running text is the segments of the batches, in feeding order:
      `part + " "` for each batch that closed an utterance, nothing for the
      others. */
  lemma {:induction false} AccumulatedIsSegments(m: SpeechModel, rate: int, fed: seq<Batch>)
    ensures Accumulated(m, rate, fed)
            == Concat(seq(|fed|, i requires 0 <= i < |fed| => Segment(m, rate, fed[..i + 1])))
    decreases |fed|
  {
    if fed != [] {
      var n := |fed| - 1;
      var init := fed[..n];
      AccumulatedIsSegments(m, rate, init);
      var segs := seq(|fed|, i requires 0 <= i < |fed| => Segment(m, rate, fed[..i + 1]));
      var initSegs := seq(n, i requires 0 <= i < n => Segment(m, rate, init[..i + 1]));
      assert segs == initSegs + [Segment(m, rate, fed)] by {
        forall i | 0 <= i < n ensures segs[i] == initSegs[i] {
          assert init[..i + 1] == fed[..i + 1];
        }
        assert fed[..n + 1] == fed;
      }
      ConcatSnoc(initSegs, Segment(m, rate, fed));
    }
  }

  lemma {:induction false} ConcatSnoc<T>(ss: seq<seq<T>>, last: seq<T>)
    ensures Concat(ss + [last]) == Concat(ss) + last
    decreases |ss|
  {
    if ss != [] {
      assert (ss + [last])[1..] == ss[1..] + [last];
      ConcatSnoc(ss[1..], last);
    }
  }

  /** The running text only ever grows at the end: what it was after the first
      `k` batches is a prefix of what it is after all of them. */
  lemma {:induction false} AccumulatedGrows(m: SpeechModel, rate: int, fed: seq<Batch>, k: nat)
    requires k <= |fed|
    ensures Accumulated(m, rate, fed[..k]) <= Accumulated(m, rate, fed)
    decreases |fed|
  {
    if k < |fed| {
      var init := fed[..|fed| - 1];
      assert init[..k] == fed[..k];
      AccumulatedGrows(m, rate, init, k);
    } else {
      assert fed[..k] == fed;
    }
  }

  /** When no batch closes an utterance, the running text stays empty. */
  lemma {:induction false} NoBoundaryNothingAccumulated(m: SpeechModel, rate: int, fed: seq<Batch>)
    requires forall n :: 0 < n <= |fed| ==> !m.boundary(rate, fed[..n])
    ensures Accumulated(m, rate, fed) == ""
    decreases |fed|
  {
    if fed != [] {
      var init := fed[..|fed| - 1];
      forall n | 0 < n <= |init| ensures !m.boundary(rate, init[..n]) {
        assert init[..n] == fed[..n];
      }
      NoBoundaryNothingAccumulated(m, rate, init);
      assert fed[..|fed|] == fed;
      assert Segment(m, rate, fed) == "";
    }
  }

  /** When no batch closes an utterance, nothing but the final result reaches
      the transcript. */
  lemma NoBoundaryOnlyFinal(m: SpeechModel, rate: int, fed: seq<Batch>)
    requires forall n :: 0 < n <= |fed| ==> !m.boundary(rate, fed[..n])
    ensures Accumulated(m, rate, fed) == ""
    ensures Transcript(m, rate, fed) == Strip(m.final(rate, fed))
  {
    NoBoundaryNothingAccumulated(m, rate, fed);
    assert Accumulated(m, rate, fed) + m.final(rate, fed) == m.final(rate, fed);
  }

  /** One read of the loop: a non-empty batch taken at position `p` is the
      next piece of the cutting, so feeding it keeps the batches fed followed
      by the pieces of what is left equal to the pieces of the whole. */
  lemma ReadStep(fed: seq<Batch>, all: seq<Byte>, samples: seq<Byte>, p: nat, size: nat, data: Batch)
    requires size > 0 && p <= |samples|
    requires fed + Pieces(samples[p..], size) == Pieces(all, size)
    requires data == Slice(samples[p..], 0, size) && |data| > 0
    ensures p + |data| <= |samples|
    ensures (fed + [data]) + Pieces(samples[p + |data|..], size) == Pieces(all, size)
  {
    var rest := samples[p..];
    assert rest[|data|..] == samples[p + |data|..];
    assert Pieces(rest, size) == [data] + Pieces(rest[|data|..], size);
  }

  /** The read that comes back empty is the one at the end of the data. */
  lemma EmptyReadAtEnd(samples: seq<Byte>, p: nat, size: nat)
    requires size > 0 && p <= |samples|
    requires Slice(samples[p..], 0, size) == []
    ensures p == |samples|
  {
  }

  /** Lines 98-106: starting from an empty running text, read batches of 4000
      frames until a read comes back empty; feed each non-empty batch to the
      recogniser and keep the text of every utterance it closes. The batches
      fed are exactly the pieces of the unread bytes, in order; the reads are
      those pieces and one empty read, which is not fed. */
  method RecognizeBatches(audio: AudioSource, r: Recognizer) returns (acc: string)
    requires audio.Valid() && !audio.closed && audio.FrameSize() > 0
    requires r.fed == []
    modifies audio`pos, audio`Reads, r`fed
    ensures audio.Valid() && audio.pos == |audio.samples|
    ensures r.fed == Pieces(old(audio.samples[audio.pos..]), FramesPerRead * audio.FrameSize())
    ensures audio.Reads == old(audio.Reads) + r.fed + [[]]
    ensures acc == Accumulated(r.model, r.sampleRate, r.fed)
  {
    acc := "";
    ghost var all := audio.samples[audio.pos..];
    var batchBytes := FramesPerRead * audio.FrameSize();
    assert batchBytes > 0;

    while true
      invariant audio.Valid() && !audio.closed
      invariant r.fed + Pieces(audio.samples[audio.pos..], batchBytes) == Pieces(all, batchBytes)
      invariant audio.Reads == old(audio.Reads) + r.fed
      invariant acc == Accumulated(r.model, r.sampleRate, r.fed)
      decreases |audio.samples| - audio.pos
    {
      ghost var p := audio.pos;
      ghost var fedBefore := r.fed;
      var data := audio.ReadFrames(FramesPerRead);
      if |data| == 0 {
        EmptyReadAtEnd(audio.samples, p, batchBytes);
        break;
      }
      ReadStep(fedBefore, all, audio.samples, p, batchBytes, data);
      var boundary := r.AcceptWaveform(data);
      AccumulatedSnoc(r.model, r.sampleRate, fedBefore, data);
      if boundary {
        var part := r.Result();
        acc := acc + part + " ";
      }
    }
  }

  /** `transcribe_audio`. On a bad header: the handle is closed, nothing is
      read, no recogniser is built on the model and the format error comes
      back. Otherwise: exactly one recogniser is built, it is fed every batch of 4000 frames in order, the empty read
      that ends the loop is the only other read and is not fed, all the data
      has been read, the handle is closed, and the transcript is that of the fed batches. */
  method TranscribeAudio(audio: AudioSource, vosk: VoskModel)
      returns (text: Option<string>, error: Option<string>, ghost rec: Recognizer?)
    requires audio.Valid() && !audio.closed
    modifies audio, vosk`Recognizers
    ensures audio.Valid() && audio.closed
    ensures !FormatOk(audio.channels, audio.sampleWidth, audio.frameRate) ==>
              && text == None && error == Some(FormatError)
              && rec == null && vosk.Recognizers == old(vosk.Recognizers)
              && audio.pos == old(audio.pos) && audio.Reads == old(audio.Reads)
    ensures FormatOk(audio.channels, audio.sampleWidth, audio.frameRate) ==>
              && rec != null && fresh(rec)
              && vosk.Recognizers == old(vosk.Recognizers) + [rec]
              && rec.model == vosk.answers && rec.sampleRate == audio.frameRate
              && audio.pos == |audio.samples|
              && rec.fed == Chunks(audio.samples[old(audio.pos)..], FramesPerRead * audio.FrameSize())
              && audio.Reads == old(audio.Reads) + rec.fed + [[]]
              && text == Some(Transcript(vosk.answers, audio.frameRate, rec.fed))
              && error == None
  {
    if audio.channels != 1 || audio.sampleWidth != 2
       || !(MinFrameRate <= audio.frameRate <= MaxFrameRate) {
      audio.Close();
      return None, Some(FormatError), null;
    }

    var r := new Recognizer(vosk, audio.frameRate);
    rec := r;
    assert FramesPerRead * audio.FrameSize() == 8000;
    var acc := RecognizeBatches(audio, r);
    ChunksArePieces(audio.samples[old(audio.pos)..], 8000);

    var final := r.FinalResult();
    acc := acc + final;
    audio.Close();
    return Some(Strip(acc)), None, rec;
  }
}
