/** The two stages in the order the upload handler runs them: the transcript
    returned by `transcribe_audio` is handed to `summarize_text_offline`. */
module Pipeline {
  import opened Wrappers
  import opened PyStr
  import opened Transcriber
  import opened Summarizer

  /** A transcript is trimmed, so the summariser's blank test refuses it
      exactly when it is empty. */
  lemma TranscriptBlankIffEmpty(m: SpeechModel, rate: int, fed: seq<Batch>)
    ensures Blank(Transcript(m, rate, fed)) <==> Transcript(m, rate, fed) == ""
  {
    var t := Transcript(m, rate, fed);
    if t != "" {
      assert !IsSpace(t[0]);
      assert !AllSpace(t);
    }
  }

  /** Audio in which the recogniser closes no utterance and has only
      whitespace pending at the end yields the empty transcript, which the
      summariser refuses. */
  lemma SilenceGivesBlankTranscript(m: SpeechModel, rate: int, fed: seq<Batch>)
    requires forall n :: 0 < n <= |fed| ==> !m.boundary(rate, fed[..n])
    requires AllSpace(m.final(rate, fed))
    ensures Transcript(m, rate, fed) == ""
    ensures Blank(Transcript(m, rate, fed))
  {
    NoBoundaryOnlyFinal(m, rate, fed);
  }

  /** A 44100 Hz stereo clip is refused before any frame is read and before
      any recogniser is built, and the handle is closed. */
  method StereoClipRejected(samples: seq<Byte>, m: SpeechModel)
      returns (text: Option<string>, error: Option<string>, readCount: nat, closed: bool, ghost recognizers: nat)
    ensures text == None && error == Some(FormatError)
    ensures readCount == 0 && closed && recognizers == 0
  {
    var audio := new AudioSource.Open(2, 2, 44100, samples);
    var vosk := new VoskModel(m);
    ghost var rec;
    text, error, rec := TranscribeAudio(audio, vosk);
    readCount, closed, recognizers := audio.pos, audio.closed, |vosk.Recognizers|;
  }

  /** A 16 kHz mono clip in which nothing is recognised: the transcript is
      empty and the summariser refuses it without calling its model. */
  method SilentClipEndToEnd(samples: seq<Byte>, generate: (string, GenerationConfig) -> string)
      returns (transcript: Option<string>, summary: Option<string>, error: Option<string>, ghost calls: nat)
    ensures transcript == Some("")
    ensures summary == None && error == Some(EmptyError)
    ensures calls == 0
  {
    var silent := SpeechModel((rate, fed) => false, (rate, fed) => "", (rate, fed) => "");
    var audio := new AudioSource.Open(1, 2, 16000, samples);
    ghost var rec;
    var err;
    var vosk := new VoskModel(silent);
    transcript, err, rec := TranscribeAudio(audio, vosk);
    SilenceGivesBlankTranscript(silent, 16000, rec.fed);
    var model := new SummaryModel(generate);
    summary, error := SummarizeTextOffline(transcript.value, model);
    calls := |model.Calls|;
  }
}
