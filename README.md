# EchoText audio-to-summary core, in Dafny

EchoText takes an uploaded WAV recording, transcribes it with the Vosk
speech recogniser, and condenses the transcript with a BART summarisation
pipeline. This project models the three pieces of `app.py` that carry that
pipeline and proves what they promise:

- `allowed_file`, the upload-name check (module `Upload`);
- `transcribe_audio`: the WAVE header check, then the read loop that feeds
  4000-frame batches to a streaming recogniser and collects the text of every
  utterance it closes (module `Transcriber`);
- `summarize_text_offline`: the blank-transcript check, the instruction
  template, the cut into 1200-character pieces, one model call per piece and
  the space-joined, trimmed result (module `Summarizer`).

The Python built-ins they lean on (`str.strip`, `str.lower`, `str.rsplit`,
`str.join`, clamped slicing, `range`) are modelled in `PyStr` and `Slicing`;
`Pipeline` relates the two stages. The two ML models are oracles:
`SpeechModel` gives the recogniser's answers as functions of the sample rate
and of every batch fed so far (the recogniser is stateful within one run),
and `SummaryModel.generate` gives the summariser's text for one input. The
audio file, the recogniser, the loaded Vosk model and the summariser are
classes whose methods update state in place. Only the audio file's read
position and closed flag and the recogniser's history of fed batches stand for
real state of the source's handles. The log of reads (`AudioSource.Reads`),
the log of recognisers built on the model (`VoskModel.Recognizers`) and the
log of summariser calls (`SummaryModel.Calls`) are ghost bookkeeping kept for
the proofs; neither `vosk_model` nor `summarizer` keeps such a record.

Two consequences of the code are worth stating:

- The transcript is placed once into the template and the whole prompt is
  cut, so only the first piece carries the instructions; every later piece is
  a slice of the transcript and its closing newline
  (`Summarizer.InstructionsOnlyInFirstChunk`).
- Neither model call has an error result or a handler: an exception escapes
  `transcribe_audio` or `summarize_text_offline`. `transcribe_audio` does not
  close the audio handle on that path; only the `Wave_read` finaliser does,
  when the object is collected. This path is not modelled (see below).

`app.py` is stored with CRLF line ends. Python reads source text with
universal newlines, so the triple-quoted template holds `"\n"` line breaks,
and the model's template does too.

## Model

| member | source | states |
|---|---|---|
| `Upload.AllowedFile` | app.py:69-70 | the check itself: a dot occurs, and the text after the last dot, lower-cased, is in the allowed set `{"wav"}`; what that amounts to is stated by `AllowedFileIffWavSuffix` |
| `Upload.AllowedFileIffWavSuffix` | app.py:69-70 | the check accepts a name exactly when it ends with a dot and three characters that lower-case to `wav` (both directions) |
| `Upload.ExtensionAfterLastDot` | app.py:70 | for a name with a dot, `rsplit(".", 1)[1]` is the text after the last dot |
| `Upload.AcceptedHasWavSuffix` | app.py:69-70 | an accepted name ends in a dot followed by three characters that lower-case to `wav` |
| `Upload.WavSuffixAccepted` | app.py:69-70 | a name ending in a dot and three characters that lower-case to `wav` is accepted: that dot is the last one |
| `Upload.UpperCaseWavAccepted` | app.py:69-70 | `x.WAV` and `a.b.Wav` are accepted: the extension is compared case-insensitively and only the last one counts |
| `Upload.NoDotRefused` | app.py:70 | `wav`, a name without a dot, is refused |
| `Upload.LastExtensionCounts` | app.py:70 | `x.wav.mp3` is refused: only the text after the last dot counts |
| `PyStr.RSplitOnce` | app.py:70 | `rsplit(sep, 1)` gives one piece exactly when `sep` is absent, otherwise two; the last piece holds no `sep`; joining the pieces with `sep` gives the input back |
| `PyStr.LowerChar` | app.py:70 | lower-cases one character: `A`-`Z` to `a`-`z`, every other character unchanged (ASCII only, see under Left out) |
| `PyStr.Lower` | app.py:70 | `Lower` (ASCII lower-casing, see `PyStr.LowerChar` under Left out) keeps the length and maps each character on its own |
| `PyStr.LastIndexOf` | app.py:70 | the position of the last occurrence, `-1` exactly when there is none, and no occurrence after it |
| `PyStr.IsSpace` | app.py:112 | the code points `str.isspace` treats as whitespace, the set `strip()` removes |
| `PyStr.TrimStart` | app.py:112 | the kept text is a suffix of the input, everything cut is whitespace, and it does not start with whitespace |
| `PyStr.TrimEnd` | app.py:112 | the kept text is a prefix of the input, everything cut is whitespace, and it does not end with whitespace |
| `PyStr.Strip` | app.py:112 | the result neither starts nor ends with whitespace, and is empty exactly when the input is all whitespace |
| `PyStr.StripIsSlice` | app.py:112 | `strip` keeps one contiguous piece of the input and drops only whitespace on either side |
| `PyStr.StripIdempotent` | app.py:116 | stripping a stripped string changes nothing |
| `PyStr.Join` | app.py:141 | `sep.join(parts)`: no parts give `""`, a single part comes back unchanged, and the first part starts the result |
| `PyStr.JoinSnoc` | app.py:141 | appending a part to a non-empty list appends `sep` and that part: the parts appear in order with `sep` between neighbours |
| `PyStr.JoinLength` | app.py:141 | the result is as long as all the parts plus one `sep` between each two neighbours |
| `Slicing.Slice` | app.py:134 | a clamped Python slice is never longer than the sequence |
| `Slicing.RangeLen` | app.py:134 | `len(range(0, n, step))`, counted one step at a time; its closed form is stated by `RangeLenIsCeil` |
| `Slicing.RangeLenIsCeil` | app.py:134 | `len(range(0, n, step))` is `ceil(n / step)` |
| `Slicing.Chunks` | app.py:134 | the comprehension `[s[i:i + size] for i in range(0, len(s), size)]`, piece `k` being the clamped slice at `k * size`; its properties are stated by the `Chunks*` lemmas below |
| `Slicing.ChunkAtShift` | app.py:134 | the piece after the first `size` items is the piece before it of what follows them |
| `Slicing.ChunksCons` | app.py:134 | the comprehension's first piece is `s[:size]` and the rest is the comprehension over `s[size:]` |
| `Slicing.ChunksArePieces` | app.py:134 | the comprehension agrees with the recursive reference cutting `Pieces` |
| `Slicing.PiecesConcat` | app.py:134 | the reference pieces concatenate back to the input |
| `Slicing.PiecesSizes` | app.py:134 | the reference pieces are non-empty, at most `size` long, all but the last exactly `size` |
| `Slicing.PiecesCount` | app.py:134 | the number of reference pieces is the ceiling of `len / size` |
| `Slicing.ChunksConcat` | app.py:133-134 | the pieces concatenated in order reproduce the input exactly: no gap, no overlap |
| `Slicing.ChunksSizes` | app.py:133-134 | every piece is non-empty and at most `size` long; every piece but the last is exactly `size` long |
| `Slicing.ChunksCount` | app.py:133-134 | no pieces for an empty input, otherwise `(count - 1) * size < len <= count * size`, i.e. `count == ceil(len / size)` |
| `Slicing.ChunksAfterHead` | app.py:120-134 | with a head that fits one piece, the first piece starts with the whole head and each later piece lies wholly in what follows it |
| `Slicing.ChunkAtAfterHead` | app.py:133-134 | every piece but the first of a head followed by a body, the head fitting one piece, is a slice of the body |
| `Transcriber.FormatOk` | app.py:93 | the header is accepted exactly when it is mono, has 2-byte samples and a frame rate from 8000 to 48000 inclusive |
| `Transcriber.AudioSource.Open` | app.py:91 | a freshly opened file is unread, not closed, and holds the given header and samples |
| `Transcriber.AudioSource.ReadFrames` | app.py:101 | returns the next `n` frames' worth of unread bytes (fewer at the end, none when all is read), advances the position by what it returned, and logs the read |
| `Transcriber.AudioSource.Close` | app.py:94 | the handle is closed afterwards |
| `Transcriber.VoskModel.constructor` | app.py:52 | the loaded model answers with the given oracle and has no recogniser built on it yet |
| `Transcriber.Recognizer.constructor` | app.py:97 | a new recogniser for the model and frame rate has been fed nothing, and it is recorded as built on that model |
| `Transcriber.Recognizer.AcceptWaveform` | app.py:104 | appends the batch to what the recogniser has been fed; the answer is the oracle's boundary verdict on that history |
| `Transcriber.Recognizer.Result` | app.py:105 | the utterance text the oracle gives for the history so far |
| `Transcriber.Recognizer.FinalResult` | app.py:108 | the pending text the oracle gives for the whole history |
| `Transcriber.Segment` | app.py:104-106 | what one fed batch adds to the running text: `part + " "` when it closed an utterance, nothing otherwise |
| `Transcriber.Accumulated` | app.py:98-106 | the running text after the batches fed so far, one loop step per batch; `AccumulatedIsSegments` and `AccumulatedGrows` state what it is |
| `Transcriber.Transcript` | app.py:107-112 | the returned text: the running text, then the final result, stripped; `NoBoundaryOnlyFinal` and `TranscriptBlankIffEmpty` state properties of it |
| `Transcriber.AccumulatedIsSegments` | app.py:98-109 | before the final result, the running text is the concatenation, in feeding order, of `part + " "` for each batch that closed an utterance and nothing for the others |
| `Transcriber.AccumulatedSnoc` | app.py:104-106 | feeding one more batch appends exactly that batch's segment (`part + " "` if it closes an utterance, nothing otherwise) to the running text |
| `Transcriber.AccumulatedGrows` | app.py:106 | the running text is only ever extended at its end |
| `Transcriber.NoBoundaryNothingAccumulated` | app.py:98-106 | when no fed batch closes an utterance, the running text stays empty |
| `Transcriber.NoBoundaryOnlyFinal` | app.py:104-109 | when no batch closes an utterance, the transcript is the trimmed final result alone |
| `Transcriber.ReadStep` | app.py:100-104 | a non-empty read of at most one batch from the front of what is left is the next piece of the cutting: the batches fed so far, that read, then the pieces of what follows it are still the pieces of the whole |
| `Transcriber.EmptyReadAtEnd` | app.py:101-103 | the read that comes back empty and ends the loop is the one at the end of the data |
| `Transcriber.RecognizeBatches` | app.py:98-106 | the loop feeds the recogniser exactly the batch-sized pieces of the unread bytes in order, reads those pieces and then one empty read that is not fed, reads all the data, and leaves as running text the `part + " "` of every batch that closed an utterance |
| `Transcriber.TranscribeAudio` | app.py:89-112 | bad header (not mono, not 2-byte samples, or rate outside 8000..48000): format error, no recogniser built on the model, nothing read, handle closed; good header: exactly one recogniser is built on the model, all the data is read, the recogniser is fed exactly the 8000-byte pieces of the unread data in order, the reads are those pieces plus one empty read that is not fed, the handle is closed, the error is `None` and the text is the trimmed running text plus final result |
| `Summarizer.SummaryModel.constructor` | app.py:62 | the loaded summariser answers with the given oracle and has not been called yet |
| `Summarizer.SummaryModel.Summarize` | app.py:138-139 | the output is the oracle's text for that piece and settings, and the call is logged |
| `Summarizer.Blank` | app.py:116 | the test `not text or not text.strip()`; `BlankIffAllSpace` states what it means |
| `Summarizer.PromptHead` | app.py:120-129 | the template text before `{text}`, with `"\n"` line breaks, 195 characters long |
| `Summarizer.Prompt` | app.py:120-131 | the f-string with the transcript in its one slot and a closing newline; `PromptInjective` and `InstructionsOnlyInFirstChunk` state its properties |
| `Summarizer.BlankIffAllSpace` | app.py:116 | the blank test `not text or not text.strip()` holds exactly for all-whitespace text, the empty text included |
| `Summarizer.PromptInjective` | app.py:120-131 | the transcript is placed once in a fixed template: different transcripts give different prompts |
| `Summarizer.InstructionsOnlyInFirstChunk` | app.py:120-134 | the instruction head reaches the model only at the start of the first piece; later pieces are slices of the transcript and its closing newline |
| `Summarizer.ShortPromptOneCall` | app.py:133-141 | a prompt of at most 1200 characters is one piece and the summary is the trimmed output of one call on it |
| `Summarizer.FiveThousandCharPrompt` | app.py:133-134 | a 5000-character prompt is cut into four 1200-character pieces and one of 200 |
| `Summarizer.PromptChunks` | app.py:133-134 | the prompt cut into 1200-character pieces by the comprehension (`Chunks(Prompt(text), 1200)`); its properties are stated by `InstructionsOnlyInFirstChunk`, `ShortPromptOneCall`, `FiveThousandCharPrompt` and the `Slicing.Chunks*` lemmas |
| `Summarizer.Outputs` | app.py:136-139 | the model's output for each piece under the fixed settings, in order; `SummarizeChunks` is proved to return it |
| `Summarizer.Summary` | app.py:141 | the outputs joined by single spaces and stripped; `SummarizeTextOffline` is proved to return it for a non-blank transcript |
| `Summarizer.SummarizeChunks` | app.py:136-139 | the model is called once per piece, in order, with `max_length=160, min_length=60, do_sample=False`, and the outputs are collected in that order |
| `Summarizer.SummarizeTextOffline` | app.py:115-141 | blank transcript: the empty-transcript error and no model call; otherwise one call per 1200-character piece of the prompt in order, error `None`, and the summary is the outputs joined by single spaces and trimmed |
| `Pipeline.TranscriptBlankIffEmpty` | app.py:112-117 | a transcript is trimmed, so the summariser's blank test refuses it exactly when it is empty |
| `Pipeline.SilenceGivesBlankTranscript` | app.py:104-117 | audio with no closed utterance and a whitespace-only final result gives the empty transcript, which the summariser refuses |
| `Pipeline.StereoClipRejected` | app.py:93-95 | a 44100 Hz stereo clip is refused with the format error, with no frame read, no recogniser built and the handle closed |
| `Pipeline.SilentClipEndToEnd` | app.py:89-117 | a 16 kHz mono clip in which nothing is recognised gives the empty transcript, and summarising it returns the empty-transcript error without any model call |

Proof helpers with no row of their own: `Slicing.SliceShift` (shifting a
clamped slice); the arithmetic facts `Slicing.MulSucc`, `Slicing.DivStep`,
`Slicing.DivUnique` and `Slicing.MulGap` used by the range-length and
chunking proofs; `Upload.LowerKeepsDot` (lower-casing keeps a dot a dot);
`Transcriber.ConcatSnoc` (concatenating one more piece); and
`Summarizer.OutputsSnoc` and `Summarizer.CallsForSnoc` (one more piece adds
one output and one call), used by the summariser loop's invariants.

## Left out

- Flask routes, sessions, templates and flash messages (app.py:145-298): HTTP and UI plumbing.
- Firebase sign-up and login over REST (app.py:73-86), and the Firestore client and writes: network I/O to foreign services.
- Locating and loading the Vosk and BART model files (app.py:47-63): process start-up and file I/O; the loaded objects are `VoskModel` and `SummaryModel`, whose answers are oracles.
- The internals of `KaldiRecognizer` and of the BART `pipeline`: opaque ML libraries, modelled as the `SpeechModel` functions and `SummaryModel.generate`.
- JSON decoding of the recogniser's results (app.py:105, app.py:108): the oracle gives the `"text"` field directly, `""` when absent.
- Parsing the RIFF/WAVE container in `wave.open`, its own header errors and byte swapping on big-endian hosts: file I/O; `AudioSource` starts from the parsed header and the bytes of the data chunk.
- Saving the upload, UUID naming and `secure_filename`: filesystem plumbing and randomness.
- Exceptions raised by the recogniser or the summariser: the code has no handler, so they escape; `transcribe_audio` does not close the audio handle on that path, only the `Wave_read` finaliser does when the object is collected. The model does not claim anything about this path.
- Determinism of the summariser: `do_sample=False` is passed with every call (`Summarizer.Config`); the oracle is a function, so equal inputs give equal outputs by construction.
- `summarize_text_offline(None)`: the only caller passes the transcript string, so the model takes a string.
- PyStr.LowerChar: maps only `A`-`Z`, not Python's full Unicode case mapping; no character outside `A`-`Z` lower-cases to `w`, `a` or `v`, so `allowed_file`'s verdict is the same.
