/** `summarize_text_offline` of app.py: refuse a blank transcript, put the
    transcript into a fixed instruction template, cut the prompt into
    1200-character pieces, summarise each piece in order, and join the outputs
    with single spaces. */
module Summarizer {
  import opened Wrappers
  import opened PyStr
  import opened Slicing

  const MaxChars: nat := 1200
  const EmptyError := "Empty transcript, cannot summarize."

  /** The template text before `{text}`; the template ends with one newline
      after it. */
  const PromptHead: string :=
    "\nYou are an expert meeting summarizer.\n\nCreate a contextual summary with:\n"
    + "1) Main topic\n2) Key points (bullets)\n3) Action items (if any)\n"
    + "4) Important entities (names, dates, places)\n\nTranscript:\n"

  /** The generation settings every call passes. */
  datatype GenerationConfig = GenerationConfig(maxLength: nat, minLength: nat, doSample: bool)

  const Config := GenerationConfig(160, 60, false)

  /** One call of the summarisation model. */
  datatype Call = Call(chunk: string, config: GenerationConfig)

  /** The summarisation pipeline as an oracle: `generate` gives the
      `summary_text` of the first output for a piece of input under given
      settings. `Calls` records, for the proofs, every call made. */
  class SummaryModel {
    const generate: (string, GenerationConfig) -> string
    ghost var Calls: seq<Call>

    constructor (generate: (string, GenerationConfig) -> string)
      ensures this.generate == generate && Calls == []
    {
      this.generate := generate;
      Calls := [];
    }

    /** `summarizer(chunk, max_length=..., min_length=..., do_sample=...)[0]["summary_text"]`. */
    method Summarize(chunk: string, config: GenerationConfig) returns (out: string)
      modifies this`Calls
      ensures Calls == old(Calls) + [Call(chunk, config)]
      ensures out == generate(chunk, config)
    {
      out := generate(chunk, config);
      Calls := Calls + [Call(chunk, config)];
    }
  }

  /** `not text or not text.strip()`. */
  predicate Blank(text: string)
  {
    |text| == 0 || Strip(text) == ""
  }

  /** The f-string of lines 120-131 with `text` in its one `{text}` slot. */
  function Prompt(text: string): string
  {
    PromptHead + text + "\n"
  }

  /** The pieces the prompt is cut into. */
  function PromptChunks(text: string): seq<string>
  {
    Chunks(Prompt(text), MaxChars)
  }

  /** The model's output for each piece, in order. */
  function Outputs(generate: (string, GenerationConfig) -> string, chunks: seq<string>): seq<string>
  {
    seq(|chunks|, i requires 0 <= i < |chunks| => generate(chunks[i], Config))
  }

  /** The calls made for the pieces, in order. */
  function CallsFor(chunks: seq<string>): seq<Call>
  {
    seq(|chunks|, i requires 0 <= i < |chunks| => Call(chunks[i], Config))
  }

  lemma OutputsSnoc(generate: (string, GenerationConfig) -> string, chunks: seq<string>, c: string)
    ensures Outputs(generate, chunks + [c]) == Outputs(generate, chunks) + [generate(c, Config)]
  {
  }

  lemma CallsForSnoc(chunks: seq<string>, c: string)
    ensures CallsFor(chunks + [c]) == CallsFor(chunks) + [Call(c, Config)]
  {
  }

  /** The summary of a non-blank transcript. */
  function Summary(generate: (string, GenerationConfig) -> string, text: string): string
  {
    Strip(Join(Outputs(generate, PromptChunks(text)), " "))
  }

  /** A blank transcript is exactly one made of whitespace only (the empty one
      included). */
  lemma BlankIffAllSpace(text: string)
    ensures Blank(text) <==> AllSpace(text)
  {
  }

  /** Different transcripts give different prompts: the transcript is the
      text between the fixed head and the closing newline. */
  lemma PromptInjective(a: string, b: string)
    requires Prompt(a) == Prompt(b)
    ensures a == b
  {
    var n := |PromptHead|;
    assert a == Prompt(a)[n..|Prompt(a)| - 1];
    assert b == Prompt(b)[n..|Prompt(b)| - 1];
  }

  /** The instructions reach the model once, at the start of the first piece:
      the head fits in one piece, and every later piece is a slice of the
      transcript and its closing newline only. */
  lemma InstructionsOnlyInFirstChunk(text: string)
    ensures |PromptChunks(text)| > 0
    ensures PromptChunks(text)[0][..|PromptHead|] == PromptHead
    ensures forall k :: 1 <= k < |PromptChunks(text)| ==>
              PromptChunks(text)[k]
              == Slice(text + "\n", k * MaxChars - |PromptHead|, k * MaxChars + MaxChars - |PromptHead|)
  {
    assert |PromptHead| == 195;
    assert Prompt(text) == PromptHead + (text + "\n");
    ChunksAfterHead(PromptHead, text + "\n", MaxChars);
  }

  /** A prompt that fits in one piece is summarised by one call on the whole
      prompt. */
  lemma ShortPromptOneCall(generate: (string, GenerationConfig) -> string, text: string)
    requires |Prompt(text)| <= MaxChars
    ensures PromptChunks(text) == [Prompt(text)]
    ensures Summary(generate, text) == Strip(generate(Prompt(text), Config))
  {
    var p := Prompt(text);
    ChunksCons(p, MaxChars);
    assert p[Min(MaxChars, |p|)..] == [];
    assert Slice(p, 0, MaxChars) == p;
    assert Chunks(p[|p|..], MaxChars) == [];
    assert Outputs(generate, [p]) == [generate(p, Config)];
  }

  /** A 5000-character prompt is cut into four full pieces and one of 200
      characters. */
  lemma FiveThousandCharPrompt(text: string)
    requires |Prompt(text)| == 5000
    ensures |PromptChunks(text)| == 5
    ensures forall k :: 0 <= k < 4 ==> |PromptChunks(text)[k]| == MaxChars
    ensures |PromptChunks(text)[4]| == 200
  {
    var p := Prompt(text);
    ChunksSizes(p, MaxChars);
    var c := PromptChunks(text);
    assert |c| == 5;
    assert c[4] == ChunkAt(p, MaxChars, 4);
  }

  /** The loop of lines 136-139: call the model on each piece in order,
      with the fixed settings, and collect the outputs in that order. */
  method SummarizeChunks(chunks: seq<string>, model: SummaryModel) returns (summaries: seq<string>)
    modifies model`Calls
    ensures summaries == Outputs(model.generate, chunks)
    ensures model.Calls == old(model.Calls) + CallsFor(chunks)
  {
    summaries := [];
    for i := 0 to |chunks|
      invariant summaries == Outputs(model.generate, chunks[..i])
      invariant model.Calls == old(model.Calls) + CallsFor(chunks[..i])
    {
      var out := model.Summarize(chunks[i], Config);
      summaries := summaries + [out];
      assert chunks[..i + 1] == chunks[..i] + [chunks[i]];
      OutputsSnoc(model.generate, chunks[..i], chunks[i]);
      CallsForSnoc(chunks[..i], chunks[i]);
    }
    assert chunks[..|chunks|] == chunks;
  }

  /** `summarize_text_offline`. A blank transcript is refused before any model
      call. Otherwise the model is called once per piece of the prompt, in
      order and with the fixed settings, and the summary is the outputs joined
      by single spaces and trimmed. */
  method SummarizeTextOffline(text: string, model: SummaryModel)
      returns (summary: Option<string>, error: Option<string>)
    modifies model`Calls
    ensures Blank(text) ==>
              summary == None && error == Some(EmptyError) && model.Calls == old(model.Calls)
    ensures !Blank(text) ==>
              && model.Calls == old(model.Calls) + CallsFor(PromptChunks(text))
              && summary == Some(Summary(model.generate, text))
              && error == None
  {
    if |text| == 0 || Strip(text) == "" {
      return None, Some(EmptyError);
    }

    var prompt := PromptHead + text + "\n";
    var chunks := Chunks(prompt, MaxChars);
    var summaries := SummarizeChunks(chunks, model);
    return Some(Strip(Join(summaries, " "))), None;
  }
}
