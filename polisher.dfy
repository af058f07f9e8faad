/**
 The model half of the prompt booster: the enhanced prompt is put after a
 fixed polishing instruction and sent to a generative-language model once;
 the model's text, stripped, is the polished prompt. The model itself is a
 parameter: a function from the text sent to what the call yields.
 */
module Polisher {
  import opened Text
  import opened Enhancer

  /** What one call to the model yields: its response text, or the failure
      (a raised error, from the call or from reading the response text) that
      the caller receives unchanged. */
  datatype Outcome = Success(value: string) | Failure(error: string)

  /** The instruction placed before the enhanced prompt, character for
      character. */
  const PolishingInstruction: string :=
    "Below is a user prompt. "
    + "Improve the clarity, specificity, and structure of the prompt. "
    + "Do not answer the prompt. Only return the revised version of the prompt, ready for input into an AI assistant."
    + "\n\nPrompt:\n"

  /** The text sent to the model: the instruction, then the enhanced prompt,
      with nothing in between. When the enhanced prompt is trimmed and
      non-empty, so is the whole. */
  function PolishingInput(enhanced: string): (r: string)
    ensures |r| == |PolishingInstruction| + |enhanced|
    ensures r[..|PolishingInstruction|] == PolishingInstruction
    ensures r[|PolishingInstruction|..] == enhanced
    ensures enhanced != [] && IsTrimmed(enhanced) ==> IsTrimmed(r)
  {
    PolishingInstruction + enhanced
  }

  /** One model call on the polishing input. A failure comes back unchanged;
      otherwise the result is the response text with its surrounding
      whitespace, and only that, removed. */
  function PolishWithGemini(enhanced: string, generate: string -> Outcome): (r: Outcome)
    ensures generate(PolishingInput(enhanced)).Failure? ==> r == generate(PolishingInput(enhanced))
    ensures generate(PolishingInput(enhanced)).Success? ==>
              && r.Success?
              && IsTrimmed(r.value)
              && exists lo :: PaddedAt(generate(PolishingInput(enhanced)).value, lo, r.value)
  {
    match generate(PolishingInput(enhanced))
    case Failure(e) => Failure(e)
    case Success(text) =>
      StripIsPadded(text);
      Success(Strip(text))
  }

  /** The whole flow: enhance, then polish. Its result is the model's
      stripped answer to the instruction followed by the enhanced prompt, or
      the model's failure as it came. */
  function GetBoostedPrompt(prompt: string, generate: string -> Outcome): (r: Outcome)
    ensures var reply := generate(PolishingInstruction + EnhancePrompt(prompt));
            && (reply.Failure? ==> r == reply)
            && (reply.Success? ==> r == Success(Strip(reply.value)))
  {
    var enhanced := EnhancePrompt(prompt);
    var polished := PolishWithGemini(enhanced, generate);
    polished
  }

  /** The model is asked one question only: two models that agree on the
      polishing input give the same boosted prompt, whatever they do
      elsewhere. */
  lemma BoostedAsksOnce(prompt: string, g1: string -> Outcome, g2: string -> Outcome)
    requires g1(PolishingInstruction + EnhancePrompt(prompt)) == g2(PolishingInstruction + EnhancePrompt(prompt))
    ensures GetBoostedPrompt(prompt, g1) == GetBoostedPrompt(prompt, g2)
  {
  }

  /** With a model that echoes its input, the boosted prompt is the
      polishing instruction followed by the enhanced prompt, exactly. */
  lemma BoostedEcho(prompt: string)
    ensures GetBoostedPrompt(prompt, x => Success(x))
            == Success(PolishingInstruction + EnhancePrompt(prompt))
  {
    var input := PolishingInput(EnhancePrompt(prompt));
    StripOfTrimmed(input);
    assert GetBoostedPrompt(prompt, x => Success(x)) == Success(Strip(input));
  }
}
