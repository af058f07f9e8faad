/**
 The heuristic half of the prompt booster: six stages, each of which strips
 the text accumulated so far and appends one fixed block of guidance, and
 `EnhancePrompt`, which runs them in a fixed order and strips the result.
 */
module Enhancer {
  import opened Text

  // The guidance blocks, character for character as the stages append them,
  // written as short pieces joined with `+` so their first letters stay cheap
  // to reason about.

  const ClarityAdditions: string :=
    "\n\n" + "Please be specific and clear. "
    + "Replace vague terms with concrete details, "
    + "and add constraints such as length, format, and style if applicable."
    + " Specify the desired output structure."

  const ContextAdditions: string :=
    "\n\n" + "Include relevant background "
    + "information and specify the purpose or goal. "
    + "If relevant, consider the target audience."

  const ExamplesAdditions: string :=
    "\n\n" + "For example, "
    + "you can provide 1–2 input/output samples illustrating the desired format or content."

  const StepByStepAdditions: string :=
    "\n\n" + "Please think step-by-step, "
    + "explain your reasoning, and show your work."

  const OutputFormatAdditions: string :=
    "\n\n" + "Structure the output clearly: "
    + "use numbered lists, bullet points, headers, or specific formats like JSON if suitable."

  const QualityAdditions: string :=
    "\n\n" + "Be accurate and thorough. "
    + "If uncertain, please say so. "
    + "Double-check your reasoning."

  /** The shape every guidance block has: a blank line, then text that
      neither starts nor ends with whitespace. */
  predicate IsAddition(a: string) {
    |a| >= 3 && a[0] == '\n' && a[1] == '\n' && !IsWs(a[2]) && !IsWs(a[|a| - 1])
  }

  /** `s` ends with `suffix`. */
  predicate EndsWith(s: string, suffix: string) {
    |suffix| <= |s| && s[|s| - |suffix|..] == suffix
  }

  /** What a stage promises: its result is the stripped input followed by the
      block verbatim, and stripping that result again is a no-op unless the
      input was blank, in which case it drops the block's leading blank line. */
  predicate StageOutput(prompt: string, additions: string, r: string) {
    var t := Strip(prompt);
    && |additions| >= 2
    && r == t + additions
    && Strip(r) == (if t == [] then additions[2..] else r)
    && Strip(r) != []
  }

  /** Gluing a block onto trimmed text: only blank text leaves anything for a
      later strip to remove, namely the block's leading blank line. */
  lemma StripAfterAddition(t: string, additions: string)
    requires IsTrimmed(t) && IsAddition(additions)
    ensures Strip(t + additions) == if t == [] then additions[2..] else t + additions
  {
    if t == [] {
      assert t + additions == "\n\n" + additions[2..] + [];
      StripOfPadded("\n\n", additions[2..], []);
    } else {
      StripOfTrimmed(t + additions);
    }
  }

  /** The common body of the six stages: `prompt.strip() + additions`. */
  function Stage(prompt: string, additions: string): (r: string)
    requires IsAddition(additions)
    ensures StageOutput(prompt, additions, r)
  {
    StripAfterAddition(Strip(prompt), additions);
    Strip(prompt) + additions
  }

  function AddClarity(prompt: string): (r: string)
    ensures StageOutput(prompt, ClarityAdditions, r)
  {
    Stage(prompt, ClarityAdditions)
  }

  function AddContext(prompt: string): (r: string)
    ensures StageOutput(prompt, ContextAdditions, r)
  {
    Stage(prompt, ContextAdditions)
  }

  function AddExamples(prompt: string): (r: string)
    ensures StageOutput(prompt, ExamplesAdditions, r)
  {
    Stage(prompt, ExamplesAdditions)
  }

  function RequestStepByStep(prompt: string): (r: string)
    ensures StageOutput(prompt, StepByStepAdditions, r)
  {
    Stage(prompt, StepByStepAdditions)
  }

  function DefineOutputFormat(prompt: string): (r: string)
    ensures StageOutput(prompt, OutputFormatAdditions, r)
  {
    Stage(prompt, OutputFormatAdditions)
  }

  function AddQualityInstructions(prompt: string): (r: string)
    ensures StageOutput(prompt, QualityAdditions, r)
  {
    Stage(prompt, QualityAdditions)
  }

  /** A stage whose input still has content after stripping leaves nothing
      for a later strip to remove. */
  lemma StageAfterContent(prompt: string, additions: string, r: string)
    requires StageOutput(prompt, additions, r) && Strip(prompt) != []
    ensures Strip(r) == r && r == Strip(prompt) + additions
    ensures EndsWith(r, additions)
  {
  }

  /** A stage whose input is blank after stripping returns its block alone,
      and stripping that block drops its leading blank line. */
  lemma StageAfterBlank(prompt: string, additions: string, r: string)
    requires StageOutput(prompt, additions, r) && Strip(prompt) == []
    ensures r == additions && Strip(r) == additions[2..]
  {
  }

  /** The enhanced prompt is non-empty, carries no surrounding whitespace (so
      the closing strip is a no-op) and ends with the quality block. */
  function EnhancePrompt(prompt: string): (r: string)
    ensures r != [] && IsTrimmed(r) && Strip(r) == r
    ensures EndsWith(r, QualityAdditions)
  {
    var p := prompt;
    var p := AddClarity(p);
    var p := AddContext(p);
    var p := DefineOutputFormat(p);
    var p := AddExamples(p);
    var p := RequestStepByStep(p);
    var q := AddQualityInstructions(p);
    StageAfterContent(p, QualityAdditions, q);
    Strip(q)
  }

  /** The closing strip removes nothing: the enhanced prompt is exactly what
      the quality stage returned, for every input. */
  lemma EnhanceFinalStripNoOp(prompt: string)
    ensures EnhancePrompt(prompt)
            == AddQualityInstructions(RequestStepByStep(AddExamples(DefineOutputFormat(AddContext(AddClarity(prompt))))))
  {
    var p := RequestStepByStep(AddExamples(DefineOutputFormat(AddContext(AddClarity(prompt)))));
    StageAfterContent(p, QualityAdditions, AddQualityInstructions(p));
  }

  /** Closed form for a prompt with real content: the stripped prompt, then
      the six blocks verbatim, output format third. */
  lemma EnhanceNonBlank(prompt: string)
    requires Strip(prompt) != []
    ensures EnhancePrompt(prompt)
            == Strip(prompt) + ClarityAdditions + ContextAdditions + OutputFormatAdditions
               + ExamplesAdditions + StepByStepAdditions + QualityAdditions
  {
    var p1 := AddClarity(prompt);
    StageAfterContent(prompt, ClarityAdditions, p1);
    var p2 := AddContext(p1);
    StageAfterContent(p1, ContextAdditions, p2);
    var p3 := DefineOutputFormat(p2);
    StageAfterContent(p2, OutputFormatAdditions, p3);
    var p4 := AddExamples(p3);
    StageAfterContent(p3, ExamplesAdditions, p4);
    var p5 := RequestStepByStep(p4);
    StageAfterContent(p4, StepByStepAdditions, p5);
    var p6 := AddQualityInstructions(p5);
    StageAfterContent(p5, QualityAdditions, p6);
  }

  /** Closed form for an empty or whitespace-only prompt: the six blocks,
      except that the first loses its leading blank line. No stage fails on
      blank input. */
  lemma EnhanceBlank(prompt: string)
    requires AllWs(prompt)
    ensures EnhancePrompt(prompt)
            == ClarityAdditions[2..] + ContextAdditions + OutputFormatAdditions
               + ExamplesAdditions + StepByStepAdditions + QualityAdditions
  {
    StripEmptyIffAllWs(prompt);
    var p1 := AddClarity(prompt);
    StageAfterBlank(prompt, ClarityAdditions, p1);
    var p2 := AddContext(p1);
    StageAfterContent(p1, ContextAdditions, p2);
    var p3 := DefineOutputFormat(p2);
    StageAfterContent(p2, OutputFormatAdditions, p3);
    var p4 := AddExamples(p3);
    StageAfterContent(p3, ExamplesAdditions, p4);
    var p5 := RequestStepByStep(p4);
    StageAfterContent(p4, StepByStepAdditions, p5);
    var p6 := AddQualityInstructions(p5);
    StageAfterContent(p5, QualityAdditions, p6);
  }

  /** The user's stripped text opens the enhanced prompt: nothing is put
      before it or inside it. */
  lemma EnhanceKeepsPrompt(prompt: string)
    ensures Strip(prompt) <= EnhancePrompt(prompt)
  {
    if Strip(prompt) != [] {
      EnhanceNonBlank(prompt);
      PrefixOfChain(Strip(prompt), ClarityAdditions, ContextAdditions, OutputFormatAdditions,
                    ExamplesAdditions, StepByStepAdditions, QualityAdditions);
    }
  }

  /** Text stays a prefix however many pieces are appended after it. */
  lemma PrefixOfChain(t: string, c: string, x: string, f: string, e: string, s: string, q: string)
    ensures t <= t + c + x + f + e + s + q
  {
  }

  /** The worked example: "Write about dogs" has content and no surrounding
      whitespace, so it is followed by the six blocks verbatim. */
  lemma EnhanceWriteAboutDogs()
    ensures EnhancePrompt("Write about dogs")
            == "Write about dogs" + ClarityAdditions + ContextAdditions + OutputFormatAdditions
               + ExamplesAdditions + StepByStepAdditions + QualityAdditions
  {
    StripOfTrimmed("Write about dogs");
    EnhanceNonBlank("Write about dogs");
  }
}
