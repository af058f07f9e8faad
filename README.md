# Prompt Polish: the prompt booster, modelled in Dafny

Prompt Polish takes a raw prompt typed into a browser extension and boosts it
in two steps. The heuristic enhancer comes first. It applies six stages in a fixed order:
clarity, context, output format, examples, step-by-step and quality. Each stage
strips the text so far, as Python's `str.strip()` does, and appends one fixed
block of guidance. The enhancer then strips the result. Next the
enhanced prompt goes after a fixed polishing instruction and is sent once to a
generative-language model. The model's reply, stripped, is the polished prompt.

The project is three modules, all pure functions and lemmas, like the source:

- `Text` (`text.dfy`): Python's whitespace predicate `IsWs` and `Strip`.
  `StripIsPadded` shows that `Strip` returns a slice of its input with only
  whitespace on either side. `StripOfPadded` shows that this slice is unique.
  Idempotence and "blank exactly when all whitespace" follow from these two.
- `Enhancer` (`enhancer.dfy`): the six guidance blocks, character for
  character, and the six stages. Each stage is built on the shared `Stage`.
  Also `EnhancePrompt` and its closed forms.
- `Polisher` (`polisher.dfy`): the polishing instruction, the model input,
  `PolishWithGemini` and `GetBoostedPrompt`. The model is a parameter
  `generate: string -> Outcome`. `Outcome` is either the response text or the
  error the call raised.

An edge case worth knowing: for an empty or whitespace-only prompt, the first
stage strips to the empty string and then appends its block. The second stage
strips that block, which removes its leading blank line. So the result is the
six blocks with the first one's leading `"\n\n"` dropped (`EnhanceBlank`).

## Model

| member | source | states |
|---|---|---|
| Text.Strip | backend/enhancer.py:36 | `prompt.strip()`: the result has no whitespace at either end and is no longer than the input |
| Text.StripIsPadded | backend/enhancer.py:36 | the stripped text is a slice of the input with only whitespace before and after it |
| Text.StripOfPadded | backend/enhancer.py:36 | any trimmed text between two whitespace runs is exactly what strip returns, so strip removes the maximal runs and nothing more |
| Text.StripOfTrimmed | backend/enhancer.py:107 | stripping text that neither starts nor ends with whitespace changes nothing |
| Text.StripIdempotent | backend/enhancer.py:36 | stripping twice is the same as stripping once |
| Text.StripEmptyIffAllWs | backend/enhancer.py:36 | strip leaves nothing exactly when the input is all whitespace (both directions) |
| Enhancer.StripAfterAddition | backend/enhancer.py:31-36 | gluing a guidance block onto trimmed text: a later strip is a no-op unless the text was empty, in which case it drops only the block's leading blank line |
| Enhancer.Stage | backend/enhancer.py:31-36 | a stage returns the stripped input followed by its block verbatim; the result stripped is non-empty, and equals the result unless the input was blank |
| Enhancer.AddClarity | backend/enhancer.py:25-36 | the stripped prompt followed by the clarity block, with the strip facts of `Stage` |
| Enhancer.AddContext | backend/enhancer.py:39-48 | the stripped prompt followed by the context block, with the strip facts of `Stage` |
| Enhancer.AddExamples | backend/enhancer.py:51-59 | the stripped prompt followed by the examples block (with its en dash in "1–2"), with the strip facts of `Stage` |
| Enhancer.RequestStepByStep | backend/enhancer.py:62-70 | the stripped prompt followed by the step-by-step block, with the strip facts of `Stage` |
| Enhancer.DefineOutputFormat | backend/enhancer.py:73-81 | the stripped prompt followed by the output-format block, with the strip facts of `Stage` |
| Enhancer.AddQualityInstructions | backend/enhancer.py:84-92 | the stripped prompt followed by the quality block, with the strip facts of `Stage` |
| Enhancer.StageAfterContent | backend/enhancer.py:101-106 | once a stage's input has content after stripping, its output is that input plus the block, and a later strip leaves it unchanged |
| Enhancer.StageAfterBlank | backend/enhancer.py:101 | on blank input a stage returns its block alone, and stripping that drops the block's leading blank line |
| Enhancer.EnhancePrompt | backend/enhancer.py:95-107 | the enhanced prompt is non-empty, has no surrounding whitespace and ends with the quality block |
| Enhancer.EnhanceFinalStripNoOp | backend/enhancer.py:101-107 | the closing strip is a no-op: the enhanced prompt is exactly the output of the six stages in order |
| Enhancer.EnhanceNonBlank | backend/enhancer.py:100-107 | for a prompt with content: the stripped prompt, then the clarity, context, output-format, examples, step-by-step and quality blocks, in that order |
| Enhancer.EnhanceBlank | backend/enhancer.py:100-107 | for an empty or whitespace-only prompt: the six blocks in the same order, the first without its leading blank line; no stage fails |
| Enhancer.EnhanceKeepsPrompt | backend/enhancer.py:100-107 | the stripped prompt is a prefix of the enhanced prompt: nothing precedes or interleaves with it |
| Enhancer.EnhanceWriteAboutDogs | backend/enhancer.py:95-107 | "Write about dogs" enhances to itself followed by the six blocks exactly |
| Polisher.PolishingInput | backend/enhancer.py:115-121 | the model input is the polishing instruction followed by the enhanced prompt, nothing between; trimmed when the enhanced prompt is non-empty and trimmed |
| Polisher.PolishWithGemini | backend/enhancer.py:110-123 | a failure of the model call comes back unchanged; a reply comes back with its surrounding whitespace, and only that, removed |
| Polisher.GetBoostedPrompt | backend/enhancer.py:126-133 | the boosted prompt is the model's stripped reply to instruction + enhanced prompt, or the model's failure as it came |
| Polisher.BoostedAsksOnce | backend/enhancer.py:121-122 | the result depends on the model only through its reply to that one input |
| Polisher.BoostedEcho | backend/enhancer.py:121-133 | with a model that echoes its input, the boosted prompt is the polishing instruction followed by the enhanced prompt |

## Left out

- Loading the environment, reading the `GEMINI_KEY` credential, configuring the SDK and creating the `gemini-2.5-flash` model object (backend/enhancer.py:1-8): configuration of a foreign library.
- The string literal at backend/enhancer.py:10-14: it is never executed.
- The remote call `model.generate_content` and `response.text` (backend/enhancer.py:122-123): they are the parameter `generate`. Any error either raises is its `Failure` result.
- Polisher.BoostedAsksOnce: the model is a function, so the number of calls and the remote model's non-determinism cannot be observed. The lemma states instead that only the reply to the one polishing input matters. Since a failure is returned unchanged, nothing is retried.
- backend/main.py: FastAPI routing, CORS settings, request parsing, logging and the mapping of errors to HTTP 500. This is framework plumbing around `GetBoostedPrompt`.
- extension/popup.js: browser UI, the `fetch` call and its trim-and-reject-empty check.
- Whitespace follows CPython's `str.isspace()` table. Dafny characters are Unicode scalar values, so Python strings holding lone surrogates cannot be written in the model.
- Determinism of `enhance_prompt` is not a lemma. Every Dafny function is deterministic by definition.
