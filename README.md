# Summarization fine-tuning: the deterministic core

This project models the policy and text/array logic of a summarization
fine-tuning example that trains either a flan-T5 sequence-to-sequence model or
the GPT-J causal model with LoRA adapters. The model covers five pieces:

- **Model-family registry.** The six-member `ModelSelection` enum, `is_flan`,
  the frozen `_MODEL_PROPERTIES` policy table and `from_model_reference`, in
  module `Registry`. `pick_model`, which turns a selection into a hub
  reference and a family, is in module `Pipeline`.
- **Split preparation.** In `prepare_data`, a dataset without a
  "validation" split gets one: either by renaming "test" or by carving
  "train". Then "train" and "validation" are truncated to the configured caps.
  This is in module `DataPrep`, as methods over the split map.
- **Preprocessing formatters.** The causal training text template, the
  sequence-to-sequence prompt template, and the in-place masking of padded
  label positions on a two-dimensional label array. These are in module
  `Preprocess`.
- **Evaluation text helpers.** `extract_prompt` and `sanitize` are in module
  `Evaluation`. `sanitize` rests on a model of Python's left-to-right,
  non-overlapping `str.replace`, which is in module `Strings` with `in`,
  `startswith` and `str.index`.
- **Stateful pieces.** The `SftPeftCallback` class captures the model at each
  save event, and `train` returns what it captured on the causal path. This
  is in module `Training`. `export_model`'s reference update and the
  pipeline's optional export are in `Export` and `Pipeline`.

Inputs that come from outside the core are parameters:
- the split map returned by `load_dataset`, with opaque examples;
- `train_test_split`, as a total function;
- the tokenizer's padded label ids, as an `array2<int>`, and its pad id;
- the models that the trainer hands to its save events;
- the adapter-wrapping function;
- the commit id returned by a push.

Two behaviours of the code worth knowing up front:
- `extract_prompt` raises `ValueError` on a text without the marker; its
  fallback branch is unreachable (see Findings).
- A missing split surfaces as a `KeyError` from the dictionary access
  (`PrepError.MissingSplit`).

## Model

| member | source | states |
|---|---|---|
| Registry.FromName | zzz/examples/summarization_finetune/train_eval.py:61-75 | `ModelSelection[name]` succeeds exactly when `name` is one of the six member values; it then returns the member with that value, and otherwise fails with `KeyError(name)` |
| Registry.FromNameValue | zzz/examples/summarization_finetune/train_eval.py:61-68 | looking up any member's own value returns that member |
| Registry.IsFlan | zzz/examples/summarization_finetune/train_eval.py:77-84 | the five flan variants are exactly the members other than gpt_j_6b; `Registry.ValueNamesFamily` ties them to the "flan" in their values |
| Registry.ValueNamesFamily | zzz/examples/summarization_finetune/train_eval.py:61-84 | a member's value contains "flan" exactly when `is_flan()` holds for it |
| Registry.FlanRewriteKeepsFlan | zzz/examples/summarization_finetune/train_eval.py:72-73 | if a repository name contains "flan", it still does after rewriting "flan-t5-" to "flan_" |
| Registry.HyphenRewriteKeepsFlan | zzz/examples/summarization_finetune/train_eval.py:74-75 | rewriting every "-" to "_" neither creates nor removes an occurrence of "flan" |
| Registry.FromModelReference | zzz/examples/summarization_finetune/train_eval.py:71-75 | the repository name is rewritten "flan-t5-" to "flan_" when it contains "flan" and "-" to "_" otherwise; the lookup succeeds exactly when the rewritten name is a member value, returns that member, and otherwise raises `KeyError` on the rewritten name. A successful result is a flan variant exactly when the repository name contains "flan" (`Registry.FlanRewriteKeepsFlan` and `Registry.HyphenRewriteKeepsFlan` show that each rewrite keeps "flan"); the round trip with `pick_model` is `Pipeline.PickModelRoundTrip` |
| Registry.FromModelReferenceRejects | zzz/examples/summarization_finetune/train_eval.py:74-75 | `EleutherAI/llama-7b` is not in the registry: the lookup raises `KeyError("llama_7b")` |
| Registry.TableIsExhaustive | zzz/examples/summarization_finetune/train_eval.py:103-110 | every one of the six members has an entry in `_MODEL_PROPERTIES` |
| Registry.PropertiesOf | zzz/examples/summarization_finetune/train_eval.py:87-110 | an entry's `model_type` is `seq_to_seq` exactly when `is_flan()` holds, and `causal` exactly for gpt_j_6b; the causal entry has pad token "eos_token", 8-bit loading and no device map; the flan entries keep the dataclass defaults |
| Pipeline.FlanSize | zzz/examples/summarization_finetune/pipeline.py:41-42 | a flan value starts with "flan_"; removing "flan_" leaves exactly the size suffix, which contains no "-" |
| Pipeline.PickModelFlan | zzz/examples/summarization_finetune/pipeline.py:41-46 | a value starting with "flan" gives owner "google", repository "flan-t5-" followed by the suffix after "flan_", no commit, and `seq_to_seq` |
| Pipeline.PickModelCausal | zzz/examples/summarization_finetune/pipeline.py:47-52 | any other value gives owner "tiiuae", no commit and `causal`; the repository has the value's length, with each "_" changed to "-" and every other character unchanged |
| Pipeline.PickModelGptJ | zzz/examples/summarization_finetune/pipeline.py:47-52 | gpt_j_6b resolves to `tiiuae/gpt-j-6b` |
| Pipeline.PickModel | zzz/examples/summarization_finetune/pipeline.py:40-52 | the reference is owned by "google" for a flan variant and by "tiiuae" otherwise, carries no commit, and the family equals the `model_type` of the member's `_MODEL_PROPERTIES` entry; the repository names are given by `Pipeline.PickModelFlan` and `Pipeline.PickModelCausal`, the round trip by `Pipeline.PickModelRoundTrip` |
| Pipeline.FlanRoundTrip | zzz/examples/summarization_finetune/pipeline.py:41-46 | `from_model_reference` of a flan member's picked reference returns that member |
| Pipeline.GptJRoundTrip | zzz/examples/summarization_finetune/pipeline.py:47-52 | `from_model_reference` of `tiiuae/gpt-j-6b` returns gpt_j_6b |
| Pipeline.PickModelRoundTrip | zzz/examples/summarization_finetune/pipeline.py:40-52 | `from_model_reference(pick_model(s).ref) == s` for every member `s` |
| Pipeline.OptionalExport | zzz/examples/summarization_finetune/pipeline.py:134-136 | the pushed reference is absent exactly when no export reference is given; otherwise it has the export reference's owner and repository and is pinned to the push's commit id |
| Export.ExportModel | zzz/examples/summarization_finetune/train_eval.py:376-381 | the exported reference keeps the owner and repository of the push reference, and its commit is the commit id the push returned |
| Export.ExportRefines | zzz/examples/summarization_finetune/train_eval.py:381 | ignoring the commit, the exported reference names the same repository; exporting it again with the same commit changes nothing |
| DataPrep.TestSize | zzz/examples/summarization_finetune/train_eval.py:234-241 | the carve fraction is exactly 1/10 unless both caps are set; with both set, it fails on a zero sum and otherwise is a fraction in [0, 1] whose product with the sum of the caps is the test cap |
| DataPrep.TestSizeOfConsistentCaps | zzz/examples/summarization_finetune/train_eval.py:239-241 | caps of 900 train and 100 test examples give a fraction of exactly 1/10 |
| DataPrep.ResolveSplits | zzz/examples/summarization_finetune/train_eval.py:232-247 | an existing "validation" leaves the map unchanged. Otherwise, an existing "test" becomes "validation" unchanged, its old key is removed and no other split changes. Otherwise "train" is carved by the computed fraction, leaving exactly the keys train and validation (a missing "train" fails). Every success has a "validation" split |
| DataPrep.Truncated | zzz/examples/summarization_finetune/train_eval.py:249-256 | truncating to a set cap keeps exactly the first `cap` examples in order; an unset cap keeps the split whole |
| DataPrep.TruncateSplits | zzz/examples/summarization_finetune/train_eval.py:249-256 | succeeds exactly when each set cap names a present split at least that long; "train" and "validation" become their truncations; the key set and every other split are unchanged; each failure names the offending split |
| DataPrep.PrepareData | zzz/examples/summarization_finetune/train_eval.py:228-277 | the returned train and validation splits have exactly the capped sizes. They are the truncated "train" and "validation" (or renamed "test"), or the truncated parts of the carve. With "train" and a validation-equivalent split present, success means exactly that both caps fit; in the carve case, with "train" present and the test fraction defined, success means exactly that both caps fit the two carved parts. A failure names its cause: `ZeroDivision` when the carve fraction is undefined, `MissingSplit("train")` when "train" is absent and no cap check fails first, and otherwise `CapExceedsSplit` of the first split (train, then validation) whose cap exceeds it |
| Preprocess.CausalPreprocess | zzz/examples/summarization_finetune/train_eval.py:182-191 | one text per (context, summary) pair that `zip` yields: the length is that of the shorter column, and text `i` is the causal template applied to pair `i` |
| Preprocess.Seq2SeqPrompts | zzz/examples/summarization_finetune/train_eval.py:199-201 | one prompt per context, in order, each the sequence-to-sequence template applied to its context |
| Preprocess.CausalTextExtendsPrompt | zzz/examples/summarization_finetune/train_eval.py:187-201 | each causal text is the sequence-to-sequence prompt of its context, followed by the summary and " **End**"; the prompt is the opening, the context, ". " and the summary marker |
| Preprocess.MaskRow | zzz/examples/summarization_finetune/train_eval.py:217-218 | masking keeps the row's length; every position equal to the pad id becomes -100 and every other position is unchanged |
| Preprocess.MaskRowSettles | zzz/examples/summarization_finetune/train_eval.py:218 | after masking, no pad id is left unless the pad id is -100 itself; masking twice is the same as masking once |
| Preprocess.MaskLabels | zzz/examples/summarization_finetune/train_eval.py:217-219 | masks the label array in place, keeping its shape: each row becomes its masked form |
| Strings.Find | zzz/examples/summarization_finetune/train_eval.py:324 | `str.index` finds the lowest index where the marker occurs, and finds one exactly when the marker is contained |
| Strings.Replace | zzz/examples/summarization_finetune/train_eval.py:384-386 | Python's `str.replace` (used at lines 72-75 and 385) never lengthens a string when the replacement is no longer than the pattern, and keeps its length when both have the same length; `Strings.ReplaceAbsent` shows a string without the pattern is returned unchanged and `Strings.ReplaceChar` gives the character-by-character form |
| Evaluation.ExtractPrompt | zzz/examples/summarization_finetune/train_eval.py:323-328 | succeeds exactly when the text contains "**Summary**: ", and otherwise raises `ValueError`; on success it returns the text up to and including the first occurrence of the marker |
| Evaluation.ExtractPromptRaisesWithoutMarker | zzz/examples/summarization_finetune/train_eval.py:324-327 | on "no marker", `extract_prompt` as written raises, whereas the fallback it was meant to take gives "no marker **Summary**: " |
| Evaluation.ExtractPromptWithFallback | zzz/examples/summarization_finetune/train_eval.py:323-328 | the intended version always ends with the marker; it agrees with `extract_prompt` on texts containing the marker, and otherwise appends a space and the marker |
| Evaluation.ExtractPromptOfCausalText | zzz/examples/summarization_finetune/train_eval.py:323-328 | for a causal training text whose context lacks the marker, `extract_prompt` yields exactly the sequence-to-sequence prompt `**Please summarize**: {ctx}. **Summary**: ` |
| Evaluation.SanitizeRemovesNaN | zzz/examples/summarization_finetune/train_eval.py:384-386 | sanitized text never contains "NaN" |
| Evaluation.Sanitize | zzz/examples/summarization_finetune/train_eval.py:384-386 | sanitizing never lengthens a text, and a text without "NaN" is left unchanged; `Evaluation.SanitizeRemovesNaN` and `Evaluation.SanitizeIdempotent` state the rest |
| Evaluation.SanitizeIdempotent | zzz/examples/summarization_finetune/train_eval.py:384-386 | sanitizing twice gives the same text as sanitizing once |
| Evaluation.SanitizeExample | zzz/examples/summarization_finetune/train_eval.py:384-386 | "Result: NaN" becomes "Result: ?" |
| Training.SftPeftCallback.constructor | zzz/examples/summarization_finetune/train_eval.py:49-51 | a new callback holds no model |
| Training.SftPeftCallback.OnSave | zzz/examples/summarization_finetune/train_eval.py:53-54 | each save event overwrites the held model with the model of that event |
| Training.TrainCausal | zzz/examples/summarization_finetune/train_eval.py:292-307 | after a run of save events, the causal path returns the model of the last event, or `None` if no save happened |
| Training.Train | zzz/examples/summarization_finetune/train_eval.py:280-320 | fails with the `KeyError` of `from_model_reference` when the reference names no member. Otherwise it returns the adapter-wrapped base model for a flan member, and the last captured model (possibly `None`) for the causal member |

## Left out

- Loading is not modelled: the bodies of `load_model` and `load_tokenizer`, every `from_pretrained` call, and the device and quantization internals are foreign HuggingFace code.
- Training is reduced to its result: trainer construction, `trainer.train()` and the `use_cache` toggles are left out. `get_peft_model` is an opaque function parameter, and the save events a causal run produces are an input sequence.
- `LogMetricsCallback` is left out; it only sends metrics to an external service.
- `evaluate` is left out as a whole: `set_format`, `model.generate` and `batch_decode` are foreign calls. This includes the leftover `pdb.set_trace()` at train_eval.py:337 and the batched `map` at train_eval.py:352-353, which passes `extract_prompt` where `extract_prompts` is meant.
- In `_seq_2_seq_preprocess_function`, the tokenizer calls are foreign. The padded label ids and `pad_token_id` are inputs to `Preprocess.MaskLabels`.
- The batched `dataset.map` over all splits (train_eval.py:264-276) is not modelled as such: its column removal and cache flag are dataset-library behaviour. The per-batch formatters it applies are modelled.
- `train_test_split` is an opaque function parameter. Its shuffle, its seed of 42, its proportional sizing and any rejection of a fraction it dislikes are library internals.
- `select(range(n))` past the end of a split is modelled as a failure (`CapExceedsSplit`). The dataset library's own handling is not visible here.
- `test_size` is an exact rational number. The model does not include float rounding.
- `HuggingFaceModelReference` and its `from_string` / `to_string`, and the dataset reference's `to_string`, live in `sematic.types`, which is not part of this model. A reference is a plain (owner, repo, commit) value, and `Training.Train` takes it directly instead of a parsed string.
- The pipeline.py orchestration is left out: the `@sematic.func` wrappers, `StoredModel.store` / `load`, `load_tokenizer`, `prepare_datasets`, `export`, `summarize` and `eval`. `eval` calls the four-parameter `evaluate` with three arguments at pipeline.py:86.
- The `TrainingArguments`, `TrainingConfig` and `DatasetConfig` records are not modelled as records. Only the two caps enter the model, as parameters.
- Strings.Replace: does not model `str.replace` with an empty pattern, because every call in the source passes a non-empty literal.
- The caps are natural numbers. The model does not cover negative caps, which the source's `Optional[int]` would allow.
- `ModelProperties.device_map` is modelled only in its string form. The dictionary form is never used by the table.
- Training.SftPeftCallback.OnSave: captures only the `model` keyword argument of `on_save`. The trainer's arguments, state and control are left out.

## Findings

| source | as written | input that shows it | evidently intended | confidence | as-written member | corrected member |
|---|---|---|---|---|---|---|
| zzz/examples/summarization_finetune/train_eval.py:323-328 | `text.index(marker)` raises `ValueError` when the marker is absent. Its result is never negative, so the fallback under `< 0` is dead code | `extract_prompt("no marker")` raises | `text.find(marker)`, so that a text without the marker returns "no marker **Summary**: " | not executed | Evaluation.ExtractPromptRaisesWithoutMarker | Evaluation.ExtractPromptWithFallback |
