/**
 * The per-family formatting applied to each batch of examples: the causal
 * text template, the sequence-to-sequence prompt template and the masking of
 * padded label positions. Tokenization itself is a foreign call; its padded
 * `input_ids` and the tokenizer's `pad_token_id` are inputs here.
 */
module Preprocess {

  /** The marker that opens the summary in the causal text and ends a prompt. */
  const SummaryStartIndicator: string := "**Summary**: "

  /** The opening shared by the causal text and the sequence-to-sequence prompt. */
  const PleaseSummarize: string := "**Please summarize**: "

  /** The label value the loss ignores. */
  const IgnoreIndex: int := -100

  /** One causal training text: `**Please summarize**: {ctx}. **Summary**: {summary} **End**`. */
  function CausalText(ctx: string, summary: string): string
  {
    PleaseSummarize + ctx + ". " + SummaryStartIndicator + summary + " **End**"
  }

  /** One sequence-to-sequence input prompt: `**Please summarize**: {ctx}. **Summary**: `. */
  function Seq2SeqPrompt(ctx: string): string
  {
    PleaseSummarize + ctx + ". **Summary**: "
  }

  /** A causal text is the sequence-to-sequence prompt for its context followed by the summary and the end marker. */
  lemma CausalTextExtendsPrompt(ctx: string, summary: string)
    ensures CausalText(ctx, summary) == Seq2SeqPrompt(ctx) + summary + " **End**"
    ensures Seq2SeqPrompt(ctx) == PleaseSummarize + ctx + ". " + SummaryStartIndicator
  {
    assert ". " + SummaryStartIndicator == ". **Summary**: ";
  }

  /**
   * `_causal_preprocess_function`: the `text` column, one formatted string
   * per (context, summary) pair that `zip` produces, in order.
   */
  function CausalPreprocess(contexts: seq<string>, summaries: seq<string>): (texts: seq<string>)
    ensures |texts| == if |contexts| <= |summaries| then |contexts| else |summaries|
    ensures forall i :: 0 <= i < |texts| ==> texts[i] == CausalText(contexts[i], summaries[i])
  {
    if contexts == [] || summaries == [] then []
    else [CausalText(contexts[0], summaries[0])] + CausalPreprocess(contexts[1..], summaries[1..])
  }

  /** The input prompts of `_seq_2_seq_preprocess_function`, one per context, in order. */
  function Seq2SeqPrompts(contexts: seq<string>): (prompts: seq<string>)
    ensures |prompts| == |contexts|
    ensures forall i :: 0 <= i < |prompts| ==> prompts[i] == Seq2SeqPrompt(contexts[i])
  {
    if contexts == [] then [] else [Seq2SeqPrompt(contexts[0])] + Seq2SeqPrompts(contexts[1..])
  }

  /** The label a token id becomes: the ignore index where it is the pad id, itself elsewhere. */
  function MaskToken(token: int, padTokenId: int): int
  {
    if token == padTokenId then IgnoreIndex else token
  }

  /** One row of labels after masking. */
  function MaskRow(row: seq<int>, padTokenId: int): (masked: seq<int>)
    ensures |masked| == |row|
    ensures forall k :: 0 <= k < |row| && row[k] == padTokenId ==> masked[k] == IgnoreIndex
    ensures forall k :: 0 <= k < |row| && row[k] != padTokenId ==> masked[k] == row[k]
  {
    if row == [] then [] else [MaskToken(row[0], padTokenId)] + MaskRow(row[1..], padTokenId)
  }

  /** Masking leaves no pad id behind unless the pad id is the ignore index itself, and masking twice is masking once. */
  lemma MaskRowSettles(row: seq<int>, padTokenId: int)
    ensures padTokenId != IgnoreIndex ==> padTokenId !in MaskRow(row, padTokenId)
    ensures MaskRow(MaskRow(row, padTokenId), padTokenId) == MaskRow(row, padTokenId)
  {
    var m := MaskRow(row, padTokenId);
    assert MaskRow(m, padTokenId) == m;
  }

  /** Row `i` of a two-dimensional array. */
  function RowOf(a: array2<int>, i: nat): (row: seq<int>)
    requires i < a.Length0
    reads a
    ensures |row| == a.Length1
    ensures forall j :: 0 <= j < a.Length1 ==> row[j] == a[i, j]
  {
    seq(a.Length1, j requires 0 <= j < a.Length1 reads a => a[i, j])
  }

  /**
   * `labels[labels == tokenizer.pad_token_id] = -100` on the padded label
   * ids, a batch of rows: every row becomes its masked form and the shape
   * stays as it was.
   */
  method MaskLabels(labels: array2<int>, padTokenId: int)
    modifies labels
    ensures forall i :: 0 <= i < labels.Length0 ==>
      RowOf(labels, i) == MaskRow(old(RowOf(labels, i)), padTokenId)
  {
    var i := 0;
    while i < labels.Length0
      invariant 0 <= i <= labels.Length0
      invariant forall p, q :: 0 <= p < i && 0 <= q < labels.Length1 ==>
        labels[p, q] == MaskToken(old(labels[p, q]), padTokenId)
      invariant forall p, q :: i <= p < labels.Length0 && 0 <= q < labels.Length1 ==>
        labels[p, q] == old(labels[p, q])
    {
      var j := 0;
      while j < labels.Length1
        invariant 0 <= j <= labels.Length1
        invariant forall p, q :: 0 <= p < i && 0 <= q < labels.Length1 ==>
          labels[p, q] == MaskToken(old(labels[p, q]), padTokenId)
        invariant forall q :: 0 <= q < j ==> labels[i, q] == MaskToken(old(labels[i, q]), padTokenId)
        invariant forall p, q :: (i < p < labels.Length0 || (p == i && j <= q)) && 0 <= q < labels.Length1 ==>
          labels[p, q] == old(labels[p, q])
      {
        if labels[i, j] == padTokenId {
          labels[i, j] := IgnoreIndex;
        }
        j := j + 1;
      }
      i := i + 1;
    }
    forall i | 0 <= i < labels.Length0
      ensures RowOf(labels, i) == MaskRow(old(RowOf(labels, i)), padTokenId)
    {
      var before := old(RowOf(labels, i));
      assert forall j :: 0 <= j < labels.Length1 ==> before[j] == old(labels[i, j]);
    }
  }
}
