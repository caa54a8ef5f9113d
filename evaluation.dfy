/**
 * The text helpers of the evaluator: reducing a causal text to its prompt
 * and sanitizing prompt and generated text before they are stored.
 */
module Evaluation {
  import opened Wrappers
  import opened Strings
  import opened Preprocess

  /** Raised by `str.index` when the substring is absent. */
  datatype ValueError = SubstringNotFound

  /**
   * `extract_prompt` as written: `text.index(marker)` raises when the marker
   * is absent, so the fallback branch guarded by a negative index never runs;
   * otherwise the text up to and including the first marker is returned.
   */
  function ExtractPrompt(text: string): (r: Result<string, ValueError>)
    ensures r.Ok? <==> Contains(text, SummaryStartIndicator)
    ensures r.Err? ==> r.error == SubstringNotFound
    ensures r.Ok? ==>
      var i := |r.value| - |SummaryStartIndicator|;
      && i >= 0
      && OccursAt(SummaryStartIndicator, text, i)
      && r.value == text[..i + |SummaryStartIndicator|]
      && forall j :: 0 <= j < i ==> !OccursAt(SummaryStartIndicator, text, j)
  {
    match Find(text, SummaryStartIndicator)
    case None => Err(SubstringNotFound)
    case Some(i) => Ok(text[..i + |SummaryStartIndicator|])
  }

  /**
   * `extract_prompt` as its fallback branch evidently intends, with
   * `str.find` (which yields -1) in place of `str.index`: a text without the
   * marker is treated as an unterminated prompt and the marker is appended
   * after a space.
   */
  function ExtractPromptWithFallback(text: string): (prompt: string)
    ensures |prompt| >= |SummaryStartIndicator|
    ensures prompt[|prompt| - |SummaryStartIndicator|..] == SummaryStartIndicator
    ensures Contains(text, SummaryStartIndicator) ==> Ok(prompt) == ExtractPrompt(text)
    ensures !Contains(text, SummaryStartIndicator) ==> prompt == text + " " + SummaryStartIndicator
  {
    match Find(text, SummaryStartIndicator)
    case None => text + " " + SummaryStartIndicator
    case Some(i) => text[..i + |SummaryStartIndicator|]
  }

  /** A text with no marker: `extract_prompt` raises on it, the intended version appends the marker. */
  lemma ExtractPromptRaisesWithoutMarker()
    ensures ExtractPrompt("no marker") == Err(SubstringNotFound)
    ensures ExtractPromptWithFallback("no marker") == "no marker **Summary**: "
  {
    AbsentByChar("no marker", SummaryStartIndicator, 0);
  }

  /** No occurrence of the marker can start inside the templates' fixed opening. */
  lemma NoMarkerStartsInOpening(text: string, j: nat)
    requires StartsWith(text, PleaseSummarize) && j < |PleaseSummarize|
    ensures !OccursAt(SummaryStartIndicator, text, j)
  {
    var p, m := PleaseSummarize, SummaryStartIndicator;
    if j + |m| <= |text| {
      var w := text[j..j + |m|];
      assert forall k :: 0 <= k < |p| ==> text[k] == text[..|p|][k] == p[k];
      if j == 0 || j == 18 {
        assert w[2] == text[j + 2] != m[2];
      } else if j == 1 || j == 19 {
        assert w[1] == text[j + 1] != m[1];
      } else {
        assert w[0] == text[j] != m[0];
      }
    }
  }

  /**
   * In a text made of the templates' opening, a context free of the marker
   * and ". ", no occurrence of the marker starts before the end.
   */
  lemma NoMarkerBeforeSummary(ctx: string, text: string)
    requires !Contains(ctx, SummaryStartIndicator)
    requires StartsWith(text, PleaseSummarize + ctx + ". ")
    ensures forall j :: 0 <= j < |PleaseSummarize + ctx + ". "| ==> !OccursAt(SummaryStartIndicator, text, j)
  {
    var m := SummaryStartIndicator;
    var n := |PleaseSummarize|;
    var a := PleaseSummarize + ctx + ". ";
    var d := n + |ctx|;
    assert text[..|a|] == a;
    assert text[..n] == a[..n] == PleaseSummarize;
    assert text[d] == a[d] == '.' && text[d + 1] == a[d + 1] == ' ';
    forall j | 0 <= j < |a|
      ensures !OccursAt(m, text, j)
    {
      if j < n {
        NoMarkerStartsInOpening(text, j);
      } else if j + |m| <= d {
        assert text[j..j + |m|] == a[j..j + |m|] == ctx[j - n..j - n + |m|];
        assert !OccursAt(m, ctx, j - n);
      } else if j + |m| <= |text| {
        var w := text[j..j + |m|];
        if j < d {
          assert w[d - j] == text[d] == '.';
          assert '.' !in m;
        } else {
          assert w[0] == text[j] != '*';
        }
      }
    }
  }

  /** A text `a + marker + b` with no marker starting inside `a` reduces to `a + marker`. */
  lemma ExtractPromptAt(a: string, b: string)
    requires forall j :: 0 <= j < |a| ==> !OccursAt(SummaryStartIndicator, a + SummaryStartIndicator + b, j)
    ensures ExtractPrompt(a + SummaryStartIndicator + b) == Ok(a + SummaryStartIndicator)
  {
    var m := SummaryStartIndicator;
    var text := a + m + b;
    assert text[|a|..|a| + |m|] == m;
    assert OccursAt(m, text, |a|);
    var f := Find(text, m);
    assert f.Some? && f.value == |a|;
    assert text[..|a| + |m|] == a + m;
  }

  /**
   * Applied to a causal training text whose context holds no marker,
   * `extract_prompt` yields exactly the sequence-to-sequence prompt for
   * that context.
   */
  lemma ExtractPromptOfCausalText(ctx: string, summary: string)
    requires !Contains(ctx, SummaryStartIndicator)
    ensures ExtractPrompt(CausalText(ctx, summary)) == Ok(Seq2SeqPrompt(ctx))
  {
    var a := PleaseSummarize + ctx + ". ";
    var b := summary + " **End**";
    CausalTextExtendsPrompt(ctx, summary);
    var text := a + SummaryStartIndicator + b;
    assert CausalText(ctx, summary) == (a + SummaryStartIndicator) + summary + " **End**" == text;
    assert text[..|a|] == a;
    NoMarkerBeforeSummary(ctx, text);
    ExtractPromptAt(a, b);
  }

  /** `sanitize`: every "NaN" in the text becomes "?". */
  function Sanitize(s: string): (r: string)
    ensures |r| <= |s|
    ensures !Contains(s, "NaN") ==> r == s
  {
    if Contains(s, "NaN") then Replace(s, "NaN", "?")
    else ReplaceAbsent(s, "NaN", "?"); Replace(s, "NaN", "?")
  }

  /** The first character of a sanitized text: "?" where the text starts with "NaN", else the text's own. */
  lemma SanitizeHead(s: string)
    requires |s| > 0
    ensures |Sanitize(s)| > 0
    ensures Sanitize(s)[0] == if |s| >= 3 && s[..3] == "NaN" then '?' else s[0]
  {
  }

  /** Sanitized text never contains "NaN". */
  lemma {:induction false} SanitizeRemovesNaN(s: string)
    ensures !Contains(Sanitize(s), "NaN")
    decreases |s|
  {
    var r := Sanitize(s);
    if |s| < 3 {
    } else if s[..3] == "NaN" {
      var t := Sanitize(s[3..]);
      SanitizeRemovesNaN(s[3..]);
      assert r == "?" + t;
      forall i | 0 <= i <= |r|
        ensures !OccursAt("NaN", r, i)
      {
        if i == 0 {
          if |r| >= 3 {
            assert r[..3][0] == '?';
          }
        } else {
          OccursInTail("?", t, "NaN", i);
        }
      }
    } else {
      var t := Sanitize(s[1..]);
      SanitizeRemovesNaN(s[1..]);
      assert r == [s[0]] + t;
      forall i | 0 <= i <= |r|
        ensures !OccursAt("NaN", r, i)
      {
        if i == 0 {
          if |r| >= 3 {
            // The first three characters of `r` cannot spell "NaN", since those of `s` do not.
            SanitizeHead(s[1..]);
            assert s[..3] == [s[0], s[1], s[2]];
            if s[0] != 'N' {
              assert r[..3][0] == s[0];
            } else if s[1] != 'a' {
              assert r[..3][1] == t[0];
            } else {
              assert s[2] != 'N';
              SanitizeHead(s[2..]);
              assert s[1..][1..] == s[2..];
              assert t == [s[1]] + Sanitize(s[2..]);
              assert r[..3][2] == t[1] == Sanitize(s[2..])[0];
            }
          }
        } else {
          OccursInTail([s[0]], t, "NaN", i);
        }
      }
    }
  }

  /** Sanitizing twice is sanitizing once. */
  lemma SanitizeIdempotent(s: string)
    ensures Sanitize(Sanitize(s)) == Sanitize(s)
  {
    SanitizeRemovesNaN(s);
  }

  /** The documented example: "Result: NaN" becomes "Result: ?". */
  lemma SanitizeExample()
    ensures Sanitize("Result: NaN") == "Result: ?"
  {
    var x, y := "Result: ", "NaN";
    assert x + y == "Result: NaN";
    forall i | 0 <= i < |x|
      ensures !OccursAt("NaN", x + y, i)
    {
      assert (x + y)[i] == x[i] != 'N';
      assert "NaN"[0] == 'N';
    }
    ReplaceSkipsPrefix(x, y, "NaN", "?");
    assert y[..3] == "NaN" && y[3..] == [];
  }
}
