/**
 * The model-family registry: the closed set of supported model variants,
 * the family each belongs to, the frozen per-variant loading policy and the
 * derivation of a variant from a hub reference.
 */
module Registry {
  import opened Wrappers
  import opened Strings
  import opened References

  datatype ModelType = SeqToSeq | Causal

  datatype ModelSelection = FlanSmall | FlanBase | FlanLarge | FlanXl | FlanXxl | GptJ6b

  /** Raised by `ModelSelection[name]` for a name that is not a member. */
  datatype KeyError = KeyError(key: string)

  /** The member's value; every member's name equals its value. */
  function Value(s: ModelSelection): string
  {
    match s
    case FlanSmall => "flan_small"
    case FlanBase => "flan_base"
    case FlanLarge => "flan_large"
    case FlanXl => "flan_xl"
    case FlanXxl => "flan_xxl"
    case GptJ6b => "gpt_j_6b"
  }

  /** Enum lookup by member name, `ModelSelection[name]`. */
  function FromName(name: string): (r: Result<ModelSelection, KeyError>)
    ensures r.Ok? <==> exists s :: Value(s) == name
    ensures r.Ok? ==> Value(r.value) == name
    ensures r.Err? ==> r.error == KeyError(name)
  {
    if name == Value(FlanSmall) then Ok(FlanSmall)
    else if name == Value(FlanBase) then Ok(FlanBase)
    else if name == Value(FlanLarge) then Ok(FlanLarge)
    else if name == Value(FlanXl) then Ok(FlanXl)
    else if name == Value(FlanXxl) then Ok(FlanXxl)
    else if name == Value(GptJ6b) then Ok(GptJ6b)
    else Err(KeyError(name))
  }

  /** Looking up a member's own value gives back that member. */
  lemma FromNameValue(s: ModelSelection)
    ensures FromName(Value(s)) == Ok(s)
  {
    match s
    case FlanSmall =>
    case FlanBase =>
    case FlanLarge =>
    case FlanXl =>
    case FlanXxl =>
    case GptJ6b =>
  }

  /**
   * `ModelSelection.from_model_reference`: a repository name containing
   * "flan" is rewritten "flan-t5-" -> "flan_", any other one "-" -> "_",
   * and the result is looked up as a member name. Owner and commit are ignored.
   */
  function FromModelReference(ref: ModelReference): (r: Result<ModelSelection, KeyError>)
    ensures var name := if Contains(ref.repo, "flan") then Replace(ref.repo, "flan-t5-", "flan_")
                        else Replace(ref.repo, "-", "_");
      && (r.Ok? <==> exists s :: Value(s) == name)
      && (r.Ok? ==> Value(r.value) == name)
      && (r.Err? ==> r.error == KeyError(name))
    ensures r.Ok? ==> (IsFlan(r.value) <==> Contains(ref.repo, "flan"))
  {
    if Contains(ref.repo, "flan") then
      var r := FromName(Replace(ref.repo, "flan-t5-", "flan_"));
      FlanRewriteKeepsFlan(ref.repo);
      if r.Ok? then ValueNamesFamily(r.value); r else r
    else
      var r := FromName(Replace(ref.repo, "-", "_"));
      HyphenRewriteKeepsFlan(ref.repo);
      if r.Ok? then ValueNamesFamily(r.value); r else r
  }

  /** A repository outside the registry, such as `EleutherAI/llama-7b`, raises `KeyError` on its rewritten name. */
  lemma FromModelReferenceRejects()
    ensures FromModelReference(ModelReference("EleutherAI", "llama-7b", None)) == Err(KeyError("llama_7b"))
  {
    AbsentByChar("llama-7b", "flan", 3);
    LlamaRewrite();
    assert Value(GptJ6b)[0] != 'l' && Value(FlanSmall)[0] != 'l';
  }

  /** `"llama-7b".replace("-", "_")` is `"llama_7b"`. */
  lemma LlamaRewrite()
    ensures Replace("llama-7b", "-", "_") == "llama_7b"
  {
    ReplaceChar("llama-7b", '-', '_');
    assert "-" == ['-'] && "_" == ['_'];
    var name := Replace("llama-7b", "-", "_");
    assert forall k :: 0 <= k < 8 ==> name[k] == "llama_7b"[k];
  }

  /** `ModelSelection.is_flan`: membership in the set of the five flan variants. */
  predicate IsFlan(s: ModelSelection)
    ensures IsFlan(s) <==> s != GptJ6b
  {
    FlanVariants(s);
    s in {FlanSmall, FlanBase, FlanLarge, FlanXl, FlanXxl}
  }

  /** The five flan variants are all the members but gpt_j_6b. */
  lemma FlanVariants(s: ModelSelection)
    ensures s in {FlanSmall, FlanBase, FlanLarge, FlanXl, FlanXxl} <==> s != GptJ6b
  {
    match s
    case FlanSmall =>
    case FlanBase =>
    case FlanLarge =>
    case FlanXl =>
    case FlanXxl =>
    case GptJ6b =>
  }

  /**
   * The frozen loading policy of a variant. `deviceMap` is the
   * `device_map` argument; only its string form is ever used.
   */
  datatype ModelProperties = ModelProperties(
    modelType: ModelType,
    padToken: Option<string>,
    loadIn8bit: bool,
    deviceMap: Option<string>)

  /** A `ModelProperties` built with only `model_type` given takes the dataclass defaults. */
  function DefaultProperties(modelType: ModelType): ModelProperties
  {
    ModelProperties(modelType, None, false, Some("auto"))
  }

  const FlanProps: ModelProperties := DefaultProperties(SeqToSeq)

  const GptjProps: ModelProperties :=
    ModelProperties(Causal, Some("eos_token"), true, None)

  /** `_MODEL_PROPERTIES`. */
  const ModelPropertiesTable: map<ModelSelection, ModelProperties> := map[
    FlanSmall := FlanProps,
    FlanBase := FlanProps,
    FlanLarge := FlanProps,
    FlanXl := FlanProps,
    FlanXxl := FlanProps,
    GptJ6b := GptjProps]

  /** The table is exhaustive over the enum, so a lookup by member never raises. */
  lemma TableIsExhaustive()
    ensures forall s :: s in ModelPropertiesTable
  {
    forall s: ModelSelection
      ensures s in ModelPropertiesTable
    {
      match s
      case FlanSmall => assert FlanSmall in ModelPropertiesTable;
      case FlanBase => assert FlanBase in ModelPropertiesTable;
      case FlanLarge => assert FlanLarge in ModelPropertiesTable;
      case FlanXl => assert FlanXl in ModelPropertiesTable;
      case FlanXxl => assert FlanXxl in ModelPropertiesTable;
      case GptJ6b => assert GptJ6b in ModelPropertiesTable;
    }
  }

  /** `_MODEL_PROPERTIES[s]`. */
  function PropertiesOf(s: ModelSelection): (p: ModelProperties)
    ensures p.modelType == SeqToSeq <==> IsFlan(s)
    ensures p.modelType == Causal <==> s == GptJ6b
    ensures p.modelType == Causal ==>
      p.padToken == Some("eos_token") && p.loadIn8bit && p.deviceMap == None
    ensures p.modelType == SeqToSeq ==>
      p.padToken == None && !p.loadIn8bit && p.deviceMap == Some("auto")
  {
    TableIsExhaustive();
    ModelPropertiesTable[s]
  }

  /** A value contains "flan" exactly when its member is a flan variant. */
  lemma ValueNamesFamily(s: ModelSelection)
    ensures Contains(Value(s), "flan") <==> IsFlan(s)
  {
    if s == GptJ6b {
      AbsentByChar(Value(s), "flan", 0);
    } else {
      assert OccursAt("flan", Value(s), 0);
    }
  }

  /** A string starting with "flan" still does after `replace("flan-t5-", "flan_")`. */
  lemma FlanRewriteKeepsLeadingFlan(s: string)
    requires StartsWith(s, "flan")
    ensures StartsWith(Replace(s, "flan-t5-", "flan_"), "flan")
  {
    var r := Replace(s, "flan-t5-", "flan_");
    if |s| >= 8 && s[..8] == "flan-t5-" {
      assert r == "flan_" + Replace(s[8..], "flan-t5-", "flan_");
      assert r[..4] == "flan";
    } else {
      assert s[0] == s[..4][0] == 'f';
      assert s[1..][0] == 'l' && s[1..][1] == 'a' && s[1..][2] == 'n';
      KeepsLeadingChars(s[1..], 3);
      if |s| >= 8 {
        assert r == [s[0]] + Replace(s[1..], "flan-t5-", "flan_");
      }
      assert r[..4] == [s[0]] + s[1..][..3] == s[..4];
    }
  }

  /** If `s` contains "flan", so does `s.replace("flan-t5-", "flan_")`. */
  lemma {:induction false} FlanRewriteKeepsFlan(s: string)
    requires Contains(s, "flan")
    ensures Contains(Replace(s, "flan-t5-", "flan_"), "flan")
    decreases |s|
  {
    var r := Replace(s, "flan-t5-", "flan_");
    if |s| < 8 {
    } else if StartsWith(s, "flan") {
      FlanRewriteKeepsLeadingFlan(s);
      assert OccursAt("flan", r, 0);
    } else {
      assert s[..8][..4] == s[..4];
      assert s[..8] != "flan-t5-";
      var i :| 0 <= i <= |s| && OccursAt("flan", s, i);
      assert s == [s[0]] + s[1..];
      OccursInTail([s[0]], s[1..], "flan", i);
      FlanRewriteKeepsFlan(s[1..]);
      ContainsInTail([s[0]], Replace(s[1..], "flan-t5-", "flan_"), "flan");
      assert r == [s[0]] + Replace(s[1..], "flan-t5-", "flan_");
    }
  }

  /** The rewrite leaves alone a leading run of characters that cannot start "flan-t5-". */
  lemma {:induction false} KeepsLeadingChars(s: string, n: nat)
    requires n <= |s|
    requires forall k :: 0 <= k < n ==> s[k] != 'f'
    ensures |Replace(s, "flan-t5-", "flan_")| >= n
    ensures Replace(s, "flan-t5-", "flan_")[..n] == s[..n]
    decreases n
  {
    if n > 0 {
      assert |s| >= 8 ==> s[..8][0] == s[0] && "flan-t5-"[0] == 'f';
      KeepsLeadingChars(s[1..], n - 1);
      if |s| >= 8 {
        assert Replace(s, "flan-t5-", "flan_") == [s[0]] + Replace(s[1..], "flan-t5-", "flan_");
      }
    }
  }

  /** `s.replace("-", "_")` contains "flan" exactly when `s` does. */
  lemma HyphenRewriteKeepsFlan(s: string)
    ensures Contains(Replace(s, "-", "_"), "flan") <==> Contains(s, "flan")
  {
    var r := Replace(s, "-", "_");
    ReplaceChar(s, '-', '_');
    assert "-" == ['-'] && "_" == ['_'];
    if Contains(s, "flan") {
      var i :| 0 <= i <= |s| && OccursAt("flan", s, i);
      assert forall k :: 0 <= k < 4 ==> s[i + k] == "flan"[k];
      assert r[i..i + 4] == s[i..i + 4];
      assert OccursAt("flan", r, i);
    }
    if Contains(r, "flan") {
      var i :| 0 <= i <= |r| && OccursAt("flan", r, i);
      assert forall k :: 0 <= k < 4 ==> r[i + k] == "flan"[k];
      assert r[i..i + 4] == s[i..i + 4];
      assert OccursAt("flan", s, i);
    }
  }
}
