/**
 * The pure steps of the training pipeline: choosing the hub reference and
 * family of a selected variant, and the optional export at its end.
 */
module Pipeline {
  import opened Wrappers
  import opened Strings
  import opened References
  import opened Registry
  import opened Export

  /**
   * `pick_model`: flan variants resolve to `google/flan-t5-<size>` as
   * sequence-to-sequence models, every other variant to
   * `tiiuae/<value with "_" replaced by "-">` as a causal model.
   */
  function PickModel(model: ModelSelection): (r: (ModelReference, ModelType))
    ensures r.0.owner == (if IsFlan(model) then "google" else "tiiuae")
    ensures r.0.commitSha == None
    ensures r.1 == PropertiesOf(model).modelType
  {
    assert IsFlan(model) ==> Value(model)[..4] == "flan";
    assert !IsFlan(model) ==> Value(model)[0] == 'g';
    if StartsWith(Value(model), "flan") then
      var size := Replace(Value(model), "flan_", "");
      (ModelReference("google", "flan-t5-" + size, None), SeqToSeq)
    else
      var name := Replace(Value(model), "_", "-");
      (ModelReference("tiiuae", name, None), Causal)
  }

  /** The size suffix of a flan variant: what follows "flan_" in its value. */
  lemma FlanSize(model: ModelSelection)
    requires IsFlan(model)
    ensures StartsWith(Value(model), "flan_")
    ensures Replace(Value(model), "flan_", "") == Value(model)[5..]
    ensures !Contains(Value(model)[5..], "-")
  {
    assert Value(model)[..5] == "flan_";
    AbsentByChar(Value(model)[5..], "flan_", 4);
    AbsentByChar(Value(model)[5..], "-", 0);
    ReplaceLeadingOnly(Value(model), "flan_", "");
  }

  /** A flan variant resolves to owner "google", repository "flan-t5-<size>", sequence-to-sequence. */
  lemma PickModelFlan(model: ModelSelection)
    requires StartsWith(Value(model), "flan")
    ensures PickModel(model).0 == ModelReference("google", "flan-t5-" + Value(model)[5..], None)
    ensures PickModel(model).1 == SeqToSeq
  {
    assert Value(GptJ6b)[0] == 'g';
    FlanSize(model);
  }

  /** Any other variant resolves to owner "tiiuae", its value with each "_" made "-", causal. */
  lemma PickModelCausal(model: ModelSelection)
    requires !StartsWith(Value(model), "flan")
    ensures PickModel(model).0.owner == "tiiuae" && PickModel(model).0.commitSha == None
    ensures PickModel(model).1 == Causal
    ensures |PickModel(model).0.repo| == |Value(model)|
    ensures forall k :: 0 <= k < |Value(model)| ==>
      PickModel(model).0.repo[k] == (if Value(model)[k] == '_' then '-' else Value(model)[k])
  {
    ReplaceChar(Value(model), '_', '-');
    assert "_" == ['_'] && "-" == ['-'];
  }

  /** The only causal variant resolves to `tiiuae/gpt-j-6b`. */
  lemma PickModelGptJ()
    ensures PickModel(GptJ6b).0 == ModelReference("tiiuae", "gpt-j-6b", None)
  {
    assert Value(GptJ6b)[0] == 'g';
    PickModelCausal(GptJ6b);
    assert PickModel(GptJ6b).0.repo == "gpt-j-6b";
  }

  /** `"flan-t5-<size>".replace("flan-t5-", "flan_")` is `"flan_<size>"` for a size without "-". */
  lemma FlanRepoRewrite(size: string)
    requires !Contains(size, "-")
    ensures Contains("flan-t5-" + size, "flan")
    ensures Replace("flan-t5-" + size, "flan-t5-", "flan_") == "flan_" + size
  {
    var repo := "flan-t5-" + size;
    assert OccursAt("flan", repo, 0);
    assert repo[8..] == size;
    if Contains(size, "flan-t5-") {
      var i :| 0 <= i <= |size| && OccursAt("flan-t5-", size, i);
      assert size[i + 4] == size[i..i + 8][4] == '-';
      assert OccursAt("-", size, i + 4);
    }
    ReplaceLeadingOnly(repo, "flan-t5-", "flan_");
  }

  /** The reference `google/flan-t5-<size>` built from a name `flan_<size>` leads back to that name. */
  lemma FlanNameRoundTrip(name: string)
    requires StartsWith(name, "flan_") && !Contains(name[5..], "-")
    ensures FromModelReference(ModelReference("google", "flan-t5-" + name[5..], None)) == FromName(name)
  {
    FlanRepoRewrite(name[5..]);
    assert name == name[..5] + name[5..];
  }

  /** A flan variant is recovered from `google/flan-t5-<size>`. */
  lemma FlanRoundTrip(model: ModelSelection)
    requires IsFlan(model)
    ensures FromModelReference(PickModel(model).0) == Ok(model)
  {
    assert Value(model)[..4] == "flan";
    PickModelFlan(model);
    FlanSize(model);
    FlanNameRoundTrip(Value(model));
    FromNameValue(model);
  }

  /** The causal variant is recovered from `tiiuae/gpt-j-6b`. */
  lemma GptJRoundTrip()
    ensures FromModelReference(PickModel(GptJ6b).0) == Ok(GptJ6b)
  {
    PickModelGptJ();
    var repo := "gpt-j-6b";
    AbsentByChar(repo, "flan", 0);
    assert !Contains(PickModel(GptJ6b).0.repo, "flan");
    HyphensToUnderscores();
    FromNameValue(GptJ6b);
  }

  /** `"gpt-j-6b".replace("-", "_")` is the causal variant's value. */
  lemma HyphensToUnderscores()
    ensures Replace("gpt-j-6b", "-", "_") == Value(GptJ6b)
  {
    var repo := "gpt-j-6b";
    ReplaceChar(repo, '-', '_');
    assert "-" == ['-'] && "_" == ['_'];
    var r := Replace(repo, "-", "_");
    assert |r| == 8;
    assert forall k :: 0 <= k < 8 ==> r[k] == Value(GptJ6b)[k];
  }

  /** Every variant is recovered from the reference `pick_model` chose for it. */
  lemma PickModelRoundTrip(model: ModelSelection)
    ensures FromModelReference(PickModel(model).0) == Ok(model)
  {
    if IsFlan(model) {
      FlanRoundTrip(model);
    } else {
      GptJRoundTrip();
    }
  }

  /**
   * The export step at the end of `pipeline`: without an export reference
   * nothing is pushed; otherwise the pushed reference is pinned to the commit
   * `commitOid` that the push returned.
   */
  function OptionalExport(exportReference: Option<ModelReference>, commitOid: string): (r: Option<ModelReference>)
    ensures r.None? <==> exportReference.None?
    ensures r.Some? ==>
      && r.value.owner == exportReference.value.owner
      && r.value.repo == exportReference.value.repo
      && r.value.commitSha == Some(commitOid)
  {
    if exportReference.Some? then Some(ExportModel(exportReference.value, commitOid)) else None
  }
}
