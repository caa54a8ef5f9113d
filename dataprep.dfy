/**
 * Split resolution and truncation in `prepare_data`. A loaded dataset is a
 * map from split name to its examples; the examples themselves are opaque.
 * The library's `train_test_split` (seeded, shuffling, proportional) is not
 * visible and is taken as a parameter.
 */
module DataPrep {
  import opened Wrappers

  /** The ways split preparation fails. */
  datatype PrepError =
    | MissingSplit(name: string)     // `dataset[name]` raises KeyError
    | ZeroDivision                   // both caps are 0 in the test-size ratio
    | CapExceedsSplit(name: string)  // `select(range(cap))` past the end of the split

  /** The carve fraction used when the two caps do not both apply. */
  const DefaultTestSize: real := 0.1

  /**
   * The `test_size` handed to `train_test_split`: 0.1 unless both caps are
   * set, in which case it is the share of the test cap in the sum of the caps.
   */
  function TestSize(maxTrain: Option<nat>, maxTest: Option<nat>): (r: Result<real, PrepError>)
    ensures maxTrain.None? || maxTest.None? ==> r == Ok(DefaultTestSize)
    ensures maxTrain.Some? && maxTest.Some? ==>
      (r.Err? <==> maxTrain.value + maxTest.value == 0)
    ensures maxTrain.Some? && maxTest.Some? && r.Ok? ==>
      && 0.0 <= r.value <= 1.0
      && r.value * (maxTrain.value + maxTest.value) as real == maxTest.value as real
    ensures r.Err? ==> r.error == ZeroDivision
  {
    if maxTrain.Some? && maxTest.Some? then
      if maxTest.value + maxTrain.value == 0 then Err(ZeroDivision)
      else Ok(maxTest.value as real / (maxTest.value + maxTrain.value) as real)
    else Ok(DefaultTestSize)
  }

  /** With caps of 900 training and 100 test examples the fraction is exactly one tenth. */
  lemma TestSizeOfConsistentCaps()
    ensures TestSize(Some(900), Some(100)) == Ok(1.0 / 10.0)
  {
  }

  /**
   * The resolution steps: keep an existing "validation" split; otherwise
   * rename "test" to "validation"; otherwise carve "train" into a new
   * train/test pair (dropping every other split) and rename its "test".
   */
  method ResolveSplits<E>(
    dataset: map<string, seq<E>>,
    maxTrain: Option<nat>,
    maxTest: Option<nat>,
    trainTestSplit: (seq<E>, real) -> (seq<E>, seq<E>))
    returns (r: Result<map<string, seq<E>>, PrepError>)
    ensures "validation" in dataset ==> r == Ok(dataset)
    ensures "validation" !in dataset && "test" in dataset ==>
      && r.Ok?
      && r.value.Keys == dataset.Keys - {"test"} + {"validation"}
      && r.value["validation"] == dataset["test"]
      && forall k :: k in r.value && k != "validation" ==> r.value[k] == dataset[k]
    ensures "validation" !in dataset && "test" !in dataset ==>
      match TestSize(maxTrain, maxTest)
      case Err(e) => r == Err(e)
      case Ok(size) =>
        if "train" !in dataset then r == Err(MissingSplit("train"))
        else
          && r.Ok?
          && r.value.Keys == {"train", "validation"}
          && r.value["train"] == trainTestSplit(dataset["train"], size).0
          && r.value["validation"] == trainTestSplit(dataset["train"], size).1
    ensures r.Ok? ==> "validation" in r.value
  {
    var splits := dataset;
    if "validation" !in splits {
      if "test" !in splits {
        var testSize := TestSize(maxTrain, maxTest);
        if testSize.Err? {
          return Err(testSize.error);
        }
        if "train" !in splits {
          return Err(MissingSplit("train"));
        }
        var (train, test) := trainTestSplit(splits["train"], testSize.value);
        splits := map["train" := train, "test" := test];
      }
      if "test" in splits {
        splits := splits["validation" := splits["test"]];
        splits := splits - {"test"};
      }
    }
    return Ok(splits);
  }

  /** `cap` can be taken from `s`: it is unset or at most the length of `s`. */
  predicate Fits<E>(s: seq<E>, cap: Option<nat>)
  {
    cap.Some? ==> cap.value <= |s|
  }

  /** A set cap names a split that is present and long enough for it. */
  predicate CapApplies<E>(dataset: map<string, seq<E>>, name: string, cap: Option<nat>)
  {
    cap.Some? ==> name in dataset && Fits(dataset[name], cap)
  }

  /** What truncation to `cap` leaves of `s`: its first `cap` examples, or all of it when unset. */
  function Truncated<E>(s: seq<E>, cap: Option<nat>): (t: seq<E>)
    requires Fits(s, cap)
    ensures cap.Some? ==> |t| == cap.value
    ensures cap.None? ==> t == s
    ensures t <= s
  {
    if cap.Some? then s[..cap.value] else s
  }

  /**
   * Truncation: "train" becomes its first `maxTrain` examples and
   * "validation" its first `maxTest`, in their original order; an unset cap
   * leaves its split alone and no other split changes.
   */
  method TruncateSplits<E>(dataset: map<string, seq<E>>, maxTrain: Option<nat>, maxTest: Option<nat>)
    returns (r: Result<map<string, seq<E>>, PrepError>)
    ensures r.Ok? <==> CapApplies(dataset, "train", maxTrain) && CapApplies(dataset, "validation", maxTest)
    ensures maxTrain.Some? && "train" !in dataset ==> r == Err(MissingSplit("train"))
    ensures maxTrain.Some? && "train" in dataset && !Fits(dataset["train"], maxTrain) ==>
      r == Err(CapExceedsSplit("train"))
    ensures CapApplies(dataset, "train", maxTrain) && maxTest.Some? && "validation" !in dataset ==>
      r == Err(MissingSplit("validation"))
    ensures CapApplies(dataset, "train", maxTrain) && maxTest.Some? && "validation" in dataset ==>
      !Fits(dataset["validation"], maxTest) ==> r == Err(CapExceedsSplit("validation"))
    ensures r.Ok? ==> r.value.Keys == dataset.Keys
    ensures r.Ok? && "train" in dataset ==>
      Fits(dataset["train"], maxTrain) && r.value["train"] == Truncated(dataset["train"], maxTrain)
    ensures r.Ok? && "validation" in dataset ==>
      Fits(dataset["validation"], maxTest) && r.value["validation"] == Truncated(dataset["validation"], maxTest)
    ensures r.Ok? ==> forall k :: k in dataset && k != "train" && k != "validation" ==> r.value[k] == dataset[k]
  {
    var splits := dataset;
    if maxTrain.Some? {
      if "train" !in splits {
        return Err(MissingSplit("train"));
      }
      if maxTrain.value > |splits["train"]| {
        return Err(CapExceedsSplit("train"));
      }
      splits := splits["train" := splits["train"][..maxTrain.value]];
    }
    if maxTest.Some? {
      if "validation" !in splits {
        return Err(MissingSplit("validation"));
      }
      if maxTest.value > |splits["validation"]| {
        return Err(CapExceedsSplit("validation"));
      }
      splits := splits["validation" := splits["validation"][..maxTest.value]];
    }
    return Ok(splits);
  }

  /**
   * `prepare_data` up to the per-family formatting: resolve the splits,
   * truncate them and hand back the (train, validation) pair.
   */
  method PrepareData<E>(
    dataset: map<string, seq<E>>,
    maxTrain: Option<nat>,
    maxTest: Option<nat>,
    trainTestSplit: (seq<E>, real) -> (seq<E>, seq<E>))
    returns (r: Result<(seq<E>, seq<E>), PrepError>)
    ensures r.Ok? && maxTrain.Some? ==> |r.value.0| == maxTrain.value
    ensures r.Ok? && maxTest.Some? ==> |r.value.1| == maxTest.value
    ensures "validation" in dataset && "train" in dataset ==>
      (r.Ok? <==> Fits(dataset["train"], maxTrain) && Fits(dataset["validation"], maxTest))
    ensures "validation" in dataset && r.Ok? ==>
      && "train" in dataset
      && Fits(dataset["train"], maxTrain) && Fits(dataset["validation"], maxTest)
      && r.value.0 == Truncated(dataset["train"], maxTrain)
      && r.value.1 == Truncated(dataset["validation"], maxTest)
    ensures "validation" !in dataset && "test" in dataset && "train" in dataset ==>
      (r.Ok? <==> Fits(dataset["train"], maxTrain) && Fits(dataset["test"], maxTest))
    ensures "validation" !in dataset && "test" in dataset && r.Ok? ==>
      && "train" in dataset
      && Fits(dataset["train"], maxTrain) && Fits(dataset["test"], maxTest)
      && r.value.0 == Truncated(dataset["train"], maxTrain)
      && r.value.1 == Truncated(dataset["test"], maxTest)
    ensures "validation" !in dataset && "test" !in dataset && "train" in dataset && TestSize(maxTrain, maxTest).Ok? ==>
      var parts := trainTestSplit(dataset["train"], TestSize(maxTrain, maxTest).value);
      (r.Ok? <==> Fits(parts.0, maxTrain) && Fits(parts.1, maxTest))
    ensures "validation" !in dataset && "test" !in dataset && r.Ok? ==>
      && TestSize(maxTrain, maxTest).Ok?
      && "train" in dataset
      && var parts := trainTestSplit(dataset["train"], TestSize(maxTrain, maxTest).value);
      && Fits(parts.0, maxTrain) && Fits(parts.1, maxTest)
      && r.value.0 == Truncated(parts.0, maxTrain)
      && r.value.1 == Truncated(parts.1, maxTest)
    ensures "validation" !in dataset && "test" !in dataset && TestSize(maxTrain, maxTest).Err? ==>
      r == Err(ZeroDivision)
    ensures "validation" !in dataset && "test" !in dataset && TestSize(maxTrain, maxTest).Ok? && "train" !in dataset ==>
      r == Err(MissingSplit("train"))
    ensures ("validation" in dataset || "test" in dataset) && "train" !in dataset ==>
      var v := if "validation" in dataset then dataset["validation"] else dataset["test"];
      r == Err(if maxTrain.None? && !Fits(v, maxTest) then CapExceedsSplit("validation") else MissingSplit("train"))
    ensures ("validation" in dataset || "test" in dataset) && "train" in dataset && r.Err? ==>
      r.error == if Fits(dataset["train"], maxTrain) then CapExceedsSplit("validation") else CapExceedsSplit("train")
    ensures "validation" !in dataset && "test" !in dataset && "train" in dataset && TestSize(maxTrain, maxTest).Ok? && r.Err? ==>
      var parts := trainTestSplit(dataset["train"], TestSize(maxTrain, maxTest).value);
      r.error == if Fits(parts.0, maxTrain) then CapExceedsSplit("validation") else CapExceedsSplit("train")
  {
    var resolved := ResolveSplits(dataset, maxTrain, maxTest, trainTestSplit);
    if resolved.Err? {
      return Err(resolved.error);
    }
    var truncated := TruncateSplits(resolved.value, maxTrain, maxTest);
    if truncated.Err? {
      return Err(truncated.error);
    }
    // The formatting step reads the columns of "train", which raises when it is absent.
    if "train" !in truncated.value {
      return Err(MissingSplit("train"));
    }
    return Ok((truncated.value["train"], truncated.value["validation"]));
  }
}
