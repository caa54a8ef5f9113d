/**
 * The checkpoint capture of the causal training path. The instruction-tuning
 * trainer does not hand back the adapter-wrapped model, so a callback keeps
 * the model passed to each save event and `train` returns what it holds last.
 * Loading, adapter wrapping and the optimisation itself are foreign calls;
 * the models the trainer passes to its save events are an input here.
 */
module Training {
  import opened Wrappers
  import opened References
  import opened Registry

  /** `SftPeftCallback`: remembers the model of the latest save event. */
  class SftPeftCallback<M> {
    var model: Option<M>

    /** A fresh callback has seen no save. */
    constructor ()
      ensures model == None
    {
      model := None;
    }

    /** `on_save`: the model of this event replaces whatever was held. */
    method OnSave(saved: M)
      modifies this
      ensures model == Some(saved)
    {
      model := Some(saved);
    }
  }

  /**
   * A causal training run whose trainer fires one save event per element of
   * `saves`, in order: the result is the model of the last event, or `None`
   * when no save happened.
   */
  method TrainCausal<M>(saves: seq<M>) returns (model: Option<M>)
    ensures saves == [] ==> model == None
    ensures saves != [] ==> model == Some(saves[|saves| - 1])
  {
    var saver := new SftPeftCallback<M>();
    var i := 0;
    while i < |saves|
      invariant 0 <= i <= |saves|
      invariant i == 0 ==> saver.model == None
      invariant i > 0 ==> saver.model == Some(saves[i - 1])
    {
      saver.OnSave(saves[i]);
      i := i + 1;
    }
    model := saver.model;
  }

  /**
   * `train`: the family comes from the policy table entry of the variant
   * named by `modelRef`. A causal model is the one captured by the save
   * callback; a sequence-to-sequence model is the adapter-wrapped base model,
   * which the trainer updates in place and which is returned as is.
   */
  method Train<M>(modelRef: ModelReference, baseModel: M, wrapWithAdapter: M -> M, saves: seq<M>)
    returns (r: Result<Option<M>, KeyError>)
    ensures r.Err? <==> FromModelReference(modelRef).Err?
    ensures r.Err? ==> r.error == FromModelReference(modelRef).error
    ensures r.Ok? && IsFlan(FromModelReference(modelRef).value) ==>
      r.value == Some(wrapWithAdapter(baseModel))
    ensures r.Ok? && !IsFlan(FromModelReference(modelRef).value) ==>
      r.value == (if saves == [] then None else Some(saves[|saves| - 1]))
  {
    var selection := FromModelReference(modelRef);
    if selection.Err? {
      return Err(selection.error);
    }
    var properties := PropertiesOf(selection.value);
    if properties.modelType == Causal {
      var captured := TrainCausal(saves);
      return Ok(captured);
    } else {
      var model := wrapWithAdapter(baseModel);
      return Ok(Some(model));
    }
  }
}
