/** The lifecycle stepper: which of the seven steps is highlighted, given the
    selected asset, the selected client and whether a deployment plan has been
    generated. */
module Lifecycle {
  import opened Options

  /** What the stepper reads from the application state. A selection that is
      `null` or the empty string counts as absent (JavaScript truthiness). */
  datatype Selection = Selection(asset: Option<string>, client: Option<string>, hasPlan: bool)

  predicate Truthy(o: Option<string>) {
    o.Some? && o.value != ""
  }

  const Steps: seq<string> := ["develop", "validate", "catalog", "map", "deploy", "measure", "upstream"]

  /** The activation heuristic of one step. */
  function StepActive(step: string, sel: Selection): bool {
    var active := step == "develop";
    var active := if step == "validate" && Truthy(sel.asset) then true else active;
    var active := if step == "catalog" && Truthy(sel.asset) then true else active;
    var active := if step == "map" && Truthy(sel.asset) && Truthy(sel.client) then true else active;
    var active := if step == "deploy" && sel.hasPlan then true else active;
    var active := if step == "measure" && sel.hasPlan then true else active;
    var active := if step == "upstream" && sel.hasPlan then true else active;
    active
  }

  /** Activation of the seven steps in stepper order. */
  function ActiveSteps(sel: Selection): (r: seq<bool>)
    ensures |r| == |Steps| == 7
    ensures forall i :: 0 <= i < 7 ==> r[i] == StepActive(Steps[i], sel)
    ensures r[0] && r[1] == r[2] && r[4] == r[5] == r[6]
    ensures r[3] ==> r[1]
  {
    seq(7, i requires 0 <= i < 7 => StepActive(Steps[i], sel))
  }

  /** The heuristic step by step, and nothing for a step not in the list. */
  lemma StepActivation(step: string, sel: Selection)
    ensures step == "develop" ==> StepActive(step, sel)
    ensures step == "validate" || step == "catalog" ==> (StepActive(step, sel) <==> Truthy(sel.asset))
    ensures step == "map" ==> (StepActive(step, sel) <==> Truthy(sel.asset) && Truthy(sel.client))
    ensures step == "deploy" || step == "measure" || step == "upstream" ==> (StepActive(step, sel) <==> sel.hasPlan)
    ensures step !in Steps ==> !StepActive(step, sel)
  {
  }

  /** Choosing a client without an asset lights nothing beyond `develop`
      until a plan exists. */
  lemma ClientAloneActivatesNothing(client: Option<string>)
    ensures ActiveSteps(Selection(None, client, false)) == [true, false, false, false, false, false, false]
  {
  }
}
