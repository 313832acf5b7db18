/** The entity-mapping lines of the mapping wizard: every dependency of the
    selected asset is mapped to the client's first system, or to a generic
    connector when there is none. */
module Mapping {

  const Arrow: string := " \U{2192} "
  const GenericConnector: string := "Connector"

  /** `client.systems[0] || 'Connector'`: a missing or empty first system
      falls back to the generic connector. */
  function MapTarget(systems: seq<string>): (r: string)
    ensures r != ""
    ensures |systems| > 0 && systems[0] != "" ==> r == systems[0]
    ensures |systems| == 0 || systems[0] == "" ==> r == GenericConnector
  {
    if |systems| > 0 && systems[0] != "" then systems[0] else GenericConnector
  }

  /** One line per dependency, in dependency order, all naming the same target. */
  function EntityMappings(deps: seq<string>, systems: seq<string>): (r: seq<string>)
    ensures |r| == |deps|
    ensures forall i :: 0 <= i < |deps| ==> r[i] == deps[i] + Arrow + MapTarget(systems)
  {
    seq(|deps|, i requires 0 <= i < |deps| => deps[i] + Arrow + MapTarget(systems))
  }

  /** Each mapping line splits back into its dependency and the common target. */
  lemma MappingLineSplits(deps: seq<string>, systems: seq<string>, i: nat)
    requires i < |deps|
    ensures var line := EntityMappings(deps, systems)[i];
      line[..|deps[i]|] == deps[i] && line[|deps[i]| + |Arrow|..] == MapTarget(systems)
  {
  }
}
