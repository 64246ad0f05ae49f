/** What a block is called and which two of its parameters are its sliders. */
module BlockSnapshot {
  import opened Wrappers
  import opened PatchStore

  /** The name a scan gives the block it read. */
  function NameGiven(fxType: string, fxId: string, read: Reading): Reading {
    if fxType in {"ns", "delay"} then Label(fxType + fxId) else read
  }

  /** The two slider parameters of a block; None is no slider. */
  datatype Labels = Labels(first: Option<string>, second: Option<string>)

  /** The slider policy: by type for ordinary blocks, by resolved effect name for fx blocks. */
  datatype Policy = Policy(byType: map<string, Labels>, byName: map<string, Labels>)

  const NO_SLIDERS := Labels(None, None)

  function LabelsForName(policy: Policy, name: Reading): Labels {
    if name.Label? && name.text in policy.byName then policy.byName[name.text] else NO_SLIDERS
  }

  /** The level control an equaliser has, by the TYPE the caller knows of. */
  function EqLevel(paramName: Reading): string {
    if paramName == Label("PARAMETRIC") then "LEVEL1" else "LEVEL"
  }

  /** `paramName` is the TYPE the caller knows of, `owner` the fx-name owner's entry. */
  function LabelsFor(policy: Policy, fxType: string, paramName: Reading, owner: Reading): Labels {
    if fxType == "eq" then Labels(Some(EqLevel(paramName)), None)
    else if fxType == "fx" then LabelsForName(policy, owner)
    else if fxType in policy.byType then policy.byType[fxType]
    else NO_SLIDERS
  }

  /** A caller that knows no TYPE is given what one that does would be, but for an equaliser
      that is PARAMETRIC. */
  lemma UntypedChoice(policy: Policy, fxType: string, paramName: Reading, owner: Reading)
    ensures LabelsFor(policy, fxType, Nothing, owner) == LabelsFor(policy, fxType, paramName, owner)
       <==> !(fxType == "eq" && paramName == Label("PARAMETRIC"))
  {
    assert |"LEVEL1"| != |"LEVEL"|;
  }
}
