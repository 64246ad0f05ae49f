/** That the sliders a block ought to have are there: a label, range and value for each that
    the policy chooses and the tables have, whatever the interleaving. */
module RefreshSliders {
  import opened Wrappers
  import opened BlockIds
  import opened PatchStore
  import opened BlockSnapshot
  import opened AddressMap
  import opened SliderReads
  import opened RefreshLoop
  import RefreshNames

  // ---- fx blocks -------------------------------------------------------------------------------

  /** The unit has answered every read of a value so far. */
  predicate AllAnswered(acts: seq<Action>, i: nat)
    requires i <= |acts|
  {
    forall j | 0 <= j < i :: acts[j].ReadValue? ==> acts[j].raw.Some?
  }

  /** An answered read of this parameter shows a slider. */
  predicate Shows(spec: Spec, fxId: string, owner: Reading, option: Option<string>) {
    option.Some? && ResolveSlider(spec, "fx", fxId, owner, option, Some(0)).Ok?
    && ResolveSlider(spec, "fx", fxId, owner, option, Some(0)).value.Some?
  }

  /** A slider is there if it ought to be. */
  predicate There(c: Config, fxId: string, owner: Reading, option: Option<string>, slider: Option<Slider>) {
    Shows(c.spec, fxId, owner, option) ==> slider.Some?
  }

  predicate BlockThere(c: Config, b: Block, owner: Reading) {
    && There(c, b.fxId, owner, LabelsForName(c.policy, owner).first, b.slider1)
    && There(c, b.fxId, owner, LabelsForName(c.policy, owner).second, b.slider2)
  }

  predicate OwedOrThere(c: Config, s: State, b: Block) {
    b.fxId in s.store.fxNames && (Owed(s, "fx", b.fxId) || BlockThere(c, b, s.store.fxNames[b.fxId]))
  }

  predicate StoredThere(c: Config, s: State, b: Block) {
    InHand(s, "fx", b.fxId) || Scanning(s.worker, "fx") || OwedOrThere(c, s, b)
  }

  predicate JobThere(c: Config, s: State) {
    var w := s.worker;
    InResolution(w) && w.job.Type() == "fx" && w.job.Id() in s.store.fxNames && !Owed(s, "fx", w.job.Id()) ==>
      && (|w.sliders| > 0 ==> There(c, w.job.Id(), s.store.fxNames[w.job.Id()], w.labels.first, w.sliders[0]))
      && (|w.sliders| > 1 ==> There(c, w.job.Id(), s.store.fxNames[w.job.Id()], w.labels.second, w.sliders[1]))
  }

  predicate DoneThere(c: Config, s: State) {
    Scanning(s.worker, "fx") ==>
      var done := ScanOf(s.worker).value.done; forall k | 0 <= k < |done| :: OwedOrThere(c, s, done[k])
  }

  predicate ThereOk(c: Config, s: State) {
    && JobThere(c, s) && DoneThere(c, s)
    && ("fx" in s.store.blocks ==> forall k | 0 <= k < |s.store.blocks["fx"]| :: StoredThere(c, s, s.store.blocks["fx"][k]))
  }

  /** Whether a slider shows does not depend on what the unit answers. */
  lemma ShownWhateverTheAnswer(spec: Spec, fxId: string, owner: Reading, option: string, range: Option<Range>, raw: int, value: Reading)
    requires RangeAt(spec, "fx", fxId, owner, option) == Ok(range)
    requires ValueAt(spec, "fx", fxId, owner, option, Some(raw)) == Ok(value)
    requires SliderOf("fx", option, range, value).Ok?
    ensures Shows(spec, fxId, owner, Some(option)) ==> SliderOf("fx", option, range, value).value.Some?
  {
  }

  lemma ReadValueThere(c: Config, s: State, raw: int)
    requires Inv(c, s) && JobThere(c, s) && Enabled(s, ReadValue(Some(raw)))
    ensures JobThere(c, Next(c, s, ReadValue(Some(raw))))
  {
    var w, s' := s.worker, Next(c, s, ReadValue(Some(raw)));
    if s'.worker.Resolving? && w.job.Type() == "fx" && !Owed(s, "fx", w.job.Id()) {
      var owner := s.store.fxNames[w.job.Id()];
      ShownWhateverTheAnswer(c.spec, w.job.Id(), owner, w.option, w.range, raw,
                             ValueAt(c.spec, "fx", w.job.Id(), owner, w.option, Some(raw)).value);
    }
  }

  lemma WorkerStepThere(c: Config, s: State, s': State)
    requires ThereOk(c, s) && s' == s.(worker := s'.worker) && JobThere(c, s') && DoneThere(c, s')
    requires Scanning(s.worker, "fx") ==> Scanning(s'.worker, "fx")
    requires forall fxId :: InHand(s, "fx", fxId) ==> InHand(s', "fx", fxId)
    ensures ThereOk(c, s')
  {
    if "fx" in s.store.blocks {
      forall k | 0 <= k < |s.store.blocks["fx"]| ensures StoredThere(c, s', s.store.blocks["fx"][k]) {
        assert StoredThere(c, s, s.store.blocks["fx"][k]);
      }
    }
  }

  lemma FramedThere(c: Config, s: State, s': State)
    requires Inv(c, s) && ThereOk(c, s) && Framed(c, s, s')
    ensures ThereOk(c, s')
  {
    if "fx" in s.store.blocks {
      forall k | 0 <= k < |s.store.blocks["fx"]| ensures StoredThere(c, s', s'.store.blocks["fx"][k]) {
        assert StoredThere(c, s, s.store.blocks["fx"][k]);
        assert SameBlock(s.store.blocks["fx"][k], s'.store.blocks["fx"][k]);
      }
    }
    if Scanning(s.worker, "fx") {
      var done := ScanOf(s.worker).value.done;
      forall k | 0 <= k < |done| ensures OwedOrThere(c, s', done[k]) {
        assert OwedOrThere(c, s, done[k]);
      }
    }
  }

  lemma ReadBlockThere(c: Config, s: State, state: Reading, name: Reading)
    requires Inv(c, s) && ThereOk(c, s) && Enabled(s, ReadBlock(state, name))
    ensures ThereOk(c, Next(c, s, ReadBlock(state, name)))
  {
    var s', scan := Next(c, s, ReadBlock(state, name)), s.worker.scan;
    if scan.fxType == "fx" {
      forall k | 0 <= k < |scan.done| ensures OwedOrThere(c, s', scan.done[k]) {
        ScanIdsDistinct("fx", scan.count, k, |scan.done|);
        assert OwedOrThere(c, s, scan.done[k]);
      }
    } else if "fx" in s.store.blocks {
      forall k | 0 <= k < |s.store.blocks["fx"]| ensures StoredThere(c, s', s.store.blocks["fx"][k]) {
        assert StoredThere(c, s, s.store.blocks["fx"][k]);
      }
    }
  }

  lemma FinishThere(c: Config, s: State)
    requires Inv(c, s) && ThereOk(c, s) && Enabled(s, Finish)
    ensures ThereOk(c, Next(c, s, Finish))
  {
    var s', job := Next(c, s, Finish), s.worker.job;
    match job
    case ScanJob(scan, _, _) =>
      if scan.fxType == "fx" {
        forall k | 0 <= k < |s'.worker.scan.done| ensures OwedOrThere(c, s', s'.worker.scan.done[k]) {
          if k < |scan.done| {
            assert OwedOrThere(c, s, scan.done[k]);
          }
        }
      }
      WorkerStepThere(c, s, s');
    case RereadJob(fxType, fxId) =>
      if "fx" in s.store.blocks {
        var fx := s.store.blocks["fx"];
        forall k | 0 <= k < |fx| ensures StoredThere(c, s', s'.store.blocks["fx"][k]) {
          assert StoredThere(c, s, fx[k]) && StoredBlockOk(c, s, fx[k]);
          if fxType == "fx" && fx[k].fxId == fxId {
            assert FirstWith(fx, fxId) == k;
          }
        }
      }
  }

  lemma TakeTaskThere(c: Config, s: State)
    requires ThereOk(c, s) && Enabled(s, TakeTask)
    ensures ThereOk(c, Next(c, s, TakeTask))
  {
    var s' := Next(c, s, TakeTask);
    assert s.queue == [s.queue[0]] + s'.queue;
    if "fx" in s.store.blocks {
      forall k | 0 <= k < |s.store.blocks["fx"]| ensures StoredThere(c, s', s.store.blocks["fx"][k]) {
        assert StoredThere(c, s, s.store.blocks["fx"][k]);
      }
    }
  }

  lemma RecordTypeThere(c: Config, s: State, ts: int)
    requires ThereOk(c, s) && Enabled(s, RecordType(ts))
    ensures ThereOk(c, Next(c, s, RecordType(ts)))
  {
    var s' := Next(c, s, RecordType(ts));
    if "fx" in s'.store.blocks {
      forall k | 0 <= k < |s'.store.blocks["fx"]| ensures StoredThere(c, s', s'.store.blocks["fx"][k]) {
        if s.worker.scan.fxType == "fx" {
          assert OwedOrThere(c, s, s.worker.scan.done[k]);
        } else {
          assert StoredThere(c, s, s.store.blocks["fx"][k]);
        }
      }
    }
  }

  lemma OutsideStepThere(c: Config, s: State, a: Action)
    requires Inv(c, s) && ThereOk(c, s) && Enabled(s, a)
    requires a.Echo? || a.Toggle? || a.ProgramChange? || a.SubmitOwed?
    ensures ThereOk(c, Next(c, s, a))
  {
    match a {
      case Echo(d, now) => EchoFramed(c, s, d, now);
      case Toggle(fxType, fxId, value) => ToggleFramed(c, s, fxType, fxId, value);
      case _ => SubmitFramed(c, s, a);
    }
    FramedThere(c, s, Next(c, s, a));
  }

  lemma QuietStepThere(c: Config, s: State, a: Action)
    requires Inv(c, s) && ThereOk(c, s) && Enabled(s, a)
    requires a.BeginType? || a.EndScan? || a.ChooseSliders? || a.ReadRange? || (a.ReadValue? && a.raw.Some?)
    ensures ThereOk(c, Next(c, s, a))
  {
    if a.ReadValue? {
      ReadValueThere(c, s, a.raw.value);
    }
    WorkerStepThere(c, s, Next(c, s, a));
  }

  lemma ThereKept(c: Config, s: State, a: Action)
    requires Inv(c, s) && ThereOk(c, s) && Enabled(s, a) && (a.ReadValue? ==> a.raw.Some?)
    ensures ThereOk(c, Next(c, s, a))
  {
    if a.Echo? || a.Toggle? || a.ProgramChange? || a.SubmitOwed? {
      OutsideStepThere(c, s, a);
    } else if a.ReadBlock? {
      ReadBlockThere(c, s, a.state, a.name);
    } else if a.Finish? {
      FinishThere(c, s);
    } else if a.TakeTask? {
      TakeTaskThere(c, s);
    } else if a.RecordType? {
      RecordTypeThere(c, s, a.ts);
    } else {
      QuietStepThere(c, s, a);
    }
  }

  lemma {:induction false} ThereHolds(c: Config, states: seq<State>, acts: seq<Action>, i: nat)
    requires Run(c, states, acts) && i <= |acts| && AllAnswered(acts, i)
    ensures ThereOk(c, states[i])
  {
    if i > 0 {
      ThereHolds(c, states, acts, i - 1);
      InvHolds(c, states, acts, i - 1);
      assert StepAt(c, states, acts, i - 1);
      ThereKept(c, states[i - 1], acts[i - 1]);
    }
  }

  lemma AtRest(c: Config, states: seq<State>, acts: seq<Action>, i: nat, k: nat)
    requires Run(c, states, acts) && i <= |acts| && Quiescent(states[i]) && AllAnswered(acts, i)
    requires "fx" in states[i].store.blocks && k < |states[i].store.blocks["fx"]|
    ensures var s, b := states[i].store, states[i].store.blocks["fx"][k];
            b.fxId in s.fxNames && BlockUnder(c, b, s.fxNames[b.fxId]) && BlockThere(c, b, s.fxNames[b.fxId])
  {
    var b := states[i].store.blocks["fx"][k];
    QuiescentConsistency(c, states, acts, i);
    ThereHolds(c, states, acts, i);
    assert b in states[i].store.blocks["fx"] && StoredThere(c, states[i], b);
    assert SliderTask("fx", b.fxId).kind == "sliders";
  }

  /** A slider that shows an effect and has to be there is the one the tables describe. */
  lemma SliderDescribed(c: Config, fxId: string, name: string, chosen: Option<string>, slider: Option<Slider>,
                        option: string, entry: Setting, values: Setting)
    requires Offers(c.spec, fxId, name, option, entry, values)
    requires SliderUnder(c.spec, fxId, Label(name), chosen, slider) && There(c, fxId, Label(name), chosen, slider)
    ensures chosen == Some(option) ==>
              && slider.Some? && slider.value == Slider(slider.value.value, option, entry.range.0, entry.range.1)
              && match slider.value.value
                 case Raw(_) => true
                 case Label(text) => exists v :: v in values.values && v.0 == text
                 case Nothing => false
    ensures chosen == None ==> slider == None
  {
    EffectSliderRead(c.spec, fxId, name, option, entry, values, 0);
    if chosen == Some(option) && slider.Some? && slider.value.value.Label? {
      var text := slider.value.value.text;
      var j := LookupIsThere(values.values, text);
      assert values.values[j] in values.values && values.values[j].0 == text;
    }
  }

  /** At rest, where the unit has answered every read, the sliders of a stored fx block are
      those of the effect its owner names: for each that the policy chooses and the tables
      have, its parameter, the parameter's range in the effect's table, and a number or one of
      the names listed there; and none where the policy chooses none. */
  lemma EffectSlidersAtRest(c: Config, states: seq<State>, acts: seq<Action>, i: nat, k: nat, first: bool,
                            name: string, option: string, entry: Setting, values: Setting)
    requires Run(c, states, acts) && i <= |acts| && Quiescent(states[i]) && AllAnswered(acts, i)
    requires var s := states[i].store;
             && "fx" in s.blocks && k < |s.blocks["fx"]|
             && var x := s.blocks["fx"][k].fxId;
                x in s.fxNames && s.fxNames[x] == Label(name) && Offers(c.spec, x, name, option, entry, values)
    ensures var b := states[i].store.blocks["fx"][k];
            var slider := if first then b.slider1 else b.slider2;
            var labels := if name in c.policy.byName then c.policy.byName[name] else Labels(None, None);
            var chosen := if first then labels.first else labels.second;
            && (chosen == Some(option) ==>
                && slider.Some? && slider.value == Slider(slider.value.value, option, entry.range.0, entry.range.1)
                && match slider.value.value
                   case Raw(_) => true
                   case Label(text) => exists v :: v in values.values && v.0 == text
                   case Nothing => false)
            && (chosen == None ==> slider == None)
  {
    AtRest(c, states, acts, i, k);
    var b := states[i].store.blocks["fx"][k];
    var labels := LabelsForName(c.policy, Label(name));
    SliderDescribed(c, b.fxId, name, if first then labels.first else labels.second,
                    if first then b.slider1 else b.slider2, option, entry, values);
  }

  // ---- the other types -------------------------------------------------------------------------

  /** A slider of an ordinary block is there exactly if one is chosen, with the range the
      tables give its parameter and no label for a value. */
  predicate PlainSlider(spec: Spec, fxType: string, fxId: string, option: Option<string>, slider: Option<Slider>) {
    if option == None then slider == None
    else
      && slider.Some? && slider.value.param == option.value && !slider.value.value.Label?
      && RangeAt(spec, fxType, fxId, Nothing, option.value) == Ok(Some((slider.value.min, slider.value.max)))
  }

  /** Both sliders of a block that is no fx block. An equaliser has one, for a level. */
  predicate PlainBlock(c: Config, fxType: string, b: Block) {
    if fxType == "eq" then
      && b.slider1.Some? && b.slider1.value.param in ["LEVEL", "LEVEL1"] && b.slider2 == None
      && PlainSlider(c.spec, fxType, b.fxId, Some(b.slider1.value.param), b.slider1)
    else
      && PlainSlider(c.spec, fxType, b.fxId, LabelsFor(c.policy, fxType, Nothing, Nothing).first, b.slider1)
      && PlainSlider(c.spec, fxType, b.fxId, LabelsFor(c.policy, fxType, Nothing, Nothing).second, b.slider2)
  }

  predicate PlainJob(c: Config, w: Worker) {
    InResolution(w) && w.job.Type() != "fx" ==>
      && w.labels == LabelsFor(c.policy, w.job.Type(), w.job.ParamName(), Nothing)
      && (|w.sliders| > 0 ==> PlainSlider(c.spec, w.job.Type(), w.job.Id(), w.labels.first, w.sliders[0]))
      && (|w.sliders| > 1 ==> PlainSlider(c.spec, w.job.Type(), w.job.Id(), w.labels.second, w.sliders[1]))
      && (w.Ranged? ==> RangeAt(c.spec, w.job.Type(), w.job.Id(), Nothing, w.option) == Ok(w.range))
  }

  predicate PlainDone(c: Config, w: Worker) {
    ScanOf(w).Some? && ScanOf(w).value.fxType != "fx" ==>
      forall k | 0 <= k < |ScanOf(w).value.done| :: PlainBlock(c, ScanOf(w).value.fxType, ScanOf(w).value.done[k])
  }

  predicate PlainStored(c: Config, s: Store) {
    forall t, k | t in s.blocks && t != "fx" && 0 <= k < |s.blocks[t]| :: PlainBlock(c, t, s.blocks[t][k])
  }

  predicate PlainOk(c: Config, s: State) {
    PlainJob(c, s.worker) && PlainDone(c, s.worker) && PlainStored(c, s.store)
  }

  lemma PlainJobKept(c: Config, s: State, a: Action)
    requires Inv(c, s) && PlainJob(c, s.worker) && Enabled(s, a)
    ensures PlainJob(c, Next(c, s, a).worker)
  {
  }

  lemma PlainDoneKept(c: Config, s: State, a: Action)
    requires PlainJob(c, s.worker) && PlainDone(c, s.worker) && Enabled(s, a)
    ensures PlainDone(c, Next(c, s, a).worker)
  {
  }

  lemma PlainSameBlocks(c: Config, s: Store, s': Store)
    requires PlainStored(c, s) && SameBlocks(s, s')
    ensures PlainStored(c, s')
  {
    forall t, k | t in s'.blocks && t != "fx" && 0 <= k < |s'.blocks[t]| ensures PlainBlock(c, t, s'.blocks[t][k]) {
      assert PlainBlock(c, t, s.blocks[t][k]) && SameBlock(s.blocks[t][k], s'.blocks[t][k]);
    }
  }

  lemma PlainStoredKept(c: Config, s: State, a: Action)
    requires Inv(c, s) && PlainOk(c, s) && Enabled(s, a)
    ensures PlainStored(c, Next(c, s, a).store)
  {
    match a {
      case Echo(d, now) =>
        EchoFramed(c, s, d, now);
        PlainSameBlocks(c, s.store, Next(c, s, a).store);
      case Toggle(fxType, fxId, value) =>
        ToggleFramed(c, s, fxType, fxId, value);
        PlainSameBlocks(c, s.store, Next(c, s, a).store);
      case Finish => PlainFinish(c, s);
      case _ =>
    }
  }

  lemma PlainFinish(c: Config, s: State)
    requires Inv(c, s) && PlainOk(c, s) && Enabled(s, Finish)
    ensures PlainStored(c, Next(c, s, Finish).store)
  {
    var s', job := Next(c, s, Finish).store, s.worker.job;
    if job.RereadJob? {
      forall t, k | t in s'.blocks && t != "fx" && 0 <= k < |s'.blocks[t]| ensures PlainBlock(c, t, s'.blocks[t][k]) {
        assert PlainBlock(c, t, s.store.blocks[t][k]);
      }
    }
  }

  lemma {:induction false} PlainHolds(c: Config, states: seq<State>, acts: seq<Action>, i: nat)
    requires Run(c, states, acts) && i <= |acts|
    ensures PlainOk(c, states[i])
  {
    if i > 0 {
      PlainHolds(c, states, acts, i - 1);
      InvHolds(c, states, acts, i - 1);
      assert StepAt(c, states, acts, i - 1);
      PlainJobKept(c, states[i - 1], acts[i - 1]);
      PlainDoneKept(c, states[i - 1], acts[i - 1]);
      PlainStoredKept(c, states[i - 1], acts[i - 1]);
    }
  }

  /** In every reachable state a stored block of any type but fx and eq has the two sliders the
      policy gives its type, and no other: each with its parameter, the parameter's range in
      the block's table, and a number or no value. */
  lemma OrdinarySliders(c: Config, states: seq<State>, acts: seq<Action>, i: nat, t: string, k: nat, first: bool,
                        option: string, entry: Setting)
    requires Run(c, states, acts) && i <= |acts| && t != "fx" && t != "eq"
    requires var s := states[i].store;
             t in s.blocks && k < |s.blocks[t]| && OffersPlain(c.spec, t, s.blocks[t][k].fxId, option, entry)
    ensures var b := states[i].store.blocks[t][k];
            var slider := if first then b.slider1 else b.slider2;
            var labels := if t in c.policy.byType then c.policy.byType[t] else Labels(None, None);
            var chosen := if first then labels.first else labels.second;
            && (chosen == Some(option) ==>
                && slider.Some? && !slider.value.value.Label?
                && slider.value == Slider(slider.value.value, option, entry.range.0, entry.range.1))
            && (chosen == None ==> slider == None)
  {
    PlainHolds(c, states, acts, i);
    var b := states[i].store.blocks[t][k];
    assert PlainBlock(c, t, b);
    PlainSliderRead(c.spec, t, b.fxId, Nothing, option, entry, None);
  }

  /** And a stored equaliser has one slider, for one of its two levels, with the range of that
      level in its table. */
  lemma EqualiserSlider(c: Config, states: seq<State>, acts: seq<Action>, i: nat, k: nat, option: string, entry: Setting)
    requires Run(c, states, acts) && i <= |acts|
    requires var s := states[i].store;
             "eq" in s.blocks && k < |s.blocks["eq"]| && OffersPlain(c.spec, "eq", s.blocks["eq"][k].fxId, option, entry)
    ensures var b := states[i].store.blocks["eq"][k];
            && b.slider2 == None && b.slider1.Some? && b.slider1.value.param in ["LEVEL", "LEVEL1"]
            && (b.slider1.value.param == option ==>
                && !b.slider1.value.value.Label?
                && b.slider1.value == Slider(b.slider1.value.value, option, entry.range.0, entry.range.1))
  {
    PlainHolds(c, states, acts, i);
    var b := states[i].store.blocks["eq"][k];
    assert PlainBlock(c, "eq", b);
    PlainSliderRead(c.spec, "eq", b.fxId, Nothing, option, entry, None);
  }
}
