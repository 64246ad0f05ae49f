/** When the worker dies of a lookup that fails: exactly at which reads, and that with tables
    that hold what was chosen only an echo in between can bring it about. */
module RefreshCrashes {
  import opened Wrappers
  import opened PatchStore
  import opened BlockSnapshot
  import opened AddressMap
  import opened AddressCodec
  import opened SliderReads
  import opened RefreshLoop
  import opened RefreshHistory

  // ---- which reads fail ------------------------------------------------------------------------

  /** The owner's entry an fx job would be read by now. */
  function EntryNow(s: State, job: Job): Reading
    requires job.Type() == "fx" ==> job.Id() in s.store.fxNames
  {
    if job.Type() == "fx" then s.store.fxNames[job.Id()] else Nothing
  }

  /** Looking up the range fails: the owner names no effect with a table, or the table the
      effect has now lacks the parameter chosen, or the map names a table that is not loaded. */
  predicate RangeMissing(spec: Spec, fxType: string, fxId: string, entry: Reading, option: string) {
    || (fxType == "fx" && SuffixOf(spec, entry) == None)
    || (match BlockAt(spec, fxType, fxId, entry)
        case NoTable => true
        case NoBlock => false
        case InBlock(_, _, settings) => Lookup(settings, option) == None)
  }

  /** The address of the parameter, as the map has it now. */
  function AddressNow(spec: Spec, fxType: string, fxId: string, entry: Reading, option: string): Built {
    var suffix := SuffixFor(spec, fxType, entry);
    AddressFor(spec.tables, SectionOf(spec, fxType, fxId, suffix), KeyOf(fxType, fxId, suffix), option, None)
  }

  /** Reading the value fails. For an fx block: the owner names something without a table; or
      the unit answers and the table named after the effect lacks the parameter; or it gives
      a value where the range was looked up for a block the map does not have. For any other
      block: the map has no address or had no range. */
  predicate ValueMissing(spec: Spec, fxType: string, fxId: string, entry: Reading, option: string,
                         range: Option<Range>, raw: Option<int>)
  {
    var address := AddressNow(spec, fxType, fxId, entry, option);
    || address.Raised?
    || (fxType != "fx" && (address.Unknown? || range == None))
    || (fxType == "fx" && entry != Nothing && SuffixOf(spec, entry) == None)
    || (fxType == "fx" && address.Built? && raw.Some?
        && (range == None || ValueEntry(spec, SuffixOf(spec, entry), option) == None))
  }

  /** In every reachable state the worker's next step kills it exactly when it is the read of
      a range or of a value that the tables do not have under the owner's entry of that
      moment: neither choosing sliders nor storing them ever meets a missing key. */
  lemma CrashesExactly(c: Config, states: seq<State>, acts: seq<Action>, i: nat, a: Action)
    requires Run(c, states, acts) && i <= |acts| && Enabled(states[i], a) && !states[i].worker.Crashed?
    ensures var s, w := states[i], states[i].worker;
            HasJob(w) && w.job.Type() == "fx" ==> w.job.Id() in s.store.fxNames
    ensures var s, w := states[i], states[i].worker;
            Next(c, s, a).worker.Crashed? <==>
            || (a.ReadRange? && NextOption(w.labels, w.sliders).Some?
                && RangeMissing(c.spec, w.job.Type(), w.job.Id(), EntryNow(s, w.job), NextOption(w.labels, w.sliders).value))
            || (a.ReadValue? && ValueMissing(c.spec, w.job.Type(), w.job.Id(), EntryNow(s, w.job), w.option, w.range, a.raw))
  {
    InvHolds(c, states, acts, i);
    if a.Finish? && states[i].worker.job.RereadJob? {
      FinishRereadKeeps(c, states[i]);
    }
  }

  // ---- with fitting tables only an echo in between does it ---------------------------------------

  /** Both sliders chosen for a block under this entry of the owner can be resolved under it,
      whatever the unit answers. */
  ghost predicate Resolvable(c: Config, fxType: string, fxId: string, paramName: Reading, owner: Reading) {
    var labels := LabelsFor(c.policy, fxType, paramName, owner);
    forall raw: Option<int> ::
      && ResolveSlider(c.spec, fxType, fxId, owner, labels.first, raw).Ok?
      && ResolveSlider(c.spec, fxType, fxId, owner, labels.second, raw).Ok?
  }

  /** Where the sliders being resolved were chosen, and that the owner's entry is still the
      one of then unless a TYPE echo has landed on the block. */
  ghost predicate Tracked(c: Config, states: seq<State>, acts: seq<Action>, i: nat)
    requires i <= |acts| < |states|
  {
    var w := states[i].worker;
    InResolution(w) ==>
      var j := ChosenAt(acts, i);
      && j >= 0 && states[j].worker == Choosing(w.job) && Owner(states[j].store, w.job).Ok?
      && w.labels == LabelsFor(c.policy, w.job.Type(), w.job.ParamName(), Owner(states[j].store, w.job).value)
      && (!(w.job.Type() == "fx" && LastEchoed(c, states, acts, "fx", w.job.Id(), j + 1, i).Some?) ==>
          && Owner(states[i].store, w.job) == Owner(states[j].store, w.job)
          && (w.Ranged? ==> RangeAt(c.spec, w.job.Type(), w.job.Id(), Owner(states[j].store, w.job).value, w.option) == Ok(w.range)))
  }

  lemma TrackedKept(c: Config, states: seq<State>, acts: seq<Action>, i: nat)
    requires i < |acts| < |states| && StepAt(c, states, acts, i) && Inv(c, states[i])
    requires Tracked(c, states, acts, i)
    ensures Tracked(c, states, acts, i + 1)
  {
    if InResolution(states[i + 1].worker) {
      OwnerStep(c, states[i], acts[i], states[i + 1].worker.job.Id());
    }
  }

  lemma {:induction false} TrackedHolds(c: Config, states: seq<State>, acts: seq<Action>, i: nat)
    requires Run(c, states, acts) && i <= |acts|
    ensures Tracked(c, states, acts, i)
  {
    if i > 0 {
      TrackedHolds(c, states, acts, i - 1);
      assert StepAt(c, states, acts, i - 1);
      InvHolds(c, states, acts, i - 1);
      TrackedKept(c, states, acts, i - 1);
    }
  }

  /** A crash is the doing of an echo: where the sliders a job was given can be resolved under
      the entry they were chosen by, the worker dies over it only if it is an fx block's and
      a TYPE echo has landed on that very block since the choice. */
  lemma CrashNeedsEcho(c: Config, states: seq<State>, acts: seq<Action>, i: nat)
    requires Run(c, states, acts) && i < |acts|
    requires !states[i].worker.Crashed? && states[i + 1].worker.Crashed?
    ensures var job, j := states[i + 1].worker.job, ChosenAt(acts, i);
            && j >= 0 && states[j].worker == Choosing(job) && Owner(states[j].store, job).Ok?
            && (Resolvable(c, job.Type(), job.Id(), job.ParamName(), Owner(states[j].store, job).value) ==>
                job.Type() == "fx" && LastEchoed(c, states, acts, "fx", job.Id(), j + 1, i).Some?)
  {
    assert StepAt(c, states, acts, i);
    CrashesExactly(c, states, acts, i, acts[i]);
    InvHolds(c, states, acts, i);
    TrackedHolds(c, states, acts, i);
    var w, j := states[i].worker, ChosenAt(acts, i);
    if Resolvable(c, w.job.Type(), w.job.Id(), w.job.ParamName(), Owner(states[j].store, w.job).value) {
      var raw := if acts[i].ReadValue? then acts[i].raw else None;
      assert ResolveSlider(c.spec, w.job.Type(), w.job.Id(), Owner(states[j].store, w.job).value, w.labels.first, raw).Ok?;
      assert ResolveSlider(c.spec, w.job.Type(), w.job.Id(), Owner(states[j].store, w.job).value, w.labels.second, raw).Ok?;
    }
  }
}
