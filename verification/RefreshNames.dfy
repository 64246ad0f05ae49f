/** What a block is left with after any run: its name against the owner's, and the level
    control of an equaliser against its name, each by the steps that wrote them last. */
module RefreshNames {
  import opened Wrappers
  import opened BlockIds
  import opened PatchStore
  import opened BlockSnapshot
  import opened SliderReads
  import opened RefreshLoop
  import opened RefreshHistory
  import PatchRuns

  // ---- where names come from -------------------------------------------------------------------

  /** The owner's entry is the last name read or echoed for the block. */
  lemma {:induction false} OwnerEntry(c: Config, states: seq<State>, acts: seq<Action>, x: string, i: nat)
    requires Run(c, states, acts) && i <= |acts| && x in states[i].store.fxNames
    ensures var r := ReadAt(states, acts, "fx", x, i);
            r >= 0 && states[i].store.fxNames[x]
                      == Last(LastEchoed(c, states, acts, "fx", x, r + 1, i), NameRead(states, acts, r))
  {
    if i > 0 {
      assert StepAt(c, states, acts, i - 1);
      InvHolds(c, states, acts, i - 1);
      OwnerStep(c, states[i - 1], acts[i - 1], x);
      if !Reads(states[i - 1], acts[i - 1], "fx", x) {
        OwnerEntry(c, states, acts, x, i - 1);
      }
    }
  }

  /** Nothing of a type is read but in a scan of it. */
  lemma {:induction false} ReadsAreScans(c: Config, states: seq<State>, acts: seq<Action>, t: string, x: string, i: nat)
    requires Run(c, states, acts) && i <= |acts| && !Scanning(states[i].worker, t)
    ensures ReadAt(states, acts, t, x, i) <= RecordAt(states, acts, t, i)
  {
    if i > 0 {
      assert StepAt(c, states, acts, i - 1);
      if !Scanning(states[i - 1].worker, t) {
        ReadsAreScans(c, states, acts, t, x, i - 1);
      }
    }
  }

  /** A job of a scan begins with the read that names its block, and is the same until it is
      done. */
  lemma JobStep(c: Config, s: State, a: Action)
    requires Enabled(s, a)
    requires var w' := Next(c, s, a).worker; HasJob(w') && w'.job.ScanJob?
    ensures var job := Next(c, s, a).worker.job;
            && !a.RecordType?
            && if a.ReadBlock? then
                 Reads(s, a, job.scan.fxType, NextId(job.scan))
                 && job.name == NameGiven(job.scan.fxType, NextId(job.scan), a.name) && job.state == a.state
               else HasJob(s.worker) && s.worker.job == job
  {
  }

  /** The name and the state in hand are those the block's last read gave. */
  lemma {:induction false} JobName(c: Config, states: seq<State>, acts: seq<Action>, i: nat)
    requires Run(c, states, acts) && i <= |acts|
    requires HasJob(states[i].worker) && states[i].worker.job.ScanJob?
    ensures var scan := states[i].worker.job.scan;
            var r := ReadAt(states, acts, scan.fxType, NextId(scan), i);
            && r >= 0 && NameRead(states, acts, r) == states[i].worker.job.name
            && acts[r].state == states[i].worker.job.state
            && RecordAt(states, acts, scan.fxType, i) < r
  {
    if i > 0 {
      assert StepAt(c, states, acts, i - 1);
      JobStep(c, states[i - 1], acts[i - 1]);
      if !acts[i - 1].ReadBlock? {
        JobName(c, states, acts, i - 1);
      }
    }
  }

  /** A block of a scan under way was there before the step, which did not read it again, or
      the step has just finished it. */
  lemma DoneStep(c: Config, s: State, a: Action, k: nat)
    requires Inv(c, s) && Enabled(s, a)
    requires var scan' := ScanOf(Next(c, s, a).worker); scan'.Some? && k < |scan'.value.done|
    ensures ScanOf(s.worker).Some?
    ensures var scan, scan' := ScanOf(s.worker).value, ScanOf(Next(c, s, a).worker).value;
            && scan'.fxType == scan.fxType
            && !Records(s, a, scan.fxType) && !Reads(s, a, scan.fxType, scan'.done[k].fxId)
            && (if k < |scan.done| then scan'.done[k] == scan.done[k]
                else HasJob(s.worker) && s.worker.job.ScanJob?
                     && scan'.done[k].fxId == NextId(scan) && scan'.done[k].name == s.worker.job.name
                     && scan'.done[k].state == s.worker.job.state)
  {
    var scan := ScanOf(s.worker).value;
    if a.ReadBlock? {
      ScanIdsDistinct(scan.fxType, scan.count, k, |scan.done|);
    }
  }

  /** So are those of every block the scan under way has done. */
  lemma {:induction false} DoneName(c: Config, states: seq<State>, acts: seq<Action>, i: nat, k: nat)
    requires Run(c, states, acts) && i <= |acts|
    requires ScanOf(states[i].worker).Some? && k < |ScanOf(states[i].worker).value.done|
    ensures var scan := ScanOf(states[i].worker).value;
            var r := ReadAt(states, acts, scan.fxType, scan.done[k].fxId, i);
            && r >= 0 && NameRead(states, acts, r) == scan.done[k].name && acts[r].state == scan.done[k].state
            && RecordAt(states, acts, scan.fxType, i) < r
  {
    if i > 0 {
      assert StepAt(c, states, acts, i - 1);
      InvHolds(c, states, acts, i - 1);
      DoneStep(c, states[i - 1], acts[i - 1], k);
      if k < |ScanOf(states[i - 1].worker).value.done| {
        DoneName(c, states, acts, i - 1, k);
      } else {
        JobName(c, states, acts, i - 1);
      }
    }
  }

  /** What a step other than recording its type makes of a stored block's id and name. */
  lemma StoredStep(c: Config, s: State, a: Action, t: string, k: nat)
    requires Inv(c, s) && Enabled(s, a) && !Records(s, a, t)
    requires var s' := Next(c, s, a); t in s'.store.blocks && k < |s'.store.blocks[t]|
    ensures t in s.store.blocks && k < |s.store.blocks[t]|
    ensures var b, b' := s.store.blocks[t][k], Next(c, s, a).store.blocks[t][k];
            b'.fxId == b.fxId && b'.name == if Matches(c, s, a, t, b.fxId) then a.d.strValue else b.name
  {
    if a.Echo? {
      EchoStored(c, s, a.d, a.now, t, k);
    }
  }

  lemma EchoStored(c: Config, s: State, d: Decoded, now: int, t: string, k: nat)
    requires Inv(c, s) && Enabled(s, Echo(d, now))
    requires t in s.store.blocks && k < |s.store.blocks[t]|
    ensures var s' := Next(c, s, Echo(d, now));
            && t in s'.store.blocks && |s'.store.blocks[t]| == |s.store.blocks[t]|
            && var b, b' := s.store.blocks[t][k], s'.store.blocks[t][k];
               && SameBlock(b, b')
               && b'.name == if Matches(c, s, Echo(d, now), t, b.fxId) then d.strValue else b.name
  {
    var applied := Apply(c.fxTypes, s.store, d, now);
    if applied.Ok? {
      ApplyKeepsBlocks(c.fxTypes, s.store, d, now);
      ApplyRenames(c.fxTypes, s.store, d, now, t, k);
      OnlyOne(s.store.blocks[t], k);
    }
  }

  lemma OnlyOne(bs: seq<Block>, k: nat)
    requires PatchRuns.DistinctIds(bs) && k < |bs|
    ensures FirstWith(bs, bs[k].fxId) == k
  {
  }

  lemma {:induction false} RecordStep(c: Config, s: State, a: Action, t: string)
    requires Enabled(s, a) && Records(s, a, t)
    ensures ScanOf(s.worker) == Some(s.worker.scan)
    ensures t in Next(c, s, a).store.blocks && Next(c, s, a).store.blocks[t] == s.worker.scan.done
  {
  }

  /** A stored block's name is the last echoed since its type was recorded, or else the one
      the recorded scan read. */
  lemma {:induction false} StoredName(c: Config, states: seq<State>, acts: seq<Action>, t: string, k: nat, i: nat)
    requires Run(c, states, acts) && i <= |acts|
    requires t in states[i].store.blocks && k < |states[i].store.blocks[t]|
    ensures var b, rec := states[i].store.blocks[t][k], RecordAt(states, acts, t, i);
            rec >= 0 &&
            var r := ReadAt(states, acts, t, b.fxId, rec);
            && RecordAt(states, acts, t, rec) < r
            && b.name == Last(LastEchoed(c, states, acts, t, b.fxId, rec + 1, i), NameRead(states, acts, r))
  {
    if i > 0 {
      assert StepAt(c, states, acts, i - 1);
      InvHolds(c, states, acts, i - 1);
      if Records(states[i - 1], acts[i - 1], t) {
        RecordStep(c, states[i - 1], acts[i - 1], t);
        DoneName(c, states, acts, i - 1, k);
      } else {
        StoredStep(c, states[i - 1], acts[i - 1], t, k);
        StoredName(c, states, acts, t, k, i - 1);
      }
    }
  }

  // ---- where switches come from ----------------------------------------------------------------

  /** A switch echoed for this stored block, or written to it; a single block of a type takes
      what is written whatever the id. */
  predicate Switches(c: Config, s: State, a: Action, t: string, x: string) {
    || (a.Echo? && a.d.fxType == Some(t) && a.d.fxId == x && a.d.valueName == "SW" && Ready(c.fxTypes, s.store))
    || (a.Toggle? && a.fxType == t && t in s.store.blocks && (|s.store.blocks[t]| == 1 || a.fxId == x))
  }

  /** The last state switched to in steps lo..hi-1. */
  function LastSwitched(c: Config, states: seq<State>, acts: seq<Action>, t: string, x: string, lo: int, hi: nat): Option<Reading>
    requires hi <= |acts| <= |states|
  {
    if hi == 0 || hi <= lo then None
    else if Switches(c, states[hi - 1], acts[hi - 1], t, x) then
      Some(if acts[hi - 1].Echo? then acts[hi - 1].d.strValue else acts[hi - 1].value)
    else LastSwitched(c, states, acts, t, x, lo, hi - 1)
  }

  lemma EchoSwitches(c: Config, s: State, d: Decoded, now: int, t: string, k: nat)
    requires Inv(c, s) && t in s.store.blocks && k < |s.store.blocks[t]|
    requires Enabled(s, Echo(d, now))
    ensures var s', b := Next(c, s, Echo(d, now)), s.store.blocks[t][k];
            && t in s'.store.blocks && |s'.store.blocks[t]| == |s.store.blocks[t]|
            && s'.store.blocks[t][k].state == if Switches(c, s, Echo(d, now), t, b.fxId) then d.strValue else b.state
  {
    if Ready(c.fxTypes, s.store) && d.fxType.Some? && d.fxType.value in s.store.blocks {
      var u := d.fxType.value;
      var i := FirstWith(s.store.blocks[u], d.fxId);
      OnlyOne(s.store.blocks[t], k);
      if i < |s.store.blocks[u]| {
        ValueArrives(c.fxTypes, s.store, d, now, u, i);
      }
    }
  }

  lemma ToggleSwitches(c: Config, s: State, fxType: string, fxId: string, value: Reading, t: string, k: nat)
    requires t in s.store.blocks && k < |s.store.blocks[t]|
    ensures var a := Toggle(fxType, fxId, value);
            var s', b := Next(c, s, a), s.store.blocks[t][k];
            && t in s'.store.blocks && |s'.store.blocks[t]| == |s.store.blocks[t]|
            && s'.store.blocks[t][k].state == if Switches(c, s, a, t, b.fxId) then value else b.state
  {
    ChangeStored(s.store, fxType, fxId, value);
  }

  /** Steps of the worker leave the state of a stored block alone, but for a recording. */
  lemma WorkerKeepsState(c: Config, s: State, a: Action, t: string, k: nat)
    requires Enabled(s, a) && !Records(s, a, t) && !a.Echo? && !a.Toggle?
    requires t in s.store.blocks && k < |s.store.blocks[t]|
    requires var s' := Next(c, s, a); t in s'.store.blocks && k < |s'.store.blocks[t]|
    ensures Next(c, s, a).store.blocks[t][k].state == s.store.blocks[t][k].state
  {
  }

  lemma StateStep(c: Config, s: State, a: Action, t: string, k: nat)
    requires Inv(c, s) && Enabled(s, a) && !Records(s, a, t)
    requires t in s.store.blocks && k < |s.store.blocks[t]|
    requires var s' := Next(c, s, a); t in s'.store.blocks && k < |s'.store.blocks[t]|
    ensures Next(c, s, a).store.blocks[t][k].state ==
            if Switches(c, s, a, t, s.store.blocks[t][k].fxId) then (if a.Echo? then a.d.strValue else a.value)
            else s.store.blocks[t][k].state
  {
    if a.Echo? {
      EchoSwitches(c, s, a.d, a.now, t, k);
    } else if a.Toggle? {
      ToggleSwitches(c, s, a.fxType, a.fxId, a.value, t, k);
    } else {
      WorkerKeepsState(c, s, a, t, k);
    }
  }

  /** A stored block's state is the last echoed for it or written to it since its type was
      recorded, or else the one the recorded scan read. */
  lemma {:induction false} StoredSwitch(c: Config, states: seq<State>, acts: seq<Action>, t: string, k: nat, i: nat)
    requires Run(c, states, acts) && i <= |acts|
    requires t in states[i].store.blocks && k < |states[i].store.blocks[t]|
    ensures var b, rec := states[i].store.blocks[t][k], RecordAt(states, acts, t, i);
            rec >= 0 &&
            var r := ReadAt(states, acts, t, b.fxId, rec);
            && RecordAt(states, acts, t, rec) < r
            && b.state == Last(LastSwitched(c, states, acts, t, b.fxId, rec + 1, i), acts[r].state)
  {
    if i > 0 {
      assert StepAt(c, states, acts, i - 1);
      InvHolds(c, states, acts, i - 1);
      if Records(states[i - 1], acts[i - 1], t) {
        RecordStep(c, states[i - 1], acts[i - 1], t);
        DoneName(c, states, acts, i - 1, k);
      } else {
        StoredStep(c, states[i - 1], acts[i - 1], t, k);
        StateStep(c, states[i - 1], acts[i - 1], t, k);
        StoredSwitch(c, states, acts, t, k, i - 1);
      }
    }
  }

  // ---- when a type last changed ----------------------------------------------------------------

  /** The time a step gives this type: a recording's, or that of a value which lands on one of
      its blocks. */
  function StampOf(c: Config, s: State, a: Action, t: string): Option<int> {
    if Records(s, a, t) then Some(a.ts)
    else if a.Echo? && a.d.fxType == Some(t) && Apply(c.fxTypes, s.store, a.d, a.now).Ok?
            && Apply(c.fxTypes, s.store, a.d, a.now).value.1.matched then Some(a.now)
    else None
  }

  function LastStamp(c: Config, states: seq<State>, acts: seq<Action>, t: string, i: nat): Option<int>
    requires i <= |acts| <= |states|
  {
    if i == 0 then None
    else
      var stamp := StampOf(c, states[i - 1], acts[i - 1], t);
      if stamp.Some? then stamp else LastStamp(c, states, acts, t, i - 1)
  }

  lemma StampStep(c: Config, s: State, a: Action, t: string)
    requires Inv(c, s) && Enabled(s, a)
    ensures var was, now := s.store.lastSync, Next(c, s, a).store.lastSync;
            match StampOf(c, s, a, t)
            case Some(ts) => t in now && now[t] == ts
            case None => (t in now <==> t in was) && (t in was ==> now[t] == was[t])
  {
    StepsAreOperations(c, s, a);
    if a.Echo? && Apply(c.fxTypes, s.store, a.d, a.now).Ok? {
      PatchRuns.ApplyIsLocal(c.fxTypes, s.store, a.d, a.now);
    }
  }

  /** The time stamp of a type is that of its last recording or of the last value that landed
      on a block of it since. */
  lemma {:induction false} StampIsLast(c: Config, states: seq<State>, acts: seq<Action>, t: string, i: nat)
    requires Run(c, states, acts) && i <= |acts|
    ensures var stamps := states[i].store.lastSync;
            LastStamp(c, states, acts, t, i) == if t in stamps then Some(stamps[t]) else None
  {
    if i > 0 {
      StampIsLast(c, states, acts, t, i - 1);
      InvHolds(c, states, acts, i - 1);
      assert StepAt(c, states, acts, i - 1);
      StampStep(c, states[i - 1], acts[i - 1], t);
    }
  }

  // ---- the name and the owner's ----------------------------------------------------------------

  lemma StoredIsOwned(c: Config, states: seq<State>, acts: seq<Action>, i: nat, k: nat)
    requires Run(c, states, acts) && i <= |acts|
    requires "fx" in states[i].store.blocks && k < |states[i].store.blocks["fx"]|
    ensures states[i].store.blocks["fx"][k].fxId in states[i].store.fxNames
  {
    InvHolds(c, states, acts, i);
    assert StoredBlockOk(c, states[i], states[i].store.blocks["fx"][k]);
  }

  /** When a block's name and the owner's agree. Outside fx scans, with the fx blocks last
      recorded in step rec and this one read in step r of that scan, they agree exactly if a
      TYPE echo has landed on the block since rec, or none did between r and rec, or the last
      that did carried the very name read in r. */
  lemma NameIsOwnersIff(c: Config, states: seq<State>, acts: seq<Action>, i: nat, k: nat)
    requires Run(c, states, acts) && i <= |acts| && !Scanning(states[i].worker, "fx")
    requires "fx" in states[i].store.blocks && k < |states[i].store.blocks["fx"]|
    ensures var s, rec := states[i], RecordAt(states, acts, "fx", i);
            var b := s.store.blocks["fx"][k];
            rec >= 0 && b.fxId in s.store.fxNames &&
            var r := ReadAt(states, acts, "fx", b.fxId, rec);
            RecordAt(states, acts, "fx", rec) < r &&
            (b.name == s.store.fxNames[b.fxId] <==>
             || LastEchoed(c, states, acts, "fx", b.fxId, rec + 1, i).Some?
             || LastEchoed(c, states, acts, "fx", b.fxId, r + 1, rec) in {None, Some(NameRead(states, acts, r))})
  {
    StoredIsOwned(c, states, acts, i, k);
    StoredName(c, states, acts, "fx", k, i);
    OwnerSinceRecord(c, states, acts, states[i].store.blocks["fx"][k].fxId, i);
  }

  /** Outside fx scans the owner's entry by what came before and after the last recording. */
  lemma OwnerSinceRecord(c: Config, states: seq<State>, acts: seq<Action>, x: string, i: nat)
    requires Run(c, states, acts) && i <= |acts| && !Scanning(states[i].worker, "fx")
    requires x in states[i].store.fxNames
    ensures var rec := RecordAt(states, acts, "fx", i);
            rec >= 0 &&
            var r := ReadAt(states, acts, "fx", x, rec);
            r >= 0 && states[i].store.fxNames[x] ==
                      Last(LastEchoed(c, states, acts, "fx", x, rec + 1, i),
                           Last(LastEchoed(c, states, acts, "fx", x, r + 1, rec), NameRead(states, acts, r)))
  {
    OwnerEntry(c, states, acts, x, i);
    ReadsAreScans(c, states, acts, "fx", x, i);
    var rec := RecordAt(states, acts, "fx", i);
    SameRead(states, acts, "fx", x, rec, i);
    var r := ReadAt(states, acts, "fx", x, rec);
    LastEchoedSplit(c, states, acts, "fx", x, r + 1, rec + 1, i);
    assert !Matches(c, states[rec], acts[rec], "fx", x);
  }

  lemma {:induction false} SameRead(states: seq<State>, acts: seq<Action>, t: string, x: string, mid: nat, i: nat)
    requires mid < i <= |acts| <= |states| && ReadAt(states, acts, t, x, i) <= mid && Records(states[mid], acts[mid], t)
    ensures ReadAt(states, acts, t, x, i) == ReadAt(states, acts, t, x, mid)
    decreases i
  {
    if mid + 1 < i {
      SameRead(states, acts, t, x, mid, i - 1);
    }
  }

  // ---- equalisers ------------------------------------------------------------------------------

  const PARAMETRIC := Label("PARAMETRIC")

  /** The slider is there and controls this parameter. */
  predicate ControlsLevel(slider: Option<Slider>, level: string) {
    slider.Some? && slider.value.param == level
  }

  /** The first slider of an equaliser being read is the one for the name read; */
  predicate EqReading(w: Worker) {
    InResolution(w) && w.job.Type() == "eq" ==>
      var level := EqLevel(w.job.ParamName());
      && w.labels == Labels(Some(level), None)
      && (|w.sliders| > 0 ==> ControlsLevel(w.sliders[0], level))
      && (w.Ranged? && w.sliders == [] ==> w.option == level)
  }

  /** and so is that of those a scan has done. */
  predicate EqDone(w: Worker) {
    Scanning(w, "eq") ==>
      var done := ScanOf(w).value.done;
      forall k | 0 <= k < |done| :: ControlsLevel(done[k].slider1, EqLevel(done[k].name))
  }

  predicate EqWorkerOk(w: Worker) {
    EqReading(w) && EqDone(w)
  }

  /** That of a stored one which is not PARAMETRIC is the plain one, unless a re-read is still
      to come. */
  predicate EqOk(s: State) {
    && EqWorkerOk(s.worker)
    && ("eq" in s.store.blocks ==>
          forall k | 0 <= k < |s.store.blocks["eq"]| :: EqStoredOk(s, s.store.blocks["eq"][k]))
  }

  predicate EqStoredOk(s: State, b: Block) {
    && b.slider1.Some?
    && (b.name == PARAMETRIC || Owed(s, "eq", b.fxId) || InHand(s, "eq", b.fxId) || b.slider1.value.param == "LEVEL")
  }

  lemma EqKept(c: Config, s: State, a: Action)
    requires Inv(c, s) && EqOk(s) && Enabled(s, a)
    ensures EqOk(Next(c, s, a))
  {
    var s' := Next(c, s, a);
    EqWorkerKept(c, s, a);
    if "eq" in s'.store.blocks {
      forall k | 0 <= k < |s'.store.blocks["eq"]| ensures EqStoredOk(s', s'.store.blocks["eq"][k]) {
        if !Records(s, a, "eq") {
          EqStoredKept(c, s, a, k);
        }
      }
    }
  }

  lemma EqWorkerKept(c: Config, s: State, a: Action)
    requires Inv(c, s) && EqWorkerOk(s.worker) && Enabled(s, a)
    ensures EqWorkerOk(Next(c, s, a).worker)
  {
    EqReadingKept(c, s, a);
    EqDoneKept(c, s, a);
  }

  lemma EqReadingKept(c: Config, s: State, a: Action)
    requires Inv(c, s) && EqReading(s.worker) && Enabled(s, a)
    ensures EqReading(Next(c, s, a).worker)
  {
  }

  lemma EqDoneKept(c: Config, s: State, a: Action)
    requires EqWorkerOk(s.worker) && Enabled(s, a)
    ensures EqDone(Next(c, s, a).worker)
  {
  }

  lemma EqStoredKept(c: Config, s: State, a: Action, k: nat)
    requires Inv(c, s) && EqOk(s) && Enabled(s, a) && !Records(s, a, "eq")
    requires var s' := Next(c, s, a); "eq" in s'.store.blocks && k < |s'.store.blocks["eq"]|
    ensures EqStoredOk(Next(c, s, a), Next(c, s, a).store.blocks["eq"][k])
  {
    StoredStep(c, s, a, "eq", k);
    EqLevelStep(c, s, a, k);
    var b := s.store.blocks["eq"][k];
    assert EqStoredOk(s, b);
    EqPending(c, s, a, b.fxId);
  }

  /** A re-read of an equaliser that was owed or in hand still is, or is stored by this step;
      and one echoed is owed. */
  lemma EqPending(c: Config, s: State, a: Action, x: string)
    requires Enabled(s, a) && TaskId(x) == Some(x)
    ensures var s' := Next(c, s, a);
            && (Owed(s, "eq", x) || InHand(s, "eq", x) ==>
                Owed(s', "eq", x) || InHand(s', "eq", x) || Writes(s, a, "eq", x))
            && (Matches(c, s, a, "eq", x) ==> Owed(s', "eq", x))
  {
    if a.TakeTask? {
      assert s.queue == [s.queue[0]] + s.queue[1..];
    }
  }

  lemma {:induction false} EqHolds(c: Config, states: seq<State>, acts: seq<Action>, i: nat)
    requires Run(c, states, acts) && i <= |acts|
    ensures EqOk(states[i])
  {
    if i > 0 {
      EqHolds(c, states, acts, i - 1);
      InvHolds(c, states, acts, i - 1);
      assert StepAt(c, states, acts, i - 1);
      EqKept(c, states[i - 1], acts[i - 1]);
    }
  }

  /** The step stores this block's sliders anew: with its whole type, or after a re-read. */
  predicate Writes(s: State, a: Action, t: string, x: string) {
    Records(s, a, t) || (a.Finish? && s.worker.Resolving? && s.worker.job == RereadJob(t, x))
  }

  /** The last step before i that stores this block's sliders, or -1. */
  function WrittenAt(states: seq<State>, acts: seq<Action>, t: string, x: string, i: nat): (r: int)
    requires i <= |acts| <= |states|
    ensures -1 <= r < i
    ensures r >= 0 ==> Writes(states[r], acts[r], t, x)
    ensures forall j | r < j < i :: !Writes(states[j], acts[j], t, x)
  {
    if i == 0 then -1
    else if Writes(states[i - 1], acts[i - 1], t, x) then i - 1
    else WrittenAt(states, acts, t, x, i - 1)
  }

  /** The level an equaliser's first slider controls is the one chosen by what stored it last:
      a scan goes by the name it read, a re-read knows none. */
  lemma {:induction false} EqLevelStored(c: Config, states: seq<State>, acts: seq<Action>, k: nat, i: nat)
    requires Run(c, states, acts) && i <= |acts|
    requires "eq" in states[i].store.blocks && k < |states[i].store.blocks["eq"]|
    ensures var b := states[i].store.blocks["eq"][k];
            var w := WrittenAt(states, acts, "eq", b.fxId, i);
            w >= 0 && b.slider1.Some? && b.slider1.value.param ==
              if !Records(states[w], acts[w], "eq") then "LEVEL"
              else
                var r := ReadAt(states, acts, "eq", b.fxId, w);
                if r >= 0 then EqLevel(NameRead(states, acts, r)) else ""
  {
    if i > 0 {
      assert StepAt(c, states, acts, i - 1);
      InvHolds(c, states, acts, i - 1);
      EqHolds(c, states, acts, i - 1);
      if Records(states[i - 1], acts[i - 1], "eq") {
        DoneName(c, states, acts, i - 1, k);
      } else {
        EqLevelStep(c, states[i - 1], acts[i - 1], k);
        EqLevelStored(c, states, acts, k, i - 1);
      }
    }
  }

  lemma EqLevelStep(c: Config, s: State, a: Action, k: nat)
    requires Inv(c, s) && EqOk(s) && Enabled(s, a) && !Records(s, a, "eq")
    requires var s' := Next(c, s, a); "eq" in s'.store.blocks && k < |s'.store.blocks["eq"]|
    ensures "eq" in s.store.blocks && k < |s.store.blocks["eq"]|
    ensures var b, b' := s.store.blocks["eq"][k], Next(c, s, a).store.blocks["eq"][k];
            && b'.fxId == b.fxId && b.slider1.Some? && b'.slider1.Some?
            && b'.slider1.value.param == if Writes(s, a, "eq", b.fxId) then "LEVEL" else b.slider1.value.param
  {
    StoredStep(c, s, a, "eq", k);
    assert EqStoredOk(s, s.store.blocks["eq"][k]);
    if a.Echo? {
      EchoStored(c, s, a.d, a.now, "eq", k);
    }
  }

  /** When an equaliser's level control fits its name. With nothing pending it does exactly if
      the block is not PARAMETRIC, or its sliders were stored last by a scan that read that
      name: a re-read of a PARAMETRIC equaliser leaves it with the level of the other kind. */
  lemma EqLevelFitsIff(c: Config, states: seq<State>, acts: seq<Action>, i: nat, k: nat)
    requires Run(c, states, acts) && i <= |acts| && Quiescent(states[i])
    requires "eq" in states[i].store.blocks && k < |states[i].store.blocks["eq"]|
    ensures var b := states[i].store.blocks["eq"][k];
            var w := WrittenAt(states, acts, "eq", b.fxId, i);
            w >= 0 && b.slider1.Some? &&
            (b.slider1.value.param == EqLevel(b.name) <==>
             || b.name != PARAMETRIC
             || (Records(states[w], acts[w], "eq") &&
                 var r := ReadAt(states, acts, "eq", b.fxId, w);
                 r >= 0 && NameRead(states, acts, r) == PARAMETRIC))
  {
    EqHolds(c, states, acts, i);
    EqLevelStored(c, states, acts, k, i);
    assert EqStoredOk(states[i], states[i].store.blocks["eq"][k]);
    assert SliderTask("eq", states[i].store.blocks["eq"][k].fxId).kind == "sliders";
    assert |"LEVEL1"| != |"LEVEL"| && |""| != |"LEVEL1"|;
  }
}
