/** Runs of the refresh loop that show what can go wrong: for any effect types, any policy,
    any tables the scans can be read by and any number of blocks. */
module RefreshWitness {
  import opened Wrappers
  import opened BlockIds
  import opened PatchStore
  import opened BlockSnapshot
  import opened AddressMap
  import opened SliderReads
  import opened RefreshLoop
  import opened RefreshHistory
  import opened RefreshCrashes
  import RefreshNames
  import PatchRuns

  // ---- runs built step by step -----------------------------------------------------------------

  datatype Trace = Trace(states: seq<State>, acts: seq<Action>)
  {
    ghost predicate Of(c: Config) {
      Run(c, states, acts)
    }

    ghost function Now(): State
      requires |states| == |acts| + 1
    {
      states[|acts|]
    }
  }

  lemma Extend(c: Config, tr: Trace, a: Action) returns (tr': Trace)
    requires tr.Of(c) && Enabled(tr.Now(), a)
    ensures tr'.Of(c) && tr'.acts == tr.acts + [a] && tr'.states == tr.states + [tr'.Now()]
    ensures tr'.Now() == Next(c, tr.Now(), a)
  {
    tr' := Trace(tr.states + [Next(c, tr.Now(), a)], tr.acts + [a]);
    forall i | 0 <= i < |tr'.acts| ensures StepAt(c, tr'.states, tr'.acts, i) {
      assert i < |tr.acts| ==> StepAt(c, tr.states, tr.acts, i);
    }
  }

  /** What the unit answers: how many blocks each type has, the TYPE of each, and one raw
      value for every slider, or none. */
  datatype Unit = Unit(count: string -> nat, read: (string, nat) -> Reading, raw: Option<int>)
  {
    function Id(t: string, k: nat): string {
      ScanId(t, count(t), k)
    }

    function Name(t: string, k: nat): Reading {
      NameGiven(t, Id(t, k), read(t, k))
    }

    /** The owner's entry a scan reads this block by. */
    function Entry(t: string, k: nat): Reading {
      if t == "fx" then Name(t, k) else Nothing
    }

    /** The tables have what the policy chooses for the first n blocks of the type. */
    ghost predicate Fits(c: Config, t: string, n: nat) {
      forall k: nat | k < n :: Resolvable(c, t, Id(t, k), Name(t, k), Entry(t, k))
    }
  }

  /** One slider read from start to end, the owner's entry staying as it is. */
  lemma ResolveNext(c: Config, tr: Trace, owner: Reading, raw: Option<int>) returns (tr': Trace)
    requires tr.Of(c) && tr.Now().worker.Resolving? && |tr.Now().worker.sliders| < 2
    requires var w := tr.Now().worker;
             && Owner(tr.Now().store, w.job) == Ok(owner)
             && ResolveSlider(c.spec, w.job.Type(), w.job.Id(), owner, NextOption(w.labels, w.sliders), raw).Ok?
    ensures tr'.Of(c)
    ensures var w := tr.Now().worker;
            exists slider :: tr'.Now() == tr.Now().(worker := Resolving(w.job, w.labels, w.sliders + [slider]))
  {
    var w := tr.Now().worker;
    tr' := Extend(c, tr, ReadRange);
    if NextOption(w.labels, w.sliders) == None {
      assert tr'.Now() == tr.Now().(worker := Resolving(w.job, w.labels, w.sliders + [None]));
    } else {
      var slider := ResolveSlider(c.spec, w.job.Type(), w.job.Id(), owner, NextOption(w.labels, w.sliders), raw).value;
      tr' := Extend(c, tr', ReadValue(raw));
      assert tr'.Now() == tr.Now().(worker := Resolving(w.job, w.labels, w.sliders + [slider]));
    }
  }

  /** Both sliders of the job in hand, chosen and read. */
  lemma ResolveJob(c: Config, tr: Trace, owner: Reading, raw: Option<int>) returns (tr': Trace)
    requires tr.Of(c) && tr.Now().worker.Choosing?
    requires var job := tr.Now().worker.job;
             && Owner(tr.Now().store, job) == Ok(owner)
             && Resolvable(c, job.Type(), job.Id(), job.ParamName(), owner)
    ensures tr'.Of(c) && tr'.Now().worker.Resolving? && |tr'.Now().worker.sliders| == 2
    ensures tr'.Now().worker.job == tr.Now().worker.job
    ensures tr'.Now() == tr.Now().(worker := tr'.Now().worker)
  {
    var job := tr.Now().worker.job;
    var labels := LabelsFor(c.policy, job.Type(), job.ParamName(), owner);
    assert ResolveSlider(c.spec, job.Type(), job.Id(), owner, labels.first, raw).Ok?;
    assert ResolveSlider(c.spec, job.Type(), job.Id(), owner, labels.second, raw).Ok?;
    tr' := Extend(c, tr, ChooseSliders);
    tr' := ResolveNext(c, tr', owner, raw);
    tr' := ResolveNext(c, tr', owner, raw);
  }

  /** The block in hand, to its end. */
  lemma FinishBlock(c: Config, tr: Trace, owner: Reading, raw: Option<int>) returns (tr': Trace, b: Block)
    requires tr.Of(c) && tr.Now().worker.Choosing? && tr.Now().worker.job.ScanJob?
    requires var job := tr.Now().worker.job;
             && Owner(tr.Now().store, job) == Ok(owner)
             && Resolvable(c, job.Type(), job.Id(), job.ParamName(), owner)
    ensures tr'.Of(c)
    ensures var job := tr.Now().worker.job;
            && b.fxId == job.Id() && b.name == job.name
            && tr'.Now() == tr.Now().(worker := AtBlock(job.scan.(done := job.scan.done + [b])))
  {
    tr' := ResolveJob(c, tr, owner, raw);
    tr' := Extend(c, tr', Finish);
    b := tr'.Now().worker.scan.done[|tr.Now().worker.job.scan.done|];
  }

  /** A scan of this type that has done its blocks up to n, each named as it was read. */
  ghost predicate DoneTo(u: Unit, scan: Scan, t: string, n: nat) {
    && scan.fxType == t && scan.count == u.count(t) && |scan.done| == n <= scan.count
    && forall k | 0 <= k < n :: scan.done[k].fxId == u.Id(t, k)
  }

  /** The blocks from this one up to n, each as the unit names it. */
  lemma ScanBlocks(c: Config, tr: Trace, u: Unit, t: string, from: nat, n: nat) returns (tr': Trace)
    requires tr.Of(c) && tr.Now().worker.AtBlock? && from <= n <= u.count(t)
    requires DoneTo(u, tr.Now().worker.scan, t, from)
    requires forall k: nat | from <= k < n :: Resolvable(c, t, u.Id(t, k), u.Name(t, k), u.Entry(t, k))
    ensures tr'.Of(c) && tr'.Now().worker.AtBlock?
    ensures var scan, scan' := tr.Now().worker.scan, tr'.Now().worker.scan;
            && DoneTo(u, scan', t, n) && scan'.left == scan.left && scan.done <= scan'.done
            && forall k | from <= k < n :: scan'.done[k].name == u.Name(t, k)
    ensures tr'.Now() == tr.Now().(worker := tr'.Now().worker, store := tr'.Now().store)
    ensures var s, s' := tr.Now().store, tr'.Now().store;
            && s'.blocks == s.blocks && (t != "fx" ==> s' == s)
            && forall x | x in s.fxNames && (forall k: nat | from <= k < n :: x != u.Id(t, k)) ::
                 x in s'.fxNames && s'.fxNames[x] == s.fxNames[x]
    decreases n - from
  {
    if from == n {
      tr' := tr;
    } else {
      var scan := tr.Now().worker.scan;
      tr' := Extend(c, tr, ReadBlock(Nothing, u.read(t, from)));
      var b;
      tr', b := FinishBlock(c, tr', u.Entry(t, from), u.raw);
      assert DoneTo(u, tr'.Now().worker.scan, t, from + 1);
      var mid := tr'.Now();
      tr' := ScanBlocks(c, tr', u, t, from + 1, n);
      assert tr'.Now().worker.scan.done[from] == mid.worker.scan.done[from] == b;
    }
  }

  /** A stored type as a scan leaves it. */
  ghost predicate Stored(u: Unit, s: Store, t: string) {
    && t in s.blocks && |s.blocks[t]| == u.count(t)
    && forall k | 0 <= k < u.count(t) :: s.blocks[t][k].fxId == u.Id(t, k)
  }

  lemma BeginScan(c: Config, tr: Trace, u: Unit, t: string, left: seq<string>) returns (tr': Trace)
    requires tr.Of(c) && tr.Now().worker == BetweenTypes([t] + left)
    ensures tr'.Of(c) && tr'.Now() == tr.Now().(worker := AtBlock(Scan(left, t, u.count(t), [])))
  {
    assert ([t] + left)[1..] == left;
    tr' := Extend(c, tr, BeginType(u.count(t)));
  }

  lemma ScanType(c: Config, tr: Trace, u: Unit, t: string, left: seq<string>) returns (tr': Trace)
    requires tr.Of(c) && tr.Now().worker == BetweenTypes([t] + left) && u.Fits(c, t, u.count(t))
    ensures tr'.Of(c) && tr'.Now() == tr.Now().(worker := BetweenTypes(left), store := tr'.Now().store)
    ensures var s, s' := tr.Now().store, tr'.Now().store;
            && s'.blocks.Keys == s.blocks.Keys + {t} && Stored(u, s', t)
            && (forall v | v in s.blocks && v != t :: s'.blocks[v] == s.blocks[v])
            && (t != "fx" ==> s'.fxNames == s.fxNames)
  {
    tr' := BeginScan(c, tr, u, t, left);
    tr' := ScanBlocks(c, tr', u, t, 0, u.count(t));
    tr' := Extend(c, tr', RecordType(0));
  }

  /** The types of a list, one after the other. */
  lemma ScanTypes(c: Config, tr: Trace, u: Unit, types: seq<string>, left: seq<string>) returns (tr': Trace)
    requires tr.Of(c) && tr.Now().worker == BetweenTypes(types + left)
    requires forall t | t in types :: u.Fits(c, t, u.count(t))
    ensures tr'.Of(c) && tr'.Now() == tr.Now().(worker := BetweenTypes(left), store := tr'.Now().store)
    ensures var s, s' := tr.Now().store, tr'.Now().store;
            && s'.blocks.Keys == s.blocks.Keys + (set t | t in types)
            && (forall t | t in types :: Stored(u, s', t))
            && (forall v | v in s.blocks && v !in types :: s'.blocks[v] == s.blocks[v])
            && ("fx" !in types ==> s'.fxNames == s.fxNames)
    decreases |types|
  {
    if types == [] {
      assert types + left == left;
      tr' := tr;
    } else {
      var n := |types| - 1;
      var init, last := types[..n], types[n];
      assert types == init + [last] && types + left == init + ([last] + left);
      assert forall t :: t in types <==> t in init || t == last;
      tr' := ScanTypes(c, tr, u, init, [last] + left);
      tr' := ScanType(c, tr', u, last, left);
    }
  }

  /** Nothing under way, nothing queued, and every type recorded as the unit has it. */
  ghost predicate AtRest(c: Config, u: Unit, s: State) {
    && s.worker == Idle && s.queue == [] && s.receiver == Listening
    && s.store.blocks.Keys == (set t | t in c.fxTypes)
    && forall t | t in c.fxTypes :: Stored(u, s.store, t)
  }

  lemma StartScan(c: Config, tr: Trace) returns (tr': Trace)
    requires tr.Of(c) && tr.Now().worker == Idle && tr.Now().queue == [] && tr.Now().receiver == Listening
    ensures tr'.Of(c) && tr'.Now() == tr.Now().(worker := BetweenTypes(c.fxTypes))
  {
    tr' := Extend(c, tr, ProgramChange);
    tr' := Extend(c, tr', TakeTask);
  }

  /** The first full scan, from a fresh start. */
  lemma FirstScan(c: Config, u: Unit) returns (tr: Trace)
    requires forall t | t in c.fxTypes :: u.Fits(c, t, u.count(t))
    ensures tr.Of(c) && AtRest(c, u, tr.Now())
  {
    tr := Trace([State(EMPTY, [], Listening, Idle)], []);
    tr := StartScan(c, tr);
    assert c.fxTypes + [] == c.fxTypes;
    tr := ScanTypes(c, tr, u, c.fxTypes, []);
    tr := Extend(c, tr, EndScan);
  }

  // ---- an echo in the middle ---------------------------------------------------------------------

  /** A TYPE of the m-th stored block of a ready state finds it. */
  lemma TypeApplied(c: Config, u: Unit, s: Store, t: string, m: nat, echoed: Reading)
    requires PatchRuns.Distinct(c.fxTypes) && t in c.fxTypes && m < u.count(t)
    requires s.blocks.Keys == (set v | v in c.fxTypes) && forall v | v in c.fxTypes :: Stored(u, s, v)
    ensures var d := Decoded(Some(t), u.Id(t, m), "TYPE", echoed, 0);
            && Apply(c.fxTypes, s, d, 0).Ok?
            && var (s', result) := Apply(c.fxTypes, s, d, 0).value;
               && result.typeChanged && s'.blocks.Keys == s.blocks.Keys
               && (forall v | v in c.fxTypes :: Stored(u, s', v))
               && s'.blocks[t][m].name == echoed
               && s'.fxNames == if t == "fx" then s.fxNames[u.Id(t, m) := echoed] else s.fxNames
  {
    var d := Decoded(Some(t), u.Id(t, m), "TYPE", echoed, 0);
    PatchRuns.DistinctSize(c.fxTypes);
    assert |s.blocks| == |s.blocks.Keys|;
    assert FirstWith(s.blocks[t], u.Id(t, m)) == m by {
      forall k: nat | k < m ensures s.blocks[t][k].fxId != u.Id(t, m) {
        ScanIdsDistinct(t, u.count(t), k, m);
      }
    }
    ApplyKeepsBlocks(c.fxTypes, s, d, 0);
    ApplyRenames(c.fxTypes, s, d, 0, t, m);
  }

  /** A TYPE echoed for a stored block while the callback listens: it lands, and its re-read
      is queued. */
  lemma EchoLands(c: Config, tr: Trace, u: Unit, t: string, m: nat, echoed: Reading) returns (tr': Trace)
    requires tr.Of(c) && PatchRuns.Distinct(c.fxTypes) && t in c.fxTypes && t != "preamp" && m < u.count(t)
    requires tr.Now().receiver == Listening && tr.Now().queue == []
    requires tr.Now().store.blocks.Keys == (set v | v in c.fxTypes)
    requires forall v | v in c.fxTypes :: Stored(u, tr.Now().store, v)
    ensures tr'.Of(c)
    ensures var s, s', x := tr.Now(), tr'.Now(), u.Id(t, m);
            && s'.worker == s.worker && s'.receiver == Listening && s'.queue == [SliderTask(t, x)]
            && s'.store.blocks.Keys == s.store.blocks.Keys
            && (forall v | v in c.fxTypes :: Stored(u, s'.store, v))
            && s'.store.blocks[t][m].name == echoed
            && s'.store.fxNames == if t == "fx" then s.store.fxNames[x := echoed] else s.store.fxNames
    ensures tr'.acts == tr.acts + [Echo(Decoded(Some(t), u.Id(t, m), "TYPE", echoed, 0), 0), SubmitOwed]
  {
    TaskIdOfScanId(t, u.count(t), m);
    TypeApplied(c, u, tr.Now().store, t, m, echoed);
    tr' := Extend(c, tr, Echo(Decoded(Some(t), u.Id(t, m), "TYPE", echoed, 0), 0));
    tr' := Extend(c, tr', SubmitOwed);
  }

  /** A second full refresh, come to the fx blocks. */
  lemma ScanToFx(c: Config, u: Unit) returns (tr: Trace, pre: seq<string>, post: seq<string>)
    requires "fx" in c.fxTypes && forall t | t in c.fxTypes :: u.Fits(c, t, u.count(t))
    ensures c.fxTypes == pre + ["fx"] + post
    ensures tr.Of(c) && tr.Now() == State(tr.Now().store, [], Listening, BetweenTypes(["fx"] + post))
    ensures tr.Now().store.blocks.Keys == (set t | t in c.fxTypes)
    ensures forall t | t in c.fxTypes :: Stored(u, tr.Now().store, t)
  {
    var j :| 0 <= j < |c.fxTypes| && c.fxTypes[j] == "fx";
    pre, post := c.fxTypes[..j], c.fxTypes[j + 1..];
    assert c.fxTypes == pre + ["fx"] + post == pre + (["fx"] + post);
    tr := FirstScan(c, u);
    var first := tr.Now().store;
    tr := StartScan(c, tr);
    assert forall t | t in pre :: t in c.fxTypes;
    tr := ScanTypes(c, tr, u, pre, ["fx"] + post);
    forall t | t in c.fxTypes ensures Stored(u, tr.Now().store, t) {
      assert Stored(u, first, t);
    }
  }

  /** And its scan has just read the m-th fx block's TYPE. */
  lemma ScanToBlock(c: Config, u: Unit, m: nat) returns (tr: Trace, pre: seq<string>, post: seq<string>)
    requires "fx" in c.fxTypes && m < u.count("fx")
    requires forall t | t in c.fxTypes :: u.Fits(c, t, u.count(t))
    ensures c.fxTypes == pre + ["fx"] + post
    ensures tr.Of(c) && tr.Now().queue == [] && tr.Now().receiver == Listening
    ensures tr.Now().store.blocks.Keys == (set t | t in c.fxTypes)
    ensures forall t | t in c.fxTypes :: Stored(u, tr.Now().store, t)
    ensures var s := tr.Now();
            && s.worker.Choosing? && s.worker.job.ScanJob? && s.worker.job.scan.left == post
            && DoneTo(u, s.worker.job.scan, "fx", m) && s.worker.job.name == u.read("fx", m)
            && u.Id("fx", m) in s.store.fxNames && s.store.fxNames[u.Id("fx", m)] == u.read("fx", m)
  {
    tr, pre, post := ScanToFx(c, u);
    var before := tr.Now().store;
    tr := BeginScan(c, tr, u, "fx", post);
    tr := ScanBlocks(c, tr, u, "fx", 0, m);
    tr := Extend(c, tr, ReadBlock(Nothing, u.read("fx", m)));
    forall t | t in c.fxTypes ensures Stored(u, tr.Now().store, t) {
      assert Stored(u, before, t);
    }
  }

  // ---- stale names, the wrong level, dead workers ------------------------------------------------

  /** The re-read a quiet worker takes up next, to its end. */
  lemma RunReread(c: Config, tr: Trace, u: Unit, t: string, x: string, owner: Reading) returns (tr': Trace)
    requires tr.Of(c) && tr.Now().worker == Idle && tr.Now().queue == [SliderTask(t, x)] && tr.Now().receiver == Listening
    requires t in tr.Now().store.blocks && Owner(tr.Now().store, RereadJob(t, x)) == Ok(owner)
    requires Resolvable(c, t, x, Nothing, owner)
    ensures tr'.Of(c) && tr'.Now().worker == Idle && tr'.Now().queue == [] && tr'.Now().receiver == Listening
    ensures var s, s' := tr.Now().store, tr'.Now().store;
            && s'.fxNames == s.fxNames && t in s'.blocks && |s'.blocks[t]| == |s.blocks[t]|
            && forall k | 0 <= k < |s.blocks[t]| ::
                 s'.blocks[t][k].fxId == s.blocks[t][k].fxId && s'.blocks[t][k].name == s.blocks[t][k].name
    ensures RefreshNames.Writes(tr'.states[|tr'.acts| - 1], tr'.acts[|tr'.acts| - 1], t, x)
    ensures !Records(tr'.states[|tr'.acts| - 1], tr'.acts[|tr'.acts| - 1], t)
  {
    tr' := Extend(c, tr, TakeTask);
    tr' := ResolveJob(c, tr', owner, u.raw);
    tr' := Extend(c, tr', Finish);
  }

  lemma FxChoiceIgnoresName(c: Config, x: string, name: Reading, other: Reading, owner: Reading)
    requires Resolvable(c, "fx", x, name, owner)
    ensures Resolvable(c, "fx", x, other, owner)
  {
    UntypedChoice(c.policy, "fx", name, owner);
    UntypedChoice(c.policy, "fx", other, owner);
  }

  /** An echo inside a scan can outdate a name for good: a run that ends with nothing pending
      and the m-th fx block named as the scan read it, the owner naming what was echoed. */
  lemma RacedNameStaysStale(c: Config, u: Unit, m: nat, echoed: Reading) returns (tr: Trace)
    requires PatchRuns.Distinct(c.fxTypes) && "fx" in c.fxTypes && m < u.count("fx")
    requires forall t | t in c.fxTypes :: u.Fits(c, t, u.count(t))
    requires Resolvable(c, "fx", u.Id("fx", m), Nothing, echoed)
    ensures tr.Of(c) && Quiescent(tr.Now()) && "fx" in tr.Now().store.blocks
    ensures var s, x := tr.Now().store, u.Id("fx", m);
            && |s.blocks["fx"]| == u.count("fx")
            && s.blocks["fx"][m].fxId == x && s.blocks["fx"][m].name == u.read("fx", m)
            && x in s.fxNames && s.fxNames[x] == echoed
  {
    var pre, post;
    tr, pre, post := ScanToBlock(c, u, m);
    var x := u.Id("fx", m);
    tr := EchoLands(c, tr, u, "fx", m, echoed);
    var b;
    FxChoiceIgnoresName(c, x, Nothing, u.read("fx", m), echoed);
    tr, b := FinishBlock(c, tr, echoed, u.raw);
    forall k: nat | m + 1 <= k < u.count("fx") ensures x != u.Id("fx", k) {
      ScanIdsDistinct("fx", u.count("fx"), m, k);
    }
    tr := ScanBlocks(c, tr, u, "fx", m + 1, u.count("fx"));
    tr := RecordAndRest(c, tr, u, pre, post, m, b);
    tr := RunReread(c, tr, u, "fx", x, echoed);
  }

  lemma FxOnce(pre: seq<string>, post: seq<string>)
    requires PatchRuns.Distinct(pre + ["fx"] + post)
    ensures "fx" !in post
  {
    var types := pre + ["fx"] + post;
    forall k | 0 <= k < |post| ensures post[k] != "fx" {
      assert types[|pre|] == "fx" && types[|pre| + 1 + k] == post[k];
    }
  }

  /** The rest of a full refresh once its fx blocks are read. */
  lemma RecordAndRest(c: Config, tr: Trace, u: Unit, pre: seq<string>, post: seq<string>, m: nat, b: Block) returns (tr': Trace)
    requires PatchRuns.Distinct(c.fxTypes) && c.fxTypes == pre + ["fx"] + post && m < u.count("fx")
    requires forall t | t in c.fxTypes :: u.Fits(c, t, u.count(t))
    requires tr.Of(c) && tr.Now().receiver == Listening && tr.Now().worker.AtBlock?
    requires var scan := tr.Now().worker.scan; DoneTo(u, scan, "fx", u.count("fx")) && scan.left == post && scan.done[m] == b
    ensures tr'.Of(c) && tr'.Now() == State(tr'.Now().store, tr.Now().queue, Listening, Idle)
    ensures var s, s' := tr.Now().store, tr'.Now().store;
            && s'.fxNames == s.fxNames && "fx" in s'.blocks && |s'.blocks["fx"]| == u.count("fx") && s'.blocks["fx"][m] == b
  {
    tr' := Extend(c, tr, RecordType(0));
    FxOnce(pre, post);
    assert post + [] == post;
    forall t | t in post ensures t in c.fxTypes {
    }
    tr' := ScanTypes(c, tr', u, post, []);
    tr' := Extend(c, tr', EndScan);
  }

  /** A re-read can give an equaliser the wrong level for good: scanned, then switched to
      PARAMETRIC by the unit, it ends with nothing pending and the level of the other kind. */
  lemma RereadLosesEqLevel(c: Config, u: Unit, m: nat) returns (tr: Trace)
    requires PatchRuns.Distinct(c.fxTypes) && "eq" in c.fxTypes && m < u.count("eq")
    requires forall t | t in c.fxTypes :: u.Fits(c, t, u.count(t))
    requires Resolvable(c, "eq", u.Id("eq", m), Nothing, Nothing)
    ensures tr.Of(c) && Quiescent(tr.Now()) && "eq" in tr.Now().store.blocks
    ensures var eqs := tr.Now().store.blocks["eq"];
            && |eqs| == u.count("eq") && eqs[m].fxId == u.Id("eq", m) && eqs[m].name == RefreshNames.PARAMETRIC
            && RefreshNames.ControlsLevel(eqs[m].slider1, "LEVEL") && EqLevel(eqs[m].name) == "LEVEL1"
  {
    tr := FirstScan(c, u);
    assert Stored(u, tr.Now().store, "eq");
    tr := EchoLands(c, tr, u, "eq", m, RefreshNames.PARAMETRIC);
    assert Stored(u, tr.Now().store, "eq");
    tr := RunReread(c, tr, u, "eq", u.Id("eq", m), Nothing);
    RefreshNames.EqLevelStored(c, tr.states, tr.acts, m, |tr.acts|);
  }

  /** An echo between the choice and the read of a range kills the worker, if under what was
      echoed there is no range for the slider chosen. */
  lemma EchoCrashesWorker(c: Config, u: Unit, m: nat, echoed: Reading) returns (tr: Trace)
    requires PatchRuns.Distinct(c.fxTypes) && "fx" in c.fxTypes && m < u.count("fx")
    requires forall t | t in c.fxTypes :: u.Fits(c, t, u.count(t))
    requires var option := LabelsForName(c.policy, u.read("fx", m)).first;
             option.Some? && RangeMissing(c.spec, "fx", u.Id("fx", m), echoed, option.value)
    ensures tr.Of(c) && tr.Now().worker.Crashed? && |tr.acts| >= 4
    ensures tr.acts[|tr.acts| - 4..] ==
            [ChooseSliders, Echo(Decoded(Some("fx"), u.Id("fx", m), "TYPE", echoed, 0), 0), SubmitOwed, ReadRange]
  {
    var pre, post;
    tr, pre, post := ScanToBlock(c, u, m);
    tr := Extend(c, tr, ChooseSliders);
    tr := EchoLands(c, tr, u, "fx", m, echoed);
    tr := Extend(c, tr, ReadRange);
  }

  /** The parameters of AUTO WAH. */
  const AUTO_WAH := ["FILTER MODE", "RATE", "DEPTH", "EFFECT LEVEL", "FREQUENCY", "RESONANCE", "WAVEFORM", "DIRECT MIX"]

  /** One such pair of effects: AC GUITAR SIM has a LEVEL to read, AUTO WAH has none. */
  lemma GuitarSimToAutoWah(c: Config, u: Unit, m: nat) returns (tr: Trace)
    requires PatchRuns.Distinct(c.fxTypes) && "fx" in c.fxTypes && m < u.count("fx")
    requires forall t | t in c.fxTypes :: u.Fits(c, t, u.count(t))
    requires u.read("fx", m) == Label("AC GUITAR SIM") && "AC GUITAR SIM" in c.policy.byName
    requires c.policy.byName["AC GUITAR SIM"] == Labels(Some("LEVEL"), None) && "AUTO WAH" in c.spec.suffixes
    requires var block := BlockAt(c.spec, "fx", u.Id("fx", m), Label("AUTO WAH"));
             block.InBlock? && |block.settings| == |AUTO_WAH|
             && forall k | 0 <= k < |AUTO_WAH| :: block.settings[k].0 == AUTO_WAH[k]
    ensures tr.Of(c) && tr.Now().worker.Crashed?
  {
    assert |"FILTER MODE"| > |"LEVEL"| && |"RATE"| < |"LEVEL"| && "DEPTH"[0] != "LEVEL"[0] && |"EFFECT LEVEL"| > |"LEVEL"|;
    assert |"FREQUENCY"| > |"LEVEL"| && |"RESONANCE"| > |"LEVEL"| && |"WAVEFORM"| > |"LEVEL"| && |"DIRECT MIX"| > |"LEVEL"|;
    NotFound(BlockAt(c.spec, "fx", u.Id("fx", m), Label("AUTO WAH")).settings, "LEVEL");
    tr := EchoCrashesWorker(c, u, m, Label("AUTO WAH"));
  }

  /** Another way: what was echoed is no effect at all, as when a sub-effect's own TYPE is
      taken for the block's. */
  lemma SubEffectEchoCrashes(c: Config, u: Unit, m: nat, echoed: Reading) returns (tr: Trace)
    requires PatchRuns.Distinct(c.fxTypes) && "fx" in c.fxTypes && m < u.count("fx")
    requires forall t | t in c.fxTypes :: u.Fits(c, t, u.count(t))
    requires LabelsForName(c.policy, u.read("fx", m)).first.Some? && SuffixOf(c.spec, echoed) == None
    ensures tr.Of(c) && tr.Now().worker.Crashed?
  {
    tr := EchoCrashesWorker(c, u, m, echoed);
  }
}
