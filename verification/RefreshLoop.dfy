/** The whole refresh loop under concurrency: the unit's echoes land on the patch state and
    queue slider re-reads, while one worker scans blocks and re-reads sliders, recording
    fx names as it goes. Every access to the shared state, and every submission, is a step
    of its own; what the unit answers to the worker's reads is arbitrary. */
module RefreshLoop {
  import opened Wrappers
  import opened BlockIds
  import opened PatchStore
  import opened BlockSnapshot
  import opened SliderReads
  import RefreshScheduler
  import PatchRuns

  type Task = RefreshScheduler.Task

  const FULL := RefreshScheduler.Task("full", "", "")

  function SliderTask(fxType: string, fxId: string): Task {
    RefreshScheduler.Task("sliders", fxType, fxId)
  }

  // ---- states and steps ----------------------------------------------------------------------

  /** Where a scan stands: the types still to come, the type it is on, how many blocks that
      has, and the blocks already read, which nobody else can see yet. */
  datatype Scan = Scan(left: seq<string>, fxType: string, count: nat, done: seq<Block>)

  /** What sliders are being read for: the next block of a scan, whose switch and name are
      read already, or a stored block. */
  datatype Job =
    | ScanJob(scan: Scan, state: Reading, name: Reading)
    | RereadJob(rereadType: string, rereadId: string)
  {
    function Type(): string {
      if ScanJob? then scan.fxType else rereadType
    }

    function Id(): string {
      if ScanJob? then NextId(scan) else rereadId
    }

    /** The TYPE the policy is told of. */
    function ParamName(): Reading {
      if ScanJob? then name else Nothing
    }
  }

  datatype Worker =
    | Idle
    | BetweenTypes(left: seq<string>)
    | AtBlock(scan: Scan)
    | Choosing(job: Job)
    | Resolving(job: Job, labels: Labels, sliders: seq<Option<Slider>>)    // about to read a range
    | Ranged(job: Job, labels: Labels, sliders: seq<Option<Slider>>,       // about to read a value
             option: string, range: Option<Range>)
    | Crashed(job: Job)                                                    // the thread has died

  /** The receive callback, between applying a TYPE echo and submitting its re-read. */
  datatype Receiver = Listening | Owes(task: Task)

  datatype State = State(store: Store, queue: seq<Task>, receiver: Receiver, worker: Worker)

  datatype Config = Config(fxTypes: seq<string>, policy: Policy, spec: Spec)

  datatype Action =
    | TakeTask
    | BeginType(count: nat)
    | EndScan
    | ReadBlock(state: Reading, name: Reading)
    | ChooseSliders
    | ReadRange
    | ReadValue(raw: Option<int>)
    | Finish
    | RecordType(ts: int)
    | ProgramChange
    | Echo(d: Decoded, now: int)
    | SubmitOwed
    | Toggle(fxType: string, fxId: string, value: Reading)

  /** The id of the block a scan is about to read. */
  function NextId(scan: Scan): string {
    ScanId(scan.fxType, scan.count, |scan.done|)
  }

  /** The parameter of the slider to be resolved next. */
  function NextOption(labels: Labels, sliders: seq<Option<Slider>>): Option<string> {
    if sliders == [] then labels.first else labels.second
  }

  /** A scan ends between types: with none left, or because stop() was noticed there. */
  predicate Enabled(s: State, a: Action) {
    match a
    case TakeTask => s.worker.Idle? && s.queue != []
    case BeginType(_) => s.worker.BetweenTypes? && s.worker.left != []
    case EndScan => s.worker.BetweenTypes?
    case ReadBlock(_, _) => s.worker.AtBlock? && |s.worker.scan.done| < s.worker.scan.count
    case ChooseSliders => s.worker.Choosing?
    case ReadRange => s.worker.Resolving? && |s.worker.sliders| < 2
    case ReadValue(_) => s.worker.Ranged?
    case Finish => s.worker.Resolving? && |s.worker.sliders| == 2
    case RecordType(_) => s.worker.AtBlock? && |s.worker.scan.done| == s.worker.scan.count
    case ProgramChange => s.receiver.Listening?
    case Echo(_, _) => s.receiver.Listening?
    case SubmitOwed => s.receiver.Owes?
    case Toggle(_, _, _) => true
  }

  /** The owner's entry a job goes by at this moment: an fx block's, which must be there. */
  function Owner(s: Store, job: Job): Result<Reading, Fault> {
    if job.Type() != "fx" then Ok(Nothing)
    else if job.Id() in s.fxNames then Ok(s.fxNames[job.Id()])
    else Err(NoKey)
  }

  function Next(c: Config, s: State, a: Action): State
    requires Enabled(s, a)
  {
    match a
    case TakeTask =>
      var task := s.queue[0];
      s.(queue := s.queue[1..],
         worker := if task == FULL then BetweenTypes(c.fxTypes)
                   else if task.kind == "sliders" then Choosing(RereadJob(task.fxType, task.fxId))
                   else Idle)
    case BeginType(count) => s.(worker := AtBlock(Scan(s.worker.left[1..], s.worker.left[0], count, [])))
    case EndScan => s.(worker := Idle)
    case ReadBlock(state, read) =>
      var scan := s.worker.scan;
      var name := NameGiven(scan.fxType, NextId(scan), read);
      s.(store := if scan.fxType == "fx" then SetFxName(s.store, NextId(scan), name) else s.store,
         worker := Choosing(ScanJob(scan, state, name)))
    case ChooseSliders => s.(worker := Chosen(c, s.store, s.worker.job))
    case ReadRange => s.(worker := AfterRange(c, s.store, s.worker))
    case ReadValue(raw) => s.(worker := AfterValue(c, s.store, s.worker, raw))
    case Finish => Finished(s, s.worker.job, s.worker.sliders[0], s.worker.sliders[1])
    case RecordType(ts) =>
      var scan := s.worker.scan;
      s.(store := RecordScan(s.store, scan.fxType, scan.done, ts), worker := BetweenTypes(scan.left))
    case ProgramChange => s.(queue := s.queue + [FULL])
    case Echo(d, now) =>
      var applied := Apply(c.fxTypes, s.store, d, now);
      if applied.Err? then s
      else
        var (store, result) := applied.value;
        var task := TaskId(d.fxId);
        s.(store := store,
           receiver := if result.typeChanged && d.fxType.Some? && task.Some?
                       then Owes(SliderTask(d.fxType.value, task.value)) else Listening)
    case SubmitOwed => s.(queue := s.queue + [s.receiver.task], receiver := Listening)
    case Toggle(fxType, fxId, value) =>
      var changed := SetFx(s.store, fxType, fxId, StateField, value);
      if changed.Err? then s else s.(store := changed.value)
  }

  /** The policy's choice, by the owner's entry. */
  function Chosen(c: Config, s: Store, job: Job): Worker {
    match Owner(s, job)
    case Err(_) => Crashed(job)
    case Ok(owner) => Resolving(job, LabelsFor(c.policy, job.Type(), job.ParamName(), owner), [])
  }

  /** The range of the next slider, by the owner's entry now. */
  function AfterRange(c: Config, s: Store, w: Worker): Worker
    requires w.Resolving?
  {
    var option := NextOption(w.labels, w.sliders);
    if option == None then Resolving(w.job, w.labels, w.sliders + [None])
    else
      match Owner(s, w.job)
      case Err(_) => Crashed(w.job)
      case Ok(owner) =>
        match RangeAt(c.spec, w.job.Type(), w.job.Id(), owner, option.value)
        case Err(_) => Crashed(w.job)
        case Ok(range) => Ranged(w.job, w.labels, w.sliders, option.value, range)
  }

  /** Its value, by the owner's entry now, which need not be the one the range was read by. */
  function AfterValue(c: Config, s: Store, w: Worker, raw: Option<int>): Worker
    requires w.Ranged?
  {
    match Owner(s, w.job)
    case Err(_) => Crashed(w.job)
    case Ok(owner) =>
      match ValueAt(c.spec, w.job.Type(), w.job.Id(), owner, w.option, raw)
      case Err(_) => Crashed(w.job)
      case Ok(value) =>
        match SliderOf(w.job.Type(), w.option, w.range, value)
        case Err(_) => Crashed(w.job)
        case Ok(slider) => Resolving(w.job, w.labels, w.sliders + [slider])
  }

  function Finished(s: State, job: Job, slider1: Option<Slider>, slider2: Option<Slider>): State {
    match job
    case ScanJob(scan, state, name) =>
      s.(worker := AtBlock(scan.(done := scan.done + [Block(NextId(scan), state, name, slider1, slider2)])))
    case RereadJob(fxType, fxId) =>
      var written := SetSliders(s.store, fxType, fxId, slider1, slider2);
      if written.Err? then s.(worker := Crashed(job)) else s.(store := written.value, worker := Idle)
  }

  predicate Init(s: State) {
    s == State(EMPTY, [], Listening, Idle)
  }

  ghost predicate StepAt(c: Config, states: seq<State>, acts: seq<Action>, i: nat)
    requires i < |acts| < |states|
  {
    Enabled(states[i], acts[i]) && states[i + 1] == Next(c, states[i], acts[i])
  }

  /** `states[i]` is where the run stands before `acts[i]`. */
  ghost predicate Run(c: Config, states: seq<State>, acts: seq<Action>) {
    && |states| == |acts| + 1
    && Init(states[0])
    && forall i | 0 <= i < |acts| :: StepAt(c, states, acts, i)
  }

  // ---- the invariant -------------------------------------------------------------------------

  /** A re-read of this block is queued, or about to be by the callback. */
  predicate Owed(s: State, fxType: string, fxId: string) {
    SliderTask(fxType, fxId) in s.queue || s.receiver == Owes(SliderTask(fxType, fxId))
  }

  /** Between choosing a job's sliders and having them all. */
  predicate InResolution(w: Worker) {
    w.Resolving? || w.Ranged?
  }

  predicate HasJob(w: Worker) {
    w.Choosing? || InResolution(w) || w.Crashed?
  }

  /** The worker is re-reading this block, or died doing so. */
  predicate InHand(s: State, fxType: string, fxId: string) {
    HasJob(s.worker) && s.worker.job == RereadJob(fxType, fxId)
  }

  /** The scan under way, or the one the worker died in. */
  function ScanOf(w: Worker): Option<Scan> {
    if w.AtBlock? then Some(w.scan)
    else if HasJob(w) && w.job.ScanJob? then Some(w.job.scan)
    else None
  }

  predicate Scanning(w: Worker, fxType: string) {
    ScanOf(w).Some? && ScanOf(w).value.fxType == fxType
  }

  /** Both sliders show the effect of this name. */
  predicate BlockUnder(c: Config, b: Block, name: Reading) {
    && SliderUnder(c.spec, b.fxId, name, LabelsForName(c.policy, name).first, b.slider1)
    && SliderUnder(c.spec, b.fxId, name, LabelsForName(c.policy, name).second, b.slider2)
  }

  predicate BlockUpToDate(c: Config, s: State, b: Block) {
    b.fxId in s.store.fxNames && (Owed(s, "fx", b.fxId) || BlockUnder(c, b, s.store.fxNames[b.fxId]))
  }

  predicate StoredBlockOk(c: Config, s: State, b: Block) {
    && b.fxId in s.store.fxNames
    && (InHand(s, "fx", b.fxId) || Scanning(s.worker, "fx") || BlockUpToDate(c, s, b))
  }

  predicate StoredOk(c: Config, s: State) {
    "fx" in s.store.blocks ==>
      forall i | 0 <= i < |s.store.blocks["fx"]| :: StoredBlockOk(c, s, s.store.blocks["fx"][i])
  }

  predicate TaskIds(bs: seq<Block>) {
    forall i | 0 <= i < |bs| :: TaskId(bs[i].fxId) == Some(bs[i].fxId)
  }

  /** Ids are distinct within a type, and, but for the lettered preamps, come through a task. */
  predicate IdsOk(s: State) {
    forall t | t in s.store.blocks ::
      PatchRuns.DistinctIds(s.store.blocks[t]) && (t != "preamp" ==> TaskIds(s.store.blocks[t]))
  }

  predicate ScanOk(c: Config, s: State, scan: Scan) {
    && |scan.done| <= scan.count
    && (forall i | 0 <= i < |scan.done| :: scan.done[i].fxId == ScanId(scan.fxType, scan.count, i))
    && (scan.fxType == "fx" ==> forall i | 0 <= i < |scan.done| :: BlockUpToDate(c, s, scan.done[i]))
  }

  predicate TaskOk(s: State, task: Task) {
    task.kind == "sliders" ==>
      task.fxType in s.store.blocks && (task.fxType == "fx" ==> task.fxId in s.store.fxNames)
  }

  predicate TasksOk(s: State) {
    && (forall task | task in s.queue :: TaskOk(s, task))
    && (s.receiver.Owes? ==> TaskOk(s, s.receiver.task))
  }

  predicate JobOk(c: Config, s: State, job: Job) {
    && (job.Type() == "fx" ==> job.Id() in s.store.fxNames)
    && match job
       case ScanJob(scan, _, _) => ScanOk(c, s, scan) && |scan.done| < scan.count
       case RereadJob(t, _) => t in s.store.blocks
  }

  /** For an fx block, unless a re-read is owed, the labels and what has been resolved so far
      are those of the owner's entry now. */
  predicate ResolvedOk(c: Config, s: State, job: Job, labels: Labels, sliders: seq<Option<Slider>>)
    requires job.Type() == "fx" ==> job.Id() in s.store.fxNames
  {
    && |sliders| <= 2
    && (job.Type() == "fx" && !Owed(s, "fx", job.Id()) ==>
        var name := s.store.fxNames[job.Id()];
        && labels == LabelsForName(c.policy, name)
        && (|sliders| > 0 ==> SliderUnder(c.spec, job.Id(), name, labels.first, sliders[0]))
        && (|sliders| > 1 ==> SliderUnder(c.spec, job.Id(), name, labels.second, sliders[1])))
  }

  predicate RangeOk(c: Config, s: State, job: Job, option: string, range: Option<Range>)
    requires job.Type() == "fx" ==> job.Id() in s.store.fxNames
  {
    job.Type() == "fx" && !Owed(s, "fx", job.Id()) ==>
      RangeAt(c.spec, "fx", job.Id(), s.store.fxNames[job.Id()], option) == Ok(range)
  }

  predicate WorkerOk(c: Config, s: State) {
    match s.worker
    case Idle => true
    case BetweenTypes(_) => true
    case AtBlock(scan) => ScanOk(c, s, scan)
    case Choosing(job) => JobOk(c, s, job)
    case Resolving(job, labels, sliders) => JobOk(c, s, job) && ResolvedOk(c, s, job, labels, sliders)
    case Ranged(job, labels, sliders, option, range) =>
      && JobOk(c, s, job) && ResolvedOk(c, s, job, labels, sliders)
      && |sliders| < 2 && NextOption(labels, sliders) == Some(option) && RangeOk(c, s, job, option, range)
    case Crashed(job) => JobOk(c, s, job)
  }

  predicate Inv(c: Config, s: State) {
    IdsOk(s) && StoredOk(c, s) && WorkerOk(c, s) && TasksOk(s)
  }

  // ---- it is kept by every step ------------------------------------------------------------------

  lemma TakeTaskKeeps(c: Config, s: State)
    requires Inv(c, s) && Enabled(s, TakeTask)
    ensures Inv(c, Next(c, s, TakeTask))
  {
    var s' := Next(c, s, TakeTask);
    assert s.queue == [s.queue[0]] + s'.queue;
    assert TaskOk(s, s.queue[0]);
    forall task | task in s'.queue ensures TaskOk(s', task) {
      assert task in s.queue && TaskOk(s, task);
    }
    if "fx" in s.store.blocks {
      forall i | 0 <= i < |s.store.blocks["fx"]| ensures StoredBlockOk(c, s', s.store.blocks["fx"][i]) {
        assert StoredBlockOk(c, s, s.store.blocks["fx"][i]);
      }
    }
  }

  /** Steps of the worker that leave store, queue and callback as they are. */
  lemma WorkerStepKeeps(c: Config, s: State, s': State)
    requires Inv(c, s) && s' == s.(worker := s'.worker) && WorkerOk(c, s')
    requires Scanning(s.worker, "fx") ==> Scanning(s'.worker, "fx")
    requires forall fxId :: InHand(s, "fx", fxId) ==> InHand(s', "fx", fxId)
    ensures Inv(c, s')
  {
    if "fx" in s.store.blocks {
      forall i | 0 <= i < |s.store.blocks["fx"]| ensures StoredBlockOk(c, s', s.store.blocks["fx"][i]) {
        assert StoredBlockOk(c, s, s.store.blocks["fx"][i]);
      }
    }
  }

  lemma ResolveStepKeeps(c: Config, s: State, a: Action)
    requires Inv(c, s) && Enabled(s, a) && (a.ChooseSliders? || a.ReadRange? || a.ReadValue?)
    ensures Inv(c, Next(c, s, a))
    ensures HasJob(Next(c, s, a).worker) && Next(c, s, a).worker.job == s.worker.job
  {
    if a.ReadValue? && s.worker.job.Type() == "fx" {
      ReadValueKeeps(c, s, a.raw);
    }
    WorkerStepKeeps(c, s, Next(c, s, a));
  }

  lemma ReadValueKeeps(c: Config, s: State, raw: Option<int>)
    requires Inv(c, s) && Enabled(s, ReadValue(raw)) && s.worker.job.Type() == "fx"
    ensures WorkerOk(c, Next(c, s, ReadValue(raw)))
  {
    var s', w := Next(c, s, ReadValue(raw)), s.worker;
    var name := s.store.fxNames[w.job.Id()];
    if s'.worker.Resolving? && !Owed(s, "fx", w.job.Id()) {
      ResolvedUnder(c.spec, w.job.Id(), name, w.option, raw, s'.worker.sliders[|w.sliders|]);
    }
  }

  lemma ReadBlockKeeps(c: Config, s: State, state: Reading, name: Reading)
    requires Inv(c, s) && Enabled(s, ReadBlock(state, name))
    ensures Inv(c, Next(c, s, ReadBlock(state, name)))
  {
    var s', scan := Next(c, s, ReadBlock(state, name)), s.worker.scan;
    if scan.fxType == "fx" {
      forall i | 0 <= i < |scan.done| ensures BlockUpToDate(c, s', scan.done[i]) {
        ScanIdsDistinct("fx", scan.count, i, |scan.done|);
        assert BlockUpToDate(c, s, scan.done[i]);
      }
    }
    if "fx" in s.store.blocks {
      forall i | 0 <= i < |s.store.blocks["fx"]| ensures StoredBlockOk(c, s', s.store.blocks["fx"][i]) {
        assert StoredBlockOk(c, s, s.store.blocks["fx"][i]);
      }
    }
  }

  lemma FinishScanKeeps(c: Config, s: State)
    requires Inv(c, s) && Enabled(s, Finish) && s.worker.job.ScanJob?
    ensures Inv(c, Next(c, s, Finish))
  {
    var s', scan := Next(c, s, Finish), s.worker.job.scan;
    var done := s'.worker.scan.done;
    if scan.fxType == "fx" {
      forall i | 0 <= i < |done| ensures BlockUpToDate(c, s', done[i]) {
        if i < |scan.done| {
          assert BlockUpToDate(c, s, scan.done[i]);
        }
      }
    }
    WorkerStepKeeps(c, s, s');
  }

  lemma FinishRereadKeeps(c: Config, s: State)
    requires Inv(c, s) && Enabled(s, Finish) && s.worker.job.RereadJob?
    ensures Inv(c, Next(c, s, Finish)) && Next(c, s, Finish).worker.Idle?
  {
    var s', job := Next(c, s, Finish), s.worker.job;
    if "fx" in s.store.blocks {
      var fx := s.store.blocks["fx"];
      forall i | 0 <= i < |fx| ensures StoredBlockOk(c, s', s'.store.blocks["fx"][i]) {
        assert StoredBlockOk(c, s, fx[i]);
        if job.rereadType == "fx" && fx[i].fxId == job.rereadId {
          assert FirstWith(fx, fx[i].fxId) == i;
        }
      }
    }
    SetSlidersKeepsIds(s.store, job.rereadType, job.rereadId, s.worker.sliders[0], s.worker.sliders[1]);
  }

  lemma SetSlidersKeepsIds(s: Store, fxType: string, fxId: string, slider1: Option<Slider>, slider2: Option<Slider>)
    requires fxType in s.blocks
    ensures var bs, bs' := s.blocks[fxType], SetSliders(s, fxType, fxId, slider1, slider2).value.blocks[fxType];
            |bs'| == |bs| && forall i | 0 <= i < |bs| :: bs'[i].fxId == bs[i].fxId
  {
  }

  lemma RecordTypeKeeps(c: Config, s: State, ts: int)
    requires Inv(c, s) && Enabled(s, RecordType(ts))
    ensures Inv(c, Next(c, s, RecordType(ts)))
  {
    var s', scan := Next(c, s, RecordType(ts)), s.worker.scan;
    forall i, j | 0 <= i < j < |scan.done| ensures scan.done[i].fxId != scan.done[j].fxId {
      ScanIdsDistinct(scan.fxType, scan.count, i, j);
    }
    if scan.fxType != "preamp" {
      forall i | 0 <= i < |scan.done| ensures TaskId(scan.done[i].fxId) == Some(scan.done[i].fxId) {
        TaskIdOfScanId(scan.fxType, scan.count, i);
      }
    }
    if scan.fxType == "fx" {
      forall i | 0 <= i < |scan.done| ensures StoredBlockOk(c, s', scan.done[i]) {
        assert BlockUpToDate(c, s, scan.done[i]);
      }
    } else if "fx" in s.store.blocks {
      forall i | 0 <= i < |s.store.blocks["fx"]| ensures StoredBlockOk(c, s', s.store.blocks["fx"][i]) {
        assert StoredBlockOk(c, s, s.store.blocks["fx"][i]);
      }
    }
  }

  /** From s to s' no block, owner's entry or task is lost, and the effect an owner names
      changes only for a block that is owed a re-read. */
  ghost predicate Framed(c: Config, s: State, s': State) {
    && s'.worker == s.worker
    && (forall t, fxId :: Owed(s, t, fxId) ==> Owed(s', t, fxId))
    && SameBlocks(s.store, s'.store)
    && s.store.fxNames.Keys <= s'.store.fxNames.Keys
    && (forall fxId | fxId in s.store.fxNames && !Owed(s', "fx", fxId) :: s'.store.fxNames[fxId] == s.store.fxNames[fxId])
    && TasksOk(s')
  }

  lemma FramedKeeps(c: Config, s: State, s': State)
    requires Inv(c, s) && Framed(c, s, s')
    ensures Inv(c, s')
  {
    if "fx" in s.store.blocks {
      var fx := s.store.blocks["fx"];
      forall i | 0 <= i < |fx| ensures StoredBlockOk(c, s', s'.store.blocks["fx"][i]) {
        assert StoredBlockOk(c, s, fx[i]);
      }
    }
    if ScanOf(s.worker).Some? {
      var scan := ScanOf(s.worker).value;
      assert ScanOk(c, s, scan);
      FramedScan(c, s, s', scan);
    }
  }

  lemma FramedScan(c: Config, s: State, s': State, scan: Scan)
    requires ScanOk(c, s, scan) && Framed(c, s, s')
    ensures ScanOk(c, s', scan)
  {
    if scan.fxType == "fx" {
      forall i | 0 <= i < |scan.done| ensures BlockUpToDate(c, s', scan.done[i]) {
        assert BlockUpToDate(c, s, scan.done[i]);
      }
    }
  }

  /** Steps that only add tasks, or move one from the callback to the queue. */
  lemma SubmitFramed(c: Config, s: State, a: Action)
    requires Inv(c, s) && Enabled(s, a)
    requires a.ProgramChange? || a.SubmitOwed?
    ensures Framed(c, s, Next(c, s, a))
  {
  }

  lemma ToggleFramed(c: Config, s: State, fxType: string, fxId: string, value: Reading)
    requires Inv(c, s)
    ensures Framed(c, s, Next(c, s, Toggle(fxType, fxId, value)))
  {
    assert SameBlocks(s.store, s.store);
  }

  /** The only fx name an echo changes is one it owes a re-read for. */
  lemma EchoFramed(c: Config, s: State, d: Decoded, now: int)
    requires Inv(c, s) && Enabled(s, Echo(d, now))
    ensures Framed(c, s, Next(c, s, Echo(d, now)))
  {
    var applied := Apply(c.fxTypes, s.store, d, now);
    if applied.Ok? {
      ApplyKeepsBlocks(c.fxTypes, s.store, d, now);
      if applied.value.1.matched && d.fxType == Some("fx") {
        assert StoredBlockOk(c, s, s.store.blocks["fx"][FirstWith(s.store.blocks["fx"], d.fxId)]);
        assert TaskId(d.fxId) == Some(d.fxId);
      }
    }
  }

  lemma InvKept(c: Config, s: State, a: Action)
    requires Inv(c, s) && Enabled(s, a)
    ensures Inv(c, Next(c, s, a))
  {
    match a {
      case TakeTask => TakeTaskKeeps(c, s);
      case BeginType(_) => WorkerStepKeeps(c, s, Next(c, s, a));
      case EndScan => WorkerStepKeeps(c, s, Next(c, s, a));
      case ReadBlock(state, name) => ReadBlockKeeps(c, s, state, name);
      case Finish =>
        if s.worker.job.ScanJob? {
          FinishScanKeeps(c, s);
        } else {
          FinishRereadKeeps(c, s);
        }
      case RecordType(ts) => RecordTypeKeeps(c, s, ts);
      case Echo(d, now) =>
        EchoFramed(c, s, d, now);
        FramedKeeps(c, s, Next(c, s, a));
      case Toggle(fxType, fxId, value) =>
        ToggleFramed(c, s, fxType, fxId, value);
        FramedKeeps(c, s, Next(c, s, a));
      case ProgramChange =>
        SubmitFramed(c, s, a);
        FramedKeeps(c, s, Next(c, s, a));
      case SubmitOwed =>
        SubmitFramed(c, s, a);
        FramedKeeps(c, s, Next(c, s, a));
      case _ => ResolveStepKeeps(c, s, a);
    }
  }

  lemma {:induction false} InvHolds(c: Config, states: seq<State>, acts: seq<Action>, i: nat)
    requires Run(c, states, acts) && i <= |acts|
    ensures Inv(c, states[i])
  {
    if i > 0 {
      InvHolds(c, states, acts, i - 1);
      assert StepAt(c, states, acts, i - 1);
      InvKept(c, states[i - 1], acts[i - 1]);
    }
  }

  /** What a step makes of the patch state is one of the atomic operations whole runs of which
      `PatchRuns` is about, or nothing. A recorded scan is its blocks and its time stamp, their
      names having been recorded one by one before. */
  lemma StepsAreOperations(c: Config, s: State, a: Action)
    requires Inv(c, s) && Enabled(s, a)
    ensures var s', w := Next(c, s, a).store, s.worker;
            match a
            case Echo(d, now) => s' == PatchRuns.Do(c.fxTypes, s.store, PatchRuns.Echo(d, now))
            case Toggle(t, fxId, value) => s' == PatchRuns.Do(c.fxTypes, s.store, PatchRuns.Change(t, fxId, StateField, value))
            case ReadBlock(_, name) =>
              s' == if w.scan.fxType == "fx" then PatchRuns.Do(c.fxTypes, s.store, PatchRuns.Rename(NextId(w.scan), name)) else s.store
            case Finish =>
              s' == if w.job.ScanJob? then s.store
                    else PatchRuns.Do(c.fxTypes, s.store,
                                      PatchRuns.Reread(w.job.rereadType, w.job.rereadId, w.sliders[0], w.sliders[1]))
            case RecordType(ts) =>
              && s'.fxNames == s.store.fxNames
              && (w.scan.fxType != "fx" ==> s' == PatchRuns.Do(c.fxTypes, s.store, PatchRuns.Scan(w.scan.fxType, w.scan.done, ts)))
              && s'.blocks == s.store.blocks[w.scan.fxType := w.scan.done]
              && s'.lastSync == s.store.lastSync[w.scan.fxType := ts]
            case _ => s' == s.store
  {
  }

  // ---- main results --------------------------------------------------------------------------

  /** In every reachable state, each stored fx block for which no re-read is owed or in hand,
      while no fx scan is under way, shows the effect its owner names: each of its sliders has
      the label the policy gives that effect, and the range and a value it has under it. */
  lemma SlidersFollowOwner(c: Config, states: seq<State>, acts: seq<Action>, i: nat, k: nat)
    requires Run(c, states, acts) && i <= |acts|
    requires var s := states[i];
             "fx" in s.store.blocks && k < |s.store.blocks["fx"]| &&
             var fxId := s.store.blocks["fx"][k].fxId;
             !Owed(s, "fx", fxId) && !InHand(s, "fx", fxId) && !Scanning(s.worker, "fx")
    ensures var s := states[i];
            var b := s.store.blocks["fx"][k];
            b.fxId in s.store.fxNames && BlockUnder(c, b, s.store.fxNames[b.fxId])
  {
    InvHolds(c, states, acts, i);
    assert StoredBlockOk(c, states[i], states[i].store.blocks["fx"][k]);
  }

  /** No scan and no slider re-read is under way or queued, and no echo is half handled. */
  predicate Quiescent(s: State) {
    && s.worker.Idle? && s.receiver.Listening?
    && forall task | task in s.queue :: task.kind != "sliders"
  }

  /** Quiescent consistency: whatever echoes raced with whatever scans, once nothing is
      pending every stored fx block's sliders are those of the effect the owner names. */
  lemma QuiescentConsistency(c: Config, states: seq<State>, acts: seq<Action>, i: nat)
    requires Run(c, states, acts) && i <= |acts| && Quiescent(states[i])
    ensures var s := states[i];
            "fx" in s.store.blocks ==> forall b | b in s.store.blocks["fx"] ::
              b.fxId in s.store.fxNames && BlockUnder(c, b, s.store.fxNames[b.fxId])
  {
    var s := states[i];
    if "fx" in s.store.blocks {
      forall b | b in s.store.blocks["fx"]
        ensures b.fxId in s.store.fxNames && BlockUnder(c, b, s.store.fxNames[b.fxId])
      {
        var k :| 0 <= k < |s.store.blocks["fx"]| && s.store.blocks["fx"][k] == b;
        assert SliderTask("fx", b.fxId).kind == "sliders";
        SlidersFollowOwner(c, states, acts, i, k);
      }
    }
  }
}
