/** The facade's own work on its collaborators: scanning blocks into the patch state,
    re-reading sliders, and folding what the unit says into state and queue. */
module Gt1000 {
  import opened Wrappers
  import opened BlockIds
  import opened PatchStore
  import opened PatchState
  import opened BlockSnapshot
  import opened SliderReads
  import RefreshLoop
  import PatchRuns
  import SysExCodec
  import RefreshScheduler
  import AddressMap
  import AddressCodec

  type Bytes = seq<int>

  const PROGRAM_CHANGE_OFFSET: Bytes := [0x7F, 0x0, 0x1, 0x0]

  /** What the unit answers to reads: settings and raw slider values, by block. */
  datatype Unit = Unit(setting: (string, string, string) -> Reading, raw: (string, string, string) -> Option<int>)

  // ---- what a scan makes of the unit's answers ------------------------------------------------

  function NameOf(unit: Unit, fxType: string, fxId: string): Reading {
    NameGiven(fxType, fxId, unit.setting(fxType, fxId, "TYPE"))
  }

  function ReadSlider(spec: Spec, unit: Unit, fxType: string, fxId: string, owner: Reading, option: Option<string>)
    : Result<Option<Slider>, Fault>
  {
    ResolveSlider(spec, fxType, fxId, owner, option, if option == None then None else unit.raw(fxType, fxId, option.value))
  }

  function SlidersOf(policy: Policy, spec: Spec, unit: Unit, fxType: string, fxId: string, paramName: Reading, owner: Reading)
    : Result<(Option<Slider>, Option<Slider>), Fault>
  {
    var labels := LabelsFor(policy, fxType, paramName, owner);
    match ReadSlider(spec, unit, fxType, fxId, owner, labels.first)
    case Err(e) => Err(e)
    case Ok(slider1) =>
      match ReadSlider(spec, unit, fxType, fxId, owner, labels.second)
      case Err(e) => Err(e)
      case Ok(slider2) => Ok((slider1, slider2))
  }

  /** One block as a scan reads it, an fx block by the name just recorded for it. */
  function BlockOf(policy: Policy, spec: Spec, unit: Unit, fxType: string, fxId: string): Result<Block, Fault> {
    var name := NameOf(unit, fxType, fxId);
    match SlidersOf(policy, spec, unit, fxType, fxId, name, if fxType == "fx" then name else Nothing)
    case Err(e) => Err(e)
    case Ok((slider1, slider2)) => Ok(Block(fxId, unit.setting(fxType, fxId, "SW"), name, slider1, slider2))
  }

  /** A way to read the block of a type and an id. */
  type Reader = (string, string) -> Result<Block, Fault>

  function ReaderOf(c: RefreshLoop.Config, unit: Unit): Reader {
    (fxType, fxId) => BlockOf(c.policy, c.spec, unit, fxType, fxId)
  }

  /** The first n blocks of a type, unless one of them raises. */
  function BlocksOf(read: Reader, fxType: string, count: nat, n: nat): (r: Result<seq<Block>, Fault>)
    ensures r.Ok? ==> |r.value| == n
  {
    if n == 0 then Ok([])
    else
      match BlocksOf(read, fxType, count, n - 1)
      case Err(e) => Err(e)
      case Ok(bs) =>
        match read(fxType, ScanId(fxType, count, n - 1))
        case Err(e) => Err(e)
        case Ok(b) => Ok(bs + [b])
  }

  /** How many of the first n blocks a scan takes up: it stops at the first that raises. */
  function Taken(read: Reader, fxType: string, count: nat, n: nat): nat {
    if n == 0 then 0
    else if BlocksOf(read, fxType, count, n - 1).Err? then Taken(read, fxType, count, n - 1)
    else n
  }

  /** The owner's entries after a scan has taken up n blocks. */
  function NamesTaken(s: Store, unit: Unit, fxType: string, count: nat, n: nat): Store {
    if fxType != "fx" || n == 0 then s
    else
      var fxId := ScanId(fxType, count, n - 1);
      SetFxName(NamesTaken(s, unit, fxType, count, n - 1), fxId, NameOf(unit, fxType, fxId))
  }

  /** One type read and recorded; if a block of it raises, only the names so far are kept. */
  function TypeScanned(read: Reader, unit: Unit, s: Store, fxType: string, count: nat, ts: int): (Store, Result<(), Fault>) {
    var named := NamesTaken(s, unit, fxType, count, Taken(read, fxType, count, count));
    match BlocksOf(read, fxType, count, count)
    case Err(e) => (named, Err(e))
    case Ok(blocks) => (PatchStore.RecordScan(named, fxType, blocks, ts), Ok(()))
  }

  /** A refresh over the first n types, each recorded at its own time, up to one that raises. */
  function Refreshed(fxTypes: seq<string>, read: Reader, unit: Unit, count: string -> nat, clock: nat -> int, s: Store, n: nat)
    : (Store, Result<(), Fault>)
    requires n <= |fxTypes|
  {
    if n == 0 then (s, Ok(()))
    else
      var (before, done) := Refreshed(fxTypes, read, unit, count, clock, s, n - 1);
      if done.Err? then (before, done)
      else TypeScanned(read, unit, before, fxTypes[n - 1], count(fxTypes[n - 1]), clock(n - 1))
  }

  /** The first n blocks of this type can be read. */
  predicate TypeReadable(read: Reader, fxType: string, count: nat, n: nat) {
    forall k: nat | k < n :: read(fxType, ScanId(fxType, count, k)).Ok?
  }

  /** Every block of the first n types can be read. */
  predicate AllReadable(fxTypes: seq<string>, read: Reader, count: string -> nat, n: nat)
    requires n <= |fxTypes|
  {
    forall j | 0 <= j < n :: TypeReadable(read, fxTypes[j], count(fxTypes[j]), count(fxTypes[j]))
  }

  lemma {:induction false} BlocksReadable(read: Reader, fxType: string, count: nat, n: nat)
    ensures BlocksOf(read, fxType, count, n).Ok? <==> TypeReadable(read, fxType, count, n)
  {
    if n > 0 {
      BlocksReadable(read, fxType, count, n - 1);
    }
  }

  lemma {:induction false} NamesTakenKeepBlocks(s: Store, unit: Unit, fxType: string, count: nat, n: nat)
    ensures NamesTaken(s, unit, fxType, count, n).blocks == s.blocks
  {
    if n > 0 {
      NamesTakenKeepBlocks(s, unit, fxType, count, n - 1);
    }
  }

  lemma TypeScannedStores(read: Reader, unit: Unit, s: Store, fxType: string, count: nat, ts: int)
    ensures var (s', done) := TypeScanned(read, unit, s, fxType, count, ts);
            && (done.Ok? <==> TypeReadable(read, fxType, count, count))
            && s'.blocks.Keys == s.blocks.Keys + if done.Ok? then {fxType} else {}
  {
    BlocksReadable(read, fxType, count, count);
    NamesTakenKeepBlocks(s, unit, fxType, count, Taken(read, fxType, count, count));
  }

  function Declared(types: seq<string>): set<string> {
    set t | t in types
  }

  lemma DeclaredGrow(types: seq<string>, n: nat)
    requires 0 < n <= |types|
    ensures Declared(types[..n]) == Declared(types[..n - 1]) + {types[n - 1]}
  {
    assert types[..n] == types[..n - 1] + [types[n - 1]];
  }

  lemma {:induction false} RefreshedOk(fxTypes: seq<string>, read: Reader, unit: Unit, count: string -> nat, clock: nat -> int, n: nat)
    requires n <= |fxTypes|
    ensures Refreshed(fxTypes, read, unit, count, clock, EMPTY, n).1.Ok? <==> AllReadable(fxTypes, read, count, n)
  {
    if n > 0 {
      RefreshedOk(fxTypes, read, unit, count, clock, n - 1);
      var t := fxTypes[n - 1];
      TypeScannedStores(read, unit, Refreshed(fxTypes, read, unit, count, clock, EMPTY, n - 1).0, t, count(t), clock(n - 1));
    }
  }

  lemma {:induction false} RefreshedStores(fxTypes: seq<string>, read: Reader, unit: Unit, count: string -> nat, clock: nat -> int, n: nat)
    returns (j: nat)
    requires n <= |fxTypes|
    ensures var (s, done) := Refreshed(fxTypes, read, unit, count, clock, EMPTY, n);
            && j <= n && (j == n <==> done.Ok?) && s.blocks.Keys == Declared(fxTypes[..j])
  {
    j := n;
    if n > 0 {
      j := RefreshedStores(fxTypes, read, unit, count, clock, n - 1);
      var t, before := fxTypes[n - 1], Refreshed(fxTypes, read, unit, count, clock, EMPTY, n - 1);
      if before.1.Ok? {
        TypeScannedStores(read, unit, before.0, t, count(t), clock(n - 1));
        DeclaredGrow(fxTypes, n);
        if Refreshed(fxTypes, read, unit, count, clock, EMPTY, n).1.Ok? {
          j := n;
        }
      }
    }
  }

  /** A first refresh makes the state ready exactly when every block of every type can be
      read; one that cannot leaves it unready, and the worker without its thread. */
  lemma FirstRefreshMakesReadyIff(fxTypes: seq<string>, read: Reader, unit: Unit, count: string -> nat, clock: nat -> int)
    requires PatchRuns.Distinct(fxTypes)
    ensures var (s, done) := Refreshed(fxTypes, read, unit, count, clock, EMPTY, |fxTypes|);
            && (Ready(fxTypes, s) <==> AllReadable(fxTypes, read, count, |fxTypes|))
            && (done.Ok? <==> AllReadable(fxTypes, read, count, |fxTypes|))
  {
    RefreshedOk(fxTypes, read, unit, count, clock, |fxTypes|);
    var j := RefreshedStores(fxTypes, read, unit, count, clock, |fxTypes|);
    var s := Refreshed(fxTypes, read, unit, count, clock, EMPTY, |fxTypes|).0;
    assert |s.blocks| == |s.blocks.Keys| && fxTypes[..|fxTypes|] == fxTypes;
    PatchRuns.DistinctSize(fxTypes[..j]);
  }

  /** An effect whose parameter the map has, but not in the table its values are looked up
      in: MASTERING FX, whose table is loaded under a name that its suffix does not give. */
  predicate Unreadable(c: RefreshLoop.Config, unit: Unit, fxId: string) {
    var name := NameOf(unit, "fx", fxId);
    var suffix := SuffixOf(c.spec, name);
    var option := LabelsForName(c.policy, name).first;
    && option.Some? && unit.raw("fx", fxId, option.value).Some?
    && AddressCodec.AddressFor(c.spec.tables, SectionOf(c.spec, "fx", fxId, suffix), KeyOf("fx", fxId, suffix), option.value, None).Built?
    && ValueEntry(c.spec, suffix, option.value) == None
  }

  lemma UnreadableRaises(c: RefreshLoop.Config, unit: Unit, fxId: string)
    requires Unreadable(c, unit, fxId)
    ensures ReaderOf(c, unit)("fx", fxId).Err?
  {
    assert BlockOf(c.policy, c.spec, unit, "fx", fxId).Err?;
  }

  /** While an fx block runs such an effect and the unit answers, no first refresh gets
      through, and the state never becomes ready. */
  lemma UnreadableNeverReady(c: RefreshLoop.Config, unit: Unit, count: string -> nat, clock: nat -> int, k: nat)
    requires PatchRuns.Distinct(c.fxTypes) && "fx" in c.fxTypes && k < count("fx")
    requires Unreadable(c, unit, ScanId("fx", count("fx"), k))
    ensures var (s, done) := Refreshed(c.fxTypes, ReaderOf(c, unit), unit, count, clock, EMPTY, |c.fxTypes|);
            done.Err? && !Ready(c.fxTypes, s)
  {
    UnreadableRaises(c, unit, ScanId("fx", count("fx"), k));
    FirstRefreshMakesReadyIff(c.fxTypes, ReaderOf(c, unit), unit, count, clock);
    var j :| 0 <= j < |c.fxTypes| && c.fxTypes[j] == "fx";
    assert !TypeReadable(ReaderOf(c, unit), c.fxTypes[j], count(c.fxTypes[j]), count(c.fxTypes[j]));
  }

  lemma {:induction false} StopsAt(read: Reader, fxType: string, count: nat, n: nat, m: nat)
    requires 0 < n <= m && BlocksOf(read, fxType, count, n - 1).Ok?
    requires BlocksOf(read, fxType, count, n).Err?
    ensures BlocksOf(read, fxType, count, m) == BlocksOf(read, fxType, count, n)
    ensures Taken(read, fxType, count, m) == n
  {
    if n < m {
      StopsAt(read, fxType, count, n, m - 1);
    }
  }

  lemma {:induction false} RaisesFrom(fxTypes: seq<string>, read: Reader, unit: Unit, count: string -> nat, clock: nat -> int, s: Store,
                                      n: nat, m: nat)
    requires n <= m <= |fxTypes| && Refreshed(fxTypes, read, unit, count, clock, s, n).1.Err?
    ensures Refreshed(fxTypes, read, unit, count, clock, s, m) == Refreshed(fxTypes, read, unit, count, clock, s, n)
  {
    if n < m {
      RaisesFrom(fxTypes, read, unit, count, clock, s, n, m - 1);
    }
  }

  // ---- the blocks themselves --------------------------------------------------------------------

  /** An fx block read whole: its switch, the effect it runs, and the two sliders of that
      effect in their order, each with its range and the value the unit answers. */
  lemma FxBlockRead(c: RefreshLoop.Config, unit: Unit, fxId: string, name: string, option1: string, option2: string,
                    entry1: AddressMap.Setting, values1: AddressMap.Setting, raw1: int,
                    entry2: AddressMap.Setting, values2: AddressMap.Setting, raw2: int)
    requires unit.setting("fx", fxId, "TYPE") == Label(name)
    requires name in c.policy.byName && c.policy.byName[name] == Labels(Some(option1), Some(option2))
    requires Offers(c.spec, fxId, name, option1, entry1, values1) && unit.raw("fx", fxId, option1) == Some(raw1)
    requires Offers(c.spec, fxId, name, option2, entry2, values2) && unit.raw("fx", fxId, option2) == Some(raw2)
    ensures var read := BlockOf(c.policy, c.spec, unit, "fx", fxId);
            && read.Ok?
            && var b := read.value;
               && b.fxId == fxId && b.state == unit.setting("fx", fxId, "SW") && b.name == Label(name)
               && b.slider1.Some? && ReadAs(values1.values, raw1, b.slider1.value.value)
               && b.slider1.value == Slider(b.slider1.value.value, option1, entry1.range.0, entry1.range.1)
               && b.slider2.Some? && ReadAs(values2.values, raw2, b.slider2.value.value)
               && b.slider2.value == Slider(b.slider2.value.value, option2, entry2.range.0, entry2.range.1)
  {
    EffectSliderRead(c.spec, fxId, name, option1, entry1, values1, raw1);
    EffectSliderRead(c.spec, fxId, name, option2, entry2, values2, raw2);
  }

  /** A block of a type whose sliders go by the type alone; one without a TYPE is named after
      its type and id. */
  lemma PlainBlockRead(c: RefreshLoop.Config, unit: Unit, t: string, fxId: string, option1: string, option2: string,
                       entry1: AddressMap.Setting, raw1: int, entry2: AddressMap.Setting, raw2: int)
    requires t != "fx" && t != "eq" && t in c.policy.byType && c.policy.byType[t] == Labels(Some(option1), Some(option2))
    requires OffersPlain(c.spec, t, fxId, option1, entry1) && unit.raw(t, fxId, option1) == Some(raw1)
    requires OffersPlain(c.spec, t, fxId, option2, entry2) && unit.raw(t, fxId, option2) == Some(raw2)
    ensures BlockOf(c.policy, c.spec, unit, t, fxId) ==
            Ok(Block(fxId, unit.setting(t, fxId, "SW"),
                     if t == "ns" || t == "delay" then Label(t + fxId) else unit.setting(t, fxId, "TYPE"),
                     Some(Slider(Raw(raw1), option1, entry1.range.0, entry1.range.1)),
                     Some(Slider(Raw(raw2), option2, entry2.range.0, entry2.range.1))))
  {
    PlainSliderRead(c.spec, t, fxId, Nothing, option1, entry1, Some(raw1));
    PlainSliderRead(c.spec, t, fxId, Nothing, option2, entry2, Some(raw2));
  }

  /** A scan that gets through has each block as it was read, in address order. */
  lemma {:induction false} BlocksInOrder(read: Reader, fxType: string, count: nat, n: nat, k: nat)
    requires BlocksOf(read, fxType, count, n).Ok? && k < n
    ensures read(fxType, ScanId(fxType, count, k)) == Ok(BlocksOf(read, fxType, count, n).value[k])
  {
    if k < n - 1 {
      BlocksInOrder(read, fxType, count, n - 1, k);
    }
  }

  /** After n fx blocks the owner has the TYPE read of each, and of no other block anything
      new; blocks of another type leave it alone. */
  lemma {:induction false} NamesAfter(s: Store, unit: Unit, fxType: string, count: nat, n: nat, x: string)
    requires n <= count
    ensures var s' := NamesTaken(s, unit, fxType, count, n);
            && s'.blocks == s.blocks && s'.lastSync == s.lastSync && (fxType != "fx" ==> s' == s)
            && (forall k: nat | fxType == "fx" && k < n && ScanId("fx", count, k) == x ::
                  x in s'.fxNames && s'.fxNames[x] == unit.setting("fx", x, "TYPE"))
            && ((forall k: nat | k < n :: ScanId("fx", count, k) != x) ==>
                (x in s'.fxNames <==> x in s.fxNames) && (x in s.fxNames ==> s'.fxNames[x] == s.fxNames[x]))
  {
    if n > 0 {
      NamesAfter(s, unit, fxType, count, n - 1, x);
    }
  }

  // ---- a refresh as a run of operations ---------------------------------------------------------

  /** The scans of the first n types, in order, as operations on the patch state. */
  function ScanOps(fxTypes: seq<string>, read: Reader, count: string -> nat, clock: nat -> int, n: nat): seq<PatchRuns.Op>
    requires n <= |fxTypes|
  {
    if n == 0 then []
    else
      var t := fxTypes[n - 1];
      var blocks := BlocksOf(read, t, count(t), count(t));
      ScanOps(fxTypes, read, count, clock, n - 1) + [PatchRuns.Scan(t, if blocks.Ok? then blocks.value else [], clock(n - 1))]
  }

  /** Blocks are read under their ids and by the names the unit gives. */
  ghost predicate NamesAsRead(read: Reader, unit: Unit) {
    forall t, fxId :: read(t, fxId).Ok? ==> read(t, fxId).value.fxId == fxId && read(t, fxId).value.name == NameOf(unit, t, fxId)
  }

  lemma {:induction false} BlocksHaveIds(read: Reader, unit: Unit, fxType: string, count: nat, n: nat)
    requires NamesAsRead(read, unit) && BlocksOf(read, fxType, count, n).Ok?
    ensures forall k | 0 <= k < n :: BlocksOf(read, fxType, count, n).value[k].fxId == ScanId(fxType, count, k)
  {
    if n > 0 {
      BlocksHaveIds(read, unit, fxType, count, n - 1);
    }
  }

  lemma ReaderNamesAsRead(c: RefreshLoop.Config, unit: Unit)
    ensures NamesAsRead(ReaderOf(c, unit), unit)
  {
  }

  lemma {:induction false} NamesTakenRecord(s: Store, read: Reader, unit: Unit, count: nat, n: nat)
    requires NamesAsRead(read, unit)
    requires BlocksOf(read, "fx", count, n).Ok?
    ensures NamesTaken(s, unit, "fx", count, n) == PatchRuns.RecordNames(s, BlocksOf(read, "fx", count, n).value)
  {
    if n > 0 {
      NamesTakenRecord(s, read, unit, count, n - 1);
      var bs := BlocksOf(read, "fx", count, n).value;
      assert bs[..n - 1] == BlocksOf(read, "fx", count, n - 1).value;
    }
  }

  lemma TypeScannedIsScan(fxTypes: seq<string>, read: Reader, unit: Unit, s: Store, t: string, count: nat, ts: int)
    requires NamesAsRead(read, unit) && t in fxTypes && TypeScanned(read, unit, s, t, count, ts).1.Ok?
    ensures BlocksOf(read, t, count, count).Ok?
    ensures var scan := PatchRuns.Scan(t, BlocksOf(read, t, count, count).value, ts);
            PatchRuns.Legal(fxTypes, scan) && TypeScanned(read, unit, s, t, count, ts).0 == PatchRuns.Do(fxTypes, s, scan)
  {
    BlocksHaveIds(read, unit, t, count, count);
    if t == "fx" {
      NamesTakenRecord(s, read, unit, count, count);
    }
  }

  lemma {:induction false} RefreshSoFar(fxTypes: seq<string>, read: Reader, unit: Unit, count: string -> nat, clock: nat -> int, n: nat)
    requires n <= |fxTypes| && NamesAsRead(read, unit) && Refreshed(fxTypes, read, unit, count, clock, EMPTY, n).1.Ok?
    ensures PatchRuns.AllLegal(fxTypes, ScanOps(fxTypes, read, count, clock, n))
    ensures Refreshed(fxTypes, read, unit, count, clock, EMPTY, n).0 == PatchRuns.Exec(fxTypes, ScanOps(fxTypes, read, count, clock, n))
  {
    if n > 0 {
      RefreshSoFar(fxTypes, read, unit, count, clock, n - 1);
      var t, init, ops := fxTypes[n - 1], ScanOps(fxTypes, read, count, clock, n - 1), ScanOps(fxTypes, read, count, clock, n);
      var before := Refreshed(fxTypes, read, unit, count, clock, EMPTY, n - 1).0;
      assert ops[..|ops| - 1] == init && t in fxTypes;
      TypeScannedIsScan(fxTypes, read, unit, before, t, count(t), clock(n - 1));
    }
  }

  /** A first refresh that gets through is a legal run of whole scans. */
  lemma RefreshIsRun(c: RefreshLoop.Config, unit: Unit, count: string -> nat, clock: nat -> int)
    requires Refreshed(c.fxTypes, ReaderOf(c, unit), unit, count, clock, EMPTY, |c.fxTypes|).1.Ok?
    ensures var ops := ScanOps(c.fxTypes, ReaderOf(c, unit), count, clock, |c.fxTypes|);
            && PatchRuns.AllLegal(c.fxTypes, ops)
            && Refreshed(c.fxTypes, ReaderOf(c, unit), unit, count, clock, EMPTY, |c.fxTypes|).0 == PatchRuns.Exec(c.fxTypes, ops)
  {
    ReaderNamesAsRead(c, unit);
    RefreshSoFar(c.fxTypes, ReaderOf(c, unit), unit, count, clock, |c.fxTypes|);
  }

  // ---- from the wire to the state ----------------------------------------------------------

  /** What the state is told of a decoded value. */
  function Inbound(v: AddressCodec.DecodedValue): Decoded {
    Decoded(v.fxType, if v.fxId.Some? then v.fxId.value else "", v.valueName,
            if v.strValue.Some? then Label(v.strValue.value) else Nothing, v.intValue)
  }

  /** A slider value the unit sends arrives: decoded to a block and a parameter it moves every
      slider of that stored block which controls the parameter to the number decoded. */
  lemma DecodedValueArrives(fxTypes: seq<string>, s: Store, v: AddressCodec.DecodedValue, now: int, t: string, i: nat)
    requires |s.blocks| == |fxTypes| && v.fxType == Some(t) && t in s.blocks && v.fxId.Some?
    requires i < |s.blocks[t]| && s.blocks[t][i].fxId == v.fxId.value
    requires forall j | 0 <= j < i :: s.blocks[t][j].fxId != v.fxId.value
    requires v.valueName != "SW" && v.valueName != "TYPE"
    ensures Apply(fxTypes, s, Inbound(v), now).Ok?
    ensures var (s', result) := Apply(fxTypes, s, Inbound(v), now).value;
            && t in s'.blocks && |s'.blocks[t]| == |s.blocks[t]| && !result.typeChanged
            && var b, b' := s.blocks[t][i], s'.blocks[t][i];
               && (b.slider1.Some? && b.slider1.value.param == v.valueName ==>
                   b'.slider1 == Some(Slider(Raw(v.intValue), v.valueName, b.slider1.value.min, b.slider1.value.max)))
               && (b.slider2.Some? && b.slider2.value.param == v.valueName ==>
                   b'.slider2 == Some(Slider(Raw(v.intValue), v.valueName, b.slider2.value.min, b.slider2.value.max)))
  {
    ValueArrives(fxTypes, s, Inbound(v), now, t, i);
  }

  /** A TYPE the unit sends names the stored block, and queues a re-read of it under the number
      it goes by. */
  lemma DecodedTypeArrives(fxTypes: seq<string>, s: Store, queue: seq<RefreshLoop.Task>, v: AddressCodec.DecodedValue,
                           now: int, t: string, i: nat)
    requires |s.blocks| == |fxTypes| && v.fxType == Some(t) && t in s.blocks && v.fxId.Some?
    requires i < |s.blocks[t]| && s.blocks[t][i].fxId == v.fxId.value
    requires forall j | 0 <= j < i :: s.blocks[t][j].fxId != v.fxId.value
    requires v.valueName == "TYPE" && v.strValue.Some?
    requires v.fxId.value == "" || forall j | 0 <= j < |v.fxId.value| :: IsDigit(v.fxId.value[j])
    ensures var (s', queue', done) := Processed(fxTypes, s, queue, Inbound(v), now);
            && done == Ok(()) && t in s'.blocks && |s'.blocks[t]| == |s.blocks[t]|
            && s'.blocks[t][i] == s.blocks[t][i].(name := Label(v.strValue.value))
            && |queue'| == |queue| + 1 && queue'[..|queue|] == queue
            && queue'[|queue|].kind == "sliders" && queue'[|queue|].fxType == t
            && (v.fxId.value == "" ==> queue'[|queue|].fxId == "")
            && (v.fxId.value != "" ==> ParseInt(queue'[|queue|].fxId) == Some(Value(v.fxId.value)))
  {
    ValueArrives(fxTypes, s, Inbound(v), now, t, i);
    TaskIdIs(v.fxId.value);
  }

  /** What the echo of a switch written to a scanned block decodes to. The address is built
      for the block under its scan id. */
  function SwitchEcho(fxTypes: seq<string>, suffixNames: map<string, string>, files: seq<AddressMap.SpecFile>,
                      p: AddressCodec.Path, switch_: string): AddressCodec.Decoding
    requires p.In(files) && AddressCodec.Unambiguous(p)
    requires AddressCodec.EncodeValue(p.entry, AddressCodec.Named(switch_)).Some?
  {
    AddressCodec.BuiltForSetting(files, p, AddressCodec.Named(switch_));
    var built := AddressCodec.AddressFor(AddressMap.LoadTables(files), p.section, p.option, p.setting,
                                         Some(AddressCodec.Named(switch_)));
    AddressCodec.Decode(fxTypes, suffixNames, AddressMap.LoadIndices(fxTypes, files), built.bytes[..4],
                        AddressCodec.Many(built.bytes[4..]))
  }

  lemma SwitchEchoIs(fxTypes: seq<string>, suffixNames: map<string, string>, files: seq<AddressMap.SpecFile>,
                     p: AddressCodec.Path, switch_: string)
    requires p.In(files) && AddressCodec.Unambiguous(p) && p.entry.width <= 1
    requires AddressCodec.EncodeValue(p.entry, AddressCodec.Named(switch_)).Some?
    requires forall v | v in p.entry.values && v.1 == AddressMap.Lookup(p.entry.values, switch_).value :: v.0 == switch_
    ensures var echo := SwitchEcho(fxTypes, suffixNames, files, p, switch_);
            && echo.Decoded? && echo.value.valueName == p.setting && echo.value.strValue == Some(switch_)
            && var (fxType, known) := AddressCodec.Recognize(fxTypes, p.option);
               && echo.value.fxType == fxType
               && (fxType.Some? ==> echo.value.fxId == AddressCodec.Identify(suffixNames, fxType.value, known, p.option).0)
  {
    AddressCodec.DecodeUndoesAddressFor(fxTypes, suffixNames, files, p, AddressCodec.Named(switch_));
    AddressCodec.LabelRoundTrip(p.entry.values, switch_);
    var built := AddressCodec.AddressFor(AddressMap.LoadTables(files), p.section, p.option, p.setting,
                                         Some(AddressCodec.Named(switch_)));
    AddressCodec.DecodedIdentity(fxTypes, suffixNames, AddressMap.LoadIndices(fxTypes, files), built.bytes[..4],
                                 AddressCodec.Many(built.bytes[4..]));
  }

  lemma SwitchEchoDecodes(fxTypes: seq<string>, suffixNames: map<string, string>, files: seq<AddressMap.SpecFile>,
                          p: AddressCodec.Path, k: nat, count: nat, i: nat, switch_: string)
    requires p.In(files) && AddressCodec.Unambiguous(p) && p.entry.width <= 1
    requires AddressCodec.EncodeValue(p.entry, AddressCodec.Named(switch_)).Some?
    requires forall v | v in p.entry.values && v.1 == AddressMap.Lookup(p.entry.values, switch_).value :: v.0 == switch_
    requires k < |fxTypes| && i < count && fxTypes[k] != "" && !IsDigit(fxTypes[k][0])
    requires forall j, l | 0 <= j < |fxTypes| && 0 <= l < |fxTypes| && fxTypes[j] <= fxTypes[l] :: j == l
    requires p.option == fxTypes[k] + ScanId(fxTypes[k], count, i)
    ensures var t, echo := fxTypes[k], SwitchEcho(fxTypes, suffixNames, files, p, switch_);
            && echo.Decoded? && echo.value.valueName == p.setting
            && echo.value.fxType == Some(t) && echo.value.strValue == Some(switch_) && echo.value.fxId.Some?
            && (echo.value.fxId == Some(ScanId(t, count, i)) <==> EchoesItsId(t, count, i))
  {
    SwitchEchoIs(fxTypes, suffixNames, files, p, switch_);
    AddressCodec.DecodedIdIsScanId(fxTypes, suffixNames, k, count, i);
  }

  /** The unit's echoes name the block as the scan does: not the two preamps, which are stored
      by letter and echoed by number, nor fx blocks from the tenth on. */
  predicate EchoesItsId(fxType: string, count: nat, i: nat) {
    count == 1 || (!(fxType == "preamp" && i < 2) && (fxType == "fx" ==> i < 9))
  }

  /** When the echo of a switch written to a scanned block lands on that very block: exactly
      when the unit echoes the id it is stored under. It then sets the stored block's state to
      the label sent, marks the type as heard of, and leaves the rest as it was; otherwise the
      block keeps its old state. */
  lemma EchoedSwitchLands(fxTypes: seq<string>, suffixNames: map<string, string>, files: seq<AddressMap.SpecFile>,
                          p: AddressCodec.Path, k: nat, count: nat, i: nat, switch_: string, s: Store, now: int)
    requires p.In(files) && AddressCodec.Unambiguous(p) && p.entry.width <= 1
    requires AddressCodec.EncodeValue(p.entry, AddressCodec.Named(switch_)).Some?
    requires forall v | v in p.entry.values && v.1 == AddressMap.Lookup(p.entry.values, switch_).value :: v.0 == switch_
    requires k < |fxTypes| && i < count && fxTypes[k] != "" && !IsDigit(fxTypes[k][0])
    requires forall j, l | 0 <= j < |fxTypes| && 0 <= l < |fxTypes| && fxTypes[j] <= fxTypes[l] :: j == l
    requires p.option == fxTypes[k] + ScanId(fxTypes[k], count, i) && p.setting == "SW"
    requires Ready(fxTypes, s) && fxTypes[k] in s.blocks
    requires FirstWith(s.blocks[fxTypes[k]], ScanId(fxTypes[k], count, i)) < |s.blocks[fxTypes[k]]|
    ensures var t := fxTypes[k];
            var j := FirstWith(s.blocks[t], ScanId(t, count, i));
            var echo := SwitchEcho(fxTypes, suffixNames, files, p, switch_);
            && echo.Decoded? && Apply(fxTypes, s, Inbound(echo.value), now).Ok?
            && SwitchTaken(s, t, j, switch_, now, Apply(fxTypes, s, Inbound(echo.value), now).value, EchoesItsId(t, count, i))
  {
    SwitchEchoDecodes(fxTypes, suffixNames, files, p, k, count, i, switch_);
    var echo := SwitchEcho(fxTypes, suffixNames, files, p, switch_).value;
    SwitchApplied(fxTypes, s, Inbound(echo), fxTypes[k], ScanId(fxTypes[k], count, i), now);
  }

  /** The j-th block of the type has taken the label and nothing else changed; or it has not. */
  predicate SwitchTaken(s: Store, t: string, j: nat, switch_: string, now: int, applied: (Store, ApplyResult), taken: bool)
    requires t in s.blocks && j < |s.blocks[t]|
  {
    if taken then
      applied == (Store(s.blocks[t := s.blocks[t][j := s.blocks[t][j].(state := Label(switch_))]], s.lastSync[t := now], s.fxNames),
                  ApplyResult(true, false))
    else
      t in applied.0.blocks && j < |applied.0.blocks[t]| && applied.0.blocks[t][j] == s.blocks[t][j]
  }

  lemma SwitchApplied(fxTypes: seq<string>, s: Store, d: Decoded, t: string, fxId: string, now: int)
    requires Ready(fxTypes, s) && t in s.blocks && FirstWith(s.blocks[t], fxId) < |s.blocks[t]|
    requires d.fxType == Some(t) && d.valueName == "SW" && d.strValue.Label?
    ensures Apply(fxTypes, s, d, now).Ok?
    ensures SwitchTaken(s, t, FirstWith(s.blocks[t], fxId), d.strValue.text, now, Apply(fxTypes, s, d, now).value, d.fxId == fxId)
  {
  }

  /** In these indices the TYPE of an fx block's own table lists effects that have a table,
      and the TYPE of a sub-effect's table lists none. */
  ghost predicate TypesTold(ix: AddressMap.Indices, suffixes: map<string, string>) {
    forall container, b | container in ix.blocks && b in ix.blocks[container] ::
      BlockTold(ix, suffixes, ix.blocks[container][b])
  }

  ghost predicate BlockTold(ix: AddressMap.Indices, suffixes: map<string, string>, block: (string, string)) {
    "fx" <= block.0 && block.1 in ix.settings ==> TypeTold(ix.settings[block.1], suffixes, |block.0| <= 3)
  }

  ghost predicate TypeTold(settings: map<int, (string, AddressMap.Setting)>, suffixes: map<string, string>, own: bool) {
    forall t | t in settings && settings[t].0 == "TYPE" ::
      forall v | v in settings[t].1.values :: v.0 in suffixes <==> own
  }

  lemma TypesToldAt(ix: AddressMap.Indices, suffixes: map<string, string>, container: string, b: int)
    requires TypesTold(ix, suffixes) && container in ix.blocks && b in ix.blocks[container]
    ensures BlockTold(ix, suffixes, ix.blocks[container][b])
  {
  }

  lemma {:induction false} RecognizedBegins(fxTypes: seq<string>, name: string)
    ensures AddressCodec.Recognize(fxTypes, name).0.Some? ==> AddressCodec.Recognize(fxTypes, name).0.value <= name
  {
    if fxTypes != [] {
      RecognizedBegins(fxTypes[..|fxTypes| - 1], name);
    }
  }

  lemma LabelTold(settings: map<int, (string, AddressMap.Setting)>, suffixes: map<string, string>, own: bool, t: int, raw: int)
    requires TypeTold(settings, suffixes, own) && t in settings && settings[t].0 == "TYPE"
    ensures var named := AddressCodec.LabelForRaw(settings[t].1.values, raw);
            named.Some? ==> (named.value in suffixes <==> own)
  {
    ListedLabel(settings[t].1.values, suffixes, own, raw);
  }

  lemma {:induction false} ListedLabel(values: seq<(string, int)>, suffixes: map<string, string>, own: bool, raw: int)
    requires forall v | v in values :: v.0 in suffixes <==> own
    ensures var named := AddressCodec.LabelForRaw(values, raw);
            named.Some? ==> (named.value in suffixes <==> own)
  {
    if values != [] {
      assert values[0] in values;
      assert forall v :: v in values[1..] ==> v in values;
      ListedLabel(values[1..], suffixes, own, raw);
    }
  }

  /** A TYPE echo decoded for an fx block leaves the owner naming an effect exactly if it is
      the block's own, and not a sub-effect's of which only the digit was kept, and its byte
      has a name. */
  lemma EchoNamesEffectIff(fxTypes: seq<string>, suffixNames: map<string, string>, suffixes: map<string, string>,
                           ix: AddressMap.Indices, address: seq<int>, value: AddressCodec.Wire, s: Store, now: int)
    requires TypesTold(ix, suffixes)
    requires var echo := AddressCodec.Decode(fxTypes, suffixNames, ix, address, value);
             && echo.Decoded? && echo.value.fxType == Some("fx") && echo.value.valueName == "TYPE"
             && Apply(fxTypes, s, Inbound(echo.value), now).Ok? && Apply(fxTypes, s, Inbound(echo.value), now).value.1.typeChanged
    ensures var v := AddressCodec.Decode(fxTypes, suffixNames, ix, address, value).value;
            var names := Apply(fxTypes, s, Inbound(v), now).value.0.fxNames;
            && v.fxId.Some? && v.fxId.value in names
            && var entry := names[v.fxId.value];
               (entry.Label? && entry.text in suffixes <==> v.fxTableSuffix == None && v.strValue.Some?)
  {
    var v := AddressCodec.Decode(fxTypes, suffixNames, ix, address, value).value;
    var at := AddressCodec.Resolve(ix, address).value;
    RecognizedBegins(fxTypes, at.1.0);
    TypesToldAt(ix, suffixes, at.0.1, address[2]);
    LabelTold(ix.settings[at.1.1], suffixes, |at.1.0| <= 3, address[3], v.intValue);
    ApplyKeepsBlocks(fxTypes, s, Inbound(v), now);
  }

  // ---- what a decoded value makes of state and queue ---------------------------------------

  /** Why the handler raised: the state has no such type, the id is no number, or there was
      no value byte to decode. */
  datatype Raised = NoSuchType | NotANumber | NoData

  /** The new state, the new queue, and whether the handler got through without raising. */
  function Processed(fxTypes: seq<string>, s: Store, queue: seq<RefreshLoop.Task>, d: Decoded, now: int)
    : (Store, seq<RefreshLoop.Task>, Result<(), Raised>)
  {
    match Apply(fxTypes, s, d, now)
    case Err(_) => (s, queue, Err(NoSuchType))
    case Ok((s', result)) =>
      if !result.typeChanged || d.fxType == None then (s', queue, Ok(()))
      else if TaskId(d.fxId) == None then (s', queue, Err(NotANumber))
      else (s', queue + [RefreshLoop.SliderTask(d.fxType.value, TaskId(d.fxId).value)], Ok(()))
  }

  /** The handler is the callback's step of the refresh loop, followed by its submission. */
  lemma ProcessedIsEchoThenSubmit(c: RefreshLoop.Config, s: RefreshLoop.State, d: Decoded, now: int)
    requires s.receiver == RefreshLoop.Listening
    ensures var echoed := RefreshLoop.Next(c, s, RefreshLoop.Echo(d, now));
            var done := if echoed.receiver.Owes? then RefreshLoop.Next(c, echoed, RefreshLoop.SubmitOwed) else echoed;
            var (store, queue, ok) := Processed(c.fxTypes, s.store, s.queue, d, now);
            done == RefreshLoop.State(store, queue, RefreshLoop.Listening, s.worker)
  {
  }

  // ---- the facade ------------------------------------------------------------------------------

  lemma {:induction false} TakenAll(read: Reader, fxType: string, count: nat, n: nat)
    requires BlocksOf(read, fxType, count, n).Ok?
    ensures Taken(read, fxType, count, n) == n
  {
  }

  lemma {:induction false} NamesNext(s: Store, unit: Unit, fxType: string, count: nat, n: nat)
    ensures NamesTaken(s, unit, fxType, count, n + 1) ==
            var before := NamesTaken(s, unit, fxType, count, n);
            var fxId := ScanId(fxType, count, n);
            if fxType == "fx" then SetFxName(before, fxId, NameOf(unit, fxType, fxId)) else before
  {
    if fxType != "fx" {
      assert NamesTaken(s, unit, fxType, count, n) == s;
    }
  }

  lemma {:induction false} BlocksNext(read: Reader, fxType: string, count: nat, n: nat)
    requires BlocksOf(read, fxType, count, n).Ok?
    ensures var next := read(fxType, ScanId(fxType, count, n));
            BlocksOf(read, fxType, count, n + 1) ==
              if next.Err? then Err(next.error) else Ok(BlocksOf(read, fxType, count, n).value + [next.value])
  {
  }

  lemma ViewsNext(blocks: seq<FxBlock>, fx: FxBlock)
    ensures Views(blocks + [fx]) == Views(blocks) + [fx.View()]
  {
  }

  ghost predicate AllDifferent(blocks: seq<FxBlock>) {
    forall i, j | 0 <= i < j < |blocks| :: blocks[i] != blocks[j]
  }

  lemma StillDifferent(blocks: seq<FxBlock>, fx: FxBlock)
    requires AllDifferent(blocks) && fx !in blocks
    ensures AllDifferent(blocks + [fx])
  {
  }

  class Gt1000 {
    const config: RefreshLoop.Config
    const state: PatchState
    const refresh: RefreshScheduler.RefreshScheduler

    constructor (config: RefreshLoop.Config)
      ensures Valid() && fresh(state) && fresh(refresh)
      ensures state.View() == EMPTY && state.fxTypes == config.fxTypes && this.config == config && refresh.queue == []
    {
      this.config := config;
      state := new PatchState(config.fxTypes);
      refresh := new RefreshScheduler.RefreshScheduler();
    }

    ghost predicate Valid()
      reads this, state
    {
      state.Valid() && state.fxTypes == config.fxTypes
    }

    /** One block's whole state, or without its sliders; an fx block's name is recorded with
        its owner on the way. */
    method SnapshotBlock(unit: Unit, fxType: string, fxId: string, getSliders: bool) returns (fx: Result<FxBlock, Fault>)
      requires Valid()
      modifies state`fxNames
      ensures Valid() && (fx.Ok? ==> fresh(fx.value))
      ensures getSliders ==>
                ReaderOf(config, unit)(fxType, fxId) == if fx.Ok? then Ok(fx.value.View()) else Err(fx.error)
      ensures !getSliders ==>
                fx.Ok? && fx.value.View() == Block(fxId, unit.setting(fxType, fxId, "SW"), NameOf(unit, fxType, fxId), None, None)
      ensures state.View() ==
              if fxType == "fx" then SetFxName(old(state.View()), fxId, NameOf(unit, fxType, fxId)) else old(state.View())
    {
      var switch_ := unit.setting(fxType, fxId, "SW");
      var name := NameOf(unit, fxType, fxId);
      if fxType == "fx" {
        state.SetFxName(fxId, name);
      }
      var slider1, slider2 := None, None;
      if getSliders {
        var sliders := SlidersFor(unit, fxType, fxId, name);
        if sliders.Err? {
          return Err(sliders.error);
        }
        slider1, slider2 := sliders.value.0, sliders.value.1;
      }
      var block := new FxBlock(Block(fxId, switch_, name, slider1, slider2));
      return Ok(block);
    }

    /** Both sliders of a block, an fx block's by the owner's entry, which must be there. */
    method SlidersFor(unit: Unit, fxType: string, fxId: string, paramName: Reading)
      returns (sliders: Result<(Option<Slider>, Option<Slider>), Fault>)
      requires Valid()
      ensures var names := state.View().fxNames;
              sliders == if fxType != "fx" then SlidersOf(config.policy, config.spec, unit, fxType, fxId, paramName, Nothing)
                         else if fxId in names then SlidersOf(config.policy, config.spec, unit, fxType, fxId, paramName, names[fxId])
                         else Err(NoKey)
    {
      var owner := Nothing;
      if fxType == "fx" {
        var named := state.FxName(fxId);
        if named.Err? {
          return Err(NoKey);
        }
        owner := named.value;
      }
      sliders := SlidersOf(config.policy, config.spec, unit, fxType, fxId, paramName, owner);
    }

    /** The next block of a scan that has these. */
    method TakeBlock(unit: Unit, fxType: string, count: nat, blocks: seq<FxBlock>) returns (more: Result<seq<FxBlock>, Fault>)
      requires Valid() && AllDifferent(blocks)
      requires BlocksOf(ReaderOf(config, unit), fxType, count, |blocks|) == Ok(Views(blocks))
      modifies state`fxNames
      ensures Valid()
      ensures more.Ok? ==>
                && |more.value| == |blocks| + 1 && more.value[..|blocks|] == blocks && fresh(more.value[|blocks|])
                && AllDifferent(more.value)
      ensures BlocksOf(ReaderOf(config, unit), fxType, count, |blocks| + 1)
              == if more.Ok? then Ok(Views(more.value)) else Err(more.error)
      ensures var fxId := ScanId(fxType, count, |blocks|);
              state.View() ==
              if fxType == "fx" then SetFxName(old(state.View()), fxId, NameOf(unit, fxType, fxId)) else old(state.View())
    {
      BlocksNext(ReaderOf(config, unit), fxType, count, |blocks|);
      var fx := SnapshotBlock(unit, fxType, ScanId(fxType, count, |blocks|), true);
      if fx.Err? {
        return Err(fx.error);
      }
      ViewsNext(blocks, fx.value);
      StillDifferent(blocks, fx.value);
      return Ok(blocks + [fx.value]);
    }

    /** Every block of a type, in address order, up to one that raises. */
    method SnapshotAll(unit: Unit, fxType: string, count: nat) returns (out: Result<seq<FxBlock>, Fault>)
      requires Valid()
      modifies state`fxNames
      ensures Valid()
      ensures out.Ok? ==> fresh(out.value) && AllDifferent(out.value)
      ensures BlocksOf(ReaderOf(config, unit), fxType, count, count) == if out.Ok? then Ok(Views(out.value)) else Err(out.error)
      ensures state.View() ==
              NamesTaken(old(state.View()), unit, fxType, count, Taken(ReaderOf(config, unit), fxType, count, count))
    {
      var blocks: seq<FxBlock> := [];
      ghost var read, was := ReaderOf(config, unit), state.View();
      assert Views(blocks) == [];
      for i := 0 to count
        invariant Valid() && |blocks| == i && fresh(blocks) && AllDifferent(blocks)
        invariant BlocksOf(read, fxType, count, i) == Ok(Views(blocks))
        invariant state.View() == NamesTaken(was, unit, fxType, count, i)
      {
        NamesNext(was, unit, fxType, count, i);
        var more := TakeBlock(unit, fxType, count, blocks);
        if more.Err? {
          StopsAt(read, fxType, count, i + 1, count);
          return Err(more.error);
        }
        assert more.value == blocks + [more.value[i]];
        blocks := more.value;
      }
      TakenAll(read, fxType, count, count);
      return Ok(blocks);
    }

    /** One turn of a refresh: the blocks of a type read and recorded. */
    method ScanType(unit: Unit, fxType: string, count: nat, now: int) returns (done: Result<(), Fault>)
      requires Valid()
      modifies state
      ensures Valid() && fresh(state.Repr - old(state.Repr))
      ensures (state.View(), done) == TypeScanned(ReaderOf(config, unit), unit, old(state.View()), fxType, count, now)
    {
      var states := SnapshotAll(unit, fxType, count);
      if states.Err? {
        return Err(states.error);
      }
      state.RecordScan(fxType, states.value, now);
      return Ok(());
    }

    /** A full refresh: every type scanned and recorded, unless stop() is noticed first,
        before type number `stoppedAt`, or a block raises. */
    method RefreshState(unit: Unit, count: string -> nat, stoppedAt: nat, clock: nat -> int) returns (done: Result<(), Fault>)
      requires Valid()
      modifies state
      ensures Valid() && fresh(state.Repr - old(state.Repr))
      ensures (state.View(), done) ==
              Refreshed(config.fxTypes, ReaderOf(config, unit), unit, count, clock, old(state.View()), RefreshScheduler.Min(stoppedAt, |config.fxTypes|))
    {
      var scanned := 0;
      done := Ok(());
      while scanned < |config.fxTypes|
        invariant Valid() && scanned <= stoppedAt && scanned <= |config.fxTypes| && done.Ok?
        invariant fresh(state.Repr - old(state.Repr))
        invariant Refreshed(config.fxTypes, ReaderOf(config, unit), unit, count, clock, old(state.View()), scanned) == (state.View(), done)
      {
        if scanned == stoppedAt {
          return;
        }
        done := ScanType(unit, config.fxTypes[scanned], count(config.fxTypes[scanned]), clock(scanned));
        scanned := scanned + 1;
        if done.Err? {
          break;
        }
      }
      if done.Err? {
        RaisesFrom(config.fxTypes, ReaderOf(config, unit), unit, count, clock, old(state.View()),
                   scanned, RefreshScheduler.Min(stoppedAt, |config.fxTypes|));
      }
    }

    /** The handler of a slider task: both sliders chosen by the type's policy, no type name
        being known, read again and stored. A lookup that fails leaves the state as it was. */
    method RefreshSliders(unit: Unit, fxType: string, fxId: string) returns (found: Result<(), Fault>)
      requires Valid()
      modifies state.Repr
      ensures Valid()
      ensures var s := old(state.View());
              var owner := if fxType == "fx" then FxName(s, fxId) else Ok(Nothing);
              match (if owner.Ok? then SlidersOf(config.policy, config.spec, unit, fxType, fxId, Nothing, owner.value) else Err(NoKey))
              case Err(e) => found == Err(e) && state.View() == s
              case Ok((slider1, slider2)) =>
                match SetSliders(s, fxType, fxId, slider1, slider2)
                case Ok(s') => found == Ok(()) && state.View() == s'
                case Err(_) => found == Err(NoKey) && state.View() == s
    {
      var sliders := SlidersFor(unit, fxType, fxId, Nothing);
      if sliders.Err? {
        return Err(sliders.error);
      }
      var stored := state.SetSliders(fxType, fxId, sliders.value.0, sliders.value.1);
      found := if stored.Ok? then Ok(()) else Err(NoKey);
    }

    /** The handler of unsolicited data: a program change queues a full refresh; anything
        decoded is folded into the state, and a changed type queues a slider re-read. An id
        that int() refuses raises after the state has changed, and queues nothing. */
    method ProcessDataFromUnit(offset: Bytes, data: Bytes, suffixNames: map<string, string>, ix: AddressMap.Indices, now: int)
      returns (done: Result<(), Raised>)
      requires Valid()
      modifies state`lastSync, state`fxNames, state.Repr, refresh`queue, refresh`event
      ensures Valid()
      ensures offset == [0x7F, 0x00, 0x01, 0x00] ==>
                && done == Ok(()) && state.View() == old(state.View())
                && refresh.queue == old(refresh.queue) + [RefreshScheduler.Task("full", "", "")]
      ensures offset != [0x7F, 0x00, 0x01, 0x00] ==>
                match AddressCodec.Decode(state.fxTypes, suffixNames, ix, offset, AddressCodec.Many(data))
                case NotKnown => done == Ok(()) && state.View() == old(state.View()) && refresh.queue == old(refresh.queue)
                case Raises => done == Err(NoData) && state.View() == old(state.View()) && refresh.queue == old(refresh.queue)
                case Decoded(v) =>
                  Processed(state.fxTypes, old(state.View()), old(refresh.queue), Inbound(v), now)
                  == (state.View(), refresh.queue, done)
    {
      if offset == PROGRAM_CHANGE_OFFSET {
        refresh.Submit(RefreshLoop.FULL);
        return Ok(());
      }
      var decoding := AddressCodec.Decode(state.fxTypes, suffixNames, ix, offset, AddressCodec.Many(data));
      match decoding {
        case NotKnown => return Ok(());
        case Raises => return Err(NoData);
        case Decoded(v) => done := FoldDecoded(Inbound(v), now);
      }
    }

    method FoldDecoded(d: Decoded, now: int) returns (done: Result<(), Raised>)
      requires Valid()
      modifies state`lastSync, state`fxNames, state.Repr, refresh`queue, refresh`event
      ensures Valid()
      ensures Processed(state.fxTypes, old(state.View()), old(refresh.queue), d, now) == (state.View(), refresh.queue, done)
    {
      var result := state.Apply(d, now);
      if result.Err? {
        return Err(NoSuchType);
      }
      if result.value.typeChanged {
        var fxId := TaskId(d.fxId);
        if fxId == None {
          return Err(NotANumber);
        }
        refresh.Submit(RefreshLoop.SliderTask(d.fxType.value, fxId.value));
      }
      return Ok(());
    }

    /** Writes a block's switch to the unit and records it, both under the block's normalised
        id: `sent` is the frame that goes out. Without an address nothing is sent or recorded. */
    method ToggleFxState(deviceId: int, fxType: string, count: nat, fxId: Id, value: string)
      returns (sent: Option<Bytes>, found: Result<(), Fault>)
      requires Valid()
      modifies state.Repr
      ensures Valid()
      ensures var id := Str(NormalizeBlock(fxType, count, fxId));
              match AddressCodec.AddressFor(config.spec.tables, SectionOf(config.spec, fxType, id, None), KeyOf(fxType, id, None),
                                            "SW", Some(AddressCodec.Named(value)))
              case Built(bytes) =>
                && sent == Some(SysExCodec.EncodeDt1(deviceId, bytes, None))
                && (match SetFx(old(state.View()), fxType, id, StateField, Label(value))
                    case Ok(s) => found == Ok(()) && state.View() == s
                    case Err(e) => found == Err(NoKey) && state.View() == old(state.View()))
              case _ => sent == None && found == Err(NoAddress) && state.View() == old(state.View())
    {
      var id := Str(NormalizeBlock(fxType, count, fxId));
      var address := AddressCodec.AddressFor(config.spec.tables, SectionOf(config.spec, fxType, id, None), KeyOf(fxType, id, None),
                                             "SW", Some(AddressCodec.Named(value)));
      if !address.Built? {
        return None, Err(NoAddress);
      }
      var stored := state.SetFx(fxType, id, StateField, Label(value));
      return Some(SysExCodec.EncodeDt1(deviceId, address.bytes, None)), if stored.Ok? then Ok(()) else Err(NoKey);
    }
  }
}
