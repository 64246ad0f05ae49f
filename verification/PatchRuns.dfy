/** The patch state over whole runs of its operations, each of them atomic: when it counts
    as ready, and that the stored fx blocks and the fx-name record tell the same story. */
module PatchRuns {
  import opened Wrappers
  import opened BlockIds
  import opened PatchStore

  datatype Op =
    | Scan(fxType: string, scanned: seq<Block>, ts: int)
    | Echo(d: Decoded, now: int)
    | Change(fxType: string, fxId: string, field: Field, value: Reading)
    | Reread(fxType: string, fxId: string, slider1: Option<Slider>, slider2: Option<Slider>)
    | Rename(fxId: string, name: Reading)

  /** A scan of fx blocks records each block's name with the owner before it is stored. */
  function RecordNames(s: Store, scanned: seq<Block>): Store {
    if scanned == [] then s
    else
      var last := scanned[|scanned| - 1];
      SetFxName(RecordNames(s, scanned[..|scanned| - 1]), last.fxId, last.name)
  }

  function Do(fxTypes: seq<string>, s: Store, op: Op): Store {
    match op
    case Scan(t, scanned, ts) => RecordScan(if t == "fx" then RecordNames(s, scanned) else s, t, scanned, ts)
    case Echo(d, now) => (match Apply(fxTypes, s, d, now) case Ok((s', _)) => s' case Err(_) => s)
    case Change(t, fxId, field, value) => (match SetFx(s, t, fxId, field, value) case Ok(s') => s' case Err(_) => s)
    case Reread(t, fxId, s1, s2) => (match SetSliders(s, t, fxId, s1, s2) case Ok(s') => s' case Err(_) => s)
    case Rename(fxId, name) => SetFxName(s, fxId, name)
  }

  function Exec(fxTypes: seq<string>, ops: seq<Op>): Store {
    if ops == [] then EMPTY else Do(fxTypes, Exec(fxTypes, ops[..|ops| - 1]), ops[|ops| - 1])
  }

  /** Scans cover a declared type and give their blocks the ids of that type. */
  predicate Legal(fxTypes: seq<string>, op: Op) {
    op.Scan? ==>
      && op.fxType in fxTypes
      && forall i | 0 <= i < |op.scanned| :: op.scanned[i].fxId == ScanId(op.fxType, |op.scanned|, i)
  }

  predicate AllLegal(fxTypes: seq<string>, ops: seq<Op>) {
    forall op | op in ops :: Legal(fxTypes, op)
  }

  // ---- readiness -----------------------------------------------------------------------------

  function Scanned(ops: seq<Op>): set<string> {
    set op | op in ops && op.Scan? :: op.fxType
  }

  lemma DoStores(fxTypes: seq<string>, s: Store, op: Op)
    ensures Do(fxTypes, s, op).blocks.Keys == s.blocks.Keys + if op.Scan? then {op.fxType} else {}
  {
    if op.Scan? {
      RecordNamesKeepsBlocks(s, op.scanned);
    }
  }

  lemma {:induction false} StoredAreScanned(fxTypes: seq<string>, ops: seq<Op>)
    ensures Exec(fxTypes, ops).blocks.Keys == Scanned(ops)
  {
    if ops != [] {
      var before, op := ops[..|ops| - 1], ops[|ops| - 1];
      StoredAreScanned(fxTypes, before);
      ScannedOneMore(before, op);
      assert ops == before + [op];
      DoStores(fxTypes, Exec(fxTypes, before), op);
    }
  }

  lemma ScannedOneMore(ops: seq<Op>, op: Op)
    ensures Scanned(ops + [op]) == Scanned(ops) + if op.Scan? then {op.fxType} else {}
  {
    assert forall o :: o in ops + [op] <==> o in ops || o == op;
  }

  lemma {:induction false} RecordNamesKeepsBlocks(s: Store, scanned: seq<Block>)
    ensures RecordNames(s, scanned).blocks == s.blocks && RecordNames(s, scanned).lastSync == s.lastSync
  {
    if scanned != [] {
      RecordNamesKeepsBlocks(s, scanned[..|scanned| - 1]);
    }
  }

  predicate Distinct(xs: seq<string>) {
    forall i, j | 0 <= i < j < |xs| :: xs[i] != xs[j]
  }

  lemma {:induction false} DistinctSize(xs: seq<string>)
    requires Distinct(xs)
    ensures |set x | x in xs| == |xs|
  {
    if xs != [] {
      var rest, x := xs[..|xs| - 1], xs[|xs| - 1];
      DistinctSize(rest);
      assert x !in rest;
      assert (set y | y in xs) == (set y | y in rest) + {x};
    }
  }

  lemma SubsetOfSameSize(a: set<string>, b: set<string>)
    requires a <= b && |a| == |b|
    ensures a == b
  {
    assert a + (b - a) == b;
    assert |b - a| == 0;
  }

  /** The count test says exactly that every declared type has been scanned. */
  lemma ReadyIffAllScanned(fxTypes: seq<string>, ops: seq<Op>)
    requires Distinct(fxTypes) && AllLegal(fxTypes, ops)
    ensures Ready(fxTypes, Exec(fxTypes, ops)) <==> forall t | t in fxTypes :: t in Scanned(ops)
  {
    var declared := set t | t in fxTypes;
    StoredAreScanned(fxTypes, ops);
    DistinctSize(fxTypes);
    assert Scanned(ops) <= declared;
    var s := Exec(fxTypes, ops);
    assert |s.blocks| == |s.blocks.Keys|;
    if Ready(fxTypes, s) {
      SubsetOfSameSize(Scanned(ops), declared);
    }
    if forall t | t in fxTypes :: t in Scanned(ops) {
      assert Scanned(ops) == declared;
    }
  }

  /** Readiness is never lost, and until it comes echoes leave no mark. */
  lemma ReadyForGood(fxTypes: seq<string>, ops: seq<Op>, more: seq<Op>, d: Decoded, now: int)
    requires Distinct(fxTypes) && AllLegal(fxTypes, ops + more)
    ensures Ready(fxTypes, Exec(fxTypes, ops)) ==> Ready(fxTypes, Exec(fxTypes, ops + more))
    ensures !Ready(fxTypes, Exec(fxTypes, ops)) ==> Exec(fxTypes, ops + [Echo(d, now)]) == Exec(fxTypes, ops)
  {
    assert forall op :: op in ops ==> op in ops + more;
    ReadyIffAllScanned(fxTypes, ops);
    ReadyIffAllScanned(fxTypes, ops + more);
    assert (ops + [Echo(d, now)])[..|ops|] == ops;
  }

  // ---- names and ids -----------------------------------------------------------------------------

  /** Only scans and echoes name fx blocks: no bare rename, no local change of the name. */
  predicate NamesFromUnit(ops: seq<Op>) {
    forall op | op in ops :: !op.Rename? && !(op.Change? && op.fxType == "fx" && op.field == NameField)
  }

  predicate DistinctIds(bs: seq<Block>) {
    forall i, j | 0 <= i < j < |bs| :: bs[i].fxId != bs[j].fxId
  }

  /** Stored ids are distinct within their type, and the owner knows every stored fx block
      by the name the block carries. */
  predicate Agrees(s: Store) {
    && (forall t | t in s.blocks :: DistinctIds(s.blocks[t]))
    && ("fx" in s.blocks ==>
        forall i | 0 <= i < |s.blocks["fx"]| ::
          var b := s.blocks["fx"][i]; b.fxId in s.fxNames && s.fxNames[b.fxId] == b.name)
  }

  lemma {:induction false} RecordNamesNames(s: Store, scanned: seq<Block>)
    requires DistinctIds(scanned)
    ensures forall i | 0 <= i < |scanned| ::
              scanned[i].fxId in RecordNames(s, scanned).fxNames && RecordNames(s, scanned).fxNames[scanned[i].fxId] == scanned[i].name
  {
    if scanned != [] {
      var init := scanned[..|scanned| - 1];
      RecordNamesNames(s, init);
      forall i | 0 <= i < |init| ensures init[i].fxId != scanned[|init|].fxId && init[i] == scanned[i] {
      }
    }
  }

  lemma AgreesKept(fxTypes: seq<string>, s: Store, op: Op)
    requires Agrees(s) && Legal(fxTypes, op)
    requires !op.Rename? && !(op.Change? && op.fxType == "fx" && op.field == NameField)
    ensures Agrees(Do(fxTypes, s, op))
  {
    match op {
      case Scan(_, _, _) => ScanAgrees(fxTypes, s, op);
      case Echo(d, now) => EchoAgrees(fxTypes, s, d, now);
      case _ =>
    }
  }

  lemma EchoAgrees(fxTypes: seq<string>, s: Store, d: Decoded, now: int)
    requires Agrees(s)
    ensures Agrees(Do(fxTypes, s, Echo(d, now)))
  {
  }

  lemma ScanAgrees(fxTypes: seq<string>, s: Store, op: Op)
    requires Agrees(s) && Legal(fxTypes, op) && op.Scan?
    ensures Agrees(Do(fxTypes, s, op))
  {
    forall i, j | 0 <= i < j < |op.scanned| ensures op.scanned[i].fxId != op.scanned[j].fxId {
      ScanIdsDistinct(op.fxType, |op.scanned|, i, j);
    }
    RecordNamesKeepsBlocks(s, op.scanned);
    RecordNamesNames(s, op.scanned);
  }

  /** Over every such run the name of a stored fx block is the owner's entry for its id, and
      stored ids are pairwise distinct. */
  lemma {:induction false} NamesFollowOwner(fxTypes: seq<string>, ops: seq<Op>)
    requires AllLegal(fxTypes, ops) && NamesFromUnit(ops)
    ensures Agrees(Exec(fxTypes, ops))
  {
    if ops != [] {
      NamesFollowOwner(fxTypes, ops[..|ops| - 1]);
      AgreesKept(fxTypes, Exec(fxTypes, ops[..|ops| - 1]), ops[|ops| - 1]);
    }
  }

  /** An echo changes at most one block, the first with its id, and moves that type's time
      stamp exactly when it matched; unmatched it changes nothing at all. */
  lemma ApplyIsLocal(fxTypes: seq<string>, s: Store, d: Decoded, now: int)
    requires Apply(fxTypes, s, d, now).Ok?
    ensures var (s', result) := Apply(fxTypes, s, d, now).value;
            && s'.blocks.Keys == s.blocks.Keys
            && (forall t | t in s.blocks && Some(t) != d.fxType :: s'.blocks[t] == s.blocks[t])
            && (!result.matched ==> s' == s)
            && (result.matched ==>
                && d.fxType.Some? && d.fxType.value in s.blocks
                && s'.lastSync == s.lastSync[d.fxType.value := now]
                && var pre, post := s.blocks[d.fxType.value], s'.blocks[d.fxType.value];
                   && |post| == |pre|
                   && exists i :: 0 <= i < |pre| && pre[i].fxId == post[i].fxId == d.fxId
                                  && (forall j | 0 <= j < |pre| && j != i :: post[j] == pre[j])
                                  && forall j | 0 <= j < i :: pre[j].fxId != d.fxId)
  {
    var (s', result) := Apply(fxTypes, s, d, now).value;
    if Ready(fxTypes, s) && d.fxType.Some? && d.fxType.value in s.blocks {
      var bs := s.blocks[d.fxType.value];
      var i := FirstWith(bs, d.fxId);
      if i < |bs| {
        var (b, matched) := ApplyToBlock(bs[i], d);
        if !matched {
          assert b == bs[i];
          assert bs[i := b] == bs;
          assert s' == s;
        }
      }
    }
  }
}
