/** The known state of the patch as a value: the stored effect blocks by type, when each
    type last changed, and the one record of which effect each fx block is running; and
    what each operation on it makes of it. */
module PatchStore {
  import opened Wrappers

  /** A setting as read from the unit: a label, the raw number when it has none, or nothing. */
  datatype Reading = Nothing | Label(text: string) | Raw(n: int)

  datatype Slider = Slider(value: Reading, param: string, min: int, max: int)

  /** One effect block's presented state; `fxId` is the string form ids are compared in. */
  datatype Block = Block(fxId: string, state: Reading, name: Reading, slider1: Option<Slider>, slider2: Option<Slider>)

  /** An inbound value that was decoded; no type when the address is no effect block. */
  datatype Decoded = Decoded(fxType: Option<string>, fxId: string, valueName: string, strValue: Reading, intValue: int)

  datatype ApplyResult = ApplyResult(matched: bool, typeChanged: bool)

  datatype KeyError = KeyError

  /** The attributes a local change may name. */
  datatype Field = StateField | NameField

  /** Everything the state lock guards. */
  datatype Store = Store(blocks: map<string, seq<Block>>, lastSync: map<string, int>, fxNames: map<string, Reading>)

  const EMPTY := Store(map[], map[], map[])

  // ---- specification of the operations ---------------------------------------------------------

  /** The count test: one entry for every effect type. */
  predicate Ready(fxTypes: seq<string>, s: Store) {
    |s.blocks| == |fxTypes|
  }

  /** The first block with this id, or |blocks|. */
  function FirstWith(blocks: seq<Block>, fxId: string): (i: nat)
    ensures i <= |blocks|
    ensures i < |blocks| ==> blocks[i].fxId == fxId
    ensures forall j | 0 <= j < i :: blocks[j].fxId != fxId
  {
    if blocks == [] || blocks[0].fxId == fxId then 0 else 1 + FirstWith(blocks[1..], fxId)
  }

  function RecordScan(s: Store, fxType: string, blocks: seq<Block>, ts: int): Store {
    s.(blocks := s.blocks[fxType := blocks], lastSync := s.lastSync[fxType := ts])
  }

  function SetField(b: Block, field: Field, value: Reading): Block {
    match field
    case StateField => b.(state := value)
    case NameField => b.(name := value)
  }

  /** A single block is changed whatever its id; of several, all those with the id are. */
  function SetFx(s: Store, fxType: string, fxId: string, field: Field, value: Reading): Result<Store, KeyError> {
    if fxType !in s.blocks then Err(KeyError)
    else
      Ok(s.(blocks := s.blocks[fxType := Changed(s.blocks[fxType], fxId, field, value)]))
  }

  function Changed(bs: seq<Block>, fxId: string, field: Field, value: Reading): seq<Block> {
    seq(|bs|, i requires 0 <= i < |bs| =>
      if |bs| == 1 || bs[i].fxId == fxId then SetField(bs[i], field, value) else bs[i])
  }

  function SetFxName(s: Store, fxId: string, name: Reading): Store {
    s.(fxNames := s.fxNames[fxId := name])
  }

  function FxName(s: Store, fxId: string): Result<Reading, KeyError> {
    if fxId in s.fxNames then Ok(s.fxNames[fxId]) else Err(KeyError)
  }

  function SetSliders(s: Store, fxType: string, fxId: string, slider1: Option<Slider>, slider2: Option<Slider>)
    : Result<Store, KeyError>
  {
    if fxType !in s.blocks then Err(KeyError)
    else
      var bs := s.blocks[fxType];
      var i := FirstWith(bs, fxId);
      if i == |bs| then Ok(s)
      else Ok(s.(blocks := s.blocks[fxType := bs[i := bs[i].(slider1 := slider1, slider2 := slider2)]]))
  }

  predicate Controls(slider: Option<Slider>, valueName: string) {
    slider.Some? && slider.value.param == valueName
  }

  function Turn(slider: Option<Slider>, d: Decoded): Option<Slider> {
    if Controls(slider, d.valueName) then Some(slider.value.(value := Raw(d.intValue))) else slider
  }

  /** What an inbound value makes of the block it lands on, and whether it says anything. */
  function ApplyToBlock(b: Block, d: Decoded): (Block, bool) {
    if d.valueName == "SW" then (b.(state := d.strValue), true)
    else if d.valueName == "TYPE" then (b.(name := d.strValue), true)
    else
      (b.(slider1 := Turn(b.slider1, d), slider2 := Turn(b.slider2, d)),
       Controls(b.slider1, d.valueName) || Controls(b.slider2, d.valueName))
  }

  /** The value has found its block, the i-th of type t. */
  function Land(s: Store, t: string, i: nat, d: Decoded, now: int): (Store, ApplyResult)
    requires t in s.blocks && i < |s.blocks[t]|
  {
    var (b, matched) := ApplyToBlock(s.blocks[t][i], d);
    (Store(s.blocks[t := s.blocks[t][i := b]],
           if matched then s.lastSync[t := now] else s.lastSync,
           if t == "fx" && d.valueName == "TYPE" then s.fxNames[d.fxId := d.strValue] else s.fxNames),
     ApplyResult(matched, d.valueName == "TYPE"))
  }

  function Apply(fxTypes: seq<string>, s: Store, d: Decoded, now: int): Result<(Store, ApplyResult), KeyError> {
    if !Ready(fxTypes, s) then Ok((s, ApplyResult(false, false)))
    else if d.fxType == None || d.fxType.value !in s.blocks then Err(KeyError)
    else
      var t := d.fxType.value;
      var i := FirstWith(s.blocks[t], d.fxId);
      if i == |s.blocks[t]| then Ok((s, ApplyResult(false, false))) else Ok(Land(s, t, i, d, now))
  }

  // ---- what each operation stores ----------------------------------------------------------------

  /** A slider the unit has moved to this number, if it controls the parameter named. */
  predicate Moved(was: Option<Slider>, now: Option<Slider>, valueName: string, raw: int) {
    if was.Some? && was.value.param == valueName then
      now == Some(Slider(Raw(raw), valueName, was.value.min, was.value.max))
    else now == was
  }

  /** An inbound value arrives. In a ready state, on the first block of its type with its id:
      a switch becomes the block's state; a TYPE its name, and for an fx block the owner's
      entry; any other value moves exactly the sliders that control it. The rest of the block,
      and all else but the type's time stamp, stays. */
  lemma ValueArrives(fxTypes: seq<string>, s: Store, d: Decoded, now: int, t: string, i: nat)
    requires |s.blocks| == |fxTypes| && d.fxType == Some(t) && t in s.blocks
    requires i < |s.blocks[t]| && s.blocks[t][i].fxId == d.fxId && forall j | 0 <= j < i :: s.blocks[t][j].fxId != d.fxId
    ensures Apply(fxTypes, s, d, now).Ok?
    ensures var (s', result) := Apply(fxTypes, s, d, now).value;
            && t in s'.blocks && |s'.blocks[t]| == |s.blocks[t]|
            && s'.blocks == s.blocks[t := s.blocks[t][i := s'.blocks[t][i]]]
            && var b, b' := s.blocks[t][i], s'.blocks[t][i];
               && (d.valueName == "SW" ==>
                   b' == b.(state := d.strValue) && result == ApplyResult(true, false) && s'.fxNames == s.fxNames)
               && (d.valueName == "TYPE" ==>
                   && b' == b.(name := d.strValue) && result == ApplyResult(true, true)
                   && s'.fxNames == if t == "fx" then s.fxNames[d.fxId := d.strValue] else s.fxNames)
               && (d.valueName != "SW" && d.valueName != "TYPE" ==>
                   && b' == b.(slider1 := b'.slider1, slider2 := b'.slider2) && s'.fxNames == s.fxNames
                   && Moved(b.slider1, b'.slider1, d.valueName, d.intValue)
                   && Moved(b.slider2, b'.slider2, d.valueName, d.intValue)
                   && result == ApplyResult(exists slider :: (b.slider1 == Some(slider) || b.slider2 == Some(slider))
                                                             && slider.param == d.valueName, false))
               && s'.lastSync == if result.matched then s.lastSync[t := now] else s.lastSync
  {
    assert FirstWith(s.blocks[t], d.fxId) == i;
    var b := s.blocks[t][i];
    if b.slider1.Some? && b.slider1.value.param == d.valueName {
      assert b.slider1 == Some(b.slider1.value);
    }
    if b.slider2.Some? && b.slider2.value.param == d.valueName {
      assert b.slider2 == Some(b.slider2.value);
    }
  }

  /** Where it has nowhere to arrive: before the first full scan, or without a block of its id,
      nothing changes; in a ready state without its type, the lookup fails. */
  lemma ValueLost(fxTypes: seq<string>, s: Store, d: Decoded, now: int)
    ensures |s.blocks| != |fxTypes| ==> Apply(fxTypes, s, d, now) == Ok((s, ApplyResult(false, false)))
    ensures |s.blocks| == |fxTypes| && (d.fxType == None || d.fxType.value !in s.blocks) ==> Apply(fxTypes, s, d, now).Err?
    ensures |s.blocks| == |fxTypes| && d.fxType.Some? && d.fxType.value in s.blocks
            && (forall b | b in s.blocks[d.fxType.value] :: b.fxId != d.fxId) ==>
              Apply(fxTypes, s, d, now) == Ok((s, ApplyResult(false, false)))
  {
  }

  /** A local change: the only block of a type takes it whatever its id, of several those with
      the id do; each keeps everything else, and so does the state. */
  lemma ChangeStored(s: Store, t: string, fxId: string, value: Reading)
    ensures t !in s.blocks ==> SetFx(s, t, fxId, StateField, value).Err? && SetFx(s, t, fxId, NameField, value).Err?
    ensures t in s.blocks ==>
              var bs := s.blocks[t];
              && SetFx(s, t, fxId, StateField, value).Ok? && SetFx(s, t, fxId, NameField, value).Ok?
              && var s', s'' := SetFx(s, t, fxId, StateField, value).value, SetFx(s, t, fxId, NameField, value).value;
                 && t in s'.blocks && t in s''.blocks && |s'.blocks[t]| == |s''.blocks[t]| == |bs|
                 && s' == Store(s.blocks[t := s'.blocks[t]], s.lastSync, s.fxNames)
                 && s'' == Store(s.blocks[t := s''.blocks[t]], s.lastSync, s.fxNames)
                 && forall i | 0 <= i < |bs| ::
                      if |bs| == 1 || bs[i].fxId == fxId then
                        s'.blocks[t][i] == bs[i].(state := value) && s''.blocks[t][i] == bs[i].(name := value)
                      else s'.blocks[t][i] == s''.blocks[t][i] == bs[i]
  {
  }

  /** A recorded scan replaces the blocks of its type and its time stamp, and an fx name the
      one entry of its block. */
  lemma ScanStored(s: Store, t: string, bs: seq<Block>, ts: int, fxId: string, name: Reading)
    ensures var s' := RecordScan(s, t, bs, ts);
            && s'.fxNames == s.fxNames
            && (forall u :: u in s'.blocks <==> u == t || u in s.blocks)
            && (forall u :: u in s'.lastSync <==> u == t || u in s.lastSync)
            && (forall u | u in s'.blocks :: s'.blocks[u] == if u == t then bs else s.blocks[u])
            && (forall u | u in s'.lastSync :: s'.lastSync[u] == if u == t then ts else s.lastSync[u])
    ensures var s' := SetFxName(s, fxId, name);
            && s'.blocks == s.blocks && s'.lastSync == s.lastSync
            && (forall x :: x in s'.fxNames <==> x == fxId || x in s.fxNames)
            && (forall x | x in s'.fxNames :: s'.fxNames[x] == if x == fxId then name else s.fxNames[x])
            && (forall x :: FxName(s, x) == if x in s.fxNames then Ok(s.fxNames[x]) else Err(KeyError))
  {
  }

  /** A re-read: the first block with the id takes both sliders, in their order. */
  lemma SlidersStored(s: Store, t: string, fxId: string, slider1: Option<Slider>, slider2: Option<Slider>)
    ensures t !in s.blocks ==> SetSliders(s, t, fxId, slider1, slider2).Err?
    ensures t in s.blocks && (forall b | b in s.blocks[t] :: b.fxId != fxId) ==> SetSliders(s, t, fxId, slider1, slider2) == Ok(s)
    ensures forall i | t in s.blocks && 0 <= i < |s.blocks[t]| && s.blocks[t][i].fxId == fxId
                       && (forall j | 0 <= j < i :: s.blocks[t][j].fxId != fxId) ::
              var b := s.blocks[t][i];
              SetSliders(s, t, fxId, slider1, slider2) ==
                Ok(Store(s.blocks[t := s.blocks[t][i := Block(b.fxId, b.state, b.name, slider1, slider2)]], s.lastSync, s.fxNames))
  {
    forall i | t in s.blocks && 0 <= i < |s.blocks[t]| && s.blocks[t][i].fxId == fxId
               && (forall j | 0 <= j < i :: s.blocks[t][j].fxId != fxId)
      ensures FirstWith(s.blocks[t], fxId) == i
    {
    }
  }

  // ---- what stays of the blocks ------------------------------------------------------------------

  /** The same slider, but for a value the unit has sent since. */
  predicate Turned(was: Option<Slider>, now: Option<Slider>) {
    now == was
    || (was.Some? && now.Some? && now.value.value.Raw? && now.value == was.value.(value := now.value.value))
  }

  predicate SameBlock(was: Block, now: Block) {
    now.fxId == was.fxId && Turned(was.slider1, now.slider1) && Turned(was.slider2, now.slider2)
  }

  /** The same blocks under the same ids, with the same sliders but for their values. */
  predicate SameBlocks(was: Store, now: Store) {
    && now.blocks.Keys == was.blocks.Keys
    && forall t | t in was.blocks ::
         |now.blocks[t]| == |was.blocks[t]| && forall i | 0 <= i < |was.blocks[t]| :: SameBlock(was.blocks[t][i], now.blocks[t][i])
  }

  /** An echoed TYPE renames the first block with its id, and no other value renames any. */
  lemma ApplyRenames(fxTypes: seq<string>, s: Store, d: Decoded, now: int, t: string, i: nat)
    requires Apply(fxTypes, s, d, now).Ok? && t in s.blocks && i < |s.blocks[t]|
    ensures var (s', result) := Apply(fxTypes, s, d, now).value;
            && t in s'.blocks && |s'.blocks[t]| == |s.blocks[t]|
            && s'.blocks[t][i].name ==
                 if result.typeChanged && d.fxType == Some(t) && i == FirstWith(s.blocks[t], d.fxId) then d.strValue
                 else s.blocks[t][i].name
  {
  }

  /** An inbound value leaves the blocks what they are; the owner learns of an fx TYPE. */
  lemma ApplyKeepsBlocks(fxTypes: seq<string>, s: Store, d: Decoded, now: int)
    requires Apply(fxTypes, s, d, now).Ok?
    ensures var (s', result) := Apply(fxTypes, s, d, now).value;
            && SameBlocks(s, s')
            && (result.typeChanged ==> result.matched)
            && (result.matched ==> d.fxType.Some? && d.fxType.value in s.blocks
                                   && FirstWith(s.blocks[d.fxType.value], d.fxId) < |s.blocks[d.fxType.value]|)
            && s'.fxNames == if result.typeChanged && d.fxType == Some("fx") then s.fxNames[d.fxId := d.strValue] else s.fxNames
  {
    assert SameBlocks(s, s);
  }
}
