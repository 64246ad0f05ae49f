/** The owner of the known patch state, and the block records it keeps and changes in place. */
module PatchState {
  import opened Wrappers
  import opened PatchStore

  class FxBlock {
    const fxId: string
    var state: Reading
    var name: Reading
    var slider1: Option<Slider>
    var slider2: Option<Slider>

    constructor (b: Block)
      ensures View() == b
    {
      fxId, state, name, slider1, slider2 := b.fxId, b.state, b.name, b.slider1, b.slider2;
    }

    /** setattr */
    method Set(field: Field, value: Reading)
      modifies this
      ensures View() == SetField(old(View()), field, value)
    {
      match field {
        case StateField => state := value;
        case NameField => name := value;
      }
    }

    /** Takes up an inbound value for this block: its switch, its type, or every slider
        that controls the named value. */
    method Fold(d: Decoded) returns (matched: bool)
      modifies this
      ensures (View(), matched) == ApplyToBlock(old(View()), d)
    {
      matched := false;
      if d.valueName == "SW" {
        state := d.strValue;
        matched := true;
      } else if d.valueName == "TYPE" {
        name := d.strValue;
        matched := true;
      } else {
        if slider1.Some? && slider1.value.param == d.valueName {
          slider1 := Some(slider1.value.(value := Raw(d.intValue)));
          matched := true;
        }
        if slider2.Some? && slider2.value.param == d.valueName {
          slider2 := Some(slider2.value.(value := Raw(d.intValue)));
          matched := true;
        }
      }
    }

    function View(): Block
      reads this
    {
      Block(fxId, state, name, slider1, slider2)
    }
  }

  function Views(bs: seq<FxBlock>): seq<Block>
    reads bs
  {
    seq(|bs|, i requires 0 <= i < |bs| reads bs => bs[i].View())
  }

  class PatchState {
    const fxTypes: seq<string>
    var blocks: map<string, seq<FxBlock>>
    var lastSync: map<string, int>
    var fxNames: map<string, Reading>
    ghost var Repr: set<FxBlock>

    /** The state owns its blocks, and no block is stored twice. */
    ghost predicate Valid()
      reads this
    {
      && (forall t, i | t in blocks && 0 <= i < |blocks[t]| :: blocks[t][i] in Repr)
      && (forall t, u, i, j | t in blocks && u in blocks && 0 <= i < |blocks[t]| && 0 <= j < |blocks[u]|
                              && blocks[t][i] == blocks[u][j] :: t == u && i == j)
    }

    ghost function View(): Store
      requires Valid()
      reads this, Repr
    {
      Store(map t | t in blocks :: Views(blocks[t]), lastSync, fxNames)
    }

    constructor (fxTypes: seq<string>)
      ensures Valid() && View() == EMPTY && this.fxTypes == fxTypes
    {
      this.fxTypes := fxTypes;
      blocks, lastSync, fxNames, Repr := map[], map[], map[], {};
    }

    method IsReady() returns (ready: bool)
      requires Valid()
      ensures ready == Ready(fxTypes, View())
    {
      assert View().blocks.Keys == blocks.Keys;
      ready := |blocks| == |fxTypes|;
    }

    /** A copy that later changes do not reach. */
    method Snapshot() returns (s: Store)
      requires Valid()
      ensures s == View()
    {
      s := Store(map t | t in blocks :: Views(blocks[t]), lastSync, fxNames);
    }

    /** Installs the blocks a scan has just made, which nobody else has stored. */
    method RecordScan(fxType: string, scanned: seq<FxBlock>, ts: int)
      requires Valid()
      requires forall i | 0 <= i < |scanned| :: scanned[i] !in Repr
      requires forall i, j | 0 <= i < j < |scanned| :: scanned[i] != scanned[j]
      modifies this
      ensures Valid()
      ensures Repr == old(Repr) + set i | 0 <= i < |scanned| :: scanned[i]
      ensures View() == PatchStore.RecordScan(old(View()), fxType, Views(scanned), ts)
    {
      ghost var was := View();
      blocks := blocks[fxType := scanned];
      lastSync := lastSync[fxType := ts];
      Repr := Repr + set i | 0 <= i < |scanned| :: scanned[i];
      ViewIs(was.blocks[fxType := Views(scanned)]);
    }

    /** A view is what its blocks show, place by place. */
    lemma ViewIs(views: map<string, seq<Block>>)
      requires Valid() && views.Keys == blocks.Keys
      requires forall t | t in blocks :: |views[t]| == |blocks[t]|
      requires forall t, i | t in blocks && 0 <= i < |blocks[t]| :: views[t][i] == blocks[t][i].View()
      ensures View().blocks == views
    {
      forall t | t in blocks ensures Views(blocks[t]) == views[t] {
      }
    }

    method SetFxName(fxId: string, name: Reading)
      requires Valid()
      modifies this`fxNames
      ensures Valid() && View() == PatchStore.SetFxName(old(View()), fxId, name)
    {
      fxNames := fxNames[fxId := name];
    }

    method FxName(fxId: string) returns (name: Result<Reading, KeyError>)
      requires Valid()
      ensures name == PatchStore.FxName(View(), fxId)
    {
      if fxId in fxNames {
        return Ok(fxNames[fxId]);
      }
      return Err(KeyError);
    }

    method SetSliders(fxType: string, fxId: string, slider1: Option<Slider>, slider2: Option<Slider>)
      returns (found: Result<(), KeyError>)
      requires Valid()
      modifies Repr
      ensures Valid() && blocks == old(blocks)
      ensures match PatchStore.SetSliders(old(View()), fxType, fxId, slider1, slider2)
              case Ok(s) => found == Ok(()) && View() == s
              case Err(e) => found == Err(e) && View() == old(View())
    {
      if fxType !in blocks {
        return Err(KeyError);
      }
      ghost var was := View();
      for i := 0 to |blocks[fxType]|
        invariant i <= FirstWith(was.blocks[fxType], fxId) && View() == was
      {
        var fx := blocks[fxType][i];
        if fx.fxId == fxId {
          assert was.blocks[fxType][i] == fx.View() && i == FirstWith(was.blocks[fxType], fxId);
          ghost var before := fx.View();
          fx.slider1 := slider1;
          fx.slider2 := slider2;
          ViewIs(was.blocks[fxType := was.blocks[fxType][i := fx.View()]]);
          assert fx.View() == before.(slider1 := slider1, slider2 := slider2);
          return Ok(());
        }
      }
      return Ok(());
    }

    method Land(fxType: string, i: nat, d: Decoded, now: int) returns (result: ApplyResult)
      requires Valid() && fxType in blocks && i < |blocks[fxType]|
      modifies this`lastSync, this`fxNames, Repr
      ensures Valid() && blocks == old(blocks)
      ensures fxType in old(View()).blocks && i < |old(View()).blocks[fxType]|
      ensures (View(), result) == PatchStore.Land(old(View()), fxType, i, d, now)
    {
      ghost var was := View();
      var fx := blocks[fxType][i];
      assert was.blocks[fxType] == Views(blocks[fxType]) && was.blocks[fxType][i] == fx.View();
      var matched := fx.Fold(d);
      if fxType == "fx" && d.valueName == "TYPE" {
        fxNames := fxNames[d.fxId := d.strValue];
      }
      if matched {
        lastSync := lastSync[fxType := now];
      }
      ViewIs(was.blocks[fxType := was.blocks[fxType][i := fx.View()]]);
      result := ApplyResult(matched, d.valueName == "TYPE");
    }

    method Apply(d: Decoded, now: int) returns (r: Result<ApplyResult, KeyError>)
      requires Valid()
      modifies this`lastSync, this`fxNames, Repr
      ensures Valid() && blocks == old(blocks)
      ensures match PatchStore.Apply(fxTypes, old(View()), d, now)
              case Ok((s, result)) => r == Ok(result) && View() == s
              case Err(e) => r == Err(e) && View() == old(View())
    {
      assert View().blocks.Keys == blocks.Keys;
      if |blocks| != |fxTypes| {
        return Ok(ApplyResult(false, false));
      }
      if d.fxType == None || d.fxType.value !in blocks {
        return Err(KeyError);
      }
      var fxType := d.fxType.value;
      ghost var was := View();
      for i := 0 to |blocks[fxType]|
        invariant i <= FirstWith(was.blocks[fxType], d.fxId) && View() == was
      {
        var fx := blocks[fxType][i];
        if fx.fxId == d.fxId {
          assert was.blocks[fxType][i] == fx.View();
          var result := Land(fxType, i, d, now);
          return Ok(result);
        }
      }
      return Ok(ApplyResult(false, false));
    }

    method SetFx(fxType: string, fxId: string, field: Field, value: Reading) returns (found: Result<(), KeyError>)
      requires Valid()
      modifies Repr
      ensures Valid() && blocks == old(blocks)
      ensures match PatchStore.SetFx(old(View()), fxType, fxId, field, value)
              case Ok(s) => found == Ok(()) && View() == s
              case Err(e) => found == Err(e) && View() == old(View())
    {
      if fxType !in blocks {
        return Err(KeyError);
      }
      ghost var was := View();
      var entries := blocks[fxType];
      assert was.blocks[fxType] == Views(entries);
      ghost var changed := Changed(was.blocks[fxType], fxId, field, value);
      if |entries| == 1 {
        entries[0].Set(field, value);
        assert entries[0].View() == changed[0];
        ViewIs(was.blocks[fxType := changed]);
      } else {
        for i := 0 to |entries|
          invariant forall b | b in Repr && b !in entries[..i] :: b.View() == old(b.View())
          invariant forall j | 0 <= j < i :: entries[j].View() == changed[j]
        {
          if entries[i].fxId == fxId {
            entries[i].Set(field, value);
          }
        }
        ViewIs(was.blocks[fxType := changed]);
      }
      return Ok(());
    }
  }
}
