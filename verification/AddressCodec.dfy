/** Building the address of a setting, with or without a value, and reading an address and
    value back: the two directions of the memory map, and when one undoes the other. */
module AddressCodec {
  import opened Wrappers
  import opened Positional
  import opened AddressMap
  import opened BlockIds

  type Tables = map<string, SpecTable>

  // ---- encoding ----------------------------------------------------------------------------------

  /** A value to send: a name to look up, or the number itself. */
  datatype Value = Named(name: string) | Number(n: int)

  /** The bytes of an address; Unknown where the source logs and returns None, Raised where
      it raises. */
  datatype Built = Built(bytes: seq<int>) | Unknown | Raised

  /** A block located: its section's entry, its own, and its settings; NoTable where the map
      names a table that is not loaded. */
  datatype LocatedBlock = InBlock(base: Entry, block: Entry, settings: seq<(string, Setting)>) | NoBlock | NoTable

  function LocateBlock(tables: Tables, section: string, option: string): LocatedBlock {
    if BASE !in tables || !tables[BASE].Sections? then NoTable
    else
      var base := Lookup(tables[BASE].sections, section);
      if base == None then NoBlock
      else if base.value.table !in tables || !tables[base.value.table].Blocks? then NoTable
      else
        var block := Lookup(tables[base.value.table].blocks, option);
        if block == None then NoBlock
        else if block.value.table !in tables || !tables[block.value.table].Settings? then NoTable
        else InBlock(base.value, block.value, tables[block.value.table].settings)
  }

  /** A setting located: the three big-endian layers of its address, and its entry. */
  datatype Located = Found(base: Entry, block: Entry, setting: Setting) | Missing | Broken

  function Locate(tables: Tables, section: string, option: string, setting: string): Located {
    match LocateBlock(tables, section, option)
    case NoTable => Broken
    case NoBlock => Missing
    case InBlock(base, block, settings) =>
      var entry := Lookup(settings, setting);
      if entry == None then Missing else Found(base, block, entry.value)
  }

  /** The raw number a value stands for; a name the setting does not list has none. */
  function RawOf(setting: Setting, value: Value): Option<int> {
    match value
    case Named(name) => Lookup(setting.values, name)
    case Number(n) => Some(n)
  }

  /** A wide setting spreads its value over nibbles; any other takes one byte, and a number
      that does not fit it raises. */
  function EncodeValue(setting: Setting, value: Value): Option<seq<int>> {
    var raw := RawOf(setting, value);
    if raw == None then None
    else if setting.width > 1 then Some(PackNibbles(raw.value, setting.width))
    else if 0 <= raw.value < 256 then Some([raw.value])
    else None
  }

  /** The bytes a value takes. A number of one byte is that byte, and does not fit otherwise; a
      wide one is as many nibbles, worth what fits of it. A listed name stands for the number
      listed with it, and a name that is not listed for none. */
  lemma ValueBytes(setting: Setting, n: int, name: string)
    requires DistinctKeys(setting.values)
    ensures setting.width <= 1 ==> EncodeValue(setting, Number(n)) == if 0 <= n < 256 then Some([n]) else None
    ensures setting.width > 1 ==>
              && EncodeValue(setting, Number(n)).Some?
              && var nibbles := EncodeValue(setting, Number(n)).value;
                 && |nibbles| == setting.width && (forall i | 0 <= i < |nibbles| :: 0 <= nibbles[i] < 16)
                 && Pow(16, setting.width) > 0 && Unpack(nibbles) == n % Pow(16, setting.width)
    ensures (name, n) in setting.values ==> EncodeValue(setting, Named(name)) == EncodeValue(setting, Number(n))
    ensures (forall v | v in setting.values :: v.0 != name) ==> EncodeValue(setting, Named(name)) == None
  {
    LookupFinds(setting.values, name, n);
    NotFound(setting.values, name);
    if setting.width > 1 {
      UnpackPack(n, setting.width);
    }
  }

  function AddressFor(tables: Tables, section: string, option: string, setting: string, value: Option<Value>): Built {
    match Locate(tables, section, option, setting)
    case Missing => Unknown
    case Broken => Raised
    case Found(base, block, entry) =>
      if !IsBytes(base.address) || !IsBytes(block.address) || !IsBytes(entry.offset) then Raised
      else
        MinimalBytesUndoes(base.address);
        MinimalBytesUndoes(block.address);
        MinimalBytesUndoes(entry.offset);
        var address := MinimalBytes(BytesToInt(base.address) + BytesToInt(block.address) + BytesToInt(entry.offset));
        if value == None then Built(address)
        else if EncodeValue(entry, value.value) == None then Raised
        else Built(address + EncodeValue(entry, value.value).value)
  }

  /** There is no address for a section, a block or a setting that is not listed; and one for
      what is, where every layer is made of bytes. */
  lemma UnlistedIsUnknown(tables: Tables, section: string, option: string, setting: string, base: Entry, block: Entry)
    requires BASE in tables && tables[BASE].Sections? && DistinctKeys(tables[BASE].sections)
    ensures (forall e | e in tables[BASE].sections :: e.0 != section) ==> AddressFor(tables, section, option, setting, None) == Unknown
    ensures (section, base) in tables[BASE].sections && base.table in tables && tables[base.table].Blocks? ==>
              var blocks := tables[base.table].blocks;
              && ((forall b | b in blocks :: b.0 != option) ==> AddressFor(tables, section, option, setting, None) == Unknown)
              && (DistinctKeys(blocks) && (option, block) in blocks && block.table in tables && tables[block.table].Settings?
                  && (forall e | e in tables[block.table].settings :: e.0 != setting) ==>
                  AddressFor(tables, section, option, setting, None) == Unknown)
  {
    LookupFinds(tables[BASE].sections, section, base);
    NotFound(tables[BASE].sections, section);
    if (section, base) in tables[BASE].sections && base.table in tables && tables[base.table].Blocks? {
      NotFound(tables[base.table].blocks, option);
      if DistinctKeys(tables[base.table].blocks) {
        LookupFinds(tables[base.table].blocks, option, block);
      }
      if block.table in tables && tables[block.table].Settings? {
        NotFound(tables[block.table].settings, setting);
      }
    }
  }

  /** The column-wise sum of a four-byte base, a three-byte block and a two-byte setting. */
  function Columns(base: seq<int>, block: seq<int>, offset: seq<int>): (sums: seq<int>)
    requires |base| == 4 && |block| == 3 && |offset| == 2
    ensures |sums| == 4
  {
    [base[0], base[1] + block[0], base[2] + block[1] + offset[0], base[3] + block[2] + offset[1]]
  }

  /** The three layers have the usual lengths, the base does not start with a zero, and no
      column carries into the next. */
  predicate Plain(base: Entry, block: Entry, entry: Setting) {
    && IsBytes(base.address) && IsBytes(block.address) && IsBytes(entry.offset)
    && |base.address| == 4 && |block.address| == 3 && |entry.offset| == 2
    && base.address[0] != 0
    && IsBytes(Columns(base.address, block.address, entry.offset))
  }

  /** The integer sum of the three layers is then their column-wise sum, four bytes long,
      and exactly as many value bytes follow as the setting takes addresses. */
  lemma AddressIsColumnSum(tables: Tables, section: string, option: string, setting: string, value: Option<Value>)
    requires var at := Locate(tables, section, option, setting); at.Found? && Plain(at.base, at.block, at.setting)
    requires var at := Locate(tables, section, option, setting);
             value.Some? ==> EncodeValue(at.setting, value.value).Some?
    ensures var at := Locate(tables, section, option, setting);
            var columns := Columns(at.base.address, at.block.address, at.setting.offset);
            var valueBytes := if value == None then [] else EncodeValue(at.setting, value.value).value;
            && AddressFor(tables, section, option, setting, value) == Built(columns + valueBytes)
            && |valueBytes| == if value == None then 0 else if at.setting.width > 1 then at.setting.width else 1
  {
    var Found(base, block, entry) := Locate(tables, section, option, setting);
    var columns := Columns(base.address, block.address, entry.offset);
    SumOfColumns(base.address, block.address, entry.offset);
    MinimalBytesUndoes(columns);
    assert columns + [] == columns;
  }

  lemma Worth4(s: seq<int>)
    requires |s| == 4
    ensures BytesToInt(s) == ((s[0] * 256 + s[1]) * 256 + s[2]) * 256 + s[3]
  {
    Worth3(s[..3]);
  }

  lemma Worth3(s: seq<int>)
    requires |s| == 3
    ensures BytesToInt(s) == (s[0] * 256 + s[1]) * 256 + s[2]
  {
    Worth2(s[..2]);
  }

  lemma Worth2(s: seq<int>)
    requires |s| == 2
    ensures BytesToInt(s) == s[0] * 256 + s[1]
  {
    assert s[..1][..0] == [];
    assert BytesToInt(s[..1]) == s[0];
  }

  lemma SumOfColumns(base: seq<int>, block: seq<int>, offset: seq<int>)
    requires |base| == 4 && |block| == 3 && |offset| == 2
    ensures BytesToInt(Columns(base, block, offset)) == BytesToInt(base) + BytesToInt(block) + BytesToInt(offset)
  {
    Worth4(base);
    Worth3(block);
    Worth2(offset);
    Worth4(Columns(base, block, offset));
  }

  // ---- decoding ----------------------------------------------------------------------------------

  /** An inbound value: one byte, or the data list of a reply. */
  datatype Wire = One(raw: int) | Many(data: seq<int>)

  datatype DecodedValue = DecodedValue(section: string, table: string, name: string, patchTable: string,
                                       valueName: string, strValue: Option<string>, intValue: int,
                                       fxType: Option<string>, fxId: Option<string>,
                                       fxTableSuffix: Option<string>, fxName: Option<string>)

  /** NotKnown where the source returns None, Raises where an empty data list has no byte. */
  datatype Decoding = Decoded(value: DecodedValue) | NotKnown | Raises

  function LabelForRaw(values: seq<(string, int)>, raw: int): Option<string> {
    if values == [] then None
    else if values[0].1 == raw then Some(values[0].0)
    else LabelForRaw(values[1..], raw)
  }

  /** The name a raw number has is listed with it; without one no name is. */
  lemma {:induction false} LabelOfRaw(values: seq<(string, int)>, raw: int)
    ensures match LabelForRaw(values, raw)
            case Some(name) => (name, raw) in values
            case None => forall v | v in values :: v.1 != raw
  {
    if values != [] && values[0].1 != raw {
      LabelOfRaw(values[1..], raw);
      assert forall v :: v in values <==> v == values[0] || v in values[1..];
    }
  }

  function IntOf(setting: Setting, value: Wire): Option<int> {
    match value
    case One(raw) => Some(raw)
    case Many(data) =>
      if setting.width > 1 then Some(Unpack(data[..if setting.width <= |data| then setting.width else |data|]))
      else if data == [] then None
      else Some(data[0])
  }

  /** Every occurrence of a word cut out, scanning from the left. */
  function RemoveAll(s: string, word: string): string {
    if word == "" || |s| < |word| then s
    else if word <= s then RemoveAll(s[|word|..], word)
    else [s[0]] + RemoveAll(s[1..], word)
  }

  /** The last effect type the name starts with, and an empty id if some type is all of it. */
  function Recognize(fxTypes: seq<string>, name: string): (Option<string>, Option<string>) {
    if fxTypes == [] then (None, None)
    else
      var (fxType, fxId) := Recognize(fxTypes[..|fxTypes| - 1], name);
      var last := fxTypes[|fxTypes| - 1];
      if last <= name then (Some(last), if name == last then Some("") else fxId) else (fxType, fxId)
  }

  /** The rest of a recognised block's identity: its id, its effect suffix and that effect's name. */
  function Identify(suffixNames: map<string, string>, fxType: string, fxId: Option<string>, name: string)
    : (Option<string>, Option<string>, Option<string>)
  {
    var id := if fxId.Some? then fxId.value
              else if fxType == "preamp" && name == "preampA" then "1"
              else if fxType == "preamp" && name == "preampB" then "2"
              else if fxType == "fx" then (if |name| > 2 then [name[2]] else "")
              else RemoveAll(name, fxType);
    var suffix := if fxType == "fx" && |name| > 3 then Some(name[3..]) else None;
    (Some(id), suffix, if suffix == None then None else Get(suffixNames, suffix.value))
  }

  /** Section, block and setting of an address, by the loaded indices. */
  function Resolve(ix: Indices, address: seq<int>): Option<((string, string), (string, string), (string, Setting))> {
    if |address| != 4 then None
    else
      var section := Get(ix.sections, (address[0], address[1]));
      if section == None || section.value.1 !in ix.blocks then None
      else
        var block := Get(ix.blocks[section.value.1], address[2]);
        if block == None || block.value.1 !in ix.settings then None
        else
          var setting := Get(ix.settings[block.value.1], address[3]);
          if setting == None then None else Some((section.value, block.value, setting.value))
  }

  function Decode(fxTypes: seq<string>, suffixNames: map<string, string>, ix: Indices, address: seq<int>, value: Wire)
    : Decoding
  {
    var at := Resolve(ix, address);
    if at == None then NotKnown
    else
      var ((section, table), (name, patchTable), (valueName, setting)) := at.value;
      var raw := IntOf(setting, value);
      if raw == None then Raises
      else
        var (fxType, knownId) := Recognize(fxTypes, name);
        var (fxId, suffix, fxName) :=
          if fxType == None then (None, None, None) else Identify(suffixNames, fxType.value, knownId, name);
        Decoded(DecodedValue(section, table, name, patchTable, valueName, LabelForRaw(setting.values, raw.value),
                             raw.value, fxType, fxId, suffix, fxName))
  }

  /** How the value of a known setting is read: a byte stands for itself, as the first of a list
      does when the setting is one byte wide; a wide one is worth its leading nibbles; and an
      empty list has no byte to read. An address of another length is not known. */
  lemma ValueRead(fxTypes: seq<string>, suffixNames: map<string, string>, ix: Indices, address: seq<int>, raw: int, data: seq<int>)
    requires Resolve(ix, address).Some?
    ensures |address| == 4
    ensures var setting := Resolve(ix, address).value.2.1;
            var one := Decode(fxTypes, suffixNames, ix, address, One(raw));
            var many := Decode(fxTypes, suffixNames, ix, address, Many(data));
            && one.Decoded? && one.value.intValue == raw
            && (setting.width <= 1 && data == [] ==> many == Raises)
            && (setting.width <= 1 && data != [] ==> many == Decode(fxTypes, suffixNames, ix, address, One(data[0])))
            && (1 < setting.width <= |data| ==> many.Decoded? && many.value.intValue == Unpack(data[..setting.width]))
            && (setting.width > 1 && |data| < setting.width ==> many.Decoded? && many.value.intValue == Unpack(data))
  {
    assert data[..|data|] == data;
  }

  /** The loop over effect types, each later match overriding the type but never the id. */
  method RecognizeBlock(fxTypes: seq<string>, name: string) returns (fxType: Option<string>, fxId: Option<string>)
    ensures (fxType, fxId) == Recognize(fxTypes, name)
  {
    fxType, fxId := None, None;
    for i := 0 to |fxTypes|
      invariant (fxType, fxId) == Recognize(fxTypes[..i], name)
    {
      assert fxTypes[..i + 1][..i] == fxTypes[..i];
      if fxTypes[i] <= name {
        fxType := Some(fxTypes[i]);
        if name == fxTypes[i] {
          fxId := Some("");
        }
      }
    }
    assert fxTypes[..|fxTypes|] == fxTypes;
  }

  /** Of the effect types that begin a name the last is recognised, and an id, the empty one,
      exactly if one of them is all of it. */
  lemma {:induction false} LastMatchWins(fxTypes: seq<string>, name: string)
    ensures var (fxType, fxId) := Recognize(fxTypes, name);
            && (fxType == None ==> forall j | 0 <= j < |fxTypes| :: !(fxTypes[j] <= name))
            && (fxType.Some? ==>
                exists i :: 0 <= i < |fxTypes| && fxTypes[i] == fxType.value && fxTypes[i] <= name
                            && forall j | i < j < |fxTypes| :: !(fxTypes[j] <= name))
            && fxId == if name in fxTypes then Some("") else None
  {
    if fxTypes != [] {
      var n := |fxTypes| - 1;
      var init, last := fxTypes[..n], fxTypes[n];
      LastMatchWins(init, name);
      assert last in fxTypes && forall t :: t in fxTypes <==> t in init || t == last;
      if last <= name {
        assert fxTypes[n] == last;
      } else {
        assert forall j | 0 <= j < n :: fxTypes[j] == init[j];
      }
    }
  }

  /** When no effect type begins another, a block key is recognised by the one type it
      starts with, and has the empty id exactly when it is that type. */
  lemma {:induction false} RecognizesItsType(fxTypes: seq<string>, i: nat, rest: string)
    requires i < |fxTypes|
    requires forall j, k | 0 <= j < |fxTypes| && 0 <= k < |fxTypes| && fxTypes[j] <= fxTypes[k] :: j == k
    ensures Recognize(fxTypes, fxTypes[i] + rest) == (Some(fxTypes[i]), if rest == "" then Some("") else None)
  {
    var t, n := fxTypes[i], |fxTypes| - 1;
    var init, last := fxTypes[..n], fxTypes[n];
    if i < n {
      assert init[i] == t;
      RecognizesItsType(init, i, rest);
      if last <= t + rest {
        OneBeginsTheOther(last, t, t + rest);
      }
    } else {
      RecognizesNothing(init, t + rest, t);
      assert t <= t + rest;
      assert t + rest == t <==> rest == "" by {
        assert rest != "" ==> |t + rest| > |t|;
        assert t + "" == t;
      }
    }
  }

  lemma {:induction false} NothingToRemove(digits: string, word: string)
    requires forall i | 0 <= i < |digits| :: IsDigit(digits[i])
    requires word != "" && !IsDigit(word[0])
    ensures RemoveAll(digits, word) == digits
  {
    if |digits| >= |word| {
      assert digits[0] != word[0];
      NothingToRemove(digits[1..], word);
    }
  }

  /** The first occurrence of a word is cut out and the rest searched on, so that all go. */
  lemma {:induction false} CutOut(before: string, word: string, rest: string)
    requires word != "" && forall i | 0 <= i < |before| :: !(word <= (before + word + rest)[i..])
    ensures RemoveAll(before + word + rest, word) == before + RemoveAll(rest, word)
  {
    var s := before + word + rest;
    if before == "" {
      assert word <= s && s[|word|..] == rest;
    } else {
      assert s[0..] == s && s[1..] == before[1..] + word + rest;
      forall i | 0 <= i < |before| - 1 ensures !(word <= (before[1..] + word + rest)[i..]) {
        assert s[1..][i..] == s[i + 1..];
      }
      CutOut(before[1..], word, rest);
    }
  }

  lemma {:induction false} OneDigit(n: nat)
    ensures |Decimal(n)| >= 1 && (|Decimal(n)| == 1 <==> n < 10)
  {
    if n >= 10 {
      OneDigit(n / 10);
    }
  }

  /** The key of a scanned block is recognised, and decoding gives back the very id the scan
      stores it under, except for the two preamps, stored by letter and decoded by number,
      and for fx blocks from the tenth on, of whose number only the first digit is kept. */
  lemma DecodedIdIsScanId(fxTypes: seq<string>, suffixNames: map<string, string>, k: nat, count: nat, i: nat)
    requires k < |fxTypes| && i < count && fxTypes[k] != "" && !IsDigit(fxTypes[k][0])
    requires forall j, l | 0 <= j < |fxTypes| && 0 <= l < |fxTypes| && fxTypes[j] <= fxTypes[l] :: j == l
    ensures var t := fxTypes[k];
            var id := ScanId(t, count, i);
            var (fxType, known) := Recognize(fxTypes, t + id);
            && fxType == Some(t)
            && (Identify(suffixNames, t, known, t + id).0 == Some(id) <==>
                count == 1 || (!(t == "preamp" && i < 2) && (t == "fx" ==> i < 9)))
  {
    var t := fxTypes[k];
    var id := ScanId(t, count, i);
    RecognizesItsType(fxTypes, k, id);
    if count != 1 {
      OneDigit(i + 1);
      DecimalRoundTrip(i + 1);
      if t == "preamp" && i < 2 {
        PreampId(suffixNames, i);
      } else if t == "fx" {
        FxId(suffixNames, id);
      } else {
        NumberedId(suffixNames, t, id);
      }
    }
  }

  /** A sub-effect's key: the one digit behind fx is the block's id, the rest its suffix, and
      the effect is the one with that suffix. */
  lemma SubEffectIdentity(fxTypes: seq<string>, suffixNames: map<string, string>, k: nat, digit: char, suffix: string)
    requires k < |fxTypes| && fxTypes[k] == "fx" && suffix != ""
    requires forall j, l | 0 <= j < |fxTypes| && 0 <= l < |fxTypes| && fxTypes[j] <= fxTypes[l] :: j == l
    ensures var name := "fx" + [digit] + suffix;
            var (fxType, known) := Recognize(fxTypes, name);
            && fxType == Some("fx")
            && Identify(suffixNames, "fx", known, name)
               == (Some([digit]), Some(suffix), if suffix in suffixNames then Some(suffixNames[suffix]) else None)
  {
    assert "fx" + [digit] + suffix == "fx" + ([digit] + suffix);
    RecognizesItsType(fxTypes, k, [digit] + suffix);
    assert |"preampA"| != 0 && "fx"[0] != "preamp"[0];
    assert ("fx" + [digit] + suffix)[3..] == suffix;
  }

  /** The two preamps are told by number, and a key that is all of its type has the empty id. */
  lemma PreampIdentity(fxTypes: seq<string>, suffixNames: map<string, string>, k: nat)
    requires k < |fxTypes| && fxTypes[k] == "preamp"
    requires forall j, l | 0 <= j < |fxTypes| && 0 <= l < |fxTypes| && fxTypes[j] <= fxTypes[l] :: j == l
    ensures Recognize(fxTypes, "preampA") == Recognize(fxTypes, "preampB") == (Some("preamp"), None)
    ensures Identify(suffixNames, "preamp", None, "preampA") == (Some("1"), None, None)
    ensures Identify(suffixNames, "preamp", None, "preampB") == (Some("2"), None, None)
    ensures Recognize(fxTypes, "preamp") == (Some("preamp"), Some(""))
    ensures Identify(suffixNames, "preamp", Some(""), "preamp") == (Some(""), None, None)
  {
    assert "preamp" + "A" == "preampA" && "preamp" + "B" == "preampB" && "preamp" + "" == "preamp";
    RecognizesItsType(fxTypes, k, "A");
    RecognizesItsType(fxTypes, k, "B");
    RecognizesItsType(fxTypes, k, "");
    assert "preampA"[6] != "preampB"[6];
  }

  lemma PreampId(suffixNames: map<string, string>, i: nat)
    requires i < 2
    ensures ScanId("preamp", 2, i) == (if i == 0 then "A" else "B")
    ensures var id := ScanId("preamp", 2, i); id != "" && Identify(suffixNames, "preamp", None, "preamp" + id).0 != Some(id)
  {
    assert "preamp" + "A" == "preampA" && "preamp" + "B" == "preampB";
    assert "1"[0] != "A"[0] && "2"[0] != "B"[0];
  }

  lemma FxId(suffixNames: map<string, string>, id: string)
    requires id != ""
    ensures Identify(suffixNames, "fx", None, "fx" + id).0 == Some(id) <==> |id| == 1
  {
    assert ("fx" + id)[2] == id[0] && |"fx" + id| > 2;
    assert |"preamp"| != |"fx"|;
    assert Identify(suffixNames, "fx", None, "fx" + id).0 == Some([id[0]]);
    assert |id| == 1 ==> id == [id[0]];
  }

  lemma NumberedId(suffixNames: map<string, string>, t: string, id: string)
    requires t != "fx" && t != "" && !IsDigit(t[0])
    requires id != "" && forall i | 0 <= i < |id| :: IsDigit(id[i])
    ensures Identify(suffixNames, t, None, t + id).0 == Some(id)
  {
    NothingToRemove(id, t);
    assert (t + id)[|t|..] == id && t <= t + id;
    assert (t + id)[|t + id| - 1] == id[|id| - 1];
    assert "preampA"[6] == 'A' && "preampB"[6] == 'B' && |"preampA"| == |"preampB"| == 7;
  }

  lemma OneBeginsTheOther(a: string, b: string, s: string)
    requires a <= s && b <= s
    ensures a <= b || b <= a
  {
  }

  lemma {:induction false} RecognizesNothing(fxTypes: seq<string>, name: string, t: string)
    requires t <= name && forall u | u in fxTypes :: !(u <= t) && !(t <= u)
    ensures Recognize(fxTypes, name) == (None, None)
  {
    if fxTypes != [] {
      var init, last := fxTypes[..|fxTypes| - 1], fxTypes[|fxTypes| - 1];
      assert last in fxTypes && forall u | u in init :: u in fxTypes;
      RecognizesNothing(init, name, t);
      if last <= name {
        OneBeginsTheOther(last, t, name);
      }
    }
  }

  // ---- one undoes the other ----------------------------------------------------------------------

  predicate KeysOk(table: SpecTable) {
    match table
    case Sections(es) => DistinctKeys(es)
    case Blocks(es) => DistinctKeys(es)
    case Settings(es) => DistinctKeys(es)
    case Other => true
  }

  /** Spec files a map can be loaded from. */
  ghost predicate FilesOk(files: seq<SpecFile>) {
    DistinctNames(files) && forall f | f in files :: FileOk(f) && KeysOk(f.table)
  }

  /** A setting, the three files that spell it out, and what each says of it. */
  datatype Path = Path(sections: SpecFile, container: SpecFile, table: SpecFile,
                       section: string, option: string, setting: string,
                       base: Entry, block: Entry, entry: Setting)
  {
    ghost predicate In(files: seq<SpecFile>) {
      && FilesOk(files) && sections in files && container in files && table in files
      && sections.name == BASE && container.name == base.table && table.name == block.table
      && base.table in CONTAINERS && PATCH <= block.table && block.table !in CONTAINERS
      && Lookup(sections.table.sections, section) == Some(base)
      && Lookup(container.table.blocks, option) == Some(block)
      && Lookup(table.table.settings, setting) == Some(entry)
    }
  }

  lemma {:induction false} LoadedTable(files: seq<SpecFile>, f: SpecFile)
    requires DistinctNames(files) && f in files
    ensures Get(LoadTables(files), f.name) == Some(f.table)
  {
    var init, last := files[..|files| - 1], files[|files| - 1];
    assert forall g :: g in files <==> g in init || g == last;
    if f != last {
      LoadedTable(init, f);
    }
  }

  lemma PathIsLocated(files: seq<SpecFile>, p: Path)
    requires p.In(files)
    ensures Locate(LoadTables(files), p.section, p.option, p.setting) == Found(p.base, p.block, p.entry)
  {
    LoadedTable(files, p.sections);
    LoadedTable(files, p.container);
    LoadedTable(files, p.table);
  }

  /** Resolving the columns of a setting's address finds that very setting exactly when, at
      each of the three levels, it is the last entry of its table with its byte. */
  lemma ResolveFindsSetting(fxTypes: seq<string>, files: seq<SpecFile>, p: Path, c: seq<int>)
    requires p.In(files) && |c| == 4
    ensures Resolve(LoadIndices(fxTypes, files), c)
              == Some(((p.section, p.base.table), (p.option, p.block.table), (p.setting, p.entry)))
       <==> && LastAt(SectionRows(p.sections.table.sections), (c[0], c[1])) == Some((p.section, p.base.table))
            && LastAt(BlockRows(p.container.table.blocks), c[2]) == Some((p.option, p.block.table))
            && LastAt(SettingRows(p.table.table.settings), c[3]) == Some((p.setting, p.entry))
  {
    LookupIsScan(fxTypes, files, p.sections, (c[0], c[1]), 0);
    LookupIsScan(fxTypes, files, p.container, (0, 0), c[2]);
    LookupIsScan(fxTypes, files, p.table, (0, 0), c[3]);
  }

  /** The section's third and fourth byte, the block's first and last and the setting's
      first are zero, and no other section, block or setting shares the bytes between. */
  ghost predicate Unambiguous(p: Path)
    requires FileOk(p.sections) && p.sections.name == BASE
    requires FileOk(p.container) && p.container.name in CONTAINERS
    requires FileOk(p.table) && PATCH <= p.table.name && p.table.name !in CONTAINERS
  {
    && Plain(p.base, p.block, p.entry)
    && p.base.address[2] == p.base.address[3] == 0
    && p.block.address[0] == p.block.address[2] == 0
    && p.entry.offset[0] == 0
    && (forall e | e in p.sections.table.sections ::
          (e.1.address[0], e.1.address[1]) == (p.base.address[0], p.base.address[1]) ==> e.0 == p.section)
    && (forall e | e in p.container.table.blocks :: e.1.address[1] == p.block.address[1] ==> e.0 == p.option)
    && (forall e | e in p.table.table.settings :: e.1.offset[1] == p.entry.offset[1] ==> e.0 == p.setting)
  }

  /** The only row with its key is the last one with it. */
  lemma OnlyIsLast<K, V>(rows: seq<(K, V)>, i: nat)
    requires i < |rows| && forall j | 0 <= j < |rows| && rows[j].0 == rows[i].0 :: j == i
    ensures LastAt(rows, rows[i].0) == Some(rows[i].1)
  {
    LastAtIsRow(rows, i);
  }

  lemma SectionIsLast(sections: seq<(string, Entry)>, section: string, base: Entry)
    requires DistinctKeys(sections) && (forall e | e in sections :: |e.1.address| >= 2)
    requires Lookup(sections, section) == Some(base) && |base.address| >= 2
    requires forall e | e in sections ::
               (e.1.address[0], e.1.address[1]) == (base.address[0], base.address[1]) ==> e.0 == section
    ensures LastAt(SectionRows(sections), (base.address[0], base.address[1])) == Some((section, base.table))
  {
    var i := LookupIsThere(sections, section);
    forall j | 0 <= j < |sections| && SectionRows(sections)[j].0 == SectionRows(sections)[i].0 ensures j == i {
      assert sections[j] in sections;
    }
    OnlyIsLast(SectionRows(sections), i);
  }

  lemma BlockIsLast(blocks: seq<(string, Entry)>, option: string, block: Entry)
    requires DistinctKeys(blocks) && (forall e | e in blocks :: |e.1.address| >= 2)
    requires Lookup(blocks, option) == Some(block) && |block.address| >= 2
    requires forall e | e in blocks :: e.1.address[1] == block.address[1] ==> e.0 == option
    ensures LastAt(BlockRows(blocks), block.address[1]) == Some((option, block.table))
  {
    var i := LookupIsThere(blocks, option);
    forall j | 0 <= j < |blocks| && BlockRows(blocks)[j].0 == BlockRows(blocks)[i].0 ensures j == i {
      assert blocks[j] in blocks;
    }
    OnlyIsLast(BlockRows(blocks), i);
  }

  lemma SettingIsLast(settings: seq<(string, Setting)>, setting: string, entry: Setting)
    requires DistinctKeys(settings) && (forall e | e in settings :: |e.1.offset| >= 2)
    requires Lookup(settings, setting) == Some(entry) && |entry.offset| >= 2
    requires forall e | e in settings :: e.1.offset[1] == entry.offset[1] ==> e.0 == setting
    ensures LastAt(SettingRows(settings), entry.offset[1]) == Some((setting, entry))
  {
    var i := LookupIsThere(settings, setting);
    forall j | 0 <= j < |settings| && SettingRows(settings)[j].0 == SettingRows(settings)[i].0 ensures j == i {
      assert settings[j] in settings;
    }
    OnlyIsLast(SettingRows(settings), i);
  }

  lemma ColumnsBetweenZeros(base: seq<int>, block: seq<int>, offset: seq<int>)
    requires |base| == 4 && |block| == 3 && |offset| == 2
    requires base[2] == base[3] == block[0] == block[2] == offset[0] == 0
    ensures var c := Columns(base, block, offset);
            c[0] == base[0] && c[1] == base[1] && c[2] == block[1] && c[3] == offset[1]
  {
  }

  lemma UnambiguousIsLast(files: seq<SpecFile>, p: Path)
    requires p.In(files) && Unambiguous(p)
    ensures var c := Columns(p.base.address, p.block.address, p.entry.offset);
            && LastAt(SectionRows(p.sections.table.sections), (c[0], c[1])) == Some((p.section, p.base.table))
            && LastAt(BlockRows(p.container.table.blocks), c[2]) == Some((p.option, p.block.table))
            && LastAt(SettingRows(p.table.table.settings), c[3]) == Some((p.setting, p.entry))
  {
    ColumnsBetweenZeros(p.base.address, p.block.address, p.entry.offset);
    assert FileOk(p.sections) && KeysOk(p.sections.table);
    SectionIsLast(p.sections.table.sections, p.section, p.base);
    assert FileOk(p.container) && KeysOk(p.container.table);
    BlockIsLast(p.container.table.blocks, p.option, p.block);
    assert FileOk(p.table) && KeysOk(p.table.table);
    SettingIsLast(p.table.table.settings, p.setting, p.entry);
  }

  lemma UnambiguousResolves(fxTypes: seq<string>, files: seq<SpecFile>, p: Path)
    requires p.In(files) && Unambiguous(p)
    ensures Resolve(LoadIndices(fxTypes, files), Columns(p.base.address, p.block.address, p.entry.offset))
            == Some(((p.section, p.base.table), (p.option, p.block.table), (p.setting, p.entry)))
  {
    UnambiguousIsLast(files, p);
    ResolveFindsSetting(fxTypes, files, p, Columns(p.base.address, p.block.address, p.entry.offset));
  }

  /** The raw number a value comes back as: nibbles keep the digits that fit. */
  function Kept(entry: Setting, raw: int): int {
    if entry.width > 1 then
      PowPositive(16, entry.width);
      raw % Pow(16, entry.width)
    else raw
  }

  lemma ValueRoundTrip(entry: Setting, value: Value)
    requires EncodeValue(entry, value).Some?
    ensures IntOf(entry, Many(EncodeValue(entry, value).value)) == Some(Kept(entry, RawOf(entry, value).value))
  {
    if entry.width > 1 {
      var nibbles := PackNibbles(RawOf(entry, value).value, entry.width);
      assert nibbles[..entry.width] == nibbles;
      UnpackPack(RawOf(entry, value).value, entry.width);
    }
  }

  lemma BuiltForSetting(files: seq<SpecFile>, p: Path, value: Value)
    requires p.In(files) && Unambiguous(p) && EncodeValue(p.entry, value).Some?
    ensures var built := AddressFor(LoadTables(files), p.section, p.option, p.setting, Some(value));
            && built.Built? && |built.bytes| == 4 + (if p.entry.width > 1 then p.entry.width else 1)
            && built.bytes[..4] == Columns(p.base.address, p.block.address, p.entry.offset)
            && built.bytes[4..] == EncodeValue(p.entry, value).value
  {
    PathIsLocated(files, p);
    AddressIsColumnSum(LoadTables(files), p.section, p.option, p.setting, Some(value));
  }

  /** Decoding what was built for a setting and a value gives back the section, the block,
      the setting, the number, and whatever label that number has. */
  lemma DecodeUndoesAddressFor(fxTypes: seq<string>, suffixNames: map<string, string>, files: seq<SpecFile>, p: Path, value: Value)
    requires p.In(files) && Unambiguous(p) && EncodeValue(p.entry, value).Some?
    ensures var built := AddressFor(LoadTables(files), p.section, p.option, p.setting, Some(value));
            var raw := Kept(p.entry, RawOf(p.entry, value).value);
            && built.Built? && |built.bytes| == 4 + (if p.entry.width > 1 then p.entry.width else 1)
            && var decoding := Decode(fxTypes, suffixNames, LoadIndices(fxTypes, files), built.bytes[..4], Many(built.bytes[4..]));
               && decoding.Decoded?
               && var v := decoding.value;
                  && (v.section, v.name, v.valueName) == (p.section, p.option, p.setting)
                  && (v.table, v.patchTable) == (p.base.table, p.block.table)
                  && v.intValue == raw && v.strValue == LabelForRaw(p.entry.values, raw)
  {
    BuiltForSetting(files, p, value);
    UnambiguousResolves(fxTypes, files, p);
    ValueRoundTrip(p.entry, value);
  }

  /** Who a decoded value is for is told by its block's key alone. */
  lemma DecodedIdentity(fxTypes: seq<string>, suffixNames: map<string, string>, ix: Indices, address: seq<int>, value: Wire)
    requires Decode(fxTypes, suffixNames, ix, address, value).Decoded?
    ensures var v := Decode(fxTypes, suffixNames, ix, address, value).value;
            var (fxType, known) := Recognize(fxTypes, v.name);
            && v.fxType == fxType
            && (v.fxId, v.fxTableSuffix, v.fxName)
               == if fxType == None then (None, None, None) else Identify(suffixNames, fxType.value, known, v.name)
  {
  }

  /** A name the setting lists, whose number no other name has, is read back as itself. */
  lemma {:induction false} LabelRoundTrip(values: seq<(string, int)>, name: string)
    requires Lookup(values, name).Some?
    requires forall v | v in values && v.1 == Lookup(values, name).value :: v.0 == name
    ensures LabelForRaw(values, Lookup(values, name).value) == Some(name)
  {
    if values[0].0 != name {
      assert values[0] in values && forall v | v in values[1..] :: v in values;
      LabelRoundTrip(values[1..], name);
    }
  }
}
