/** Resolving one slider: its range from the map and its current value from the unit, each
    found through the effect the fx-name owner has for the block at that moment. */
module SliderReads {
  import opened Wrappers
  import opened PatchStore
  import opened Positional
  import opened AddressMap
  import opened AddressCodec

  type Range = (int, int)

  const PATCH_SECTION := "patch (temporary patch)"
  const PATCH3_SECTION := "patch3 (temporary patch)"

  /** What the reads go by: the loaded tables, the table suffix of each effect, and the
      sections of the suffixes that are not in the base patch. */
  datatype Spec = Spec(tables: Tables, suffixes: map<string, string>, sections: map<string, string>)

  /** Why a read raises: a missing key, or no address or no range where one is used. */
  datatype Fault = NoKey | NoAddress | NoRange

  /** The table suffix of the effect the owner names, if it names one. */
  function SuffixOf(spec: Spec, owner: Reading): Option<string> {
    if owner.Label? && owner.text in spec.suffixes then Some(spec.suffixes[owner.text]) else None
  }

  function SectionOf(spec: Spec, fxType: string, fxId: string, suffix: Option<string>): string {
    if fxType == "fx" && fxId == "4" then PATCH3_SECTION
    else if suffix.Some? && suffix.value in spec.sections then spec.sections[suffix.value]
    else PATCH_SECTION
  }

  function KeyOf(fxType: string, fxId: string, suffix: Option<string>): string {
    fxType + fxId + if suffix.Some? then suffix.value else ""
  }

  /** The suffix a read goes by: fx blocks only have one. */
  function SuffixFor(spec: Spec, fxType: string, owner: Reading): Option<string> {
    if fxType == "fx" then SuffixOf(spec, owner) else None
  }

  /** The table a parameter is looked up in. */
  function BlockAt(spec: Spec, fxType: string, fxId: string, owner: Reading): LocatedBlock {
    var suffix := SuffixFor(spec, fxType, owner);
    LocateBlock(spec.tables, SectionOf(spec, fxType, fxId, suffix), KeyOf(fxType, fxId, suffix))
  }

  /** The range of a parameter; none for a block the map does not have. */
  function RangeAt(spec: Spec, fxType: string, fxId: string, owner: Reading, option: string)
    : Result<Option<Range>, Fault>
  {
    if fxType == "fx" && SuffixOf(spec, owner) == None then Err(NoKey)
    else
      match BlockAt(spec, fxType, fxId, owner)
      case NoTable => Err(NoKey)
      case NoBlock => Ok(None)
      case InBlock(_, _, settings) =>
        var entry := Lookup(settings, option);
        if entry == None then Err(NoKey) else Ok(Some(entry.value.range))
  }

  /** The settings a raw value of an effect is read through. */
  function ValueEntry(spec: Spec, suffix: Option<string>, option: string): Option<Setting> {
    if suffix == None then None
    else
      var table := "PatchFx" + suffix.value;
      if table !in spec.tables || !spec.tables[table].Settings? then None
      else Lookup(spec.tables[table].settings, option)
  }

  /** The current value of a parameter, `raw` being what the unit answers. An fx block goes
      through the owner again: under no name at all it is addressed as a plain block, and a
      parameter its table lacks has no value. */
  function ValueAt(spec: Spec, fxType: string, fxId: string, owner: Reading, option: string, raw: Option<int>)
    : Result<Reading, Fault>
  {
    var suffix := SuffixFor(spec, fxType, owner);
    if fxType == "fx" && owner != Nothing && suffix == None then Err(NoKey)
    else
      match AddressFor(spec.tables, SectionOf(spec, fxType, fxId, suffix), KeyOf(fxType, fxId, suffix), option, None)
      case Raised => Err(NoKey)
      case Unknown => if fxType == "fx" then Ok(Nothing) else Err(NoAddress)
      case Built(_) =>
        if raw == None then Ok(Nothing)
        else if fxType != "fx" then Ok(Raw(raw.value))
        else if ValueEntry(spec, suffix, option) == None then Err(NoKey)
        else
          var name := LabelForRaw(ValueEntry(spec, suffix, option).value.values, raw.value);
          Ok(if name.Some? then Label(name.value) else Raw(raw.value))
  }

  /** The slider itself; on the fx path a missing value leaves none. */
  function SliderOf(fxType: string, option: string, range: Option<Range>, value: Reading): Result<Option<Slider>, Fault> {
    if fxType == "fx" && value == Nothing then Ok(None)
    else if range == None then Err(NoRange)
    else Ok(Some(Slider(value, option, range.value.0, range.value.1)))
  }

  /** All of it with the owner's entry staying as it is. */
  function ResolveSlider(spec: Spec, fxType: string, fxId: string, owner: Reading, option: Option<string>, raw: Option<int>)
    : Result<Option<Slider>, Fault>
  {
    if option == None then Ok(None)
    else
      match RangeAt(spec, fxType, fxId, owner, option.value)
      case Err(e) => Err(e)
      case Ok(range) =>
        match ValueAt(spec, fxType, fxId, owner, option.value, raw)
        case Err(e) => Err(e)
        case Ok(value) => SliderOf(fxType, option.value, range, value)
  }

  // ---- what the tables say ---------------------------------------------------------------------

  /** The map has this section. */
  predicate ListsSection(tables: Tables, section: string, base: Entry) {
    && "base-addresses" in tables && tables["base-addresses"].Sections? && DistinctKeys(tables["base-addresses"].sections)
    && (section, base) in tables["base-addresses"].sections && IsBytes(base.address)
  }

  /** The container has this block. */
  predicate ListsBlock(tables: Tables, container: string, key: string, block: Entry) {
    && container in tables && tables[container].Blocks? && DistinctKeys(tables[container].blocks)
    && (key, block) in tables[container].blocks && IsBytes(block.address)
  }

  /** The table has this parameter. */
  predicate ListsSetting(tables: Tables, table: string, option: string, entry: Setting) {
    && table in tables && tables[table].Settings? && DistinctKeys(tables[table].settings)
    && (option, entry) in tables[table].settings && IsBytes(entry.offset)
  }

  /** The section an effect's block is in: all of the fourth are in patch3, of the others each
      suffix is in its own, and those that have none are in the base patch. */
  function EffectSection(spec: Spec, fxId: string, suffix: string): string {
    if fxId == "4" then "patch3 (temporary patch)"
    else if suffix in spec.sections then spec.sections[suffix]
    else "patch (temporary patch)"
  }

  /** The tables have this parameter of the effect for this fx block: the section and its
      container list the block fx, id, suffix; the block's table lists the parameter, and so
      does the table that is named after the effect. */
  ghost predicate Offers(spec: Spec, fxId: string, name: string, option: string, entry: Setting, values: Setting) {
    name in spec.suffixes &&
    var suffix := spec.suffixes[name];
    exists base: Entry, block: Entry ::
      && ListsSection(spec.tables, EffectSection(spec, fxId, suffix), base)
      && ListsBlock(spec.tables, base.table, "fx" + fxId + suffix, block)
      && ListsSetting(spec.tables, block.table, option, entry)
      && ListsSetting(spec.tables, "PatchFx" + suffix, option, values)
  }

  /** The tables have this parameter of an ordinary block. */
  ghost predicate OffersPlain(spec: Spec, fxType: string, fxId: string, option: string, entry: Setting) {
    exists base: Entry, block: Entry ::
      && ListsSection(spec.tables, "patch (temporary patch)", base)
      && ListsBlock(spec.tables, base.table, fxType + fxId, block)
      && ListsSetting(spec.tables, block.table, option, entry)
  }

  /** A raw number as it is shown: the name listed for it, or itself if none is. */
  predicate ReadAs(values: seq<(string, int)>, raw: int, v: Reading) {
    if v.Label? then (v.text, raw) in values else v == Raw(raw) && forall p | p in values :: p.1 != raw
  }

  lemma Located(tables: Tables, section: string, base: Entry, key: string, block: Entry, option: string, entry: Setting)
    requires ListsSection(tables, section, base) && ListsBlock(tables, base.table, key, block)
    requires ListsSetting(tables, block.table, option, entry)
    ensures LocateBlock(tables, section, key) == InBlock(base, block, tables[block.table].settings)
    ensures Lookup(tables[block.table].settings, option) == Some(entry)
    ensures AddressFor(tables, section, key, option, None).Built?
  {
    LookupFinds(tables[BASE].sections, section, base);
    LookupFinds(tables[base.table].blocks, key, block);
    LookupFinds(tables[block.table].settings, option, entry);
  }

  lemma EffectReads(spec: Spec, fxId: string, name: string, option: string, entry: Setting, values: Setting, raw: int)
    requires Offers(spec, fxId, name, option, entry, values)
    ensures RangeAt(spec, "fx", fxId, Label(name), option) == Ok(Some(entry.range))
    ensures ValueEntry(spec, SuffixOf(spec, Label(name)), option) == Some(values)
    ensures var named := LabelForRaw(values.values, raw);
            ValueAt(spec, "fx", fxId, Label(name), option, Some(raw))
            == Ok(if named.Some? then Label(named.value) else Raw(raw))
    ensures ValueAt(spec, "fx", fxId, Label(name), option, None) == Ok(Nothing)
  {
    var suffix := spec.suffixes[name];
    var base: Entry, block: Entry :|
      && ListsSection(spec.tables, EffectSection(spec, fxId, suffix), base)
      && ListsBlock(spec.tables, base.table, "fx" + fxId + suffix, block)
      && ListsSetting(spec.tables, block.table, option, entry)
      && ListsSetting(spec.tables, "PatchFx" + suffix, option, values);
    Located(spec.tables, EffectSection(spec, fxId, suffix), base, "fx" + fxId + suffix, block, option, entry);
    LookupFinds(spec.tables["PatchFx" + suffix].settings, option, values);
  }

  /** A slider of an fx block is read whole when the tables have its parameter and the unit
      answers: with that parameter's range, and with the name its value has or the number. If
      the unit does not answer there is no slider. */
  lemma EffectSliderRead(spec: Spec, fxId: string, name: string, option: string, entry: Setting, values: Setting, raw: int)
    requires Offers(spec, fxId, name, option, entry, values)
    ensures RangeAt(spec, "fx", fxId, Label(name), option) == Ok(Some(entry.range))
    ensures ValueEntry(spec, SuffixOf(spec, Label(name)), option) == Some(values)
    ensures exists v :: ReadAs(values.values, raw, v)
              && ResolveSlider(spec, "fx", fxId, Label(name), Some(option), Some(raw))
                 == Ok(Some(Slider(v, option, entry.range.0, entry.range.1)))
    ensures ResolveSlider(spec, "fx", fxId, Label(name), Some(option), None) == Ok(None)
  {
    EffectReads(spec, fxId, name, option, entry, values, raw);
    LabelOfRaw(values.values, raw);
    var named := LabelForRaw(values.values, raw);
    assert ReadAs(values.values, raw, if named.Some? then Label(named.value) else Raw(raw));
  }

  /** One of an ordinary block is read whole when the tables have its parameter, with the
      number the unit answers or with none. */
  lemma PlainSliderRead(spec: Spec, fxType: string, fxId: string, owner: Reading, option: string, entry: Setting, raw: Option<int>)
    requires fxType != "fx" && OffersPlain(spec, fxType, fxId, option, entry)
    ensures RangeAt(spec, fxType, fxId, owner, option) == Ok(Some(entry.range))
    ensures ResolveSlider(spec, fxType, fxId, owner, Some(option), raw)
            == Ok(Some(Slider(if raw.Some? then Raw(raw.value) else Nothing, option, entry.range.0, entry.range.1)))
  {
    var base: Entry, block: Entry :|
      && ListsSection(spec.tables, "patch (temporary patch)", base)
      && ListsBlock(spec.tables, base.table, fxType + fxId, block)
      && ListsSetting(spec.tables, block.table, option, entry);
    assert fxType + fxId + "" == fxType + fxId;
    Located(spec.tables, "patch (temporary patch)", base, fxType + fxId, block, option, entry);
  }

  /** Where the effect has a suffix but the container of its section has no block for it, there
      is no slider and nothing raises; without a suffix the read raises, and so does that of an
      ordinary block the map does not have. */
  lemma NoSuchBlock(spec: Spec, fxType: string, fxId: string, name: string, base: Entry, option: string, raw: Option<int>)
    requires var suffix := if fxType == "fx" && name in spec.suffixes then spec.suffixes[name] else "";
             && ListsSection(spec.tables, if fxType == "fx" then EffectSection(spec, fxId, suffix) else "patch (temporary patch)", base)
             && base.table in spec.tables && spec.tables[base.table].Blocks? && DistinctKeys(spec.tables[base.table].blocks)
             && forall b | b in spec.tables[base.table].blocks :: b.0 != fxType + fxId + suffix
    ensures fxType == "fx" && name in spec.suffixes ==>
              ResolveSlider(spec, fxType, fxId, Label(name), Some(option), raw) == Ok(None)
    ensures fxType == "fx" && name !in spec.suffixes ==>
              ResolveSlider(spec, fxType, fxId, Label(name), Some(option), raw).Err?
    ensures fxType != "fx" ==> ResolveSlider(spec, fxType, fxId, Label(name), Some(option), raw).Err?
  {
    var suffix := if fxType == "fx" && name in spec.suffixes then spec.suffixes[name] else "";
    var section := if fxType == "fx" then EffectSection(spec, fxId, suffix) else "patch (temporary patch)";
    LookupFinds(spec.tables[BASE].sections, section, base);
    NotFound(spec.tables[base.table].blocks, fxType + fxId + suffix);
    assert LocateBlock(spec.tables, section, fxType + fxId + suffix) == NoBlock;
  }

  // ---- what a slider shows ---------------------------------------------------------------------

  /** A value as the unit sent it, or one of the labels the effect has for the parameter. */
  predicate ShownUnder(spec: Spec, owner: Reading, option: string, value: Reading) {
    value.Raw? || (value.Label? && var entry := ValueEntry(spec, SuffixOf(spec, owner), option);
                                   entry.Some? && Lookup(entry.value.values, value.text).Some?)
  }

  /** An fx block's slider, if there, is for this parameter, and its range and value are
      those the parameter has under the effect the owner names. */
  predicate SliderUnder(spec: Spec, fxId: string, owner: Reading, option: Option<string>, slider: Option<Slider>) {
    slider.Some? ==>
      && option == Some(slider.value.param)
      && RangeAt(spec, "fx", fxId, owner, slider.value.param) == Ok(Some((slider.value.min, slider.value.max)))
      && ShownUnder(spec, owner, slider.value.param, slider.value.value)
  }

  lemma {:induction false} LabelIsListed(values: seq<(string, int)>, raw: int)
    ensures LabelForRaw(values, raw).Some? ==> Lookup(values, LabelForRaw(values, raw).value).Some?
  {
    if values != [] && values[0].1 != raw {
      LabelIsListed(values[1..], raw);
    }
  }

  /** What was resolved under one effect shows that effect. */
  lemma ResolvedUnder(spec: Spec, fxId: string, owner: Reading, option: string, raw: Option<int>, slider: Option<Slider>)
    requires RangeAt(spec, "fx", fxId, owner, option).Ok? && ValueAt(spec, "fx", fxId, owner, option, raw).Ok?
    requires Ok(slider) == SliderOf("fx", option, RangeAt(spec, "fx", fxId, owner, option).value,
                                    ValueAt(spec, "fx", fxId, owner, option, raw).value)
    ensures SliderUnder(spec, fxId, owner, Some(option), slider)
  {
    var entry := ValueEntry(spec, SuffixOf(spec, owner), option);
    if entry.Some? && raw.Some? {
      LabelIsListed(entry.value.values, raw.value);
    }
  }
}
