/** The unit's memory map: the spec tables as loaded, the decode indices built from them,
    the address of a setting, and the reading of an address back into a setting. */
module AddressMap {
  import opened Wrappers

  // ---- spec tables -----------------------------------------------------------------------------

  /** A section of the map, or a block of a section: where it starts, and its own table. */
  datatype Entry = Entry(address: seq<int>, table: string)

  /** One setting of a block: its offset, how many addresses its value takes, its value
      range, and its named values in file order. */
  datatype Setting = Setting(offset: seq<int>, width: nat, range: (int, int), values: seq<(string, int)>)

  /** The content of a spec file, as its keys come. */
  datatype SpecTable =
    | Sections(sections: seq<(string, Entry)>)
    | Blocks(blocks: seq<(string, Entry)>)
    | Settings(settings: seq<(string, Setting)>)
    | Other

  datatype SpecFile = SpecFile(name: string, table: SpecTable)

  const BASE := "base-addresses"
  const PATCH := "Patch"
  const CONTAINERS := ["Patch", "Patch2", "Patch3"]

  function Lookup<T>(entries: seq<(string, T)>, key: string): Option<T> {
    if entries == [] then None
    else if entries[0].0 == key then Some(entries[0].1)
    else Lookup(entries[1..], key)
  }

  predicate DistinctKeys<T>(entries: seq<(string, T)>) {
    forall i, j | 0 <= i < j < |entries| :: entries[i].0 != entries[j].0
  }

  /** Looking a listed key up finds what is listed with it. */
  lemma {:induction false} LookupFinds<T>(entries: seq<(string, T)>, key: string, value: T)
    requires DistinctKeys(entries)
    ensures (key, value) in entries ==> Lookup(entries, key) == Some(value)
  {
    if entries != [] {
      LookupFinds(entries[1..], key, value);
      if (key, value) in entries && entries[0].0 == key {
        var i :| 0 <= i < |entries| && entries[i] == (key, value);
        assert i == 0;
      }
    }
  }

  /** A key that is not listed is not found. */
  lemma {:induction false} NotFound<T>(entries: seq<(string, T)>, key: string)
    ensures (forall e | e in entries :: e.0 != key) ==> Lookup(entries, key) == None
  {
    if entries != [] {
      assert entries[0] in entries && forall e | e in entries[1..] :: e in entries;
      NotFound(entries[1..], key);
    }
  }

  lemma {:induction false} LookupIsThere<T>(entries: seq<(string, T)>, key: string) returns (i: nat)
    requires Lookup(entries, key).Some?
    ensures i < |entries| && entries[i] == (key, Lookup(entries, key).value)
  {
    if entries[0].0 == key {
      i := 0;
    } else {
      i := LookupIsThere(entries[1..], key);
      i := i + 1;
    }
  }

  // ---- indices -----------------------------------------------------------------------------------

  /** A dictionary filled row by row, later rows overwriting earlier ones. */
  function Index<K, V>(rows: seq<(K, V)>): map<K, V> {
    if rows == [] then map[] else Index(rows[..|rows| - 1])[rows[|rows| - 1].0 := rows[|rows| - 1].1]
  }

  /** The last row with this key, found by walking back from the end. */
  function LastAt<K(==), V>(rows: seq<(K, V)>, key: K): Option<V> {
    if rows == [] then None
    else if rows[|rows| - 1].0 == key then Some(rows[|rows| - 1].1)
    else LastAt(rows[..|rows| - 1], key)
  }

  lemma {:induction false} IndexIsLastMatch<K, V>(rows: seq<(K, V)>, key: K)
    ensures (if key in Index(rows) then Some(Index(rows)[key]) else None) == LastAt(rows, key)
  {
    if rows != [] {
      IndexIsLastMatch(rows[..|rows| - 1], key);
    }
  }

  lemma {:induction false} LastAtIsRow<K, V>(rows: seq<(K, V)>, i: nat)
    requires i < |rows| && forall j | i < j < |rows| :: rows[j].0 != rows[i].0
    ensures LastAt(rows, rows[i].0) == Some(rows[i].1)
  {
    if i < |rows| - 1 {
      LastAtIsRow(rows[..|rows| - 1], i);
    }
  }

  /** A section's first two address bytes -> its name and table. */
  function SectionRows(sections: seq<(string, Entry)>): (rows: seq<((int, int), (string, string))>)
    requires forall e | e in sections :: |e.1.address| >= 2
  {
    seq(|sections|, i requires 0 <= i < |sections| =>
      ((sections[i].1.address[0], sections[i].1.address[1]), (sections[i].0, sections[i].1.table)))
  }

  /** A block's middle address byte -> its name and table. */
  function BlockRows(blocks: seq<(string, Entry)>): (rows: seq<(int, (string, string))>)
    requires forall e | e in blocks :: |e.1.address| >= 2
  {
    seq(|blocks|, i requires 0 <= i < |blocks| => (blocks[i].1.address[1], (blocks[i].0, blocks[i].1.table)))
  }

  /** A setting's last offset byte -> its name and entry. */
  function SettingRows(settings: seq<(string, Setting)>): (rows: seq<(int, (string, Setting))>)
    requires forall e | e in settings :: |e.1.offset| >= 2
  {
    seq(|settings|, i requires 0 <= i < |settings| => (settings[i].1.offset[1], settings[i]))
  }

  /** The dictionaries decode goes by, and how many blocks each effect type has. */
  datatype Indices = Indices(sections: map<(int, int), (string, string)>,
                             blocks: map<string, map<int, (string, string)>>,
                             settings: map<string, map<int, (string, Setting)>>,
                             counts: map<string, nat>)

  // ---- loading -------------------------------------------------------------------------------------

  /** A file has the kind its name promises, with addresses long enough to index. */
  predicate FileOk(f: SpecFile) {
    && (f.name in CONTAINERS ==> f.table.Blocks? && forall e | e in f.table.blocks :: |e.1.address| >= 2)
    && (f.name == BASE ==> f.table.Sections? && forall e | e in f.table.sections :: |e.1.address| >= 2)
    && (PATCH <= f.name && f.name !in CONTAINERS ==>
        f.table.Settings? && forall e | e in f.table.settings :: |e.1.offset| >= 2)
  }

  function StripDigits(s: string): string {
    if s == "" then "" else (if '0' <= s[0] <= '9' then "" else [s[0]]) + StripDigits(s[1..])
  }

  /** The effect type a block key stands for. */
  function TypeOfKey(key: string): string {
    if key == "preampA" || key == "preampB" then "preamp" else StripDigits(key)
  }

  lemma {:induction false} DigitsStripped(s: string, digits: string)
    requires (forall i | 0 <= i < |s| :: !('0' <= s[i] <= '9')) && forall i | 0 <= i < |digits| :: '0' <= digits[i] <= '9'
    ensures StripDigits(s + digits) == s
    decreases |s| + |digits|
  {
    if s != [] {
      assert (s + digits)[0] == s[0] && (s + digits)[1..] == s[1..] + digits;
      DigitsStripped(s[1..], digits);
    } else if digits != [] {
      assert s + digits == digits && digits[1..] == s + digits[1..];
      DigitsStripped(s, digits[1..]);
    }
  }

  /** A numbered block is of the type before its number, and the two lettered preamps are
      preamps. */
  lemma TypeOfBlockKey(fxType: string, number: string)
    requires (forall i | 0 <= i < |fxType| :: !('0' <= fxType[i] <= '9')) && forall i | 0 <= i < |number| :: '0' <= number[i] <= '9'
    ensures fxType + number != "preampA" && fxType + number != "preampB" ==> TypeOfKey(fxType + number) == fxType
    ensures TypeOfKey("preampA") == TypeOfKey("preampB") == "preamp"
  {
    DigitsStripped(fxType, number);
  }

  function Counted(counts: map<string, nat>, blocks: seq<(string, Entry)>): map<string, nat> {
    if blocks == [] then counts
    else
      var c := Counted(counts, blocks[..|blocks| - 1]);
      var t := TypeOfKey(blocks[|blocks| - 1].0);
      if t in c then c[t := c[t] + 1] else c
  }

  function LoadFile(s: Indices, f: SpecFile): Indices {
    if !FileOk(f) then s
    else if f.name in CONTAINERS then
      s.(blocks := s.blocks[f.name := Index(BlockRows(f.table.blocks))], counts := Counted(s.counts, f.table.blocks))
    else if f.name == BASE then s.(sections := Index(SectionRows(f.table.sections)))
    else if PATCH <= f.name then s.(settings := s.settings[f.name := Index(SettingRows(f.table.settings))])
    else s
  }

  /** The value table of each effect type, the last block of a type deciding. */
  function TableOfTypes(fxTypes: seq<string>, m: map<string, string>, blocks: seq<(string, Entry)>): map<string, string> {
    if blocks == [] then m
    else
      var before := TableOfTypes(fxTypes, m, blocks[..|blocks| - 1]);
      var (key, entry) := blocks[|blocks| - 1];
      if TypeOfKey(key) in fxTypes then before[TypeOfKey(key) := entry.table] else before
  }

  function LoadTypes(fxTypes: seq<string>, m: map<string, string>, f: SpecFile): map<string, string> {
    if f.name in CONTAINERS && f.table.Blocks? then TableOfTypes(fxTypes, m, f.table.blocks) else m
  }

  function Fold<S, F>(step: (S, F) -> S, s: S, fs: seq<F>): S {
    if fs == [] then s else step(Fold(step, s, fs[..|fs| - 1]), fs[|fs| - 1])
  }

  function Empty(fxTypes: seq<string>): Indices {
    Indices(map[], map[], map[], map t | t in fxTypes :: 0)
  }

  function LoadIndices(fxTypes: seq<string>, files: seq<SpecFile>): Indices {
    Fold(LoadFile, Empty(fxTypes), files)
  }

  function LoadValueTables(fxTypes: seq<string>, files: seq<SpecFile>): map<string, string> {
    Fold((m, f) => LoadTypes(fxTypes, m, f), map[], files)
  }

  function LoadTables(files: seq<SpecFile>): map<string, SpecTable> {
    if files == [] then map[] else LoadTables(files[..|files| - 1])[files[|files| - 1].name := files[|files| - 1].table]
  }

  class AddressMap {
    const fxTypes: seq<string>
    var tables: map<string, SpecTable>
    var firstTwoBytes: map<(int, int), (string, string)>
    var offsetInPatchTables: map<string, map<int, (string, string)>>
    var lastByteOption: map<string, map<int, (string, Setting)>>
    var fxTables: map<string, string>
    var fxTypesCount: map<string, nat>

    function Indexed(): Indices
      reads this
    {
      Indices(firstTwoBytes, offsetInPatchTables, lastByteOption, fxTypesCount)
    }

    constructor (fxTypes: seq<string>, files: seq<SpecFile>)
      requires forall f | f in files :: FileOk(f)
      requires forall i, j | 0 <= i < j < |files| :: files[i].name != files[j].name
      ensures this.fxTypes == fxTypes
      ensures Indexed() == LoadIndices(fxTypes, files)
      ensures fxTables == LoadValueTables(fxTypes, files)
      ensures tables == LoadTables(files)
    {
      this.fxTypes := fxTypes;
      tables, firstTwoBytes, offsetInPatchTables, lastByteOption, fxTables := map[], map[], map[], map[], map[];
      fxTypesCount := map t | t in fxTypes :: 0;
      new;
      for i := 0 to |files|
        invariant Indexed() == LoadIndices(fxTypes, files[..i])
        invariant fxTables == LoadValueTables(fxTypes, files[..i])
        invariant tables == LoadTables(files[..i])
        invariant fxTypesCount.Keys == set t | t in fxTypes
      {
        assert files[..i + 1][..i] == files[..i];
        ImportFile(files[i]);
      }
      assert files[..|files|] == files;
    }

    /** One turn of the load: the file goes to the index its name is for, and to the tables. */
    method ImportFile(f: SpecFile)
      requires FileOk(f) && fxTypesCount.Keys == set t | t in fxTypes
      modifies this
      ensures fxTypesCount.Keys == set t | t in fxTypes
      ensures Indexed() == LoadFile(old(Indexed()), f)
      ensures fxTables == LoadTypes(fxTypes, old(fxTables), f)
      ensures tables == old(tables)[f.name := f.table]
    {
      if f.name in CONTAINERS {
        ImportContainer(f.name, f.table.blocks);
      } else if f.name == BASE {
        ImportSections(f.table.sections);
      } else if PATCH <= f.name {
        ImportSettings(f.name, f.table.settings);
      }
      tables := tables[f.name := f.table];
    }

    method ImportContainer(name: string, blocks: seq<(string, Entry)>)
      requires forall e | e in blocks :: |e.1.address| >= 2
      requires fxTypesCount.Keys == set t | t in fxTypes
      modifies this`offsetInPatchTables, this`fxTypesCount, this`fxTables
      ensures fxTypesCount.Keys == old(fxTypesCount).Keys
      ensures offsetInPatchTables == old(offsetInPatchTables)[name := Index(BlockRows(blocks))]
      ensures fxTypesCount == Counted(old(fxTypesCount), blocks)
      ensures fxTables == TableOfTypes(fxTypes, old(fxTables), blocks)
    {
      var index: map<int, (string, string)> := map[];
      for i := 0 to |blocks|
        invariant index == Index(BlockRows(blocks[..i])) && offsetInPatchTables == old(offsetInPatchTables)
        invariant fxTypesCount.Keys == old(fxTypesCount).Keys
        invariant fxTypesCount == Counted(old(fxTypesCount), blocks[..i])
        invariant fxTables == TableOfTypes(fxTypes, old(fxTables), blocks[..i])
      {
        assert blocks[..i + 1][..i] == blocks[..i];
        assert BlockRows(blocks[..i + 1])[..i] == BlockRows(blocks[..i]);
        var (key, entry) := blocks[i];
        index := index[entry.address[1] := (key, entry.table)];
        var fxType := TypeOfKey(key);
        if fxType in fxTypes {
          fxTypesCount := fxTypesCount[fxType := fxTypesCount[fxType] + 1];
          fxTables := fxTables[fxType := entry.table];
        }
      }
      assert blocks[..|blocks|] == blocks;
      offsetInPatchTables := offsetInPatchTables[name := index];
    }

    method ImportSections(sections: seq<(string, Entry)>)
      requires forall e | e in sections :: |e.1.address| >= 2
      modifies this`firstTwoBytes
      ensures firstTwoBytes == Index(SectionRows(sections))
    {
      firstTwoBytes := map[];
      for i := 0 to |sections|
        invariant firstTwoBytes == Index(SectionRows(sections[..i]))
      {
        assert SectionRows(sections[..i + 1])[..i] == SectionRows(sections[..i]);
        var (section, entry) := sections[i];
        firstTwoBytes := firstTwoBytes[(entry.address[0], entry.address[1]) := (section, entry.table)];
      }
      assert sections[..|sections|] == sections;
    }

    method ImportSettings(name: string, settings: seq<(string, Setting)>)
      requires forall e | e in settings :: |e.1.offset| >= 2
      modifies this`lastByteOption
      ensures lastByteOption == old(lastByteOption)[name := Index(SettingRows(settings))]
    {
      var index: map<int, (string, Setting)> := map[];
      for i := 0 to |settings|
        invariant index == Index(SettingRows(settings[..i]))
      {
        assert SettingRows(settings[..i + 1])[..i] == SettingRows(settings[..i]);
        index := index[settings[i].1.offset[1] := settings[i]];
      }
      assert settings[..|settings|] == settings;
      lastByteOption := lastByteOption[name := index];
    }

    method SetFxBlockCount(fxType: string, count: nat)
      modifies this`fxTypesCount
      ensures fxTypesCount == old(fxTypesCount)[fxType := count]
    {
      fxTypesCount := fxTypesCount[fxType := count];
    }
  }

  // ---- any order of files gives the same map ---------------------------------------------------------

  ghost predicate Commutes<S(!new), F>(step: (S, F) -> S, fs: seq<F>) {
    forall s, f, g | f in fs && g in fs :: step(step(s, f), g) == step(step(s, g), f)
  }

  function Without<F>(fs: seq<F>, i: nat): seq<F>
    requires i < |fs|
  {
    fs[..i] + fs[i + 1..]
  }

  lemma {:induction false} FoldLastly<S(!new), F>(step: (S, F) -> S, s: S, fs: seq<F>, i: nat)
    requires Commutes(step, fs) && i < |fs|
    ensures Fold(step, s, fs) == step(Fold(step, s, Without(fs, i)), fs[i])
    decreases |fs|
  {
    var init, last := fs[..|fs| - 1], fs[|fs| - 1];
    if i == |fs| - 1 {
      assert Without(fs, i) == init;
    } else {
      FoldLastly(step, s, init, i);
      assert Without(fs, i)[..|fs| - 2] == Without(init, i);
    }
  }

  lemma CommutesOnSome<S(!new), F>(step: (S, F) -> S, fs: seq<F>, gs: seq<F>)
    requires Commutes(step, fs) && forall g | g in gs :: g in fs
    ensures Commutes(step, gs)
  {
  }

  lemma WithoutMultiset<F>(fs: seq<F>, i: nat)
    requires i < |fs|
    ensures multiset(Without(fs, i)) == multiset(fs) - multiset{fs[i]}
    ensures forall f | f in Without(fs, i) :: f in fs
  {
    assert fs == fs[..i] + [fs[i]] + fs[i + 1..];
  }

  lemma {:induction false} FoldPermuted<S(!new), F>(step: (S, F) -> S, s: S, fs: seq<F>, gs: seq<F>)
    requires Commutes(step, fs) && multiset(fs) == multiset(gs)
    ensures Fold(step, s, fs) == Fold(step, s, gs)
    decreases |fs|
  {
    assert |fs| == |multiset(fs)| == |multiset(gs)| == |gs|;
    if gs != [] {
      var n := |gs| - 1;
      assert gs[n] in multiset(fs);
      var i :| 0 <= i < |fs| && fs[i] == gs[n];
      var rest := Without(fs, i);
      WithoutMultiset(fs, i);
      WithoutMultiset(gs, n);
      assert Without(gs, n) == gs[..n];
      FoldLastly(step, s, fs, i);
      CommutesOnSome(step, fs, rest);
      FoldPermuted(step, s, rest, gs[..n]);
    }
  }

  predicate DistinctNames(files: seq<SpecFile>) {
    forall f, g | f in files && g in files && f.name == g.name :: f == g
  }

  function CountIn(blocks: seq<(string, Entry)>, t: string): nat {
    if blocks == [] then 0
    else CountIn(blocks[..|blocks| - 1], t) + if TypeOfKey(blocks[|blocks| - 1].0) == t then 1 else 0
  }

  lemma {:induction false} CountedAdds(counts: map<string, nat>, blocks: seq<(string, Entry)>)
    ensures Counted(counts, blocks) == map t | t in counts :: counts[t] + CountIn(blocks, t)
  {
    if blocks != [] {
      CountedAdds(counts, blocks[..|blocks| - 1]);
    }
  }

  /** The blocks of a type in all the container files together. */
  function CountAll(files: seq<SpecFile>, t: string): nat {
    if files == [] then 0
    else
      var f := files[|files| - 1];
      CountAll(files[..|files| - 1], t) + if f.name in ["Patch", "Patch2", "Patch3"] && f.table.Blocks? then CountIn(f.table.blocks, t) else 0
  }

  lemma LoadFileCounts(s: Indices, f: SpecFile)
    requires FileOk(f)
    ensures LoadFile(s, f).counts ==
            if f.name in ["Patch", "Patch2", "Patch3"] then map t | t in s.counts :: s.counts[t] + CountIn(f.table.blocks, t) else s.counts
  {
    if f.name in CONTAINERS {
      CountedAdds(s.counts, f.table.blocks);
    }
  }

  /** After loading, each declared type has the number of blocks the files list for it, and no
      other type has one. */
  lemma {:induction false} CountsAreBlocks(fxTypes: seq<string>, files: seq<SpecFile>, t: string)
    requires forall f | f in files :: FileOk(f)
    ensures var counts := LoadIndices(fxTypes, files).counts;
            (t in counts <==> t in fxTypes) && (t in fxTypes ==> counts[t] == CountAll(files, t))
  {
    if files != [] {
      var init, last := files[..|files| - 1], files[|files| - 1];
      assert last in files && forall f | f in init :: f in files;
      CountsAreBlocks(fxTypes, init, t);
      LoadFileCounts(LoadIndices(fxTypes, init), last);
    }
  }

  lemma CountedCommute(counts: map<string, nat>, a: seq<(string, Entry)>, b: seq<(string, Entry)>)
    ensures Counted(Counted(counts, a), b) == Counted(Counted(counts, b), a)
  {
    CountedAdds(counts, a);
    CountedAdds(counts, b);
    CountedAdds(Counted(counts, a), b);
    CountedAdds(Counted(counts, b), a);
  }

  lemma LoadFilesCommute(s: Indices, f: SpecFile, g: SpecFile)
    requires f.name != g.name
    ensures LoadFile(LoadFile(s, f), g) == LoadFile(LoadFile(s, g), f)
  {
    if FileOk(f) && FileOk(g) {
      if f.name in CONTAINERS && g.name in CONTAINERS {
        CountedCommute(s.counts, f.table.blocks, g.table.blocks);
        SetsCommute(s.blocks, f.name, Index(BlockRows(f.table.blocks)), g.name, Index(BlockRows(g.table.blocks)));
      } else if PATCH <= f.name && PATCH <= g.name && f.name !in CONTAINERS && g.name !in CONTAINERS {
        SetsCommute(s.settings, f.name, Index(SettingRows(f.table.settings)), g.name, Index(SettingRows(g.table.settings)));
      }
    }
  }

  lemma SetsCommute<K, V>(m: map<K, V>, k: K, v: V, l: K, w: V)
    requires k != l
    ensures m[k := v][l := w] == m[l := w][k := v]
  {
  }

  /** All blocks of a type name one value table. */
  predicate OneTable(fxTypes: seq<string>, tableOf: map<string, string>, f: SpecFile) {
    f.table.Blocks? ==> Agreed(fxTypes, tableOf, f.table.blocks)
  }

  predicate Agreed(fxTypes: seq<string>, tableOf: map<string, string>, blocks: seq<(string, Entry)>) {
    forall e | e in blocks && TypeOfKey(e.0) in fxTypes :: TypeOfKey(e.0) in tableOf && e.1.table == tableOf[TypeOfKey(e.0)]
  }

  /** The last block of a type decides its value table. */
  lemma {:induction false} LastBlockDecides(fxTypes: seq<string>, m: map<string, string>, blocks: seq<(string, Entry)>, i: nat)
    requires i < |blocks| && TypeOfKey(blocks[i].0) in fxTypes
    requires forall j | i < j < |blocks| :: TypeOfKey(blocks[j].0) != TypeOfKey(blocks[i].0)
    ensures Get(TableOfTypes(fxTypes, m, blocks), TypeOfKey(blocks[i].0)) == Some(blocks[i].1.table)
  {
    if i < |blocks| - 1 {
      LastBlockDecides(fxTypes, m, blocks[..|blocks| - 1], i);
    }
  }

  predicate HasType(blocks: seq<(string, Entry)>, t: string) {
    exists e :: e in blocks && TypeOfKey(e.0) == t
  }

  /** The table a type ends up with: the agreed one if the blocks have that type. */
  lemma {:induction false} TableOfType(fxTypes: seq<string>, tableOf: map<string, string>, m: map<string, string>,
                                       blocks: seq<(string, Entry)>, t: string)
    requires Agreed(fxTypes, tableOf, blocks)
    ensures Get(TableOfTypes(fxTypes, m, blocks), t)
            == if t in fxTypes && HasType(blocks, t) then Get(tableOf, t) else Get(m, t)
  {
    if blocks != [] {
      var init, last := blocks[..|blocks| - 1], blocks[|blocks| - 1];
      assert forall e :: e in blocks <==> e in init || e == last;
      TableOfType(fxTypes, tableOf, m, init, t);
    }
  }

  lemma SameMaps(m: map<string, string>, n: map<string, string>)
    requires forall t :: Get(m, t) == Get(n, t)
    ensures m == n
  {
    assert forall t :: t in m <==> Get(m, t).Some?;
    assert forall t :: t in n <==> Get(n, t).Some?;
    assert forall t | t in m :: Get(m, t) == Some(m[t]);
  }

  lemma LoadTypesCommute(fxTypes: seq<string>, tableOf: map<string, string>, m: map<string, string>, f: SpecFile, g: SpecFile)
    requires OneTable(fxTypes, tableOf, f) && OneTable(fxTypes, tableOf, g)
    ensures LoadTypes(fxTypes, LoadTypes(fxTypes, m, f), g) == LoadTypes(fxTypes, LoadTypes(fxTypes, m, g), f)
  {
    if f.name in CONTAINERS && f.table.Blocks? && g.name in CONTAINERS && g.table.Blocks? {
      var a, b := f.table.blocks, g.table.blocks;
      var ab := TableOfTypes(fxTypes, TableOfTypes(fxTypes, m, a), b);
      var ba := TableOfTypes(fxTypes, TableOfTypes(fxTypes, m, b), a);
      forall t ensures Get(ab, t) == Get(ba, t) {
        TableOfType(fxTypes, tableOf, m, a, t);
        TableOfType(fxTypes, tableOf, m, b, t);
        TableOfType(fxTypes, tableOf, TableOfTypes(fxTypes, m, a), b, t);
        TableOfType(fxTypes, tableOf, TableOfTypes(fxTypes, m, b), a, t);
      }
      SameMaps(ab, ba);
    }
  }

  /** Whatever order the files come in, decode goes by the same indices and the same block
      counts; and by the same value tables too when all blocks of a type name one table. */
  lemma LoadOrderIrrelevant(fxTypes: seq<string>, tableOf: map<string, string>, files: seq<SpecFile>, shuffled: seq<SpecFile>)
    requires DistinctNames(files) && multiset(files) == multiset(shuffled)
    ensures LoadIndices(fxTypes, files) == LoadIndices(fxTypes, shuffled)
    ensures (forall f | f in files :: OneTable(fxTypes, tableOf, f)) ==>
              LoadValueTables(fxTypes, files) == LoadValueTables(fxTypes, shuffled)
  {
    forall s, f, g | f in files && g in files
      ensures LoadFile(LoadFile(s, f), g) == LoadFile(LoadFile(s, g), f)
    {
      if f != g {
        LoadFilesCommute(s, f, g);
      }
    }
    FoldPermuted(LoadFile, Empty(fxTypes), files, shuffled);
    if forall f | f in files :: OneTable(fxTypes, tableOf, f) {
      var step := (m, f) => LoadTypes(fxTypes, m, f);
      forall m, f, g | f in files && g in files ensures step(step(m, f), g) == step(step(m, g), f) {
        LoadTypesCommute(fxTypes, tableOf, m, f, g);
      }
      FoldPermuted(step, map[], files, shuffled);
    }
  }

  // ---- every lookup is a scan of the file it came from ---------------------------------------------

  function Get<K, V>(m: map<K, V>, key: K): Option<V> {
    if key in m then Some(m[key]) else None
  }

  /** The index entry of a loaded file, untouched by the files loaded after it. */
  lemma {:induction false} LoadedEntry(fxTypes: seq<string>, files: seq<SpecFile>, f: SpecFile)
    requires DistinctNames(files) && f in files && FileOk(f)
    ensures var ix := LoadIndices(fxTypes, files);
            && (f.name in CONTAINERS ==> Get(ix.blocks, f.name) == Some(Index(BlockRows(f.table.blocks))))
            && (f.name == BASE ==> ix.sections == Index(SectionRows(f.table.sections)))
            && (PATCH <= f.name && f.name !in CONTAINERS ==>
                Get(ix.settings, f.name) == Some(Index(SettingRows(f.table.settings))))
  {
    var init, last := files[..|files| - 1], files[|files| - 1];
    assert forall g :: g in files <==> g in init || g == last;
    if f != last {
      assert f in init;
      LoadedEntry(fxTypes, init, f);
    }
  }

  /** Looking a byte up in a loaded index is scanning its file for the last match. */
  lemma LookupIsScan(fxTypes: seq<string>, files: seq<SpecFile>, f: SpecFile, msbs: (int, int), byte: int)
    requires DistinctNames(files) && f in files && FileOk(f)
    ensures var ix := LoadIndices(fxTypes, files);
            && (f.name == BASE ==> Get(ix.sections, msbs) == LastAt(SectionRows(f.table.sections), msbs))
            && (f.name in CONTAINERS ==>
                f.name in ix.blocks && Get(ix.blocks[f.name], byte) == LastAt(BlockRows(f.table.blocks), byte))
            && (PATCH <= f.name && f.name !in CONTAINERS ==>
                f.name in ix.settings && Get(ix.settings[f.name], byte) == LastAt(SettingRows(f.table.settings), byte))
  {
    LoadedEntry(fxTypes, files, f);
    if f.name == BASE {
      IndexIsLastMatch(SectionRows(f.table.sections), msbs);
    } else if f.name in CONTAINERS {
      IndexIsLastMatch(BlockRows(f.table.blocks), byte);
    } else if PATCH <= f.name {
      IndexIsLastMatch(SettingRows(f.table.settings), byte);
    }
  }
}
