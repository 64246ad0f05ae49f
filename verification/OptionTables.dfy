/** From the rows of a parameter table to its JSON form: one state machine numbers the
    options of each parameter across continuation rows, and a second pass moves the named
    tails of numeric spans to the end of their range. */
module OptionTables {
  import opened Wrappers
  import opened Positional
  import opened BlockIds

  // ---- insertion-ordered dictionaries ---------------------------------------------------------

  /** A dictionary as its items come; assigning to a key it has keeps the key's place. */
  type Dict<V> = seq<(string, V)>

  function At<V>(d: Dict<V>, key: string): (i: nat)
    ensures i <= |d|
    ensures i < |d| ==> d[i].0 == key
    ensures forall j | 0 <= j < i :: d[j].0 != key
  {
    if d == [] || d[0].0 == key then 0 else 1 + At(d[1..], key)
  }

  predicate Has<V>(d: Dict<V>, key: string) {
    At(d, key) < |d|
  }

  function Put<V>(d: Dict<V>, key: string, value: V): Dict<V> {
    if Has(d, key) then d[At(d, key) := (key, value)] else d + [(key, value)]
  }

  lemma PutTwice<V>(d: Dict<V>, key: string, v: V, w: V)
    ensures Has(Put(d, key, v), key) && Put(d, key, v)[At(Put(d, key, v), key)] == (key, v)
    ensures Put(Put(d, key, v), key, w) == Put(d, key, w)
  {
    var i := At(d, key);
    var e := Put(d, key, v);
    assert e[i] == (key, v);
    assert forall j | 0 <= j < i :: e[j] == d[j];
    assert At(e, key) == i;
  }

  // ---- rows and parameters ----------------------------------------------------------------------

  /** A table row, once its cells are split. */
  datatype Row =
    | Marker(start: seq<int>)                                        // first address of a multi-byte field
    | Options(options: seq<string>)                                  // continuation row naming values
    | Field(offset: seq<int>, name: string, lo: int, hi: int)        // address, name and range
    | Skipped                                                        // anything else

  /** One parameter of the JSON table; only multi-byte fields have a byte width. */
  datatype Param = Param(offset: seq<int>, lo: int, hi: int, width: Option<int>, values: Dict<int>)

  function Renamed(name: string): string {
    if name == "FX SW" then "SW" else if name == "FX1 TYPE" then "TYPE" else name
  }

  /** The options numbered upwards from `first`, a repeated option taking its later number. */
  function Numbered(values: Dict<int>, first: int, options: seq<string>): Dict<int> {
    if options == [] then values
    else
      var n := |options| - 1;
      Put(Numbered(values, first, options[..n]), options[n], first + n)
  }

  // ---- the state machine ---------------------------------------------------------------------------

  /** `current` is the empty string before the first named row. */
  datatype State = State(result: Dict<Param>, current: string, lo: int, offset: nat,
                         conflicts: map<string, nat>, pending: Option<seq<int>>)

  const START := State([], "", 0, 0, map[], None)

  /** A name already taken is stored with the number of times that has happened to it. */
  function Unclashed(taken: bool, conflicts: map<string, nat>, name: string): (string, map<string, nat>) {
    if !taken then (name, conflicts)
    else
      var times := if name in conflicts then conflicts[name] + 1 else 1;
      (name + Decimal(times), conflicts[name := times])
  }

  function Entry(pending: Option<seq<int>>, offset: seq<int>, lo: int, hi: int): Param {
    if pending.Some? then
      Param(pending.value, lo, hi, Some(BytesToInt(offset) - BytesToInt(pending.value) + 1), [])
    else Param(offset, lo, hi, None, [])
  }

  /** A continuation row: its options extend those of the current parameter. */
  function WithOptions(s: State, options: seq<string>): State {
    if s.current == "" || !Has(s.result, s.current) then s
    else s.(result := Extended(s.result, s.current, s.lo + s.offset, options), offset := s.offset + |options|)
  }

  /** The table with further options of the parameter stored under a name. */
  function Extended(table: Dict<Param>, name: string, first: int, options: seq<string>): Dict<Param>
    requires Has(table, name)
  {
    var p := table[At(table, name)].1;
    Put(table, name, p.(values := Numbered(p.values, first, options)))
  }

  /** A named row: a new parameter, which takes over the pending start. */
  function WithField(s: State, offset: seq<int>, name: string, lo: int, hi: int): State {
    var (stored, conflicts) := Unclashed(Has(s.result, Renamed(name)), s.conflicts, Renamed(name));
    State(Put(s.result, stored, Entry(s.pending, offset, lo, hi)), stored, lo, 0, conflicts, None)
  }

  function Step(s: State, row: Row): State {
    match row
    case Marker(start) => s.(pending := Some(start))
    case Skipped => s
    case Options(options) => WithOptions(s, options)
    case Field(offset, name, lo, hi) => WithField(s, offset, name, lo, hi)
  }

  function Run(rows: seq<Row>): State {
    if rows == [] then START else Step(Run(rows[..|rows| - 1]), rows[|rows| - 1])
  }

  // ---- span tails ------------------------------------------------------------------------------------

  function FixParam(isSpan: string -> bool, p: Param): Param {
    if p.values == [] || !isSpan(p.values[0].0) then p
    else if |p.values| < 2 then p.(values := [])
    else
      var tail := |p.values| - 1;
      var start := p.hi - tail + 1;
      if start <= p.lo then p
      else p.(values := seq(tail, i requires 0 <= i < tail => (p.values[i + 1].0, start + i)))
  }

  function FixAll(isSpan: string -> bool, result: Dict<Param>): Dict<Param> {
    seq(|result|, i requires 0 <= i < |result| => (result[i].0, FixParam(isSpan, result[i].1)))
  }

  method FixSpanTails(isSpan: string -> bool, table: Dict<Param>) returns (result: Dict<Param>)
    ensures result == FixAll(isSpan, table)
  {
    result := table;
    for i := 0 to |table|
      invariant |result| == |table|
      invariant forall j | 0 <= j < i :: result[j] == FixAll(isSpan, table)[j]
      invariant forall j | i <= j < |table| :: result[j] == table[j]
    {
      var (name, p) := result[i];
      if p.values == [] || !isSpan(p.values[0].0) {
        continue;
      }
      if |p.values| < 2 {
        result := result[i := (name, p.(values := []))];
        continue;
      }
      var tail := p.values[1..];
      var start := p.hi - |tail| + 1;
      if start <= p.lo {
        continue;
      }
      var values := seq(|tail|, k requires 0 <= k < |tail| => (tail[k].0, start + k));
      result := result[i := (name, p.(values := values))];
      assert values == FixParam(isSpan, p).values;
    }
  }

  /** Numbers the options of one row into the values of the current parameter. */
  method NumberOptions(table: Dict<Param>, current: string, first: int, options: seq<string>) returns (result: Dict<Param>)
    requires Has(table, current)
    ensures result == Extended(table, current, first, options)
  {
    ghost var p := table[At(table, current)].1;
    result := table;
    assert Put(table, current, p) == table;
    for k := 0 to |options|
      invariant result == Put(table, current, p.(values := Numbered(p.values, first, options[..k])))
    {
      assert options[..k + 1][..k] == options[..k];
      ghost var was := p.(values := Numbered(p.values, first, options[..k]));
      PutTwice(table, current, was, p);
      var entry := result[At(result, current)].1;
      var numbered := entry.(values := Put(entry.values, options[k], first + k));
      PutTwice(table, current, was, numbered);
      result := Put(result, current, numbered);
    }
    assert options[..|options|] == options;
  }

  method Store(result: Dict<Param>, conflictCount: map<string, nat>, name: string)
    returns (stored: string, conflicts: map<string, nat>)
    ensures (stored, conflicts) == Unclashed(Has(result, name), conflictCount, name)
  {
    stored, conflicts := name, conflictCount;
    if Has(result, name) {
      if name in conflicts {
        conflicts := conflicts[name := conflicts[name] + 1];
      } else {
        conflicts := conflicts[name := 1];
      }
      stored := name + Decimal(conflicts[name]);
    }
  }

  method ProcessData(isSpan: string -> bool, rows: seq<Row>) returns (table: Dict<Param>)
    ensures table == FixAll(isSpan, Run(rows).result)
  {
    var result: Dict<Param>, current, currentLo, offset: nat := [], "", 0, 0;
    var conflicts: map<string, nat>, pending: Option<seq<int>> := map[], None;
    for i := 0 to |rows|
      invariant Run(rows[..i]) == State(result, current, currentLo, offset, conflicts, pending)
    {
      assert rows[..i + 1][..i] == rows[..i];
      match rows[i] {
        case Marker(start) => pending := Some(start);
        case Skipped =>
        case Options(options) =>
          if current != "" && Has(result, current) {
            result := NumberOptions(result, current, currentLo + offset, options);
            offset := offset + |options|;
          }
        case Field(offsetBytes, name, lo, hi) =>
          var stored;
          stored, conflicts := Store(result, conflicts, Renamed(name));
          result := Put(result, stored, Entry(pending, offsetBytes, lo, hi));
          pending, current, currentLo, offset := None, stored, lo, 0;
      }
    }
    assert rows[..|rows|] == rows;
    table := FixSpanTails(isSpan, result);
  }

  // ---- numbering ---------------------------------------------------------------------------------------

  predicate Distinct(xs: seq<string>) {
    forall i, j | 0 <= i < j < |xs| :: xs[i] != xs[j]
  }

  /** Numbering carries on across continuation rows as if they were one list. */
  lemma {:induction false} NumberedAppend(values: Dict<int>, first: int, a: seq<string>, b: seq<string>)
    ensures Numbered(Numbered(values, first, a), first + |a|, b) == Numbered(values, first, a + b)
    decreases |b|
  {
    if b == [] {
      assert a + b == a;
    } else {
      var n := |b| - 1;
      NumberedAppend(values, first, a, b[..n]);
      assert (a + b)[..|a| + n] == a + b[..n] && (a + b)[|a| + n] == b[n];
    }
  }

  /** Where an option stands for the last time. */
  function LastIndex(options: seq<string>, option: string): nat
    requires option in options
  {
    var n := |options| - 1;
    if options[n] == option then n else LastIndex(options[..n], option)
  }

  /** The table lists exactly the options, each with the number of its last occurrence. */
  lemma {:induction false} NumberedValues(first: int, options: seq<string>, option: string)
    ensures var d := Numbered([], first, options);
            && (Has(d, option) <==> option in options)
            && (option in options ==> d[At(d, option)].1 == first + LastIndex(options, option))
  {
    if options != [] {
      var init, last := options[..|options| - 1], options[|options| - 1];
      assert options == init + [last];
      NumberedValues(first, init, option);
      PutLookup(Numbered([], first, init), last, first + |init|, option);
    }
  }

  /** It is as long as the list only if no option is repeated. */
  lemma {:induction false} NumberedSize(first: int, options: seq<string>)
    ensures var d := Numbered([], first, options);
            |d| <= |options| && (|d| == |options| ==> Distinct(options))
  {
    if options != [] {
      var init, last := options[..|options| - 1], options[|options| - 1];
      NumberedSize(first, init);
      NumberedValues(first, init, last);
      if !Has(Numbered([], first, init), last) && Distinct(init) {
        assert forall i | 0 <= i < |init| :: init[i] in init && options[i] == init[i];
      }
    }
  }

  lemma PutLookup<V>(d: Dict<V>, key: string, value: V, other: string)
    ensures Has(Put(d, key, value), other) <==> other == key || Has(d, other)
    ensures Has(Put(d, key, value), other) ==>
              Put(d, key, value)[At(Put(d, key, value), other)] == if other == key then (key, value) else d[At(d, other)]
  {
    var e := Put(d, key, value);
    PutTwice(d, key, value, value);
    var i := At(d, other);
    if other != key && i < |d| {
      assert e[i] == d[i];
      assert forall j | 0 <= j < i :: e[j].0 == d[j].0;
      assert At(e, other) == i;
    } else if other != key {
      assert forall j | 0 <= j < |d| :: d[j].0 != other;
      assert forall j | 0 <= j < |e| :: e[j].0 != other;
    }
  }

  lemma {:induction false} NumberedDistinct(first: int, options: seq<string>)
    requires Distinct(options)
    ensures Numbered([], first, options) == seq(|options|, i requires 0 <= i < |options| => (options[i], first + i))
  {
    if options != [] {
      var n := |options| - 1;
      NumberedDistinct(first, options[..n]);
      NumberedValues(first, options[..n], options[n]);
      assert options[n] !in options[..n];
      assert !Has(Numbered([], first, options[..n]), options[n]);
    }
  }

  /** The j-th distinct option has the value first + j, for every j, exactly when no option
      is repeated: a repeated one pushes its own number past its place. */
  lemma DistinctOptionsCountUp(first: int, options: seq<string>)
    ensures var d := Numbered([], first, options);
            (forall j | 0 <= j < |d| :: d[j].1 == first + j) <==> Distinct(options)
  {
    var d := Numbered([], first, options);
    if Distinct(options) {
      NumberedDistinct(first, options);
    } else {
      var n := |options| - 1;
      NumberedSize(first, options);
      NumberedValues(first, options, options[n]);
      assert d[At(d, options[n])].1 == first + n;
    }
  }

  // ---- whole tables ------------------------------------------------------------------------------------

  predicate NoField(rows: seq<Row>) {
    forall r | r in rows :: !r.Field?
  }

  /** The options of all continuation rows, in order. */
  function AllOptions(rows: seq<Row>): seq<string> {
    if rows == [] then []
    else AllOptions(rows[..|rows| - 1]) + if rows[|rows| - 1].Options? then rows[|rows| - 1].options else []
  }

  /** The start the last marker gave, if there was one. */
  function LastMarker(rows: seq<Row>, before: Option<seq<int>>): Option<seq<int>> {
    if rows == [] then before
    else if rows[|rows| - 1].Marker? then Some(rows[|rows| - 1].start)
    else LastMarker(rows[..|rows| - 1], before)
  }

  /** A named row and the rows up to the next one. */
  datatype Group = Group(offset: seq<int>, name: string, lo: int, hi: int, rows: seq<Row>)

  function RowsOf(groups: seq<Group>): seq<Row> {
    if groups == [] then []
    else
      var g := groups[|groups| - 1];
      RowsOf(groups[..|groups| - 1]) + [Field(g.offset, g.name, g.lo, g.hi)] + g.rows
  }

  /** The parameter a group describes, given the marker pending when it began. */
  function ParamOf(g: Group, pending: Option<seq<int>>): Param {
    Entry(pending, g.offset, g.lo, g.hi).(values := Numbered([], g.lo, AllOptions(g.rows)))
  }

  lemma AllOptionsGrow(rows: seq<Row>, row: Row)
    ensures AllOptions(rows + [row]) == AllOptions(rows) + if row.Options? then row.options else []
  {
    assert (rows + [row])[..|rows|] == rows;
  }

  lemma LastMarkerGrow(rows: seq<Row>, row: Row)
    ensures LastMarker(rows + [row], None) == if row.Marker? then Some(row.start) else LastMarker(rows, None)
  {
    assert (rows + [row])[..|rows|] == rows;
  }

  lemma RunLast(rows: seq<Row>, row: Row)
    ensures Run(rows + [row]) == Step(Run(rows), row)
  {
    assert (rows + [row])[..|rows|] == rows;
  }

  /** After state s, a group stored under this name has come this far by state t. */
  ghost predicate InGroup(s: State, stored: string, conflicts: map<string, nat>, t: State, g: Group, rows: seq<Row>) {
    && t.result == Put(s.result, stored, ParamOf(g.(rows := rows), s.pending)) && t.conflicts == conflicts
    && t.current == stored && t.lo == g.lo && t.offset == |AllOptions(rows)|
    && t.pending == LastMarker(rows, None)
  }

  /** A row of options extends the values of the current parameter, already stored as `was`. */
  lemma {:induction false} ExtendStored(d: Dict<Param>, t: State, was: Param, options: seq<string>)
    requires t.current != "" && t.result == Put(d, t.current, was)
    ensures var s := WithOptions(t, options);
            && s.result == Put(d, t.current, was.(values := Numbered(was.values, t.lo + t.offset, options)))
            && s.offset == t.offset + |options|
            && s.current == t.current && s.lo == t.lo && s.pending == t.pending && s.conflicts == t.conflicts
  {
    PutTwice(d, t.current, was, was.(values := Numbered(was.values, t.lo + t.offset, options)));
  }

  lemma {:induction false} InGroupStep(s: State, stored: string, conflicts: map<string, nat>, t: State, g: Group, rows: seq<Row>, row: Row)
    requires InGroup(s, stored, conflicts, t, g, rows) && stored != "" && !row.Field?
    ensures InGroup(s, stored, conflicts, Step(t, row), g, rows + [row])
  {
    AllOptionsGrow(rows, row);
    LastMarkerGrow(rows, row);
    if row.Options? {
      NumberedAppend([], g.lo, AllOptions(rows), row.options);
      ExtendStored(s.result, t, ParamOf(g.(rows := rows), s.pending), row.options);
    } else {
      assert AllOptions(rows) + [] == AllOptions(rows);
    }
  }

  /** A named row and the rows after it, from any rows before. */
  lemma {:induction false} RunGroup(before: seq<Row>, g: Group, rows: seq<Row>)
    requires NoField(rows) && Renamed(g.name) != ""
    ensures var s := Run(before);
            var (stored, conflicts) := Unclashed(Has(s.result, Renamed(g.name)), s.conflicts, Renamed(g.name));
            InGroup(s, stored, conflicts, Run(before + [Field(g.offset, g.name, g.lo, g.hi)] + rows), g, rows)
    decreases |rows|
  {
    var s, named := Run(before), before + [Field(g.offset, g.name, g.lo, g.hi)];
    var (stored, conflicts) := Unclashed(Has(s.result, Renamed(g.name)), s.conflicts, Renamed(g.name));
    if rows == [] {
      RunLast(before, Field(g.offset, g.name, g.lo, g.hi));
      assert named + rows == named;
    } else {
      var init, row := rows[..|rows| - 1], rows[|rows| - 1];
      assert rows == init + [row] && named + rows == named + init + [row];
      assert row in rows && forall r | r in init :: r in rows;
      RunGroup(before, g, init);
      RunLast(named + init, row);
      InGroupStep(s, stored, conflicts, Run(named + init), g, init, row);
    }
  }

  lemma {:induction false} RunPrefix(rows: seq<Row>)
    requires NoField(rows)
    ensures Run(rows) == START.(pending := LastMarker(rows, None))
  {
    if rows != [] {
      RunPrefix(rows[..|rows| - 1]);
    }
  }

  /** The marker pending after these groups: the last one since the last named row. */
  function PendingAfter(prefix: seq<Row>, groups: seq<Group>): Option<seq<int>> {
    LastMarker(if groups == [] then prefix else groups[|groups| - 1].rows, None)
  }

  // ---- the names parameters are stored under ----------------------------------------------------

  /** The names a list of names is stored under, by the names alone, and how often each was
      in conflict. */
  function Stored(names: seq<string>): (r: (seq<string>, map<string, nat>))
    ensures |r.0| == |names|
  {
    if names == [] then ([], map[])
    else
      var (before, conflicts) := Stored(names[..|names| - 1]);
      var name := names[|names| - 1];
      var (stored, conflicts') := Unclashed(name in before, conflicts, name);
      (before + [stored], conflicts')
  }

  lemma {:induction false} StoredGrow(names: seq<string>, name: string)
    ensures var (before, conflicts) := Stored(names);
            var (stored, conflicts') := Unclashed(name in before, conflicts, name);
            Stored(names + [name]) == (before + [stored], conflicts')
  {
    assert (names + [name])[..|names|] == names;
  }

  function NamesOf(groups: seq<Group>): (names: seq<string>)
    ensures |names| == |groups|
  {
    seq(|groups|, k requires 0 <= k < |groups| => Renamed(groups[k].name))
  }

  /** The entries the groups give: each under the name it is stored by and with the marker
      pending when it began. */
  function Entries(prefix: seq<Row>, groups: seq<Group>): (entries: Dict<Param>)
    ensures |entries| == |groups|
    ensures forall k | 0 <= k < |groups| :: entries[k].0 == Stored(NamesOf(groups)).0[k]
  {
    if groups == [] then []
    else
      var init, g := groups[..|groups| - 1], groups[|groups| - 1];
      NamesGrow(groups);
      Entries(prefix, init) + [(Stored(NamesOf(groups)).0[|init|], ParamOf(g, PendingAfter(prefix, init)))]
  }

  lemma NamesGrow(groups: seq<Group>)
    requires groups != []
    ensures NamesOf(groups)[..|groups| - 1] == NamesOf(groups[..|groups| - 1])
    ensures NamesOf(groups)[|groups| - 1] == Renamed(groups[|groups| - 1].name)
  {
  }

  /** The table entries make, later ones overwriting earlier ones of their name in place. */
  function Filed<V>(entries: Dict<V>): Dict<V> {
    if entries == [] then []
    else Put(Filed(entries[..|entries| - 1]), entries[|entries| - 1].0, entries[|entries| - 1].1)
  }

  predicate HasName<V>(entries: Dict<V>, key: string) {
    exists k :: 0 <= k < |entries| && entries[k].0 == key
  }

  lemma {:induction false} FiledKeys<V>(entries: Dict<V>, key: string)
    ensures Has(Filed(entries), key) <==> HasName(entries, key)
  {
    if entries != [] {
      var init, last := entries[..|entries| - 1], entries[|entries| - 1];
      FiledKeys(init, key);
      PutLookup(Filed(init), last.0, last.1, key);
      assert HasName(entries, key) <==> HasName(init, key) || last.0 == key by {
        assert entries[|init|] == last;
        if HasName(init, key) {
          var k :| 0 <= k < |init| && init[k].0 == key;
          assert entries[k].0 == key;
        }
      }
    }
  }

  predicate DistinctKeys<V>(entries: Dict<V>) {
    forall i, j | 0 <= i < j < |entries| :: entries[i].0 != entries[j].0
  }

  lemma DistinctKeysGrow<V>(entries: Dict<V>, last: (string, V))
    ensures DistinctKeys(entries + [last]) <==> DistinctKeys(entries) && !HasName(entries, last.0)
  {
    var more := entries + [last];
    if DistinctKeys(more) {
      forall i | 0 <= i < |entries| ensures entries[i].0 != last.0 {
        assert more[i].0 != more[|entries|].0;
      }
      forall i, j | 0 <= i < j < |entries| ensures entries[i].0 != entries[j].0 {
        assert more[i].0 != more[j].0;
      }
    }
  }

  /** Nothing is overwritten exactly when the names differ, and then the entries stand as
      they are. */
  lemma {:induction false} FiledSize<V>(entries: Dict<V>)
    ensures |Filed(entries)| <= |entries|
    ensures |Filed(entries)| == |entries| <==> DistinctKeys(entries)
    ensures |Filed(entries)| == |entries| ==> Filed(entries) == entries
  {
    if entries != [] {
      var init, last := entries[..|entries| - 1], entries[|entries| - 1];
      assert entries == init + [last];
      FiledSize(init);
      FiledKeys(init, last.0);
      DistinctKeysGrow(init, last);
    }
  }

  /** Groups that hold no other named rows, and whose names are not empty. */
  predicate Readable(groups: seq<Group>) {
    forall g | g in groups :: NoField(g.rows) && Renamed(g.name) != ""
  }

  /** Any table, as a whole: each group is filed, in order, under the name it is stored by,
      with its own options numbered from its range on; a group that followed a marker starts
      at the marker and is as wide as the addresses between. */
  lemma {:induction false} TableOfGroups(prefix: seq<Row>, groups: seq<Group>)
    requires NoField(prefix) && Readable(groups)
    ensures Run(prefix + RowsOf(groups)).result == Filed(Entries(prefix, groups))
    ensures Run(prefix + RowsOf(groups)).conflicts == Stored(NamesOf(groups)).1
    ensures Run(prefix + RowsOf(groups)).pending == PendingAfter(prefix, groups)
    decreases |groups|
  {
    if groups == [] {
      RunPrefix(prefix);
      assert prefix + RowsOf(groups) == prefix;
    } else {
      var init, g := groups[..|groups| - 1], groups[|groups| - 1];
      assert g in groups && forall h | h in init :: h in groups;
      TableOfGroups(prefix, init);
      AfterGroup(prefix + RowsOf(init), g);
      Unroll(prefix, groups);
      TakenIffStored(prefix, init, Renamed(g.name));
      EntriesGrow(prefix, groups);
      FiledGrow(Entries(prefix, init), Entries(prefix, groups)[|init|]);
    }
  }

  lemma {:induction false} EntriesGrow(prefix: seq<Row>, groups: seq<Group>)
    requires groups != []
    ensures var init, g := groups[..|groups| - 1], groups[|groups| - 1];
            var (names, before) := Stored(NamesOf(init));
            var (stored, conflicts) := Unclashed(Renamed(g.name) in names, before, Renamed(g.name));
            && Entries(prefix, groups) == Entries(prefix, init) + [(stored, ParamOf(g, PendingAfter(prefix, init)))]
            && Stored(NamesOf(groups)).1 == conflicts
  {
    var init, g := groups[..|groups| - 1], groups[|groups| - 1];
    NamesGrow(groups);
    StoredGrow(NamesOf(init), Renamed(g.name));
    assert NamesOf(groups) == NamesOf(init) + [Renamed(g.name)];
  }

  lemma {:induction false} FiledGrow<V>(entries: Dict<V>, last: (string, V))
    ensures Filed(entries + [last]) == Put(Filed(entries), last.0, last.1)
  {
    assert (entries + [last])[..|entries|] == entries;
  }

  lemma {:induction false} AfterGroup(before: seq<Row>, g: Group)
    requires NoField(g.rows) && Renamed(g.name) != ""
    ensures var s, t := Run(before), Run(before + [Field(g.offset, g.name, g.lo, g.hi)] + g.rows);
            var (stored, conflicts) := Unclashed(Has(s.result, Renamed(g.name)), s.conflicts, Renamed(g.name));
            && t.result == Put(s.result, stored, ParamOf(g, s.pending))
            && t.conflicts == conflicts && t.pending == LastMarker(g.rows, None)
  {
    RunGroup(before, g, g.rows);
    assert g.(rows := g.rows) == g;
  }

  lemma TakenIffStored(prefix: seq<Row>, groups: seq<Group>, name: string)
    ensures Has(Filed(Entries(prefix, groups)), name) <==> name in Stored(NamesOf(groups)).0
  {
    var entries, stored := Entries(prefix, groups), Stored(NamesOf(groups)).0;
    FiledKeys(entries, name);
    if name in stored {
      var k :| 0 <= k < |stored| && stored[k] == name;
      assert entries[k].0 == name;
    }
  }

  lemma Unroll(prefix: seq<Row>, groups: seq<Group>)
    requires groups != []
    ensures var init, g := groups[..|groups| - 1], groups[|groups| - 1];
            prefix + RowsOf(groups) == (prefix + RowsOf(init)) + [Field(g.offset, g.name, g.lo, g.hi)] + g.rows
  {
  }

  /** No parameter is lost exactly when the names they are stored under are all different,
      and then the table has them in order, each group one. */
  lemma NothingLostIff(prefix: seq<Row>, groups: seq<Group>)
    requires NoField(prefix) && Readable(groups)
    ensures var table := Run(prefix + RowsOf(groups)).result;
            && (|table| == |groups| <==> Distinct(Stored(NamesOf(groups)).0))
            && (|table| == |groups| ==> table == Entries(prefix, groups))
  {
    TableOfGroups(prefix, groups);
    FiledSize(Entries(prefix, groups));
  }

  // ---- an entry in numbers ---------------------------------------------------------------------

  lemma {:induction false} EntryOfGroup(prefix: seq<Row>, groups: seq<Group>, k: nat)
    requires k < |groups|
    ensures Entries(prefix, groups)[k].1
            == ParamOf(groups[k], LastMarker(if k == 0 then prefix else groups[k - 1].rows, None))
    decreases |groups|
  {
    if k < |groups| - 1 {
      EntryOfGroup(prefix, groups[..|groups| - 1], k);
      EntriesGrow(prefix, groups);
    }
  }

  lemma {:induction false} MarkerBefore(pre: seq<Row>, start: seq<int>, rows: seq<Row>, before: Option<seq<int>>)
    requires forall r | r in rows :: !r.Marker?
    ensures LastMarker(pre + [Marker(start)] + rows, before) == Some(start)
    ensures LastMarker(rows, before) == before
    decreases |rows|
  {
    var all := pre + [Marker(start)] + rows;
    if rows == [] {
      assert all == pre + [Marker(start)];
    } else {
      var n := |rows| - 1;
      assert rows[n] in rows && forall r :: r in rows[..n] ==> r in rows;
      MarkerBefore(pre, start, rows[..n], before);
      assert all[..|all| - 1] == pre + [Marker(start)] + rows[..n];
    }
  }

  lemma TwoBytes(s: seq<int>)
    requires |s| == 2
    ensures BytesToInt(s) == 256 * s[0] + s[1]
  {
    assert s[..1][..0] == [] && BytesToInt(s[..1]) == s[0];
  }

  /** The entry of a group in numbers. After a marker it starts at the marker's address and is
      as many bytes wide as there are addresses from it to the row's own; without one it starts
      at the row's own and has no width. Its range is the row's. Different options that do not
      begin with a span count up from the low end. */
  predicate InNumbers(isSpan: string -> bool, g: Group, start: Option<seq<int>>, e: Param)
    requires |g.offset| == 2 && (start.Some? ==> |start.value| == 2)
  {
    && (e.lo, e.hi) == (g.lo, g.hi)
    && (match start
        case Some(s) =>
          e.offset == s && e.width == Some(256 * g.offset[0] + g.offset[1] - (256 * s[0] + s[1]) + 1)
        case None => e.offset == g.offset && e.width == None)
    && var options := AllOptions(g.rows);
       (Distinct(options) && (options != [] ==> !isSpan(options[0])) ==>
        |e.values| == |options| && forall i | 0 <= i < |options| :: e.values[i] == (options[i], g.lo + i))
  }

  /** What the finished table holds for a named row, `rows` being those since the last marker,
      or since the named row before when no marker came. */
  lemma {:induction false} EntryInNumbers(isSpan: string -> bool, prefix: seq<Row>, groups: seq<Group>, k: nat,
                                          pre: seq<Row>, start: Option<seq<int>>, rows: seq<Row>)
    requires NoField(prefix) && Readable(groups) && Distinct(Stored(NamesOf(groups)).0)
    requires k < |groups| && |groups[k].offset| == 2 && (start.Some? ==> |start.value| == 2)
    requires (forall r | r in rows :: !r.Marker?)
    requires (if k == 0 then prefix else groups[k - 1].rows) == if start.Some? then pre + [Marker(start.value)] + rows else rows
    ensures var table := FixAll(isSpan, Run(prefix + RowsOf(groups)).result);
            |table| == |groups| && table[k].0 == Stored(NamesOf(groups)).0[k] && InNumbers(isSpan, groups[k], start, table[k].1)
  {
    MarkerBefore(pre, if start.Some? then start.value else [], rows, None);
    TableHolds(isSpan, prefix, groups, k, start);
    ParamInNumbers(isSpan, groups[k], start);
  }

  lemma {:induction false} TableHolds(isSpan: string -> bool, prefix: seq<Row>, groups: seq<Group>, k: nat, start: Option<seq<int>>)
    requires NoField(prefix) && Readable(groups) && Distinct(Stored(NamesOf(groups)).0) && k < |groups|
    requires LastMarker(if k == 0 then prefix else groups[k - 1].rows, None) == start
    ensures var table := FixAll(isSpan, Run(prefix + RowsOf(groups)).result);
            |table| == |groups| && table[k] == (Stored(NamesOf(groups)).0[k], FixParam(isSpan, ParamOf(groups[k], start)))
  {
    NothingLostIff(prefix, groups);
    EntryOfGroup(prefix, groups, k);
  }

  lemma {:induction false} ParamInNumbers(isSpan: string -> bool, g: Group, start: Option<seq<int>>)
    requires |g.offset| == 2 && (start.Some? ==> |start.value| == 2)
    ensures InNumbers(isSpan, g, start, FixParam(isSpan, ParamOf(g, start)))
  {
    EntryInBytes(start, g.offset, g.lo, g.hi);
    FixKeeps(isSpan, ParamOf(g, start));
    OptionsInNumbers(isSpan, g.lo, AllOptions(g.rows), ParamOf(g, start));
  }

  lemma {:induction false} OptionsInNumbers(isSpan: string -> bool, lo: int, options: seq<string>, p: Param)
    requires p.values == Numbered([], lo, options)
    ensures Distinct(options) && (options != [] ==> !isSpan(options[0])) ==>
              var values := FixParam(isSpan, p).values;
              |values| == |options| && forall i | 0 <= i < |options| :: values[i] == (options[i], lo + i)
  {
    if Distinct(options) {
      NumberedDistinct(lo, options);
      FixKeeps(isSpan, p);
    }
  }

  lemma {:induction false} EntryInBytes(start: Option<seq<int>>, offset: seq<int>, lo: int, hi: int)
    requires |offset| == 2 && (start.Some? ==> |start.value| == 2)
    ensures Entry(start, offset, lo, hi) ==
            match start
            case Some(s) => Param(s, lo, hi, Some(256 * offset[0] + offset[1] - (256 * s[0] + s[1]) + 1), [])
            case None => Param(offset, lo, hi, None, [])
  {
    TwoBytes(offset);
    if start.Some? {
      TwoBytes(start.value);
    }
  }

  lemma FixKeeps(isSpan: string -> bool, p: Param)
    ensures FixParam(isSpan, p).(values := p.values) == p
    ensures (p.values != [] ==> !isSpan(p.values[0].0)) ==> FixParam(isSpan, p) == p
  {
  }

  /** A parameter whose name did not come before is stored under it, but for the two names
      that only one table has. */
  lemma NewNameIsStored(groups: seq<Group>)
    requires groups != []
    ensures var name := groups[|groups| - 1].name;
            var stored := Stored(NamesOf(groups)).0;
            var own := if name == "FX SW" then "SW" else if name == "FX1 TYPE" then "TYPE" else name;
            own !in stored[..|groups| - 1] ==> stored[|groups| - 1] == own
  {
    NamesGrow(groups);
    StoredGrow(NamesOf(groups)[..|groups| - 1], NamesOf(groups)[|groups| - 1]);
    assert NamesOf(groups) == NamesOf(groups)[..|groups| - 1] + [NamesOf(groups)[|groups| - 1]];
  }

  /** How often a name comes up in a list. */
  function Occurrences(names: seq<string>, name: string): nat {
    if names == [] then 0
    else Occurrences(names[..|names| - 1], name) + if names[|names| - 1] == name then 1 else 0
  }

  /** No name is one that is invented for a repeat of another. */
  predicate NoCollision(names: seq<string>) {
    forall i, j, k: nat | 0 <= i < |names| && 0 <= j < |names| && 1 <= k < Occurrences(names, names[j]) ::
      names[i] != names[j] + Decimal(k)
  }

  lemma {:induction false} OccurrencesGrow(names: seq<string>, m: nat, name: string)
    requires m <= |names|
    ensures Occurrences(names[..m], name) <= Occurrences(names, name)
    ensures Occurrences(names, name) > 0 <==> name in names
    decreases |names|
  {
    if m == |names| {
      assert names[..m] == names;
    }
    if names != [] {
      var init := names[..|names| - 1];
      assert names == init + [names[|names| - 1]];
      OccurrencesGrow(init, if m < |names| then m else m - 1, name);
      assert m < |names| ==> init[..m] == names[..m];
    }
  }

  /** Naming knows of this name that it was seen, and how many repeats it had. */
  predicate Known(seen: seq<string>, x: string) {
    var (stored, conflicts) := Stored(seen);
    && (x in stored <==> x in seen)
    && (if x in conflicts then conflicts[x] >= 1 && Occurrences(seen, x) == conflicts[x] + 1 else Occurrences(seen, x) <= 1)
  }

  lemma {:induction false} KnownStep(seen: seq<string>, name: string, x: string)
    requires Known(seen, name) && Known(seen, x)
    requires var k := Occurrences(seen, name); k > 0 ==> x != name + Decimal(k)
    ensures Known(seen + [name], x)
  {
    assert (seen + [name])[..|seen|] == seen;
    OccurrencesGrow(seen, 0, name);
  }

  lemma {:induction false} StoredStep(seen: seq<string>, name: string)
    requires Known(seen, name)
    ensures var k := Occurrences(seen, name);
            Stored(seen + [name]).0 == Stored(seen).0 + [if k == 0 then name else name + Decimal(k)]
  {
    assert (seen + [name])[..|seen|] == seen;
    OccurrencesGrow(seen, 0, name);
  }

  lemma {:induction false} NamesKnown(names: seq<string>, m: nat, x: string)
    requires NoCollision(names) && m <= |names| && x in names
    ensures Known(names[..m], x)
  {
    if m > 0 {
      var name, k := names[m - 1], Occurrences(names[..m - 1], names[m - 1]);
      assert names[..m] == names[..m - 1] + [name];
      NamesKnown(names, m - 1, x);
      NamesKnown(names, m - 1, name);
      OccurrencesGrow(names, m, name);
      assert names[..m][..m - 1] == names[..m - 1];
      var i :| 0 <= i < |names| && names[i] == x;
      assert k > 0 ==> names[i] != names[m - 1] + Decimal(k);
      KnownStep(names[..m - 1], name, x);
    }
  }

  /** What the n-th name is stored under: itself the first time, and with the number k behind
      it the k-th time it comes up again. */
  function WithRepeat(names: seq<string>, n: nat): string
    requires n < |names|
  {
    var k := Occurrences(names[..n], names[n]);
    if k == 0 then names[n] else names[n] + Decimal(k)
  }

  /** So it is stored wherever no name is one that is invented. */
  lemma {:induction false} RepeatsAreNumbered(names: seq<string>)
    requires NoCollision(names)
    ensures Stored(names).0 == seq(|names|, n requires 0 <= n < |names| => WithRepeat(names, n))
  {
    RepeatsSoFar(names, |names|);
    assert names[..|names|] == names;
  }

  lemma {:induction false} RepeatsSoFar(names: seq<string>, m: nat)
    requires NoCollision(names) && m <= |names|
    ensures Stored(names[..m]).0 == seq(m, n requires 0 <= n < m => WithRepeat(names, n))
  {
    if m > 0 {
      RepeatsSoFar(names, m - 1);
      assert names[..m] == names[..m - 1] + [names[m - 1]];
      NamesKnown(names, m - 1, names[m - 1]);
      StoredStep(names[..m - 1], names[m - 1]);
    }
  }

  /** The name a conflict invents can be taken already: of three parameters of which the
      second and third share a name, and the first has that name with a 1 behind it, the third
      is stored under the first one's name, in its place, and the first is lost. */
  lemma ConflictCanOverwrite(prefix: seq<Row>, groups: seq<Group>, name: string)
    requires NoField(prefix) && Readable(groups) && NamesOf(groups) == [name + Decimal(1), name, name]
    ensures var entries := Entries(prefix, groups);
            Run(prefix + RowsOf(groups)).result == [(name + Decimal(1), entries[2].1), entries[1]]
  {
    TableOfGroups(prefix, groups);
    ThirdIsRenamed(name);
    FiledOver(Entries(prefix, groups));
  }

  lemma {:induction false} ThirdIsRenamed(name: string)
    ensures name + Decimal(1) != name
    ensures Stored([name + Decimal(1), name, name]).0 == [name + Decimal(1), name, name + Decimal(1)]
  {
    var other := name + Decimal(1);
    assert |other| == |name| + 1;
    StoredGrow([], other);
    StoredGrow([other], name);
    StoredGrow([other, name], name);
    assert [] + [other] == [other] && [other] + [name] == [other, name] && [other, name] + [name] == [other, name, name];
    assert [other, name][1] == name;
  }

  lemma {:induction false} FiledOver<V>(entries: Dict<V>)
    requires |entries| == 3 && entries[0].0 == entries[2].0 != entries[1].0
    ensures Filed(entries) == [(entries[0].0, entries[2].1), entries[1]]
  {
    var two := entries[..2];
    assert two[..1][..0] == [] && two[..1] == [entries[0]];
    assert Filed(two[..1]) == [entries[0]];
    assert At([entries[0]], entries[1].0) == 1;
    assert Filed(two) == [entries[0], entries[1]];
    assert At([entries[0], entries[1]], entries[2].0) == 0;
  }

  // ---- span tails, end to end ----------------------------------------------------------------------------

  /** A list without its repeats, each entry where it came first. */
  function Unique(xs: seq<string>): seq<string> {
    if xs == [] then []
    else
      var init, last := Unique(xs[..|xs| - 1]), xs[|xs| - 1];
      if last in init then init else init + [last]
  }

  lemma {:induction false} UniqueHasAll(xs: seq<string>, x: string)
    ensures x in Unique(xs) <==> x in xs
  {
    if xs != [] {
      var init, last := xs[..|xs| - 1], xs[|xs| - 1];
      assert xs == init + [last];
      UniqueHasAll(init, x);
    }
  }

  lemma {:induction false} UniqueIsDistinct(xs: seq<string>)
    ensures Distinct(Unique(xs)) && (xs != [] ==> Unique(xs) != [] && Unique(xs)[0] == xs[0])
  {
    if xs != [] {
      UniqueIsDistinct(xs[..|xs| - 1]);
    }
  }

  /** Numbering lists each option once, where it came first. */
  lemma {:induction false} NumberedKeys(first: int, options: seq<string>)
    ensures var d := Numbered([], first, options);
            |d| == |Unique(options)| && forall i | 0 <= i < |d| :: d[i].0 == Unique(options)[i]
  {
    if options != [] {
      var init, last := options[..|options| - 1], options[|options| - 1];
      NumberedKeys(first, init);
      NumberedValues(first, init, last);
      UniqueHasAll(init, last);
    }
  }

  /** A span and the T different names that follow it: the T names, in order, take the last T
      values of the range, one each, when those start above its low end; otherwise nothing
      changes. A span alone leaves no values. */
  lemma SpanTailOfGroup(isSpan: string -> bool, g: Group, pending: Option<seq<int>>)
    requires AllOptions(g.rows) != [] && isSpan(AllOptions(g.rows)[0])
    ensures var p := ParamOf(g, pending);
            var fixed, tail := FixParam(isSpan, p), Unique(AllOptions(g.rows))[1..];
            var start := g.hi - |tail| + 1;
            && (tail == [] ==> fixed.values == [])
            && (tail != [] && start > g.lo ==>
                && |fixed.values| == |tail|
                && (forall i | 0 <= i < |tail| :: fixed.values[i] == (tail[i], start + i))
                && fixed.values[|tail| - 1].1 == g.hi)
            && (tail != [] && start <= g.lo ==> fixed == p)
            && fixed.(values := p.values) == p
  {
    UniqueIsDistinct(AllOptions(g.rows));
    NumberedKeys(g.lo, AllOptions(g.rows));
    FixTail(isSpan, ParamOf(g, pending), Unique(AllOptions(g.rows)));
  }

  lemma FixTail(isSpan: string -> bool, p: Param, names: seq<string>)
    requires |p.values| == |names| >= 1 && isSpan(names[0])
    requires forall i | 0 <= i < |names| :: p.values[i].0 == names[i]
    ensures var fixed, tail := FixParam(isSpan, p), names[1..];
            var start := p.hi - |tail| + 1;
            && (tail == [] ==> fixed.values == [])
            && (tail != [] && start > p.lo ==>
                && |fixed.values| == |tail|
                && (forall i | 0 <= i < |tail| :: fixed.values[i] == (tail[i], start + i))
                && fixed.values[|tail| - 1].1 == p.hi)
            && (tail != [] && start <= p.lo ==> fixed == p)
            && fixed.(values := p.values) == p
  {
  }

  /** A parameter that does not begin with a span keeps its numbering. */
  lemma NoSpanNoChange(isSpan: string -> bool, g: Group, pending: Option<seq<int>>)
    requires AllOptions(g.rows) != [] ==> !isSpan(AllOptions(g.rows)[0])
    ensures FixParam(isSpan, ParamOf(g, pending)) == ParamOf(g, pending)
  {
    FirstKeyStays(g.lo, AllOptions(g.rows));
  }

  lemma {:induction false} FirstKeyStays(first: int, options: seq<string>)
    ensures options == [] ==> Numbered([], first, options) == []
    ensures options != [] ==> Numbered([], first, options) != [] && Numbered([], first, options)[0].0 == options[0]
  {
    if options != [] {
      FirstKeyStays(first, options[..|options| - 1]);
    }
  }
}
