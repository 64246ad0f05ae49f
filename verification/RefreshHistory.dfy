/** What a run of the refresh loop has done so far, read off its steps: when a block was last
    read, when its type was last recorded, what was last echoed for it, and when the sliders
    being resolved were chosen. */
module RefreshHistory {
  import opened Wrappers
  import opened PatchStore
  import opened BlockSnapshot
  import opened SliderReads
  import opened RefreshLoop

  /** The step that begins reading this block, in a scan of its type. */
  predicate Reads(s: State, a: Action, t: string, x: string) {
    a.ReadBlock? && s.worker.AtBlock? && s.worker.scan.fxType == t && NextId(s.worker.scan) == x
  }

  predicate Records(s: State, a: Action, t: string) {
    a.RecordType? && s.worker.AtBlock? && s.worker.scan.fxType == t
  }

  /** A TYPE echo that lands on this stored block. */
  predicate Matches(c: Config, s: State, a: Action, t: string, x: string) {
    && a.Echo? && a.d.fxType == Some(t) && a.d.fxId == x
    && var applied := Apply(c.fxTypes, s.store, a.d, a.now);
       applied.Ok? && applied.value.1.typeChanged
  }

  /** The last step before i that reads this block, or -1. */
  function ReadAt(states: seq<State>, acts: seq<Action>, t: string, x: string, i: nat): (r: int)
    requires i <= |acts| <= |states|
    ensures -1 <= r < i
    ensures r >= 0 ==> Reads(states[r], acts[r], t, x)
    ensures forall j | r < j < i :: !Reads(states[j], acts[j], t, x)
  {
    if i == 0 then -1
    else if Reads(states[i - 1], acts[i - 1], t, x) then i - 1
    else ReadAt(states, acts, t, x, i - 1)
  }

  /** The last step before i that records a scan of this type, or -1. */
  function RecordAt(states: seq<State>, acts: seq<Action>, t: string, i: nat): (r: int)
    requires i <= |acts| <= |states|
    ensures -1 <= r < i
    ensures r >= 0 ==> Records(states[r], acts[r], t)
    ensures forall j | r < j < i :: !Records(states[j], acts[j], t)
  {
    if i == 0 then -1
    else if Records(states[i - 1], acts[i - 1], t) then i - 1
    else RecordAt(states, acts, t, i - 1)
  }

  /** The name the last TYPE echo that landed on this block in steps lo..hi-1 carried. */
  function LastEchoed(c: Config, states: seq<State>, acts: seq<Action>, t: string, x: string, lo: int, hi: nat): Option<Reading>
    requires hi <= |acts| <= |states|
  {
    if hi == 0 || hi <= lo then None
    else if Matches(c, states[hi - 1], acts[hi - 1], t, x) then Some(acts[hi - 1].d.strValue)
    else LastEchoed(c, states, acts, t, x, lo, hi - 1)
  }

  /** The last step before i that chose sliders, or -1. */
  function ChosenAt(acts: seq<Action>, i: nat): (r: int)
    requires i <= |acts|
    ensures -1 <= r < i
    ensures r >= 0 ==> acts[r].ChooseSliders?
  {
    if i == 0 then -1 else if acts[i - 1].ChooseSliders? then i - 1 else ChosenAt(acts, i - 1)
  }

  /** The name the block got that was read in step r: the TYPE read, but the blocks that have
      none are named after their type and id. */
  function NameRead(states: seq<State>, acts: seq<Action>, r: int): Reading
    requires 0 <= r < |acts| <= |states| && acts[r].ReadBlock? && states[r].worker.AtBlock?
  {
    var scan := states[r].worker.scan;
    if scan.fxType == "ns" || scan.fxType == "delay" then Label(scan.fxType + NextId(scan)) else acts[r].name
  }

  /** The last word on a name that was this at first. */
  function Last(echoed: Option<Reading>, first: Reading): Reading {
    if echoed.Some? then echoed.value else first
  }

  lemma {:induction false} LastEchoedSplit(c: Config, states: seq<State>, acts: seq<Action>, t: string, x: string,
                                           lo: int, mid: nat, hi: nat)
    requires lo <= mid <= hi <= |acts| <= |states|
    ensures LastEchoed(c, states, acts, t, x, lo, hi)
            == (var late := LastEchoed(c, states, acts, t, x, mid, hi);
                if late.Some? then late else LastEchoed(c, states, acts, t, x, lo, mid))
    decreases hi
  {
    if mid < hi {
      LastEchoedSplit(c, states, acts, t, x, lo, mid, hi - 1);
    }
  }

  /** What a step makes of the owner's entries: a read sets one, a matched echo sets one. */
  lemma OwnerStep(c: Config, s: State, a: Action, x: string)
    requires Inv(c, s) && Enabled(s, a)
    ensures var s' := Next(c, s, a);
            && (x in s'.store.fxNames <==> x in s.store.fxNames || Reads(s, a, "fx", x))
            && (x in s'.store.fxNames ==>
                s'.store.fxNames[x] == if Reads(s, a, "fx", x) then a.name
                                       else if Matches(c, s, a, "fx", x) then a.d.strValue
                                       else s.store.fxNames[x])
  {
    if a.Echo? {
      var applied := Apply(c.fxTypes, s.store, a.d, a.now);
      if applied.Ok? {
        ApplyKeepsBlocks(c.fxTypes, s.store, a.d, a.now);
        if applied.value.1.typeChanged && a.d.fxType == Some("fx") {
          assert StoredBlockOk(c, s, s.store.blocks["fx"][FirstWith(s.store.blocks["fx"], a.d.fxId)]);
        }
      }
    }
  }
}
