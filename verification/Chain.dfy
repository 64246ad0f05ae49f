/** The effect-chain grammar: the parser that turns the unit's flat token list into a
    tree of blocks, the printer that goes back, and the two round trips between them. */
module Chain {

  const DIVIDER := "DIVIDER"
  const BRANCHSPLIT := "BRANCHSPLIT"
  const MIXER := "MIXER"

  /** One element of a chain: a plain effect, or a divider with its two branches. A
      divider that ran out of tokens keeps the empty mixer name it was created with. */
  datatype Block =
    | Effect(name: string)
    | Divider(divider: string, branchA: seq<Block>, branchB: seq<Block>, mixer: string)

  /** What a parse yields: the blocks, and the tokens left in the caller's list. */
  datatype Parsed = Parsed(blocks: seq<Block>, rest: seq<string>)

  datatype ParsedBlock = ParsedBlock(block: Block, rest: seq<string>)

  predicate IsDivider(token: string) {
    DIVIDER <= token
  }

  /** The name with every occurrence of DIVIDER cut out, scanning from the left. */
  function DividerId(name: string): string {
    if |name| < |DIVIDER| then name
    else if DIVIDER <= name then DividerId(name[|DIVIDER|..])
    else [name[0]] + DividerId(name[1..])
  }

  function SplitToken(divider: string): string {
    BRANCHSPLIT + DividerId(divider)
  }

  function MixerToken(divider: string): string {
    MIXER + DividerId(divider)
  }

  // ---- specification of the parser -----------------------------------------------------

  /** The list a parse level stops at: it is used up, or its first token is a stop token. */
  predicate Stops(rest: seq<string>, stop: set<string>) {
    rest == [] || rest[0] in stop
  }

  function Parse(ts: seq<string>, stop: set<string>): (p: Parsed)
    ensures |p.rest| <= |ts|
    ensures Stops(p.rest, stop)
    decreases |ts|, 1
  {
    if Stops(ts, stop) then Parsed([], ts)
    else
      var head := ParseHead(ts);
      var more := Parse(head.rest, stop);
      Parsed([head.block] + more.blocks, more.rest)
  }

  /** The first block of a list that does not stop here. */
  function ParseHead(ts: seq<string>): (h: ParsedBlock)
    requires ts != []
    ensures |h.rest| < |ts|
    decreases |ts|, 0
  {
    if IsDivider(ts[0]) then ParseDividerTail(ts[1..], ts[0])
    else ParsedBlock(Effect(ts[0]), ts[1..])
  }

  /** The divider whose name token has just been consumed. */
  function ParseDividerTail(ts: seq<string>, name: string): (d: ParsedBlock)
    ensures |d.rest| <= |ts|
    decreases |ts|, 2
  {
    var a := Parse(ts, {SplitToken(name), MixerToken(name)});
    if a.rest == [] then
      ParsedBlock(Divider(name, a.blocks, [], ""), [])
    else if BRANCHSPLIT <= a.rest[0] then
      var b := Parse(a.rest[1..], {MixerToken(name)});
      if b.rest == [] then
        ParsedBlock(Divider(name, a.blocks, b.blocks, ""), [])
      else
        ParsedBlock(Divider(name, a.blocks, b.blocks, b.rest[0]), b.rest[1..])
    else
      ParsedBlock(Divider(name, a.blocks, [], a.rest[0]), a.rest[1..])
  }

  // ---- specification of the printer ----------------------------------------------------

  function Serialize(blocks: seq<Block>): seq<string>
    decreases blocks
  {
    if blocks == [] then [] else SerializeBlock(blocks[0]) + Serialize(blocks[1..])
  }

  function SerializeBlock(b: Block): seq<string>
    decreases b
  {
    match b
    case Effect(name) => [name]
    case Divider(divider, branchA, branchB, mixer) =>
      [divider] + Serialize(branchA) + [SplitToken(divider)] + Serialize(branchB) + [mixer]
  }

  lemma {:induction false} SerializeAppend(xs: seq<Block>, ys: seq<Block>)
    ensures Serialize(xs + ys) == Serialize(xs) + Serialize(ys)
    decreases xs
  {
    if xs == [] {
      assert xs + ys == ys;
    } else {
      assert (xs + ys)[0] == xs[0] && (xs + ys)[1..] == xs[1..] + ys;
      SerializeAppend(xs[1..], ys);
    }
  }

  lemma AppendDivider(done: seq<string>, d: seq<string>, a: seq<string>, s: seq<string>, b: seq<string>, m: seq<string>)
    ensures done + d + a + s + b + m == done + (d + a + s + b + m)
  {
  }

  lemma SerializeOneMore(blocks: seq<Block>, i: nat)
    requires i < |blocks|
    ensures Serialize(blocks[..i + 1]) == Serialize(blocks[..i]) + SerializeBlock(blocks[i])
  {
    assert blocks[..i + 1] == blocks[..i] + [blocks[i]];
    SerializeAppend(blocks[..i], [blocks[i]]);
    assert Serialize([blocks[i]]) == SerializeBlock(blocks[i]) + Serialize([]);
  }

  // ---- the imperative parser and printer -----------------------------------------------

  /** The caller's token list, consumed in place by every recursion level. */
  class Tokens {
    var items: seq<string>

    constructor (items: seq<string>)
      ensures this.items == items
    {
      this.items := items;
    }

    method PopFront() returns (token: string)
      requires items != []
      modifies this
      ensures token == old(items)[0] && items == old(items)[1..]
    {
      token := items[0];
      items := items[1..];
    }
  }

  method ParseChain(tokens: Tokens, stop: set<string>) returns (chain: seq<Block>)
    modifies tokens
    ensures Parsed(chain, tokens.items) == Parse(old(tokens.items), stop)
    decreases |tokens.items|, 0
  {
    chain := [];
    while tokens.items != []
      invariant |tokens.items| <= |old(tokens.items)|
      invariant Parse(old(tokens.items), stop).blocks == chain + Parse(tokens.items, stop).blocks
      invariant Parse(old(tokens.items), stop).rest == Parse(tokens.items, stop).rest
      decreases |tokens.items|
    {
      if tokens.items[0] in stop {
        return;
      }
      ghost var before, done := tokens.items, chain;
      var token := tokens.PopFront();
      if IsDivider(token) {
        var block := ParseDivider(tokens, token);
        chain := chain + [block];
      } else {
        chain := chain + [Effect(token)];
      }
      ParseStep(before, stop, done, chain[|done|], tokens.items);
    }
  }

  /** One turn of the parser's loop keeps the result the whole parse will have. */
  lemma ParseStep(before: seq<string>, stop: set<string>, done: seq<Block>, block: Block, after: seq<string>)
    requires !Stops(before, stop) && ParseHead(before) == ParsedBlock(block, after)
    ensures done + Parse(before, stop).blocks == done + [block] + Parse(after, stop).blocks
    ensures Parse(before, stop).rest == Parse(after, stop).rest
  {
    assert Parse(before, stop).blocks == [block] + Parse(after, stop).blocks;
  }

  method ParseDivider(tokens: Tokens, name: string) returns (block: Block)
    modifies tokens
    ensures ParsedBlock(block, tokens.items) == ParseDividerTail(old(tokens.items), name)
    decreases |tokens.items|, 1
  {
    var branchB: seq<Block>, mixer := [], "";
    var branchA := ParseChain(tokens, {SplitToken(name), MixerToken(name)});
    if tokens.items != [] {
      var next := tokens.PopFront();
      if BRANCHSPLIT <= next {
        branchB := ParseChain(tokens, {MixerToken(name)});
        if tokens.items != [] {
          mixer := tokens.PopFront();
        }
      } else {
        mixer := next;
      }
    }
    block := Divider(name, branchA, branchB, mixer);
  }

  method SerializeChain(blocks: seq<Block>) returns (output: seq<string>)
    ensures output == Serialize(blocks)
    decreases blocks
  {
    output := [];
    for i := 0 to |blocks|
      invariant output == Serialize(blocks[..i])
    {
      var block := blocks[i];
      match block {
        case Effect(name) =>
          output := output + [name];
        case Divider(divider, branchA, branchB, mixer) =>
          ghost var done := output;
          output := output + [divider];
          var a := SerializeChain(branchA);
          output := output + a;
          output := output + [SplitToken(divider)];
          var b := SerializeChain(branchB);
          output := output + b;
          output := output + [mixer];
          AppendDivider(done, [divider], a, [SplitToken(divider)], b, [mixer]);
      }
      SerializeOneMore(blocks, i);
    }
    assert blocks[..|blocks|] == blocks;
  }

  // ---- which trees and which token lists survive the trip ------------------------------

  /** A tree the parser can have produced at a level with these stop tokens. */
  predicate Shaped(blocks: seq<Block>, stop: set<string>)
    decreases blocks
  {
    blocks != [] ==> ShapedBlock(blocks[0], stop) && Shaped(blocks[1..], stop)
  }

  predicate ShapedBlock(b: Block, stop: set<string>)
    decreases b
  {
    match b
    case Effect(name) => name !in stop && !IsDivider(name)
    case Divider(divider, branchA, branchB, mixer) =>
      && divider !in stop && IsDivider(divider)
      && Shaped(branchA, {SplitToken(divider), MixerToken(divider)})
      && Shaped(branchB, {MixerToken(divider)})
      && (mixer == MixerToken(divider) || mixer == "")
  }

  /** How many dividers of the tree, at any depth, have no mixer. */
  function MissingMixers(blocks: seq<Block>): nat
    decreases blocks
  {
    if blocks == [] then 0 else MissingMixersInBlock(blocks[0]) + MissingMixers(blocks[1..])
  }

  function MissingMixersInBlock(b: Block): nat
    decreases b
  {
    match b
    case Effect(_) => 0
    case Divider(_, branchA, branchB, mixer) =>
      MissingMixers(branchA) + MissingMixers(branchB) + if mixer == "" then 1 else 0
  }

  /** A well-formed tree: every effect and divider name is readable at its level, and
      every divider carries its own mixer. */
  predicate WellFormed(blocks: seq<Block>, stop: set<string>) {
    Shaped(blocks, stop) && MissingMixers(blocks) == 0
  }

  /** How many dividers met while parsing `ts` find no branch split after their first branch. */
  function MissingSplits(ts: seq<string>, stop: set<string>): nat
    decreases |ts|, 1
  {
    if Stops(ts, stop) then 0
    else MissingSplitsInHead(ts) + MissingSplits(ParseHead(ts).rest, stop)
  }

  function MissingSplitsInHead(ts: seq<string>): nat
    requires ts != []
    decreases |ts|, 0
  {
    if IsDivider(ts[0]) then MissingSplitsInDivider(ts[1..], ts[0]) else 0
  }

  function MissingSplitsInDivider(ts: seq<string>, name: string): nat
    decreases |ts|, 2
  {
    var stop := {SplitToken(name), MixerToken(name)};
    var a := Parse(ts, stop);
    MissingSplits(ts, stop) +
    if a.rest != [] && BRANCHSPLIT <= a.rest[0] then MissingSplits(a.rest[1..], {MixerToken(name)}) else 1
  }

  lemma MixerTokenIsNoSplit(name: string)
    ensures !(BRANCHSPLIT <= MixerToken(name))
    ensures MixerToken(name) != ""
    ensures BRANCHSPLIT <= SplitToken(name)
  {
    assert MixerToken(name)[0] == 'M';
    assert BRANCHSPLIT[0] == 'B';
  }

  // ---- printing, then parsing ----------------------------------------------------------

  lemma {:induction false} ParseSerialized(blocks: seq<Block>, stop: set<string>, rest: seq<string>)
    requires WellFormed(blocks, stop) && Stops(rest, stop)
    ensures Parse(Serialize(blocks) + rest, stop) == Parsed(blocks, rest)
    decreases blocks, 0
  {
    if blocks == [] {
      assert Serialize(blocks) + rest == rest;
    } else {
      var tail := Serialize(blocks[1..]) + rest;
      assert Serialize(blocks) + rest == SerializeBlock(blocks[0]) + tail;
      HeadParsesBack(blocks[0], stop, tail);
      ParseSerialized(blocks[1..], stop, rest);
      ParseStep(SerializeBlock(blocks[0]) + tail, stop, [], blocks[0], tail);
      assert blocks == [] + [blocks[0]] + blocks[1..];
    }
  }

  lemma {:induction false} HeadParsesBack(block: Block, stop: set<string>, tail: seq<string>)
    requires ShapedBlock(block, stop) && MissingMixersInBlock(block) == 0
    ensures !Stops(SerializeBlock(block) + tail, stop)
    ensures ParseHead(SerializeBlock(block) + tail) == ParsedBlock(block, tail)
    decreases block
  {
    match block
    case Effect(name) =>
      assert (SerializeBlock(block) + tail)[1..] == tail;
    case Divider(divider, a, b, mixer) =>
      var stopA, stopB := {SplitToken(divider), MixerToken(divider)}, {MixerToken(divider)};
      var afterB := [mixer] + tail;
      var afterA := [SplitToken(divider)] + (Serialize(b) + afterB);
      assert (SerializeBlock(block) + tail)[1..] == Serialize(a) + afterA;
      ParseSerialized(a, stopA, afterA);
      ParseSerialized(b, stopB, afterB);
      TailFromBranches(Serialize(a) + afterA, divider, a, b, afterA, afterB);
      assert afterB[1..] == tail;
  }

  /** A divider whose two branches and mixer are all present is put together from them. */
  lemma TailFromBranches(ts: seq<string>, name: string, a: seq<Block>, b: seq<Block>,
                         afterA: seq<string>, afterB: seq<string>)
    requires Parse(ts, {SplitToken(name), MixerToken(name)}) == Parsed(a, afterA)
    requires afterA != [] && afterA[0] == SplitToken(name)
    requires Parse(afterA[1..], {MixerToken(name)}) == Parsed(b, afterB)
    requires afterB != []
    ensures ParseDividerTail(ts, name) == ParsedBlock(Divider(name, a, b, afterB[0]), afterB[1..])
  {
    MixerTokenIsNoSplit(name);
  }

  // ---- parsing, then printing ----------------------------------------------------------

  lemma {:induction false} ParsedIsShaped(ts: seq<string>, stop: set<string>)
    ensures Shaped(Parse(ts, stop).blocks, stop)
    decreases |ts|, 0
  {
    if !Stops(ts, stop) {
      var p, head := Parse(ts, stop), ParseHead(ts);
      if IsDivider(ts[0]) {
        ParsedDividerIsShaped(ts[1..], ts[0], stop);
      }
      ParsedIsShaped(head.rest, stop);
      assert p.blocks[1..] == Parse(head.rest, stop).blocks;
    }
  }

  lemma {:induction false} ParsedDividerIsShaped(ts: seq<string>, name: string, stop: set<string>)
    requires IsDivider(name) && name !in stop
    ensures ShapedBlock(ParseDividerTail(ts, name).block, stop)
    decreases |ts|, 1
  {
    var a := Parse(ts, {SplitToken(name), MixerToken(name)});
    ParsedIsShaped(ts, {SplitToken(name), MixerToken(name)});
    MixerTokenIsNoSplit(name);
    if a.rest != [] && BRANCHSPLIT <= a.rest[0] {
      ParsedIsShaped(a.rest[1..], {MixerToken(name)});
    }
  }

  /** Printing a parsed list adds exactly one token for every branch split and every
      mixer that was missing; when none was, it gives back the tokens consumed. */
  ghost predicate Accounted(printed: seq<string>, consumed: seq<string>, missing: nat) {
    |printed| == |consumed| + missing && (missing == 0 ==> printed == consumed)
  }

  lemma AccountedAppend(p: seq<string>, c: seq<string>, m: nat, q: seq<string>, d: seq<string>, n: nat)
    requires Accounted(p, c, m) && Accounted(q, d, n)
    ensures Accounted(p + q, c + d, m + n)
  {
  }

  lemma {:induction false} ParsedLength(ts: seq<string>, stop: set<string>) returns (consumed: seq<string>)
    ensures var p := Parse(ts, stop);
            && consumed + p.rest == ts
            && Accounted(Serialize(p.blocks), consumed, MissingSplits(ts, stop) + MissingMixers(p.blocks))
    decreases |ts|, 0
  {
    var p := Parse(ts, stop);
    if Stops(ts, stop) {
      consumed := [];
      assert consumed + p.rest == ts;
    } else {
      var head := ParseHead(ts);
      var first := ParsedHeadLength(ts);
      var others := ParsedLength(head.rest, stop);
      var more := Parse(head.rest, stop);
      consumed := first + others;
      assert p.blocks[0] == head.block && p.blocks[1..] == more.blocks;
      AccountedAppend(SerializeBlock(head.block), first, MissingSplitsInHead(ts) + MissingMixersInBlock(head.block),
                      Serialize(more.blocks), others, MissingSplits(head.rest, stop) + MissingMixers(more.blocks));
      assert consumed + p.rest == first + (others + p.rest);
    }
  }

  /** The five pieces of a printed divider against the tokens each was read from; an
      absent split or mixer was read from no token. */
  lemma AccountedDivider(block: Block, a: seq<string>, ma: nat, split: seq<string>, ms: nat,
                         b: seq<string>, mb: nat, mixer: seq<string>, mm: nat)
    requires block.Divider?
    requires Accounted(Serialize(block.branchA), a, ma) && Accounted([SplitToken(block.divider)], split, ms)
    requires Accounted(Serialize(block.branchB), b, mb) && Accounted([block.mixer], mixer, mm)
    ensures Accounted(SerializeBlock(block), [block.divider] + a + split + b + mixer, ma + ms + mb + mm)
  {
  }

  lemma {:induction false} ParsedHeadLength(ts: seq<string>) returns (consumed: seq<string>)
    requires ts != []
    ensures var h := ParseHead(ts);
            && consumed + h.rest == ts
            && Accounted(SerializeBlock(h.block), consumed, MissingSplitsInHead(ts) + MissingMixersInBlock(h.block))
    decreases |ts|, -1
  {
    var name, rest := ts[0], ts[1..];
    assert ts == [name] + rest;
    if IsDivider(name) {
      consumed := ParsedDividerLength(rest, name);
      assert [name] + consumed + ParseDividerTail(rest, name).rest == [name] + (consumed + ParseDividerTail(rest, name).rest);
      consumed := [name] + consumed;
    } else {
      consumed := [name];
    }
  }

  lemma {:induction false} ParsedDividerLength(ts: seq<string>, name: string) returns (consumed: seq<string>)
    ensures var d := ParseDividerTail(ts, name);
            && consumed + d.rest == ts
            && Accounted(SerializeBlock(d.block), [name] + consumed,
                         MissingSplitsInDivider(ts, name) + MissingMixersInBlock(d.block))
    decreases |ts|, 1
  {
    var a := Parse(ts, {SplitToken(name), MixerToken(name)});
    var readA := ParsedLength(ts, {SplitToken(name), MixerToken(name)});
    var d := ParseDividerTail(ts, name);
    MixerTokenIsNoSplit(name);
    if a.rest == [] {
      AccountedDivider(d.block, readA, MissingSplits(ts, {SplitToken(name), MixerToken(name)}) + MissingMixers(a.blocks),
                       [], 1, [], 0, [], 1);
      consumed := readA;
      assert [name] + readA + [] + [] + [] == [name] + consumed;
    } else if !(BRANCHSPLIT <= a.rest[0]) {
      AccountedDivider(d.block, readA, MissingSplits(ts, {SplitToken(name), MixerToken(name)}) + MissingMixers(a.blocks),
                       [], 1, [], 0, [a.rest[0]], 0);
      consumed := readA + [a.rest[0]];
      assert [name] + readA + [] + [] + [a.rest[0]] == [name] + consumed;
      assert a.rest == [a.rest[0]] + d.rest;
    } else {
      consumed := SplitDividerLength(ts, name, readA);
    }
  }

  lemma {:induction false} SplitDividerLength(ts: seq<string>, name: string, readA: seq<string>)
    returns (consumed: seq<string>)
    requires var stopA := {SplitToken(name), MixerToken(name)};
             var a := Parse(ts, stopA);
             && readA + a.rest == ts
             && a.rest != [] && BRANCHSPLIT <= a.rest[0]
             && Accounted(Serialize(a.blocks), readA, MissingSplits(ts, stopA) + MissingMixers(a.blocks))
    ensures var d := ParseDividerTail(ts, name);
            && consumed + d.rest == ts
            && Accounted(SerializeBlock(d.block), [name] + consumed,
                         MissingSplitsInDivider(ts, name) + MissingMixersInBlock(d.block))
    decreases |ts|, 0
  {
    var stopA, stopB := {SplitToken(name), MixerToken(name)}, {MixerToken(name)};
    var a := Parse(ts, stopA);
    var b := Parse(a.rest[1..], stopB);
    var readB := ParsedLength(a.rest[1..], stopB);
    var mixer := if b.rest == [] then [] else [b.rest[0]];
    var rest := if b.rest == [] then [] else b.rest[1..];
    consumed := readA + [a.rest[0]] + readB + mixer;
    Rejoin(ts, readA, a.rest, [a.rest[0]], a.rest[1..], readB, b.rest, mixer, rest);
    SplitDividerAccounted(ts, name, readA, readB, mixer);
    Prepend([name], readA, [a.rest[0]], readB, mixer);
  }

  lemma Prepend(n: seq<string>, a: seq<string>, s: seq<string>, b: seq<string>, m: seq<string>)
    ensures n + a + s + b + m == n + (a + s + b + m)
  {
  }

  lemma SplitDividerAccounted(ts: seq<string>, name: string, readA: seq<string>, readB: seq<string>, mixer: seq<string>)
    requires var stopA, stopB := {SplitToken(name), MixerToken(name)}, {MixerToken(name)};
             var a := Parse(ts, stopA);
             && a.rest != [] && BRANCHSPLIT <= a.rest[0]
             && var b := Parse(a.rest[1..], stopB);
                && Accounted(Serialize(a.blocks), readA, MissingSplits(ts, stopA) + MissingMixers(a.blocks))
                && Accounted(Serialize(b.blocks), readB, MissingSplits(a.rest[1..], stopB) + MissingMixers(b.blocks))
                && mixer == if b.rest == [] then [] else [b.rest[0]]
    ensures var a, d := Parse(ts, {SplitToken(name), MixerToken(name)}), ParseDividerTail(ts, name);
            && d.rest == (var b := Parse(a.rest[1..], {MixerToken(name)}); if b.rest == [] then [] else b.rest[1..])
            && Accounted(SerializeBlock(d.block), [name] + readA + [a.rest[0]] + readB + mixer,
                         MissingSplitsInDivider(ts, name) + MissingMixersInBlock(d.block))
  {
    var stopA, stopB := {SplitToken(name), MixerToken(name)}, {MixerToken(name)};
    var a, d := Parse(ts, stopA), ParseDividerTail(ts, name);
    var b := Parse(a.rest[1..], stopB);
    MixerTokenIsNoSplit(name);
    AccountedDivider(d.block, readA, MissingSplits(ts, stopA) + MissingMixers(a.blocks), [a.rest[0]], 0,
                     readB, MissingSplits(a.rest[1..], stopB) + MissingMixers(b.blocks), mixer, 1 - |mixer|);
  }

  lemma Rejoin(ts: seq<string>, a: seq<string>, afterA: seq<string>, s: seq<string>, afterS: seq<string>,
               b: seq<string>, afterB: seq<string>, m: seq<string>, rest: seq<string>)
    requires ts == a + afterA && afterA == s + afterS && afterS == b + afterB && afterB == m + rest
    ensures a + s + b + m + rest == ts
  {
  }

  // ---- main results --------------------------------------------------------------------

  /** Printing and parsing back returns the tree, and leaves exactly `rest`, for the
      well-formed trees and for no others. */
  lemma PrintThenParse(blocks: seq<Block>, stop: set<string>, rest: seq<string>)
    requires Stops(rest, stop)
    ensures Parse(Serialize(blocks) + rest, stop) == Parsed(blocks, rest) <==> WellFormed(blocks, stop)
  {
    if WellFormed(blocks, stop) {
      ParseSerialized(blocks, stop, rest);
    } else if Parse(Serialize(blocks) + rest, stop) == Parsed(blocks, rest) {
      ParsedIsShaped(Serialize(blocks) + rest, stop);
      var consumed := ParsedLength(Serialize(blocks) + rest, stop);
      assert false;
    }
  }

  /** Parsing and printing back: the exact length, when the tokens come back unchanged,
      and when the printed list parses to the same tree again. */
  lemma ParseThenPrint(ts: seq<string>)
    ensures var tree := Parse(ts, {}).blocks;
            && |Serialize(tree)| == |ts| + MissingSplits(ts, {}) + MissingMixers(tree)
            && (Serialize(tree) == ts <==> MissingSplits(ts, {}) == MissingMixers(tree) == 0)
            && (Parse(Serialize(tree), {}) == Parsed(tree, []) <==> MissingMixers(tree) == 0)
  {
    var tree := Parse(ts, {}).blocks;
    var consumed := ParsedLength(ts, {});
    assert consumed + [] == consumed;
    assert Serialize(tree) + [] == Serialize(tree);
    ParsedIsShaped(ts, {});
    PrintThenParse(tree, {}, []);
  }

  // ---- the tokens themselves -------------------------------------------------------------

  /** The word DIVIDER does not occur in it. */
  predicate NoDivider(s: string) {
    forall i | 0 <= i <= |s| :: !("DIVIDER" <= s[i..])
  }

  lemma {:induction false} NothingToCut(s: string)
    requires NoDivider(s)
    ensures DividerId(s) == s
  {
    if |s| >= 7 {
      assert s[0..] == s;
      forall i | 0 <= i <= |s[1..]| ensures !("DIVIDER" <= s[1..][i..]) {
        assert s[1..][i..] == s[i + 1..];
      }
      NothingToCut(s[1..]);
    }
  }

  /** Every DIVIDER in a name is cut out: the first, and then those of the rest. */
  lemma {:induction false} EachIsCut(before: string, rest: string)
    requires forall i | 0 <= i < |before| :: !("DIVIDER" <= (before + "DIVIDER" + rest)[i..])
    ensures DividerId(before + "DIVIDER" + rest) == before + DividerId(rest)
  {
    var s := before + "DIVIDER" + rest;
    if before == "" {
      assert "DIVIDER" <= s && s[7..] == rest;
    } else {
      assert s[0..] == s && s[1..] == before[1..] + "DIVIDER" + rest;
      forall i | 0 <= i < |before| - 1 ensures !("DIVIDER" <= (before[1..] + "DIVIDER" + rest)[i..]) {
        assert s[1..][i..] == s[i + 1..];
      }
      EachIsCut(before[1..], rest);
    }
  }

  /** A divider's own split and mixer carry the id behind its name. */
  lemma TokensOfDivider(id: string)
    requires NoDivider(id)
    ensures SplitToken("DIVIDER" + id) == "BRANCHSPLIT" + id
    ensures MixerToken("DIVIDER" + id) == "MIXER" + id
  {
    assert ("DIVIDER" + id)[|DIVIDER|..] == id && DIVIDER <= "DIVIDER" + id;
    NothingToCut(id);
  }

  /** Numbers contain no DIVIDER, so that is what `TokensOfDivider` is about. */
  lemma NumbersAreIds(id: string)
    requires forall i | 0 <= i < |id| :: '0' <= id[i] <= '9'
    ensures NoDivider(id)
  {
    forall i | 0 <= i <= |id| ensures !("DIVIDER" <= id[i..]) {
      if i < |id| {
        assert id[i..][0] == id[i] && "DIVIDER"[0] == 'D';
      }
    }
  }

  function Effects(names: seq<string>): seq<Block> {
    seq(|names|, i requires 0 <= i < |names| => Effect(names[i]))
  }

  lemma {:induction false} EffectsArePlain(names: seq<string>, stop: set<string>)
    requires forall x | x in names :: x !in stop && !("DIVIDER" <= x)
    ensures Serialize(Effects(names)) == names && Shaped(Effects(names), stop) && MissingMixers(Effects(names)) == 0
  {
    if names != [] {
      assert names[0] in names && forall x :: x in names[1..] ==> x in names;
      EffectsArePlain(names[1..], stop);
      assert Effects(names)[1..] == Effects(names[1..]);
    }
  }

  /** One divider, token by token: its name, the effects of its first branch, its own split,
      those of its second, its own mixer; parsed and printed, whatever its id and its
      branches. */
  lemma DividerByTokens(id: string, a: seq<string>, b: seq<string>)
    requires NoDivider(id)
    requires forall x | x in a :: x != "BRANCHSPLIT" + id && x != "MIXER" + id && !("DIVIDER" <= x)
    requires forall x | x in b :: x != "MIXER" + id && !("DIVIDER" <= x)
    ensures var tokens := ["DIVIDER" + id] + a + ["BRANCHSPLIT" + id] + b + ["MIXER" + id];
            var divider := Divider("DIVIDER" + id, Effects(a), Effects(b), "MIXER" + id);
            Parse(tokens, {}) == Parsed([divider], []) && Serialize([divider]) == tokens
  {
    var divider := Divider("DIVIDER" + id, Effects(a), Effects(b), "MIXER" + id);
    TokensOfDivider(id);
    EffectsArePlain(a, {"BRANCHSPLIT" + id, "MIXER" + id});
    EffectsArePlain(b, {"MIXER" + id});
    var tokens := ["DIVIDER" + id] + a + ["BRANCHSPLIT" + id] + b + ["MIXER" + id];
    assert DIVIDER <= "DIVIDER" + id;
    assert [divider][1..] == [];
    assert SerializeBlock(divider) == tokens;
    assert Serialize([divider]) == tokens + Serialize([]) == tokens;
    ParseSerialized([divider], {}, []);
    assert tokens + [] == tokens;
  }

  /** A divider that comes to its mixer without a split has an empty second branch, and one
      that runs out of tokens has no mixer either. */
  lemma DividerCutShort(id: string, a: seq<string>)
    requires NoDivider(id)
    requires forall x | x in a :: x != "BRANCHSPLIT" + id && x != "MIXER" + id && !("DIVIDER" <= x)
    ensures Parse(["DIVIDER" + id] + a + ["MIXER" + id], {})
            == Parsed([Divider("DIVIDER" + id, Effects(a), [], "MIXER" + id)], [])
    ensures Parse(["DIVIDER" + id] + a, {}) == Parsed([Divider("DIVIDER" + id, Effects(a), [], "")], [])
  {
    var name, stop := "DIVIDER" + id, {"BRANCHSPLIT" + id, "MIXER" + id};
    TokensOfDivider(id);
    EffectsArePlain(a, stop);
    assert DIVIDER <= name && (MIXER + id)[0] != BRANCHSPLIT[0];
    ParseSerialized(Effects(a), stop, ["MIXER" + id]);
    ParseSerialized(Effects(a), stop, []);
    assert a + [] == a;
    assert ([name] + a + ["MIXER" + id])[1..] == a + ["MIXER" + id] && ([name] + a)[1..] == a;
    assert ["MIXER" + id][1..] == [] && {SplitToken(name), MixerToken(name)} == stop;
    assert ParseDividerTail(a + ["MIXER" + id], name) == ParsedBlock(Divider(name, Effects(a), [], "MIXER" + id), []);
    assert ParseDividerTail(a, name) == ParsedBlock(Divider(name, Effects(a), [], ""), []);
    ParseStep([name] + a + ["MIXER" + id], {}, [], Divider(name, Effects(a), [], "MIXER" + id), []);
    ParseStep([name] + a, {}, [], Divider(name, Effects(a), [], ""), []);
  }
}
