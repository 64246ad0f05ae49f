/** How blocks are named: the ids a scan walks through, their normalised form, and the
    decimal strings that carry an id between the wire and the refresh queue. */
module BlockIds {
  import opened Wrappers

  // ---- decimal strings -----------------------------------------------------------------------

  function Digit(d: nat): char
    requires d < 10
  {
    ('0' as int + d) as char
  }

  predicate IsDigit(c: char) {
    '0' <= c <= '9'
  }

  /** str(n) */
  function Decimal(n: nat): string {
    if n < 10 then [Digit(n)] else Decimal(n / 10) + [Digit(n % 10)]
  }

  function Value(s: string): nat
    requires forall i | 0 <= i < |s| :: IsDigit(s[i])
  {
    if s == "" then 0
    else
      assert IsDigit(s[|s| - 1]);
      Value(s[..|s| - 1]) * 10 + (s[|s| - 1] as int - '0' as int)
  }

  /** int(s), for a string of plain digits; anything else raises. */
  function ParseInt(s: string): Option<nat> {
    if s != "" && forall i | 0 <= i < |s| :: IsDigit(s[i]) then Some(Value(s)) else None
  }

  lemma {:induction false} DecimalRoundTrip(n: nat)
    ensures ParseInt(Decimal(n)) == Some(n)
  {
    if n >= 10 {
      DecimalRoundTrip(n / 10);
      assert Decimal(n)[..|Decimal(n)| - 1] == Decimal(n / 10);
    } else {
      assert Decimal(n)[..0] == "";
      assert Value(Decimal(n)) == n;
    }
  }

  // ---- ids -----------------------------------------------------------------------------------

  /** A block id is an int while it counts blocks and a string once normalised to one. */
  datatype Id = Num(n: nat) | Text(s: string)

  /** str(id), the form every comparison uses. */
  function Str(id: Id): string {
    match id
    case Num(n) => Decimal(n)
    case Text(s) => s
  }

  function NormalizeBlock(fxType: string, count: nat, id: Id): Id {
    if count == 1 then Text("")
    else if fxType == "preamp" && id == Num(1) then Text("A")
    else if fxType == "preamp" && id == Num(2) then Text("B")
    else id
  }

  /** Normalising twice is normalising once. */
  lemma NormalizeIdempotent(fxType: string, count: nat, id: Id)
    ensures NormalizeBlock(fxType, count, NormalizeBlock(fxType, count, id)) == NormalizeBlock(fxType, count, id)
  {
  }

  /** The id, as a string, of the i-th block a scan of `count` blocks visits. */
  function ScanId(fxType: string, count: nat, i: nat): string {
    Str(NormalizeBlock(fxType, count, Num(i + 1)))
  }

  /** The blocks of one scan have pairwise distinct ids. */
  lemma ScanIdsDistinct(fxType: string, count: nat, i: nat, j: nat)
    requires i < count && j < count && i != j
    ensures ScanId(fxType, count, i) != ScanId(fxType, count, j)
  {
    DecimalRoundTrip(i + 1);
    DecimalRoundTrip(j + 1);
    assert !IsDigit("A"[0]) && !IsDigit("B"[0]);
  }

  /** The id a slider task carries for an echoed id: empty stays empty, otherwise the
      string goes through int() and back; a string int() refuses yields no task. */
  function TaskId(fxId: string): Option<string> {
    if fxId == "" then Some("")
    else if ParseInt(fxId) == None then None
    else Some(Decimal(ParseInt(fxId).value))
  }

  /** The ids scans give to the blocks of every type but preamp come through unchanged. */
  lemma TaskIdOfScanId(fxType: string, count: nat, i: nat)
    requires fxType != "preamp"
    ensures TaskId(ScanId(fxType, count, i)) == Some(ScanId(fxType, count, i))
  {
    DecimalRoundTrip(i + 1);
  }

  /** The ids themselves: none for the only block of a type, letters for the first two of
      several preamps, and otherwise numbers from one. */
  lemma ScanIdIs(fxType: string, count: nat, i: nat)
    ensures count == 1 ==> ScanId(fxType, count, i) == ""
    ensures count != 1 && fxType == "preamp" && i < 2 ==> ScanId(fxType, count, i) == if i == 0 then "A" else "B"
    ensures count != 1 && !(fxType == "preamp" && i < 2) ==> ParseInt(ScanId(fxType, count, i)) == Some(i + 1)
  {
    DecimalRoundTrip(i + 1);
  }

  /** A task carries no id for none, the number for one that is a number, and there is no task
      for any other. */
  lemma TaskIdIs(fxId: string)
    ensures TaskId("") == Some("")
    ensures fxId != "" && (forall i | 0 <= i < |fxId| :: IsDigit(fxId[i])) ==>
              TaskId(fxId).Some? && ParseInt(TaskId(fxId).value) == Some(Value(fxId))
    ensures (exists i :: 0 <= i < |fxId| && !IsDigit(fxId[i])) ==> TaskId(fxId) == None
  {
    if fxId != "" && forall i | 0 <= i < |fxId| :: IsDigit(fxId[i]) {
      DecimalRoundTrip(Value(fxId));
    }
  }
}
