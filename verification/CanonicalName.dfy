/** One name for a table that the specification lists under several: what all the names
    begin and end with, the varying middle dropped. */
module CanonicalName {

  predicate StartsWith(s: string, prefix: string) {
    prefix <= s
  }

  predicate EndsWith(s: string, suffix: string) {
    |suffix| <= |s| && s[|s| - |suffix|..] == suffix
  }

  predicate CommonPrefix(names: seq<string>, p: string) {
    forall n | n in names :: StartsWith(n, p)
  }

  predicate CommonSuffix(names: seq<string>, s: string) {
    forall n | n in names :: EndsWith(n, s)
  }

  /** A common prefix that every common prefix is a prefix of. */
  ghost predicate LongestPrefix(names: seq<string>, p: string) {
    CommonPrefix(names, p) && forall q | CommonPrefix(names, q) :: StartsWith(p, q)
  }

  ghost predicate LongestSuffix(names: seq<string>, s: string) {
    CommonSuffix(names, s) && forall q | CommonSuffix(names, q) :: EndsWith(s, q)
  }

  /** The length of the shortest name. */
  function Shortest(names: seq<string>): (m: nat)
    requires names != []
    ensures forall n | n in names :: m <= |n|
    ensures exists n | n in names :: |n| == m
  {
    if |names| == 1 then |names[0]|
    else
      var m := Shortest(names[1..]);
      if |names[0]| < m then |names[0]| else m
  }

  /** There is only one longest prefix and one longest suffix to speak of. */
  lemma LongestAreUnique(names: seq<string>, p: string, q: string, s: string, t: string)
    requires names != []
    requires LongestPrefix(names, p) && LongestPrefix(names, q) && LongestSuffix(names, s) && LongestSuffix(names, t)
    ensures p == q && s == t
  {
    assert StartsWith(p, q) && StartsWith(q, p);
    assert EndsWith(s, t) && EndsWith(t, s);
  }

  lemma PrefixOfOneMore(names: seq<string>, k: nat, q: string)
    requires k < |names|
    ensures CommonPrefix(names[..k + 1], q) <==> CommonPrefix(names[..k], q) && StartsWith(names[k], q)
  {
    assert names[k] in names[..k + 1];
    assert forall n :: n in names[..k + 1] <==> n in names[..k] || n == names[k];
  }

  lemma SuffixOfOneMore(names: seq<string>, k: nat, q: string)
    requires k < |names|
    ensures CommonSuffix(names[..k + 1], q) <==> CommonSuffix(names[..k], q) && EndsWith(names[k], q)
  {
    assert names[k] in names[..k + 1];
    assert forall n :: n in names[..k + 1] <==> n in names[..k] || n == names[k];
  }

  /** Cutting one character off a prefix that n does not share loses no prefix n shares. */
  lemma ShorterPrefix(prefix: string, n: string, q: string)
    requires !StartsWith(n, prefix)
    ensures prefix != ""
    ensures StartsWith(prefix, q) && StartsWith(n, q) ==> StartsWith(prefix[..|prefix| - 1], q)
  {
  }

  lemma ShorterSuffix(suffix: string, n: string, q: string)
    requires !EndsWith(n, suffix)
    ensures suffix != ""
    ensures EndsWith(suffix, q) && EndsWith(n, q) ==> EndsWith(suffix[1..], q)
  {
    assert EndsWith(n, "");
  }

  lemma SuffixTransitive(a: string, b: string, c: string)
    requires EndsWith(a, b) && EndsWith(b, c)
    ensures EndsWith(a, c)
  {
    assert a[|a| - |c|..] == a[|a| - |b|..][|b| - |c|..];
  }

  method CommonStart(names: seq<string>) returns (prefix: string)
    requires names != []
    ensures LongestPrefix(names, prefix)
  {
    prefix := names[0];
    assert names[0] in names[..1];
    for k := 1 to |names|
      invariant LongestPrefix(names[..k], prefix)
    {
      ghost var before := prefix;
      while !StartsWith(names[k], prefix)
        invariant StartsWith(before, prefix)
        invariant forall q | StartsWith(before, q) && StartsWith(names[k], q) :: StartsWith(prefix, q)
        decreases |prefix|
      {
        forall q | StartsWith(prefix, q) && StartsWith(names[k], q) ensures StartsWith(prefix[..|prefix| - 1], q) {
          ShorterPrefix(prefix, names[k], q);
        }
        ShorterPrefix(prefix, names[k], "");
        prefix := prefix[..|prefix| - 1];
      }
      PrefixExtends(names, k, before, prefix);
    }
    assert names[..|names|] == names;
  }

  lemma PrefixExtends(names: seq<string>, k: nat, before: string, prefix: string)
    requires k < |names| && LongestPrefix(names[..k], before)
    requires StartsWith(before, prefix) && StartsWith(names[k], prefix)
    requires forall q | StartsWith(before, q) && StartsWith(names[k], q) :: StartsWith(prefix, q)
    ensures LongestPrefix(names[..k + 1], prefix)
  {
    forall n | n in names[..k] ensures StartsWith(n, prefix) {
      assert StartsWith(n, before);
    }
    PrefixOfOneMore(names, k, prefix);
    forall q | CommonPrefix(names[..k + 1], q) ensures StartsWith(prefix, q) {
      PrefixOfOneMore(names, k, q);
    }
  }

  method CommonEnd(names: seq<string>) returns (suffix: string)
    requires names != []
    ensures LongestSuffix(names, suffix)
  {
    suffix := names[0];
    assert names[0] in names[..1] && EndsWith(names[0], suffix);
    for k := 1 to |names|
      invariant LongestSuffix(names[..k], suffix)
    {
      ghost var before := suffix;
      while !EndsWith(names[k], suffix)
        invariant EndsWith(before, suffix)
        invariant forall q | EndsWith(before, q) && EndsWith(names[k], q) :: EndsWith(suffix, q)
        decreases |suffix|
      {
        forall q | EndsWith(suffix, q) && EndsWith(names[k], q) ensures EndsWith(suffix[1..], q) {
          ShorterSuffix(suffix, names[k], q);
        }
        ShorterSuffix(suffix, names[k], "");
        SuffixTransitive(before, suffix, suffix[1..]);
        suffix := suffix[1..];
      }
      SuffixExtends(names, k, before, suffix);
    }
    assert names[..|names|] == names;
  }

  lemma SuffixExtends(names: seq<string>, k: nat, before: string, suffix: string)
    requires k < |names| && LongestSuffix(names[..k], before)
    requires EndsWith(before, suffix) && EndsWith(names[k], suffix)
    requires forall q | EndsWith(before, q) && EndsWith(names[k], q) :: EndsWith(suffix, q)
    ensures LongestSuffix(names[..k + 1], suffix)
  {
    forall n | n in names[..k] ensures EndsWith(n, suffix) {
      SuffixTransitive(n, before, suffix);
    }
    SuffixOfOneMore(names, k, suffix);
    forall q | CommonSuffix(names[..k + 1], q) ensures EndsWith(suffix, q) {
      SuffixOfOneMore(names, k, q);
    }
  }

  /** A single name passes through. Of several, the result is their longest common prefix
      and longest common suffix put together when both fit in the shortest name, and then
      every name is that prefix, a middle of its own, and that suffix; otherwise it is the
      prefix alone. */
  method Canonical(names: seq<string>) returns (name: string, ghost p: string, ghost s: string)
    requires names != []
    ensures LongestPrefix(names, p) && LongestSuffix(names, s)
    ensures |names| == 1 ==> name == names[0]
    ensures |names| > 1 && |p| + |s| <= Shortest(names) ==>
              && name == p + s
              && forall n | n in names :: n == p + n[|p|..|n| - |s|] + s
    ensures |names| > 1 && |p| + |s| > Shortest(names) ==> name == p
  {
    if |names| == 1 {
      p, s := names[0], names[0];
      assert names[0] in names && EndsWith(names[0], names[0]);
      return names[0], p, s;
    }
    var prefix := CommonStart(names);
    var suffix := CommonEnd(names);
    p, s := prefix, suffix;
    if |prefix| + |suffix| > Shortest(names) {
      suffix := "";
    } else {
      forall n | n in names ensures n == p + n[|p|..|n| - |s|] + s {
        assert StartsWith(n, p) && EndsWith(n, s) && |p| + |s| <= |n|;
      }
    }
    name := prefix + suffix;
  }
}
