/** Positional notation: big-endian byte strings, the minimal-length conversion addresses go
    through, and the 4-bit nibbles a wide value is spread over. */
module Positional {

  // ---- powers and division ---------------------------------------------------------------------

  function Pow(b: nat, e: nat): nat {
    if e == 0 then 1 else b * Pow(b, e - 1)
  }

  lemma {:induction false} PowPositive(b: nat, e: nat)
    requires b > 0
    ensures Pow(b, e) > 0
  {
    if e > 0 {
      PowPositive(b, e - 1);
    }
  }

  lemma MulAtLeast(d: int, k: int)
    requires d > 0 && k >= 1
    ensures d * k >= d
  {
  }

  lemma DivModUnique(x: int, d: int, q: int, r: int)
    requires d > 0 && 0 <= r < d && x == d * q + r
    ensures x / d == q && x % d == r
  {
    var k := x / d - q;
    assert d * k == r - x % d;
    if k >= 1 {
      MulAtLeast(d, k);
      assert false;
    } else if k <= -1 {
      MulAtLeast(d, -k);
      assert false;
    }
  }

  /** Dividing by b and then by m is dividing by b * m, and the remainders fit together. */
  lemma DivModInSteps(x: int, b: int, m: int)
    requires b > 0 && m > 0
    ensures b * m > 0
    ensures x / b / m == x / (b * m)
    ensures (x / b) % m * b + x % b == x % (b * m)
  {
    var q, r := x / b, x % b;
    var s, t := q / m, q % m;
    MulAtLeast(b, m);
    Regroup(b, m, s, t);
    assert b * t + r < b * m by {
      MulAtLeast(b, m - t);
      Regroup(b, 1, m - t, t);
    }
    assert 0 <= b * t by {
      if t > 0 {
        MulAtLeast(b, t);
      }
    }
    assert x == b * q + r && q == m * s + t;
    DivModUnique(x, b * m, s, b * t + r);
  }

  lemma Regroup(b: int, m: int, s: int, t: int)
    ensures b * (m * s + t) == (b * m) * s + b * t
  {
  }

  // ---- bytes -------------------------------------------------------------------------------------

  predicate IsBytes(s: seq<int>) {
    forall i | 0 <= i < |s| :: 0 <= s[i] < 256
  }

  /** int.from_bytes(value, "big") */
  function BytesToInt(s: seq<int>): int {
    if s == [] then 0 else BytesToInt(s[..|s| - 1]) * 256 + s[|s| - 1]
  }

  function BitLength(n: nat): nat {
    if n == 0 then 0 else 1 + BitLength(n / 2)
  }

  /** n.to_bytes(length, "big"), for an n that fits. */
  function ToBytes(n: nat, length: nat): (s: seq<int>)
    ensures |s| == length && IsBytes(s)
  {
    if length == 0 then [] else ToBytes(n / 256, length - 1) + [n % 256]
  }

  /** The bytes of an address: as many as its bits need, and none for zero. */
  function MinimalBytes(n: nat): seq<int> {
    ToBytes(n, (BitLength(n) + 7) / 8)
  }

  lemma BitLengthByByte(n: nat)
    ensures n >= 256 ==> BitLength(n) == BitLength(n / 256) + 8
    ensures 0 < n < 256 ==> 1 <= BitLength(n) <= 8
  {
    var a := n / 2;
    var b := a / 2;
    var c := b / 2;
    var d := c / 2;
    var e := d / 2;
    var f := e / 2;
    var g := f / 2;
    assert g / 2 == n / 256;
    assert BitLength(n) == if n == 0 then 0 else 1 + BitLength(a);
    assert BitLength(a) == if a == 0 then 0 else 1 + BitLength(b);
    assert BitLength(b) == if b == 0 then 0 else 1 + BitLength(c);
    assert BitLength(c) == if c == 0 then 0 else 1 + BitLength(d);
    assert BitLength(d) == if d == 0 then 0 else 1 + BitLength(e);
    assert BitLength(e) == if e == 0 then 0 else 1 + BitLength(f);
    assert BitLength(f) == if f == 0 then 0 else 1 + BitLength(g);
    assert BitLength(g) == if g == 0 then 0 else 1 + BitLength(g / 2);
  }

  lemma MinimalBytesStep(n: nat)
    ensures MinimalBytes(n) == if n == 0 then [] else MinimalBytes(n / 256) + [n % 256]
  {
    BitLengthByByte(n);
    if n >= 256 {
      assert (BitLength(n) + 7) / 8 == (BitLength(n / 256) + 7) / 8 + 1;
    } else if n > 0 {
      assert (BitLength(n) + 7) / 8 == 1;
      assert ToBytes(n, 1) == ToBytes(n / 256, 0) + [n % 256];
      assert MinimalBytes(0) == [];
    }
  }

  lemma {:induction false} BytesNonNegative(s: seq<int>)
    requires IsBytes(s)
    ensures BytesToInt(s) >= 0
    ensures s != [] && s[0] > 0 ==> BytesToInt(s) > 0
  {
    if s != [] {
      BytesNonNegative(s[..|s| - 1]);
    }
  }

  /** Minimal-length conversion undoes from_bytes on every byte string without a leading
      zero, and only on those; from_bytes undoes it always. */
  lemma {:induction false} MinimalBytesUndoes(s: seq<int>)
    requires IsBytes(s)
    ensures BytesToInt(s) >= 0
    ensures MinimalBytes(BytesToInt(s)) == s <==> s == [] || s[0] != 0
  {
    BytesNonNegative(s);
    MinimalBytesStep(BytesToInt(s));
    if s != [] {
      var init, last := s[..|s| - 1], s[|s| - 1];
      MinimalBytesUndoes(init);
      DivModUnique(BytesToInt(s), 256, BytesToInt(init), last);
      assert s == init + [last];
      if BytesToInt(s) > 0 {
        assert MinimalBytes(BytesToInt(s)) == MinimalBytes(BytesToInt(init)) + [last];
        assert MinimalBytes(BytesToInt(s)) == s <==> MinimalBytes(BytesToInt(init)) == init;
        if init == [] {
          assert s[0] == last != 0;
        }
      } else {
        assert MinimalBytes(BytesToInt(s)) == [];
        assert s[0] == 0 by {
          BytesNonNegative(s);
        }
      }
    }
  }

  lemma {:induction false} FromMinimalBytes(n: nat)
    ensures BytesToInt(MinimalBytes(n)) == n
  {
    MinimalBytesStep(n);
    if n > 0 {
      FromMinimalBytes(n / 256);
      var s := MinimalBytes(n);
      assert s[..|s| - 1] == MinimalBytes(n / 256);
    }
  }

  // ---- nibbles -----------------------------------------------------------------------------------

  /** `width` nibbles, most significant first; a shift by 4 bits is a division by 16. */
  function PackNibbles(value: int, width: nat): (nibbles: seq<int>)
    ensures |nibbles| == width
  {
    seq(width, i requires 0 <= i < width =>
      PowPositive(16, width - 1 - i); (value / Pow(16, width - 1 - i)) % 16)
  }

  /** What consecutive nibbles are worth together; bits above the fourth are ignored. */
  function Unpack(data: seq<int>): nat {
    if data == [] then 0 else Unpack(data[..|data| - 1]) * 16 + data[|data| - 1] % 16
  }

  method UnpackNibbles(data: seq<int>) returns (value: nat)
    ensures value == Unpack(data)
  {
    value := 0;
    for i := 0 to |data|
      invariant value == Unpack(data[..i])
    {
      assert data[..i + 1][..i] == data[..i];
      value := value * 16 + data[i] % 16;
    }
    assert data[..|data|] == data;
  }

  lemma PackStep(value: int, width: nat)
    requires width > 0
    ensures PackNibbles(value, width) == PackNibbles(value / 16, width - 1) + [value % 16]
  {
    forall i | 0 <= i < width
      ensures PackNibbles(value, width)[i] == (PackNibbles(value / 16, width - 1) + [value % 16])[i]
    {
      PowPositive(16, width - 1 - i);
      if i < width - 1 {
        PowPositive(16, width - 2 - i);
        DivModInSteps(value, 16, Pow(16, width - 2 - i));
      } else {
        assert Pow(16, 0) == 1;
      }
    }
  }

  /** Unpacking what was packed keeps exactly the digits that fit. */
  lemma {:induction false} UnpackPack(value: int, width: nat)
    ensures Pow(16, width) > 0
    ensures Unpack(PackNibbles(value, width)) == value % Pow(16, width)
    decreases width
  {
    PowPositive(16, width);
    if width > 0 {
      var nibbles := PackNibbles(value, width);
      PackStep(value, width);
      assert nibbles[..width - 1] == PackNibbles(value / 16, width - 1) && nibbles[width - 1] == value % 16;
      UnpackPack(value / 16, width - 1);
      DivModInSteps(value, 16, Pow(16, width - 1));
      assert Unpack(nibbles) == Unpack(nibbles[..width - 1]) * 16 + value % 16;
    }
  }

  /** Packing what was unpacked, at the same width, keeps each byte's low nibble. */
  lemma {:induction false} PackUnpack(data: seq<int>)
    ensures PackNibbles(Unpack(data), |data|) == seq(|data|, i requires 0 <= i < |data| => data[i] % 16)
  {
    if data != [] {
      var init, last := data[..|data| - 1], data[|data| - 1];
      PackUnpack(init);
      PackStep(Unpack(data), |data|);
      DivModUnique(Unpack(data), 16, Unpack(init), last % 16);
    }
  }

  /** The parts of a nibble string weigh as their places say. */
  lemma {:induction false} UnpackAppend(a: seq<int>, b: seq<int>)
    ensures Unpack(a + b) == Unpack(a) * Pow(16, |b|) + Unpack(b)
    decreases |b|
  {
    if b == [] {
      assert a + b == a;
    } else {
      var init := b[..|b| - 1];
      UnpackAppend(a, init);
      assert (a + b)[..|a + b| - 1] == a + init;
      assert (Unpack(a) * Pow(16, |init|)) * 16 == Unpack(a) * (16 * Pow(16, |init|));
    }
  }
}
