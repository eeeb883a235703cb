/**
 The index file: a header, the interned strings and four tables of fixed-width
 records, all numbers little endian. What is written reads back as it was, and
 a file cut short anywhere is refused.
 */
module IndexCodec {
  import opened IndexData

  type Bytes = seq<U8>

  // ---------------------------------------------------------------------
  // Numbers.
  // ---------------------------------------------------------------------

  function Pow(n: nat): (p: nat)
    ensures p > 0
  {
    if n == 0 then 1 else 256 * Pow(n - 1)
  }

  lemma PowIs()
    ensures Pow(1) == B8 && Pow(2) == B16 && Pow(4) == B32 && Pow(8) == B64
  {
    assert Pow(2) == 256 * Pow(1);
    assert Pow(3) == 256 * Pow(2);
    assert Pow(4) == 256 * Pow(3);
    assert Pow(5) == 256 * Pow(4);
    assert Pow(6) == 256 * Pow(5);
    assert Pow(7) == 256 * Pow(6);
    assert Pow(8) == 256 * Pow(7);
  }

  /** A number in n bytes, the lowest first. */
  function ToBytes(v: nat, n: nat): (b: Bytes)
    ensures |b| == n
  {
    if n == 0 then [] else [v % 256] + ToBytes(v / 256, n - 1)
  }

  function FromBytes(b: Bytes): (v: nat)
    ensures v < Pow(|b|)
  {
    if b == [] then 0 else b[0] + 256 * FromBytes(b[1..])
  }

  lemma {:induction false} NumberBack(v: nat, n: nat)
    requires v < Pow(n)
    ensures FromBytes(ToBytes(v, n)) == v
  {
    if n > 0 {
      assert v / 256 < Pow(n - 1);
      NumberBack(v / 256, n - 1);
      assert ToBytes(v, n)[1..] == ToBytes(v / 256, n - 1);
    }
  }

  /** A number stands in these bytes, the lowest first. */
  ghost predicate Stored(b: Bytes, at: nat, width: nat, v: nat) {
    at + width <= |b| && forall k :: 0 <= k < width ==> b[at + k] == v / Pow(k) % 256
  }

  lemma {:induction false} LowestFirst(v: nat, n: nat, k: nat)
    requires k < n
    ensures ToBytes(v, n)[k] == v / Pow(k) % 256
  {
    if k == 0 {
      assert Pow(0) == 1;
    } else {
      LowestFirst(v / 256, n - 1, k - 1);
      DividedOn(v, Pow(k - 1));
    }
  }

  lemma DividedOn(v: nat, p: nat)
    requires p > 0
    ensures v / 256 / p == v / (256 * p)
  {
    var q := v / 256 / p;
    var r := v - 256 * p * q;
    assert v == 256 * (v / 256) + v % 256 && v / 256 == p * q + v / 256 % p;
    assert r == 256 * (v / 256 % p) + v % 256;
    assert v == (256 * p) * q + r && 0 <= r < 256 * p;
    QuotientIs(v, 256 * p, q, r);
  }

  lemma QuotientIs(v: nat, d: nat, q: nat, r: nat)
    requires d > 0 && v == d * q + r && r < d
    ensures v / d == q
  {
    TimesMore(d, v / d + 1, q);
    TimesMore(d, q + 1, v / d);
  }

  lemma TimesMore(d: nat, x: nat, y: nat)
    ensures x <= y ==> d * x <= d * y
  {
  }

  // ---------------------------------------------------------------------
  // Fixed-width records.
  // ---------------------------------------------------------------------

  /** How many bytes fields of these widths take. */
  function Total(ws: seq<nat>): nat {
    if ws == [] then 0 else ws[0] + Total(ws[1..])
  }

  /** Each field fits its width. */
  predicate Fields(ws: seq<nat>, vs: seq<nat>) {
    |vs| == |ws| && forall i :: 0 <= i < |ws| ==> vs[i] < Pow(ws[i])
  }

  function Pack(ws: seq<nat>, vs: seq<nat>): (b: Bytes)
    requires |vs| == |ws|
    ensures |b| == Total(ws)
  {
    if ws == [] then [] else ToBytes(vs[0], ws[0]) + Pack(ws[1..], vs[1..])
  }

  function Unpack(ws: seq<nat>, b: Bytes): (vs: seq<nat>)
    requires |b| == Total(ws)
    ensures Fields(ws, vs)
  {
    if ws == [] then []
    else
      var rest := Unpack(ws[1..], b[ws[0]..]);
      assert forall i :: 0 < i < |ws| ==> ws[i] == ws[1..][i-1];
      [FromBytes(b[..ws[0]])] + rest
  }

  lemma {:induction false} FieldsBack(ws: seq<nat>, vs: seq<nat>)
    requires Fields(ws, vs)
    ensures Unpack(ws, Pack(ws, vs)) == vs
  {
    if ws != [] {
      assert vs[0] < Pow(ws[0]);
      NumberBack(vs[0], ws[0]);
      forall i | 0 <= i < |ws[1..]| ensures vs[1..][i] < Pow(ws[1..][i]) { assert vs[i+1] < Pow(ws[i+1]); }
      FieldsBack(ws[1..], vs[1..]);
      var b := Pack(ws, vs);
      assert b[..ws[0]] == ToBytes(vs[0], ws[0]) && b[ws[0]..] == Pack(ws[1..], vs[1..]);
      assert vs == [vs[0]] + vs[1..];
    }
  }

  function PackAll(ws: seq<nat>, rs: seq<seq<nat>>): (b: Bytes)
    requires forall k :: 0 <= k < |rs| ==> Fields(ws, rs[k])
  {
    if rs == [] then []
    else
      assert Fields(ws, rs[0]);
      Pack(ws, rs[0]) + PackAll(ws, rs[1..])
  }

  datatype Read<T> = Short | Got(value: T, rest: Bytes)

  function ReadAll(ws: seq<nat>, n: nat, d: Bytes): (r: Read<seq<seq<nat>>>)
    ensures r.Got? ==> |r.value| == n && forall k :: 0 <= k < n ==> Fields(ws, r.value[k])
  {
    if n == 0 then Got([], d)
    else if |d| < Total(ws) then Short
    else
      var r := ReadAll(ws, n - 1, d[Total(ws)..]);
      if r.Short? then Short else Got([Unpack(ws, d[..Total(ws)])] + r.value, r.rest)
  }

  /** A table: how many records there are, then the records. */
  function Table(ws: seq<nat>, rs: seq<seq<nat>>): Bytes
    requires forall k :: 0 <= k < |rs| ==> Fields(ws, rs[k])
  {
    ToBytes(|rs|, 4) + PackAll(ws, rs)
  }

  function ReadTable(ws: seq<nat>, d: Bytes): (r: Read<seq<seq<nat>>>)
    ensures r.Got? ==> forall k :: 0 <= k < |r.value| ==> Fields(ws, r.value[k])
  {
    if |d| < 4 then Short else ReadAll(ws, FromBytes(d[..4]), d[4..])
  }

  lemma {:induction false} AllBack(ws: seq<nat>, rs: seq<seq<nat>>, tail: Bytes)
    requires forall k :: 0 <= k < |rs| ==> Fields(ws, rs[k])
    ensures ReadAll(ws, |rs|, PackAll(ws, rs) + tail) == Got(rs, tail)
  {
    hide Unpack, Pack;
    if rs == [] {
      assert PackAll(ws, rs) + tail == tail;
    } else {
      assert Fields(ws, rs[0]);
      var d := PackAll(ws, rs) + tail;
      assert d[..Total(ws)] == Pack(ws, rs[0]) && d[Total(ws)..] == PackAll(ws, rs[1..]) + tail;
      FieldsBack(ws, rs[0]);
      AllBack(ws, rs[1..], tail);
      assert rs == [rs[0]] + rs[1..];
    }
  }

  lemma {:induction false} AllShort(ws: seq<nat>, rs: seq<seq<nat>>, x: Bytes)
    requires forall k :: 0 <= k < |rs| ==> Fields(ws, rs[k])
    requires x < PackAll(ws, rs)
    ensures ReadAll(ws, |rs|, x).Short?
  {
    hide Fields, Unpack, Pack;
    if |x| >= Total(ws) {
      assert x[Total(ws)..] < PackAll(ws, rs[1..]) by {
        assert PackAll(ws, rs[1..]) == PackAll(ws, rs)[Total(ws)..];
        assert x[Total(ws)..] == PackAll(ws, rs)[Total(ws)..][..|x| - Total(ws)];
      }
      AllShort(ws, rs[1..], x[Total(ws)..]);
    }
  }

  /** A proper prefix of two parts ends in the first or in the second. */
  lemma CutIn(a: Bytes, b: Bytes, x: Bytes)
    requires x < a + b
    ensures x < a || (a <= x && x[|a|..] < b)
  {
    if |x| < |a| {
      assert x == (a + b)[..|x|] == a[..|x|];
    } else {
      assert x == (a + b)[..|x|];
      assert x[..|a|] == a;
      assert x[|a|..] == (a + b)[|a|..][..|x| - |a|];
      assert (a + b)[|a|..] == b;
    }
  }

  lemma TableBack(ws: seq<nat>, rs: seq<seq<nat>>, tail: Bytes)
    requires |rs| < B32 && forall k :: 0 <= k < |rs| ==> Fields(ws, rs[k])
    ensures ReadTable(ws, Table(ws, rs) + tail) == Got(rs, tail)
  {
    hide Fields, PackAll, ReadAll;
    PowIs();
    NumberBack(|rs|, 4);
    var d := Table(ws, rs) + tail;
    assert d[..4] == ToBytes(|rs|, 4) && d[4..] == PackAll(ws, rs) + tail;
    AllBack(ws, rs, tail);
  }

  lemma TableShort(ws: seq<nat>, rs: seq<seq<nat>>, x: Bytes)
    requires |rs| < B32 && forall k :: 0 <= k < |rs| ==> Fields(ws, rs[k])
    requires x < Table(ws, rs)
    ensures ReadTable(ws, x).Short?
  {
    hide Fields, PackAll, ReadAll;
    PowIs();
    NumberBack(|rs|, 4);
    CutIn(ToBytes(|rs|, 4), PackAll(ws, rs), x);
    if |x| >= 4 {
      assert x[..4] == ToBytes(|rs|, 4);
      AllShort(ws, rs, x[4..]);
    }
  }

  // ---------------------------------------------------------------------
  // Strings.
  // ---------------------------------------------------------------------

  function PackStrings(ss: seq<Bytes>): Bytes {
    if ss == [] then [] else ToBytes(|ss[0]|, 4) + ss[0] + PackStrings(ss[1..])
  }

  function ReadStringsN(n: nat, d: Bytes): Read<seq<Bytes>> {
    if n == 0 then Got([], d)
    else if |d| < 4 then Short
    else
      var l := FromBytes(d[..4]);
      if |d| < 4 + l then Short
      else
        var r := ReadStringsN(n - 1, d[4 + l..]);
        if r.Short? then Short else Got([d[4..4 + l]] + r.value, r.rest)
  }

  function Strings(ss: seq<Bytes>): Bytes {
    ToBytes(|ss|, 4) + PackStrings(ss)
  }

  function ReadStrings(d: Bytes): Read<seq<Bytes>> {
    if |d| < 4 then Short else ReadStringsN(FromBytes(d[..4]), d[4..])
  }

  predicate ShortStrings(ss: seq<Bytes>) {
    |ss| < B32 && forall k :: 0 <= k < |ss| ==> |ss[k]| < B32
  }

  lemma {:induction false} StringsNBack(ss: seq<Bytes>, tail: Bytes)
    requires forall k :: 0 <= k < |ss| ==> |ss[k]| < B32
    ensures ReadStringsN(|ss|, PackStrings(ss) + tail) == Got(ss, tail)
  {
    hide ToBytes, FromBytes;
    if ss == [] {
      assert PackStrings(ss) + tail == tail;
    } else {
      var d, l := PackStrings(ss) + tail, |ss[0]|;
      PowIs();
      NumberBack(l, 4);
      ThreeParts(ToBytes(l, 4), ss[0], PackStrings(ss[1..]), tail);
      StringsNBack(ss[1..], tail);
      assert ss == [ss[0]] + ss[1..];
    }
  }

  lemma ThreeParts(a: Bytes, b: Bytes, c: Bytes, tail: Bytes)
    ensures var d := a + b + c + tail;
            d[..|a|] == a && d[|a|..|a| + |b|] == b && d[|a| + |b|..] == c + tail
  {
  }

  lemma {:induction false} StringsNShort(ss: seq<Bytes>, x: Bytes)
    requires forall k :: 0 <= k < |ss| ==> |ss[k]| < B32
    requires x < PackStrings(ss)
    ensures ReadStringsN(|ss|, x).Short?
  {
    hide ToBytes, FromBytes;
    var l := |ss[0]|;
    PowIs();
    NumberBack(l, 4);
    var head := ToBytes(l, 4) + ss[0];
    CutIn(head, PackStrings(ss[1..]), x);
    if |x| >= 4 {
      assert x[..4] == PackStrings(ss)[..4] == ToBytes(l, 4);
      if |x| >= 4 + l {
        assert x[4 + l..] < PackStrings(ss[1..]);
        StringsNShort(ss[1..], x[4 + l..]);
      }
    }
  }

  lemma StringsBack(ss: seq<Bytes>, tail: Bytes)
    requires ShortStrings(ss)
    ensures ReadStrings(Strings(ss) + tail) == Got(ss, tail)
  {
    hide ReadStringsN, PackStrings;
    PowIs();
    NumberBack(|ss|, 4);
    var d := Strings(ss) + tail;
    assert d[..4] == ToBytes(|ss|, 4) && d[4..] == PackStrings(ss) + tail;
    StringsNBack(ss, tail);
  }

  lemma StringsShort(ss: seq<Bytes>, x: Bytes)
    requires ShortStrings(ss) && x < Strings(ss)
    ensures ReadStrings(x).Short?
  {
    hide ReadStringsN, PackStrings;
    PowIs();
    NumberBack(|ss|, 4);
    CutIn(ToBytes(|ss|, 4), PackStrings(ss), x);
    if |x| >= 4 {
      assert x[..4] == ToBytes(|ss|, 4);
      StringsNShort(ss, x[4..]);
    }
  }
}
