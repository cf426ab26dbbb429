/** Values as bits, most significant first, and their repacking from one width to another. */
module Mnemonic {
  // ---- Bits, most significant first ----

  function Pow2(n: nat): (r: nat)
    ensures r > 0
  {
    if n == 0 then 1 else 2 * Pow2(n - 1)
  }

  function ToBits(v: nat, n: nat): (r: seq<bool>)
    ensures |r| == n
  {
    if n == 0 then [] else ToBits(v / 2, n - 1) + [v % 2 == 1]
  }

  function FromBits(b: seq<bool>): (r: nat)
    ensures r < Pow2(|b|)
  {
    if b == [] then 0 else 2 * FromBits(b[..|b| - 1]) + if b[|b| - 1] then 1 else 0
  }

  lemma {:induction false} FromToBits(v: nat, n: nat)
    requires v < Pow2(n)
    ensures FromBits(ToBits(v, n)) == v
  {
    if n > 0 {
      FromToBits(v / 2, n - 1);
      assert ToBits(v, n)[..n - 1] == ToBits(v / 2, n - 1);
    }
  }

  lemma {:induction false} ToFromBits(b: seq<bool>)
    ensures ToBits(FromBits(b), |b|) == b
  {
    if b != [] {
      var n := |b| - 1;
      ToFromBits(b[..n]);
      assert FromBits(b) / 2 == FromBits(b[..n]);
      assert b == b[..n] + [b[n]];
    }
  }

  /** `v >> k`. */
  function ShiftRight(v: nat, k: nat): nat {
    if k == 0 then v else ShiftRight(v / 2, k - 1)
  }

  /** The bit a shift and a mask pick out. */
  lemma {:induction false} BitByShift(v: nat, n: nat, k: nat)
    requires k < n
    ensures ToBits(v, n)[k] == (ShiftRight(v, n - 1 - k) % 2 == 1)
  {
    if k < n - 1 {
      BitByShift(v / 2, n - 1, k);
    }
  }

  // ---- Repacking ----

  function Times(n: nat, w: nat): nat {
    if n == 0 then 0 else w + Times(n - 1, w)
  }

  lemma {:induction false} TimesIsProduct(n: nat, w: nat)
    ensures Times(n, w) == n * w
  {
    if n > 0 {
      TimesIsProduct(n - 1, w);
      assert n * w == (n - 1) * w + w;
    }
  }

  /** All values written with `w` bits each, one after the other. */
  function Flatten(vs: seq<nat>, w: nat): (r: seq<bool>)
    ensures |r| == Times(|vs|, w)
  {
    if vs == [] then [] else ToBits(vs[0], w) + Flatten(vs[1..], w)
  }

  /** Every value fits in `w` bits. */
  predicate Below(vs: seq<nat>, w: nat) {
    forall i :: 0 <= i < |vs| ==> vs[i] < Pow2(w)
  }

  /** The bits cut into values of `w` bits. */
  function Unpack(bits: seq<bool>, w: nat): (r: seq<nat>)
    requires w > 0
    ensures Below(r, w)
  {
    if |bits| < w then [] else [FromBits(bits[..w])] + Unpack(bits[w..], w)
  }

  lemma {:induction false} FlattenSnoc(vs: seq<nat>, v: nat, w: nat)
    ensures Flatten(vs + [v], w) == Flatten(vs, w) + ToBits(v, w)
  {
    if vs == [] {
      assert [v][1..] == [];
    } else {
      FlattenSnoc(vs[1..], v, w);
      assert (vs + [v])[1..] == vs[1..] + [v];
    }
  }

  lemma {:induction false} UnpackFlatten(vs: seq<nat>, w: nat)
    requires w > 0 && Below(vs, w)
    ensures Unpack(Flatten(vs, w), w) == vs
  {
    if vs != [] {
      var bits := Flatten(vs, w);
      FromToBits(vs[0], w);
      UnpackFlatten(vs[1..], w);
      assert bits[..w] == ToBits(vs[0], w) && bits[w..] == Flatten(vs[1..], w);
    }
  }

  lemma {:induction false} FlattenUnpack(bits: seq<bool>, w: nat, n: nat)
    requires w > 0 && |bits| == Times(n, w)
    ensures |Unpack(bits, w)| == n && Flatten(Unpack(bits, w), w) == bits
    decreases n
  {
    if n > 0 {
      ToFromBits(bits[..w]);
      FlattenUnpack(bits[w..], w, n - 1);
      assert Unpack(bits, w)[1..] == Unpack(bits[w..], w);
      assert bits == bits[..w] + bits[w..];
    }
  }

  lemma {:induction false} UnpackSnoc(bits: seq<bool>, last: seq<bool>, w: nat, n: nat)
    requires w > 0 && |bits| == Times(n, w) && |last| == w
    ensures Unpack(bits + last, w) == Unpack(bits, w) + [FromBits(last)]
    decreases n
  {
    if n == 0 {
      assert bits + last == last && last[..w] == last;
      assert Unpack(last[w..], w) == [];
    } else {
      UnpackSnoc(bits[w..], last, w, n - 1);
      assert (bits + last)[..w] == bits[..w] && (bits + last)[w..] == bits[w..] + last;
    }
  }

  /** Writes one value at a position, by shift and mask. */
  method WriteValue(bits: array<bool>, at: nat, v: nat, w: nat)
    requires at + w <= bits.Length
    modifies bits
    ensures bits[..at] == old(bits[..at]) && bits[at..at + w] == ToBits(v, w)
  {
    for bit := 0 to w
      invariant bits[..at] == old(bits[..at]) && bits[at..at + bit] == ToBits(v, w)[..bit]
    {
      BitByShift(v, w, bit);
      bits[at + bit] := ShiftRight(v, w - 1 - bit) % 2 == 1;
      assert bits[at..at + bit + 1] == bits[at..at + bit] + [bits[at + bit]];
    }
  }

  /** Fills a bit array from the values. */
  method WriteBits(values: seq<nat>, w: nat) returns (bits: array<bool>)
    ensures fresh(bits) && bits[..] == Flatten(values, w)
  {
    bits := new bool[Times(|values|, w)];
    var at: nat := 0;
    for i := 0 to |values|
      invariant at + Times(|values| - i, w) == bits.Length
      invariant bits[..at] == Flatten(values[..i], w)
    {
      WriteValue(bits, at, values[i], w);
      FlattenSnoc(values[..i], values[i], w);
      assert values[..i + 1] == values[..i] + [values[i]];
      assert bits[..at + w] == bits[..at] + bits[at..at + w];
      at := at + w;
    }
    assert values[..|values|] == values;
    assert bits[..] == bits[..at];
  }

  /** Reads one value, setting one bit at a time. */
  method ReadValue(bits: array<bool>, at: nat, w: nat) returns (v: nat)
    requires at + w <= bits.Length
    ensures v == FromBits(bits[at..at + w])
  {
    v := 0;
    for bit := 0 to w
      invariant v == FromBits(bits[at..at + bit]) * Pow2(w - bit)
    {
      ghost var part := bits[at..at + bit];
      assert bits[at..at + bit + 1][..bit] == part;
      AddBit(FromBits(part), bits[at + bit], w - bit);
      if bits[at + bit] {
        v := v + Pow2(w - 1 - bit);
      }
    }
  }

  lemma AddBit(high: nat, bit: bool, left: nat)
    requires left > 0
    ensures (2 * high + if bit then 1 else 0) * Pow2(left - 1)
         == high * Pow2(left) + if bit then Pow2(left - 1) else 0
  {
    var d := Pow2(left - 1);
    assert (2 * high) * d == high * (2 * d);
  }

  /** Cuts a bit array into `count` values. */
  method ReadValues(bits: array<bool>, w: nat, count: nat) returns (values: seq<nat>)
    requires w > 0 && bits.Length == Times(count, w)
    ensures values == Unpack(bits[..], w)
  {
    values := [];
    var at: nat := 0;
    for i := 0 to count
      invariant at == Times(i, w) && at + Times(count - i, w) == bits.Length
      invariant values == Unpack(bits[..at], w)
    {
      var v := ReadValue(bits, at, w);
      UnpackSnoc(bits[..at], bits[at..at + w], w, i);
      assert bits[..at + w] == bits[..at] + bits[at..at + w];
      values := values + [v];
      at := at + w;
    }
    assert bits[..] == bits[..at];
  }
}
