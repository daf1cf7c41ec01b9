/** Little-endian records: the byte format of everything the runtime writes to disk. */
module Wire {
  import opened Arithmetic

  type Byte = b: nat | b < 256

  function Limit(width: nat): nat { if width == 0 then 1 else 256 * Limit(width - 1) }

  function Encode(width: nat, value: nat): (bytes: seq<Byte>)
    ensures |bytes| == width
  {
    if width == 0 then [] else [value % 256] + Encode(width - 1, value / 256)
  }

  function Decode(bytes: seq<Byte>): nat {
    if bytes == [] then 0 else bytes[0] + 256 * Decode(bytes[1..])
  }

  lemma {:induction false} DecodeEncode(width: nat, value: nat)
    requires value < Limit(width)
    ensures Decode(Encode(width, value)) == value
  {
    if width > 0 {
      DecodeEncode(width - 1, value / 256);
      assert Encode(width, value)[1..] == Encode(width - 1, value / 256);
    }
  }

  /** The least significant byte comes first. */
  lemma {:induction false} ByteOfNumber(width: nat, value: nat, i: nat)
    requires i < width
    ensures Limit(i) > 0 && Encode(width, value)[i] == value / Limit(i) % 256
    decreases i
  {
    if i > 0 {
      ByteOfNumber(width - 1, value / 256, i - 1);
      DivideTwice(value, Limit(i - 1));
    }
  }

  lemma DivideTwice(value: nat, b: nat)
    requires b > 0
    ensures value / 256 / b == value / (256 * b)
  {
    var q, r := value / 256 / b, value / 256 % b;
    assert value / 256 == q * b + r;
    var low := value % 256 + 256 * r;
    assert value == q * (256 * b) + low && low < 256 * b;
    Digit(q, low, 256 * b);
  }

  function Total(widths: seq<nat>): nat {
    if widths == [] then 0 else widths[0] + Total(widths[1..])
  }

  /** A struct without padding: its fields one after the other. */
  function EncodeFields(widths: seq<nat>, values: seq<nat>): (bytes: seq<Byte>)
    requires |widths| == |values|
    ensures |bytes| == Total(widths)
  {
    if widths == [] then [] else Encode(widths[0], values[0]) + EncodeFields(widths[1..], values[1..])
  }

  function DecodeFields(widths: seq<nat>, bytes: seq<Byte>): (values: seq<nat>)
    requires |bytes| == Total(widths)
    ensures |values| == |widths|
  {
    if widths == [] then [] else [Decode(bytes[..widths[0]])] + DecodeFields(widths[1..], bytes[widths[0]..])
  }

  /** Field `i` begins where the fields before it end. */
  lemma {:induction false} FieldAt(widths: seq<nat>, values: seq<nat>, i: nat, at: nat)
    requires |widths| == |values| && i < |widths| && at == Total(widths[..i])
    ensures at + widths[i] <= |EncodeFields(widths, values)|
    ensures EncodeFields(widths, values)[at..at + widths[i]] == Encode(widths[i], values[i])
    decreases i
  {
    var first, rest := Encode(widths[0], values[0]), EncodeFields(widths[1..], values[1..]);
    if i > 0 {
      assert widths[..i][0] == widths[0] && widths[..i][1..] == widths[1..][..i - 1];
      FieldAt(widths[1..], values[1..], i - 1, at - widths[0]);
      assert (first + rest)[at..at + widths[i]] == rest[at - widths[0]..at - widths[0] + widths[i]];
    }
  }

  predicate Fit(widths: seq<nat>, values: seq<nat>) {
    |widths| == |values| && forall i :: 0 <= i < |widths| ==> values[i] < Limit(widths[i])
  }

  lemma {:induction false} DecodeEncodeFields(widths: seq<nat>, values: seq<nat>)
    requires Fit(widths, values)
    ensures DecodeFields(widths, EncodeFields(widths, values)) == values
  {
    if widths != [] {
      var bytes := EncodeFields(widths, values);
      DecodeEncode(widths[0], values[0]);
      assert bytes[..widths[0]] == Encode(widths[0], values[0]);
      assert bytes[widths[0]..] == EncodeFields(widths[1..], values[1..]);
      assert forall i :: 0 <= i < |widths| - 1 ==> values[1..][i] == values[i + 1] && widths[1..][i] == widths[i + 1];
      DecodeEncodeFields(widths[1..], values[1..]);
    }
  }

  /** Two's complement of a 32-bit integer. */
  function Unsigned(v: int): nat
    requires -0x8000_0000 <= v < 0x8000_0000
  {
    if v < 0 then v + 0x1_0000_0000 else v
  }

  function Signed(u: nat): int {
    if u < 0x8000_0000 then u else u - 0x1_0000_0000
  }

  predicate Int32(v: int) { -0x8000_0000 <= v < 0x8000_0000 }

  predicate Int32s(vs: seq<int>) { forall i :: 0 <= i < |vs| ==> Int32(vs[i]) }

  function EncodeInts(vs: seq<int>): (bytes: seq<Byte>)
    requires Int32s(vs)
    ensures |bytes| == 4 * |vs|
  {
    if vs == [] then [] else Encode(4, Unsigned(vs[0])) + EncodeInts(vs[1..])
  }

  function DecodeInts(bytes: seq<Byte>, count: nat): (vs: seq<int>)
    requires |bytes| == 4 * count
    ensures |vs| == count
  {
    if count == 0 then [] else [Signed(Decode(bytes[..4]))] + DecodeInts(bytes[4..], count - 1)
  }

  lemma {:induction false} DecodeEncodeInts(vs: seq<int>)
    requires Int32s(vs)
    ensures DecodeInts(EncodeInts(vs), |vs|) == vs
  {
    if vs != [] {
      var bytes := EncodeInts(vs);
      assert Limit(4) == 0x1_0000_0000 by {
        assert Limit(1) == 256 && Limit(2) == 65536 && Limit(3) == 16777216;
      }
      DecodeEncode(4, Unsigned(vs[0]));
      assert bytes[..4] == Encode(4, Unsigned(vs[0]));
      assert bytes[4..] == EncodeInts(vs[1..]);
      DecodeEncodeInts(vs[1..]);
    }
  }
}
