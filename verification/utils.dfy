/**
 * lib/utils.ts: the class-name joiner `cn` and the two PCM16 helpers used by the
 * playground, `float32ToPcm16` (capture side) and `base64ToFloat32Array` (playback side).
 *
 * Samples are modelled as `real`. For a float32 input the products `s * 0x8000` and
 * `s * 0x7FFF` are exact in double precision, and `x / 32768` of a 16-bit integer is
 * exact in float32, so the only IEEE behaviour abstracted away is NaN and the infinities.
 */
module Utils {
  import opened Wrappers

  // ------------------------------------------------------------------
  // cn(...classes)
  // ------------------------------------------------------------------

  /** One argument of `cn`: a class name, or one of the falsy placeholders callers pass. */
  datatype ClassValue = Name(name: string) | False | Undefined | Null

  /** JavaScript truthiness of a `cn` argument: only a non-empty string is truthy. */
  predicate Truthy(v: ClassValue) {
    v.Name? && v.name != ""
  }

  /** `classes.filter(Boolean)`: the truthy names, in argument order. */
  function Kept(classes: seq<ClassValue>): (names: seq<string>)
    ensures |names| <= |classes|
    ensures forall k :: 0 <= k < |names| ==> names[k] != ""
    ensures names == [] <==> forall i :: 0 <= i < |classes| ==> !Truthy(classes[i])
  {
    if classes == [] then []
    else (if Truthy(classes[0]) then [classes[0].name] else []) + Kept(classes[1..])
  }

  /**
   * `Array.prototype.join(" ")`. With `JoinAppend` these cases fix the result on every
   * list: the parts in order, one space between neighbours.
   */
  function Join(parts: seq<string>): (s: string)
    ensures parts == [] ==> s == ""
    ensures |parts| == 1 ==> s == parts[0]
    ensures parts != [] ==> |s| >= |parts[0]|
  {
    if parts == [] then ""
    else if |parts| == 1 then parts[0]
    else parts[0] + " " + Join(parts[1..])
  }

  /** `cn`: the empty string exactly when every argument is falsy; a single argument passes through. */
  function Cn(classes: seq<ClassValue>): (s: string)
    ensures s == "" <==> forall i :: 0 <= i < |classes| ==> !Truthy(classes[i])
    ensures |classes| == 1 ==> s == (if Truthy(classes[0]) then classes[0].name else "")
  {
    Join(Kept(classes))
  }

  lemma {:induction false} KeptAppend(a: seq<ClassValue>, b: seq<ClassValue>)
    ensures Kept(a + b) == Kept(a) + Kept(b)
  {
    if a == [] {
      assert a + b == b;
    } else {
      assert (a + b)[1..] == a[1..] + b;
      KeptAppend(a[1..], b);
    }
  }

  lemma {:induction false} JoinAppend(a: seq<string>, b: seq<string>)
    ensures Join(a + b) == if a == [] then Join(b) else if b == [] then Join(a) else Join(a) + " " + Join(b)
  {
    if a == [] {
      assert a + b == b;
    } else if b == [] {
      assert a + b == a;
    } else if |a| == 1 {
      assert (a + b)[1..] == b;
    } else {
      assert (a + b)[1..] == a[1..] + b;
      JoinAppend(a[1..], b);
    }
  }

  /**
   * `cn` is compositional: the names of two argument lists, each filtered and joined,
   * are joined again by a single space, and an all-falsy side contributes nothing.
   * With the one-argument case of `Cn`'s contract this fixes `cn` on every input:
   * falsy arguments are dropped and the rest appear in argument order.
   */
  lemma {:induction false} CnAppend(a: seq<ClassValue>, b: seq<ClassValue>)
    ensures Cn(a + b) == if Cn(a) == "" then Cn(b) else if Cn(b) == "" then Cn(a) else Cn(a) + " " + Cn(b)
  {
    KeptAppend(a, b);
    JoinAppend(Kept(a), Kept(b));
  }

  // ------------------------------------------------------------------
  // Integer types of the typed arrays
  // ------------------------------------------------------------------

  /** An element of a `Uint8Array`. */
  type byte = x: int | 0 <= x < 0x100

  /** An element of an `Int16Array`. */
  type int16 = x: int | -0x8000 <= x < 0x8000

  // ------------------------------------------------------------------
  // float32ToPcm16
  // ------------------------------------------------------------------

  /** `Math.max(-1, Math.min(1, x))`. */
  function Clamp(x: real): (s: real)
    ensures -1.0 <= s <= 1.0
    ensures -1.0 <= x <= 1.0 ==> s == x
    ensures x >= 1.0 ==> s == 1.0
    ensures x <= -1.0 ==> s == -1.0
  {
    var m := if x < 1.0 then x else 1.0;
    if m > -1.0 then m else -1.0
  }

  /** Truncation toward zero, the rounding an `Int16Array` store applies. */
  function Trunc(v: real): (r: int)
    ensures 0.0 <= v ==> 0 <= r && r as real <= v < r as real + 1.0
    ensures v < 0.0 ==> r <= 0 && r as real - 1.0 < v <= r as real
  {
    if v >= 0.0 then v.Floor else -((-v).Floor)
  }

  /**
   * ECMAScript ToInt16 on a finite number, as done by a store into an `Int16Array`:
   * truncate toward zero, then wrap modulo 2^16 into the signed range.
   */
  function ToInt16(v: real): (r: int16)
    ensures (r - Trunc(v)) % 0x10000 == 0
    ensures -32768.0 <= v < 32768.0 ==> r == Trunc(v)
  {
    var m := Trunc(v) % 0x10000;
    if m >= 0x8000 then m - 0x10000 else m
  }

  /**
   * One sample of `float32ToPcm16`: clamp to [-1, 1], scale negatives by 0x8000 and the
   * rest by 0x7FFF, store into int16. The extremes map to the int16 extremes and the
   * sign of the input is kept.
   */
  function Pcm16Sample(x: real): (r: int16)
    ensures x >= 1.0 ==> r == 0x7FFF
    ensures x <= -1.0 ==> r == -0x8000
    ensures x < 0.0 ==> r <= 0
    ensures x >= 0.0 ==> r >= 0
  {
    var s := Clamp(x);
    ToInt16(if s < 0.0 then s * 32768.0 else s * 32767.0)
  }

  /** The store into the `Int16Array` never wraps: the clamped, scaled sample is only truncated. */
  lemma Pcm16SampleNeverWraps(x: real)
    ensures var s := Clamp(x);
      Pcm16Sample(x) == Trunc(if s < 0.0 then s * 32768.0 else s * 32767.0)
  {
  }

  /** The samples `float32ToPcm16` stores, index by index. */
  function Pcm16Samples(samples: seq<real>): (pcm: seq<int16>)
    ensures |pcm| == |samples|
  {
    seq(|samples|, i requires 0 <= i < |samples| => Pcm16Sample(samples[i]))
  }

  /** `float32ToPcm16`: fills a new `Int16Array` of the input's length, one sample per index. */
  method Float32ToPcm16(float32: seq<real>) returns (pcm16: array<int16>)
    ensures pcm16.Length == |float32|
    ensures forall i :: 0 <= i < |float32| ==> pcm16[i] == Pcm16Sample(float32[i])
  {
    var length := |float32|;
    pcm16 := new int16[length];
    for i := 0 to length
      invariant forall k :: 0 <= k < i ==> pcm16[k] == Pcm16Sample(float32[k])
    {
      pcm16[i] := Pcm16Sample(float32[i]);
    }
  }

  // ------------------------------------------------------------------
  // Byte views of PCM16 data (little-endian platform)
  // ------------------------------------------------------------------

  /** The two's-complement value of an int16 as an unsigned 16-bit number. */
  function Unsigned(x: int16): (u: int)
    ensures 0 <= u < 0x10000
    ensures (u - x) % 0x10000 == 0
  {
    if x < 0 then x + 0x10000 else x
  }

  function LowByte(x: int16): byte {
    Unsigned(x) % 0x100
  }

  function HighByte(x: int16): byte {
    Unsigned(x) / 0x100
  }

  /** The int16 whose little-endian bytes are `lo`, `hi`; it is the only one with those bytes. */
  function Int16LE(lo: byte, hi: byte): (x: int16)
    ensures LowByte(x) == lo && HighByte(x) == hi
  {
    var u := lo + 0x100 * hi;
    if u >= 0x8000 then u - 0x10000 else u
  }

  lemma Int16LEOfBytes(x: int16)
    ensures Int16LE(LowByte(x), HighByte(x)) == x
  {
  }

  /** `new Uint8Array(pcm16.buffer)`: two bytes per sample, low byte first. */
  function Pcm16Bytes(pcm16: seq<int16>): (bytes: seq<byte>)
    ensures |bytes| == 2 * |pcm16|
  {
    seq(2 * |pcm16|, k requires 0 <= k < 2 * |pcm16| =>
      if k % 2 == 0 then LowByte(pcm16[k / 2]) else HighByte(pcm16[k / 2]))
  }

  /** The error `new Int16Array(buffer)` throws for a buffer of odd length. */
  datatype ViewError = RangeError

  /** `new Int16Array(bytes.buffer)`: n bytes give n/2 samples; an odd length throws. */
  function Int16View(bytes: seq<byte>): (r: Result<seq<int16>, ViewError>)
    ensures r.Failure? <==> |bytes| % 2 == 1
    ensures r.Success? ==> |r.value| == |bytes| / 2
    ensures r.Success? ==> forall i :: 0 <= i < |r.value| ==> r.value[i] == Int16LE(bytes[2 * i], bytes[2 * i + 1])
  {
    if |bytes| % 2 == 1 then Failure(RangeError)
    else Success(seq(|bytes| / 2, i requires 0 <= i < |bytes| / 2 => Int16LE(bytes[2 * i], bytes[2 * i + 1])))
  }

  /** Viewing samples as bytes and the bytes again as samples gives the samples back. */
  lemma ViewOfPcm16Bytes(pcm16: seq<int16>)
    ensures Int16View(Pcm16Bytes(pcm16)) == Success(pcm16)
  {
    var bytes := Pcm16Bytes(pcm16);
    var r := Int16View(bytes);
    assert |bytes| % 2 == 0;
    forall i | 0 <= i < |pcm16|
      ensures r.value[i] == pcm16[i]
    {
      assert bytes[2 * i] == LowByte(pcm16[i]);
      assert bytes[2 * i + 1] == HighByte(pcm16[i]);
      Int16LEOfBytes(pcm16[i]);
    }
    assert r.value == pcm16;
  }

  /** Reassembling an even-length byte buffer into samples and viewing those as bytes gives the buffer back. */
  lemma Pcm16BytesOfView(bytes: seq<byte>)
    requires |bytes| % 2 == 0
    ensures Int16View(bytes).Success? && Pcm16Bytes(Int16View(bytes).value) == bytes
  {
    var pcm16 := Int16View(bytes).value;
    var back := Pcm16Bytes(pcm16);
    forall k | 0 <= k < |bytes|
      ensures back[k] == bytes[k]
    {
      var i := k / 2;
      if k % 2 == 0 {
        assert k == 2 * i;
      } else {
        assert k == 2 * i + 1;
      }
    }
  }

  // ------------------------------------------------------------------
  // base64ToFloat32Array, from the decoded bytes on
  // ------------------------------------------------------------------

  /** `pcm16[i] / 32768.0`: every decoded sample lies in [-1, 1). */
  function UnitSample(x: int16): (v: real)
    ensures -1.0 <= v < 1.0
    ensures v * 32768.0 == x as real
  {
    x as real / 32768.0
  }

  function UnitSamples(pcm16: seq<int16>): (float32: seq<real>)
    ensures |float32| == |pcm16|
  {
    seq(|pcm16|, i requires 0 <= i < |pcm16| => UnitSample(pcm16[i]))
  }

  /**
   * `base64ToFloat32Array` after `atob`: the decoded bytes are viewed as little-endian
   * int16 samples (an odd byte count throws RangeError) and each sample is divided by
   * 32768 into a new `Float32Array`.
   */
  method Base64ToFloat32Array(decoded: seq<byte>) returns (r: Result<array<real>, ViewError>)
    ensures r.Failure? <==> |decoded| % 2 == 1
    ensures r.Success? ==> r.value.Length == |decoded| / 2
    ensures r.Success? ==> forall i :: 0 <= i < r.value.Length ==>
      r.value[i] == UnitSample(Int16LE(decoded[2 * i], decoded[2 * i + 1]))
  {
    var view := Int16View(decoded);
    if view.Failure? {
      return Failure(view.error);
    }
    var pcm16 := view.value;
    var float32 := new real[|pcm16|];
    for i := 0 to |pcm16|
      invariant forall k :: 0 <= k < i ==> float32[k] == UnitSample(pcm16[k])
    {
      float32[i] := pcm16[i] as real / 32768.0;
    }
    return Success(float32);
  }

  // ------------------------------------------------------------------
  // The capture-to-playback round trip
  // ------------------------------------------------------------------

  /**
   * Decoding what encoding produced is within one quantisation step for negative
   * samples, which are scaled by 32768 both ways. Non-negative samples are scaled by
   * 32767 on the way out and by 1/32768 on the way back, so the decoded value is never
   * above the input and falls short of it by less than (x + 1)/32768.
   */
  lemma QuantisationError(x: real)
    requires -1.0 <= x <= 1.0
    ensures var d := UnitSample(Pcm16Sample(x));
      (x < 0.0 ==> x <= d < x + 1.0 / 32768.0) &&
      (0.0 <= x ==> d <= x < d + (x + 1.0) / 32768.0)
  {
    Pcm16SampleNeverWraps(x);
  }

  /** A non-negative sample for which the round trip misses by more than one step of 1/32768. */
  lemma QuantisationExceedsOneStep()
    ensures var x := 65533.0 / 65536.0;
      Pcm16Sample(x) == 32765 && x - UnitSample(Pcm16Sample(x)) > 1.0 / 32768.0
  {
    var x := 65533.0 / 65536.0;
    var v := x * 32767.0;
    assert 32765.0 <= v < 32766.0;
    assert Trunc(v) == 32765;
    Pcm16SampleNeverWraps(x);
  }

  /**
   * Samples encoded on the capture side, sent as bytes and decoded on the playback side
   * come back one for one, each less than one step of 1/32768 above the input and less
   * than two steps below it (the bounds of `QuantisationError`).
   */
  lemma CodecRoundTrip(samples: seq<real>)
    requires forall i :: 0 <= i < |samples| ==> -1.0 <= samples[i] <= 1.0
    ensures Int16View(Pcm16Bytes(Pcm16Samples(samples))) == Success(Pcm16Samples(samples))
    ensures forall i :: 0 <= i < |samples| ==>
      -2.0 / 32768.0 < UnitSamples(Pcm16Samples(samples))[i] - samples[i] < 1.0 / 32768.0
  {
    ViewOfPcm16Bytes(Pcm16Samples(samples));
    forall i | 0 <= i < |samples|
      ensures -2.0 / 32768.0 < UnitSamples(Pcm16Samples(samples))[i] - samples[i] < 1.0 / 32768.0
    {
      QuantisationError(samples[i]);
    }
  }
}
