/**
 * `preprocessImage` in the browser video panel: the canvas's RGBA bytes of a
 * `width` x `height` image (already stretched to the model's input size) are
 * rearranged into a planar, channel-first float tensor of `3 * width * height`
 * values in [0, 1]: all red values, then all green values, then all blue
 * values. The alpha byte of each pixel is skipped.
 *
 * The canvas itself (drawing and reading back the pixels) is not modelled:
 * the byte buffer is an input. Float32 rounding is not modelled.
 */
module VideoTensor {

  /** One byte of the canvas's RGBA buffer. */
  type Byte = b: int | 0 <= b < 256

  /** The input side used when the model does not declare one. */
  const DefaultSide: int := 640

  /**
   * `inputShape[inputShape.length - k] || 640` for k = 1 (width) and k = 2
   * (height): a missing shape, a read before the start of the shape and a
   * zero side all give 640.
   */
  function ModelSide(shape: seq<int>, k: nat): (side: int)
    requires k == 1 || k == 2
    ensures k <= |shape| && shape[|shape| - k] != 0 ==> side == shape[|shape| - k]
    ensures (k > |shape| || shape[|shape| - k] == 0) ==> side == DefaultSide
    ensures side != 0
  {
    if k <= |shape| && shape[|shape| - k] != 0 then shape[|shape| - k] else DefaultSide
  }

  /** Channel `c` (0 red, 1 green, 2 blue, 3 alpha) of pixel `p`, divided by 255. */
  function Level(data: seq<Byte>, p: nat, c: nat): real
    requires 4 * p + c < |data|
  {
    data[4 * p + c] as real / 255.0
  }

  /** Channel `c` of every pixel, scaled to [0, 1]. */
  function Plane(data: seq<Byte>, n: nat, c: nat): (r: seq<real>)
    requires |data| == 4 * n && c < 3
    ensures |r| == n
  {
    seq(n, p requires 0 <= p < n => Level(data, p, c))
  }

  /** The channel-first tensor: the red plane, then the green plane, then the blue plane. */
  function Chw(data: seq<Byte>, n: nat): (r: seq<real>)
    requires |data| == 4 * n
    ensures |r| == 3 * n
  {
    Plane(data, n, 0) + Plane(data, n, 1) + Plane(data, n, 2)
  }

  /** Where channel `c` of pixel `p` goes: `p`, `n + p` or `2 * n + p`. */
  function Slot(n: nat, c: nat, p: nat): nat
    requires c < 3
  {
    if c == 0 then p else if c == 1 then n + p else 2 * n + p
  }

  /**
   * The loop of `preprocessImage`: a fresh zero-filled tensor, then for every
   * fourth byte `i` (pixel `i / 4`) the red, green and blue bytes divided by
   * 255 are written to the three planes.
   */
  method PreprocessImage(data: seq<Byte>, width: nat, height: nat) returns (input: array<real>)
    requires |data| == 4 * (width * height)
    ensures fresh(input)
    ensures input[..] == Chw(data, width * height)
  {
    var n := width * height;
    assert |data| == 4 * n;
    input := new real[3 * n](_ => 0.0);
    var i := 0;
    ghost var k := 0;
    while i < |data|
      invariant i == 4 * k && 0 <= k <= n
      invariant input.Length == 3 * n
      invariant forall q :: 0 <= q < k ==> input[q] == Level(data, q, 0)
      invariant forall q :: 0 <= q < k ==> input[n + q] == Level(data, q, 1)
      invariant forall q :: 0 <= q < k ==> input[2 * n + q] == Level(data, q, 2)
    {
      var pixelIndex := i / 4;
      assert pixelIndex == k;
      WritePixel(data, n, pixelIndex, input);
      i := i + 4;
      k := k + 1;
    }
    assert k == n;
    ChwFromPlanes(data, n, input[..]);
  }

  /**
   * One iteration of that loop: the red, green and blue bytes of pixel `p`
   * divided by 255 go to slots `p`, `n + p` and `2 * n + p`; every other slot
   * keeps its value.
   */
  method WritePixel(data: seq<Byte>, n: nat, p: nat, input: array<real>)
    requires |data| == 4 * n && p < n && input.Length == 3 * n
    modifies input
    ensures input[p] == Level(data, p, 0)
    ensures input[n + p] == Level(data, p, 1)
    ensures input[2 * n + p] == Level(data, p, 2)
    ensures forall s :: 0 <= s < 3 * n && s != p && s != n + p && s != 2 * n + p ==>
      input[s] == old(input[s])
  {
    var i := 4 * p;
    var r := data[i] as real / 255.0;
    var g := data[i + 1] as real / 255.0;
    var b := data[i + 2] as real / 255.0;
    input[p] := r;
    input[n + p] := g;
    input[2 * n + p] := b;
  }

  /** A list of `3 * n` values that holds each pixel's three channels in their slots is the tensor. */
  lemma ChwFromPlanes(data: seq<Byte>, n: nat, out: seq<real>)
    requires |data| == 4 * n && |out| == 3 * n
    requires forall q :: 0 <= q < n ==> out[q] == Level(data, q, 0)
    requires forall q :: 0 <= q < n ==> out[n + q] == Level(data, q, 1)
    requires forall q :: 0 <= q < n ==> out[2 * n + q] == Level(data, q, 2)
    ensures out == Chw(data, n)
  {
    var t := Chw(data, n);
    forall s | 0 <= s < 3 * n ensures out[s] == t[s] {
      if s < n {
        assert t[s] == Plane(data, n, 0)[s];
      } else if s < 2 * n {
        assert t[s] == Plane(data, n, 1)[s - n];
      } else {
        assert t[s] == Plane(data, n, 2)[s - 2 * n];
      }
    }
  }

  /** Channel `c` of pixel `p` lands in slot `Slot(n, c, p)`, scaled by 1/255. */
  lemma ChwSlots(data: seq<Byte>, n: nat, c: nat, p: nat)
    requires |data| == 4 * n && c < 3 && p < n
    ensures Slot(n, c, p) < 3 * n
    ensures Chw(data, n)[Slot(n, c, p)] == data[4 * p + c] as real / 255.0
  {
    var t := Chw(data, n);
    if c == 0 {
      assert t[p] == Plane(data, n, 0)[p];
    } else if c == 1 {
      assert t[n + p] == Plane(data, n, 1)[p];
    } else {
      assert t[2 * n + p] == Plane(data, n, 2)[p];
    }
  }

  /** No slot receives two values: distinct (channel, pixel) pairs have distinct slots. */
  lemma SlotsDistinct(n: nat, c1: nat, p1: nat, c2: nat, p2: nat)
    requires c1 < 3 && c2 < 3 && p1 < n && p2 < n
    requires Slot(n, c1, p1) == Slot(n, c2, p2)
    ensures c1 == c2 && p1 == p2
  {
  }

  /** Every slot of the tensor receives a value: each slot is some channel of some pixel. */
  lemma SlotsCovered(n: nat, s: nat)
    requires s < 3 * n
    ensures exists c: nat, p: nat :: c < 3 && p < n && Slot(n, c, p) == s
  {
    if s < n {
      assert Slot(n, 0, s) == s;
    } else if s < 2 * n {
      assert Slot(n, 1, s - n) == s;
    } else {
      assert Slot(n, 2, s - 2 * n) == s;
    }
  }

  /** The alpha byte is never read: buffers that differ only in alpha give the same tensor. */
  lemma AlphaIgnored(data: seq<Byte>, other: seq<Byte>, n: nat)
    requires |data| == |other| == 4 * n
    requires forall i :: 0 <= i < 4 * n && i % 4 != 3 ==> data[i] == other[i]
    ensures Chw(data, n) == Chw(other, n)
  {
    forall c | 0 <= c < 3 ensures Plane(data, n, c) == Plane(other, n, c) {
      forall p | 0 <= p < n ensures Plane(data, n, c)[p] == Plane(other, n, c)[p] {
        assert (4 * p + c) % 4 == c;
      }
    }
  }

  /** Every value of the tensor lies in [0, 1]. */
  lemma ChwInUnitRange(data: seq<Byte>, n: nat)
    requires |data| == 4 * n
    ensures forall s :: 0 <= s < 3 * n ==> 0.0 <= Chw(data, n)[s] <= 1.0
  {
    var t := Chw(data, n);
    forall s | 0 <= s < 3 * n ensures 0.0 <= t[s] <= 1.0 {
      var c := if s < n then 0 else if s < 2 * n then 1 else 2;
      var p := s - Slot(n, c, 0);
      ChwSlots(data, n, c, p);
    }
  }
}
