/** Scanline conversion (libretro.c, `ScanlineRenderedCallback_16Bit` and
    `ScanlineRenderedCallback_32Bit`). Both loops are the same table lookup
    over a pixel type of a different width, so one generic method models
    both: the 16-bit writer is `ConvertScanline<bv16>` over the palette's
    16-bit view, the 32-bit writer `ConvertScanline<bv32>` over its 32-bit view. */
module Scanline {

  /** What a writer needs from its caller: when any pixel is written, the
      source and destination rows reach `right`, and every source index in
      `[left, right)` names an entry of the 192-entry table. */
  predicate CanConvert<T>(colours: seq<T>, source: seq<bv8>, dest: seq<T>, left: nat, right: nat)
  {
    left >= right ||
    (&& right <= |source| && right <= |dest|
     && forall i | left <= i < right :: source[i] as int < |colours|)
  }

  /** The writer loop: `dest[i] := colours[source[i]]` for `i` from `left`
      up to, but not including, `right`. */
  method ConvertScanline<T>(colours: seq<T>, source: seq<bv8>, dest: seq<T>, left: nat, right: nat)
    returns (out: seq<T>)
    requires CanConvert(colours, source, dest, left, right)
    ensures |out| == |dest|
    ensures forall i | 0 <= i < |out| && left <= i < right :: out[i] == colours[source[i]]
    ensures forall i | 0 <= i < |out| && !(left <= i < right) :: out[i] == dest[i]
    ensures left >= right ==> out == dest
  {
    out := dest;
    var i := left;
    while i < right
      invariant left <= i && (i <= right || i == left)
      invariant |out| == |dest|
      invariant forall k | 0 <= k < |out| && left <= k < i :: out[k] == colours[source[k]]
      invariant forall k | 0 <= k < |out| && !(left <= k < i) :: out[k] == dest[k]
    {
      out := out[i := colours[source[i]]];
      i := i + 1;
    }
  }
}
