/**
 * The pixel conversion of the extract route (src/app/api/extract/node/route.ts): an image's raw
 * bytes are copied into a fresh RGBA buffer of `4 * width * height` bytes, either as they are
 * (already RGBA) or as RGB triples, each widened with an opaque alpha byte.
 */
module Pixels {

  newtype byte = x: int | 0 <= x < 256

  /** Every RGB triple of `s` followed by an alpha byte of 255. */
  function Expand(s: seq<byte>): (r: seq<byte>)
    requires |s| % 3 == 0
    ensures 3 * |r| == 4 * |s|
  {
    if s == [] then []
    else Expand(s[..|s| - 3]) + [s[|s| - 3], s[|s| - 2], s[|s| - 1], 255]
  }

  /** Every RGBA quadruple of `t` with its alpha byte dropped. */
  function Strip(t: seq<byte>): (r: seq<byte>)
    requires |t| % 4 == 0
    ensures 4 * |r| == 3 * |t|
  {
    if t == [] then []
    else Strip(t[..|t| - 4]) + [t[|t| - 4], t[|t| - 3], t[|t| - 2]]
  }

  /** Pixel `k` keeps its three colour bytes and becomes opaque. */
  lemma {:induction false} ExpandAt(s: seq<byte>, k: nat)
    requires |s| % 3 == 0 && 3 * k < |s|
    ensures 4 * k + 3 < |Expand(s)|
    ensures Expand(s)[4 * k] == s[3 * k] && Expand(s)[4 * k + 1] == s[3 * k + 1]
    ensures Expand(s)[4 * k + 2] == s[3 * k + 2] && Expand(s)[4 * k + 3] == 255
  {
    var init := s[..|s| - 3];
    if 3 * k < |init| {
      ExpandAt(init, k);
      assert Expand(s)[..|Expand(init)|] == Expand(init);
    }
  }

  /** Dropping the alpha bytes gives back the RGB data: no colour byte is lost or moved. */
  lemma {:induction false} StripExpand(s: seq<byte>)
    requires |s| % 3 == 0
    ensures Strip(Expand(s)) == s
  {
    if s != [] {
      var init := s[..|s| - 3];
      var t := Expand(s);
      assert t[..|t| - 4] == Expand(init);
      StripExpand(init);
    }
  }

  /** `png.data` after the conversion: `src` itself when it has the buffer's length, `src`
      widened from RGB when it has three bytes per pixel, and the zeroed buffer otherwise. */
  function Rgba(src: seq<byte>, pixels: nat): (r: seq<byte>)
    ensures |r| == 4 * pixels
  {
    if |src| == 4 * pixels then src
    else if |src| == 3 * pixels then Expand(src)
    else seq(4 * pixels, j => 0)
  }

  /** Three bytes per pixel become four, the fourth fully opaque, and the colour bytes are
      exactly those of the source: the conversion from RGB is undone by dropping alpha. */
  lemma RgbaFromRgb(src: seq<byte>, pixels: nat)
    requires |src| == 3 * pixels
    ensures Strip(Rgba(src, pixels)) == src
    ensures forall k :: 0 <= k < pixels ==> Rgba(src, pixels)[4 * k + 3] == 255
  {
    StripExpand(src);
    forall k | 0 <= k < pixels
      ensures Rgba(src, pixels)[4 * k + 3] == 255
    {
      ExpandAt(src, k);
    }
  }

  /** Data in neither layout leaves the buffer as allocated, all zero. */
  lemma RgbaUnknownLayout(src: seq<byte>, pixels: nat)
    requires |src| != 4 * pixels && |src| != 3 * pixels
    ensures forall j :: 0 <= j < |Rgba(src, pixels)| ==> Rgba(src, pixels)[j] == 0
  {
  }

  /** `new PNG({ width, height })` followed by the copy or the RGB loop. */
  method FillPixels(src: seq<byte>, width: nat, height: nat) returns (data: array<byte>)
    ensures fresh(data)
    ensures data[..] == Rgba(src, width * height)
  {
    var pixels := width * height;
    data := new byte[4 * pixels](j => 0);
    if |src| == data.Length {
      CopyPixels(src, data);
    } else if |src| == 3 * pixels {
      WidenPixels(src, data, pixels);
    } else {
      assert data[..] == seq(4 * pixels, j => 0);
    }
  }

  /** `png.data.set(src)` */
  method CopyPixels(src: seq<byte>, data: array<byte>)
    requires |src| == data.Length
    modifies data
    ensures data[..] == src
  {
    for j := 0 to |src|
      invariant data[..j] == src[..j]
    {
      data[j] := src[j];
      assert data[..j + 1] == data[..j] + [data[j]];
    }
    assert data[..] == data[..|src|];
  }

  /** The loop with `p += 3, q += 4`: each RGB triple is written with alpha 255. */
  method WidenPixels(src: seq<byte>, data: array<byte>, ghost pixels: nat)
    requires |src| == 3 * pixels && data.Length == 4 * pixels
    modifies data
    ensures data[..] == Expand(src)
  {
    var p, q := 0, 0;
    ghost var k := 0;
    while p < |src|
      invariant k <= pixels && p == 3 * k && q == 4 * k
      invariant data[..q] == Expand(src[..p])
    {
      ghost var before := data[..q];
      data[q] := src[p];
      data[q + 1] := src[p + 1];
      data[q + 2] := src[p + 2];
      data[q + 3] := 255;
      assert src[..p + 3][..p] == src[..p];
      assert data[..q] == before;
      assert data[q..q + 4] == [src[p], src[p + 1], src[p + 2], 255];
      assert data[..q + 4] == data[..q] + data[q..q + 4];
      p, q, k := p + 3, q + 4, k + 1;
    }
    assert src[..p] == src && data[..] == data[..q];
  }
}
