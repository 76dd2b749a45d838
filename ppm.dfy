/** The screenshot writer: a binary Netpbm (P6) image from the renderer's ARGB pixels.
    The file is modelled as the byte sequence written to it. */
module Ppm {
  import opened Common
  import opened Text

  predicate IsAscii(s: string)
  {
    forall k :: 0 <= k < |s| ==> s[k] as int < 0x80
  }

  /** The bytes of an ASCII string, as `operator<<` writes them. */
  function Ascii(s: string): (r: seq<byte>)
    requires IsAscii(s)
    ensures |r| == |s| && forall k :: 0 <= k < |s| ==> r[k] == s[k] as int
  {
    seq(|s|, k requires 0 <= k < |s| => s[k] as int)
  }

  /** The header `"P6 " + width + ' ' + height + " 255\n"`. */
  function Header(width: int, height: int): string
  {
    "P6 " + IntToString(width) + " " + IntToString(height) + " 255\n"
  }

  lemma HeaderIsAscii(width: int, height: int)
    ensures IsAscii(Header(width, height))
  {
    IntToStringIsAscii(width);
    IntToStringIsAscii(height);
  }

  lemma IntToStringIsAscii(n: int)
    ensures IsAscii(IntToString(n))
  {
    var s := IntToString(n);
    IntToStringDigits(n);
    forall k | 0 <= k < |s| ensures s[k] as int < 0x80 {
      if n < 0 && k == 0 {
      } else {
        assert n < 0 ==> s[k] == s[1..][k - 1];
      }
    }
  }

  /** A reader of the header: magic `P6`, width, height and maximum value as decimal
      numbers, one whitespace character, then the pixel data. Gives the three numbers and
      where the pixel data starts. */
  function ReadHeader(text: string): (r: Option<(int, int, int, int)>)
    ensures r.Some? ==> 0 <= r.value.3 <= |text|
  {
    if |text| < 2 || text[0] != 'P' || text[1] != '6' then None
    else
      var width := ReadInt(Stream(text, 2, false));
      var height := ReadInt(width.1);
      var maxval := ReadInt(height.1);
      var sep := Get(maxval.1);
      if width.0.Some? && height.0.Some? && maxval.0.Some? && sep.0.Some? && IsSpace(sep.0.value)
      then Some((width.0.value, height.0.value, maxval.0.value, sep.1.pos))
      else None
  }

  /** The header is read back as the dimensions it was written with, maximum value 255,
      and the pixel data starts right after it. */
  lemma HeaderRoundTrip(width: int, height: int, rest: string)
    ensures ReadHeader(Header(width, height) + rest) == Some((width, height, 255, |Header(width, height)|))
  {
    HeaderNumbers(Header(width, height) + rest, width, height, rest);
  }

  /** The three numbers of the header, each read where the one before it stopped. */
  lemma HeaderNumbers(t: string, width: int, height: int, rest: string)
    requires t == Header(width, height) + rest
    ensures ReadHeader(t) == Some((width, height, 255, |Header(width, height)|))
  {
    var a, b := 3 + |IntToString(width)|, 4 + |IntToString(width)| + |IntToString(height)|;
    HeaderLayout(t, width, height, rest);
    HeaderAt(t, width, height, a, b, |Header(width, height)|);
  }

  /** `ReadHeader` on a text whose header pieces have been located. */
  lemma HeaderAt(t: string, width: int, height: int, a: nat, b: nat, end: nat)
    requires a == 3 + |IntToString(width)| && b == a + 1 + |IntToString(height)| && end == b + 5 <= |t|
    requires t[0] == 'P' && t[1] == '6' && t[2] == ' ' && t[a] == ' ' && t[b] == ' ' && t[b + 4] == '\n'
    requires t[3..a] == IntToString(width) && t[a + 1..b] == IntToString(height) && t[b + 1..b + 4] == "255"
    ensures ReadHeader(t) == Some((width, height, 255, end as int))
  {
    HeaderReads(t, width, height, a, b);
    ReadHeaderSteps(t, width, height, a, b, b + 4, end);
  }

  /** The three numbers of a header whose pieces have been located, each read from the space
      before it. */
  lemma HeaderReads(t: string, width: int, height: int, a: nat, b: nat)
    requires a == 3 + |IntToString(width)| && b == a + 1 + |IntToString(height)| && b + 4 < |t|
    requires t[2] == ' ' && t[a] == ' ' && t[b] == ' ' && t[b + 4] == '\n'
    requires t[3..a] == IntToString(width) && t[a + 1..b] == IntToString(height) && t[b + 1..b + 4] == "255"
    ensures ReadInt(Stream(t, 2, false)) == (Some(width), Stream(t, a, false))
    ensures ReadInt(Stream(t, a, false)) == (Some(height), Stream(t, b, false))
    ensures ReadInt(Stream(t, b, false)) == (Some(255), Stream(t, b + 4, false))
  {
    NumberAfterSpace(t, 2, a, width);
    NumberAfterSpace(t, a, b, height);
    MaxValueAt(t, b);
  }

  /** A number written right after a space at `q`, and ended by a non-digit at `e`. */
  lemma NumberAfterSpace(t: string, q: nat, e: nat, n: int)
    requires e == q + 1 + |IntToString(n)| && e < |t|
    requires t[q] == ' ' && t[q + 1..e] == IntToString(n) && !IsDigit(t[e])
    ensures ReadInt(Stream(t, q, false)) == (Some(n), Stream(t, e, false))
  {
    ReadIntAt(t, q, q + 1, e, n);
  }

  /** The maximum colour value, read from the separator before it. */
  lemma MaxValueAt(t: string, b: nat)
    requires b + 4 < |t| && t[b] == ' ' && t[b + 1..b + 4] == "255" && t[b + 4] == '\n'
    ensures ReadInt(Stream(t, b, false)) == (Some(255), Stream(t, b + 4, false))
  {
    MaxValueText();
    NumberAfterSpace(t, b, b + 4, 255);
  }

  lemma MaxValueText()
    ensures IntToString(255) == "255"
  {
    assert NatToString(255) == NatToString(25) + ['5'];
    assert NatToString(25) == NatToString(2) + ['5'];
  }

  /** Where the pieces of the header lie in the text. */
  lemma HeaderLayout(t: string, width: int, height: int, rest: string)
    requires t == Header(width, height) + rest
    ensures var a, b := 3 + |IntToString(width)|, 4 + |IntToString(width)| + |IntToString(height)|;
      var c := b + 4;
      c + 1 == |Header(width, height)| && c < |t|
      && t[0] == 'P' && t[1] == '6' && t[2] == ' ' && t[a] == ' ' && t[b] == ' ' && t[c] == '\n'
      && t[3..a] == IntToString(width) && t[a + 1..b] == IntToString(height) && t[b + 1..c] == "255"
  {
    var w, h := IntToString(width), IntToString(height);
    assert t == "P6 " + w + " " + h + " 255\n" + rest;
  }

  /** `ReadHeader` on a text whose three numbers and separator have been located. */
  lemma ReadHeaderSteps(t: string, width: int, height: int, a: nat, b: nat, c: nat, end: nat)
    requires 2 <= a <= b <= c < |t| && end == c + 1 && t[0] == 'P' && t[1] == '6' && IsSpace(t[c])
    requires ReadInt(Stream(t, 2, false)) == (Some(width), Stream(t, a, false))
    requires ReadInt(Stream(t, a, false)) == (Some(height), Stream(t, b, false))
    requires ReadInt(Stream(t, b, false)) == (Some(255), Stream(t, c, false))
    ensures ReadHeader(t) == Some((width, height, 255, end as int))
  {
  }

  /** The three colour bytes of ARGB pixel `p`: bytes 1, 2 and 3 of its four. */
  function Colour(pixels: seq<byte>, p: nat): seq<byte>
    requires 4 * p + 4 <= |pixels|
  {
    pixels[4 * p + 1..4 * p + 4]
  }

  /** The `p`-th group of three bytes. */
  function Triple(bytes: seq<byte>, p: nat): seq<byte>
    requires 3 * p + 3 <= |bytes|
  {
    bytes[3 * p..3 * p + 3]
  }

  /** The colour bytes of ARGB pixels: each pixel's three colour bytes, in order, without
      its alpha byte. */
  function DropAlpha(pixels: seq<byte>): (r: seq<byte>)
    requires |pixels| % 4 == 0
    ensures |r| == 3 * (|pixels| / 4)
    ensures forall p: nat :: p < |pixels| / 4 ==> Triple(r, p) == Colour(pixels, p)
  {
    if pixels == [] then []
    else
      var n := |pixels| - 4;
      var front := DropAlpha(pixels[..n]);
      var r := front + pixels[n + 1..n + 4];
      assert |front| == 3 * (n / 4);
      forall p: nat | p < |pixels| / 4
        ensures Triple(r, p) == Colour(pixels, p)
      {
        if p < n / 4 {
          assert Triple(r, p) == Triple(front, p);
          assert Colour(pixels, p) == Colour(pixels[..n], p);
        }
      }
      r
  }

  /** `save_ppm`: the header, then for each 4-byte ARGB pixel its three colour bytes.
      The pixel vector must hold whole pixels, or the last write reads past its end. */
  method SavePpm(pixels: seq<byte>, width: int, height: int) returns (file: seq<byte>)
    requires |pixels| % 4 == 0
    ensures IsAscii(Header(width, height))
    ensures file == Ascii(Header(width, height)) + DropAlpha(pixels)
    ensures |file| == |Header(width, height)| + 3 * (|pixels| / 4)
  {
    HeaderIsAscii(width, height);
    file := Ascii(Header(width, height));
    var colours := ColourBytes(pixels);
    file := file + colours;
  }

  /** The pixel loop of `save_ppm`: bytes 1 to 3 of each pixel, appended in order. */
  method ColourBytes(pixels: seq<byte>) returns (bytes: seq<byte>)
    requires |pixels| % 4 == 0
    ensures bytes == DropAlpha(pixels)
  {
    bytes := [];
    var i := 0;
    while i < |pixels|
      invariant 0 <= i <= |pixels| && i % 4 == 0
      invariant bytes == DropAlpha(pixels[..i])
    {
      DropAlphaStep(pixels, i);
      bytes := bytes + pixels[i + 1..i + 4];
      i := i + 4;
    }
    assert pixels[..i] == pixels;
  }

  lemma DropAlphaStep(pixels: seq<byte>, i: nat)
    requires i % 4 == 0 && i + 4 <= |pixels|
    ensures DropAlpha(pixels[..i + 4]) == DropAlpha(pixels[..i]) + pixels[i + 1..i + 4]
  {
    assert pixels[..i + 4][..i] == pixels[..i];
    assert pixels[..i + 4][i + 1..i + 4] == pixels[i + 1..i + 4];
  }
}
