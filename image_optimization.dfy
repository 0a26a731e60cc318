/**
 * Responsive-image helpers: the `srcset` and `sizes` attributes for an
 * image published at four widths, the single-image URL, and the markup of
 * a `<picture>` element with a WebP source and a JPEG fallback.
 */
module ImageOptimization {
  import opened Text

  /** The widths an image is published at: mobile, tablet, desktop, full. */
  const Widths: seq<nat> := [640, 1024, 1920, 2560]

  /** The `sizes` attribute, the same for every image. */
  const SizesAttr := "(max-width: 640px) 100vw, (max-width: 1024px) 90vw, (max-width: 1920px) 80vw, 1920px"

  /** The format used when none is given. */
  const DefaultFormat := "jpg"

  /** What separates two entries in the `srcset` template. */
  const EntrySeparator := ",\n    "

  datatype ImageSrcSet = ImageSrcSet(srcSet: string, sizes: string)

  /** One candidate, `<base>-<w>.<format> <w>w`. */
  function Entry(base: string, w: nat, format: string): string {
    base + "-" + NatToString(w) + "." + format + " " + NatToString(w) + "w"
  }

  /** An entry's file name carries the width, and its descriptor is the
      width followed by `w`. */
  lemma EntryParts(base: string, w: nat, format: string)
    ensures var e := Entry(base, w, format); var d := NatToString(w);
      |e| == |base| + 1 + |d| + 1 + |format| + 1 + |d| + 1
      && e[..|base| + 1 + |d|] == base + "-" + d
      && e[|e| - |d| - 2] == ' ' && e[|e| - |d| - 1..|e| - 1] == d && e[|e| - 1] == 'w'
      && AllDigits(d) && ParseNat(d) == w
  {
    ParseNatToString(w);
    EntryShape(base, NatToString(w), format);
  }

  /** The same layout for any text `d` in place of the width. */
  lemma EntryShape(base: string, d: string, format: string)
    ensures var e := base + "-" + d + "." + format + " " + d + "w";
      |e| == |base| + 1 + |d| + 1 + |format| + 1 + |d| + 1
      && e[..|base| + 1 + |d|] == base + "-" + d
      && e[|e| - |d| - 2] == ' ' && e[|e| - |d| - 1..|e| - 1] == d && e[|e| - 1] == 'w'
  {
    var e := base + "-" + d + "." + format + " " + d + "w";
    var a := base + "-" + d;
    var b := "." + format + " ";
    assert e == a + b + (d + "w");
  }

  /** The four candidates, one per width, in increasing width. */
  function Entries(base: string, format: string): (es: seq<string>)
    ensures |es| == |Widths| == 4
    ensures forall i :: 0 <= i < |es| ==> es[i] == Entry(base, Widths[i], format)
  {
    [Entry(base, 640, format), Entry(base, 1024, format), Entry(base, 1920, format), Entry(base, 2560, format)]
  }

  /** The width descriptors increase from entry to entry. */
  lemma WidthsIncrease()
    ensures forall i, j :: 0 <= i < j < |Widths| ==> Widths[i] < Widths[j]
  {
  }

  /** The widths as they appear in the text. */
  lemma WidthDigits()
    ensures NatToString(640) == "640" && NatToString(1024) == "1024"
    ensures NatToString(1920) == "1920" && NatToString(2560) == "2560"
  {
    assert NatToString(64) == "64";
    assert NatToString(102) == "102";
    assert NatToString(192) == "192";
    assert NatToString(256) == "256";
  }

  /** The untrimmed template literal: one entry per line, indented. */
  function SrcSetTemplate(base: string, format: string): string {
    "\n    " + Entry(base, 640, format) + EntrySeparator + Entry(base, 1024, format)
    + EntrySeparator + Entry(base, 1920, format) + EntrySeparator + Entry(base, 2560, format) + "\n  "
  }

  /** `generateSrcSet(basePath, format = 'jpg')`; `None` stands for an
      omitted (or `undefined`) format. */
  function GenerateSrcSet(base: string, format: Option<string>): (r: ImageSrcSet)
    ensures var fmt := if format.None? then DefaultFormat else format.value;
      r.srcSet == TrimStart(Join(Entries(base, fmt), EntrySeparator))
    ensures r.sizes == SizesAttr
  {
    var fmt := if format.None? then DefaultFormat else format.value;
    SrcSetJoined(base, fmt);
    ImageSrcSet(Trim(SrcSetTemplate(base, fmt)), SizesAttr)
  }

  lemma JoinFour(es: seq<string>, sep: string)
    requires |es| == 4
    ensures Join(es, sep) == es[0] + sep + es[1] + sep + es[2] + sep + es[3]
  {
    var t2 := es[1..][1..];
    assert t2[0] == es[2] && t2[1..] == [es[3]];
    assert Join(t2, sep) == es[2] + sep + es[3];
    assert Join(es[1..], sep) == es[1] + sep + (es[2] + sep + es[3]);
  }

  /** Trimming the template leaves the entries joined by the separator,
      less any whitespace the base path itself starts with. */
  lemma SrcSetJoined(base: string, format: string)
    ensures Trim(SrcSetTemplate(base, format)) == TrimStart(Join(Entries(base, format), EntrySeparator))
  {
    var es := Entries(base, format);
    EntryShape(base, NatToString(2560), format);
    TemplateTrim(es, EntrySeparator);
  }

  /** Four texts, the last ending in a non-space, laid out one per line
      between blank indentation: trimming leaves them joined. */
  lemma TemplateTrim(es: seq<string>, sep: string)
    requires |es| == 4 && es[3] != [] && !IsSpace(es[3][|es[3]| - 1])
    ensures Trim("\n    " + es[0] + sep + es[1] + sep + es[2] + sep + es[3] + "\n  ")
         == TrimStart(Join(es, sep))
  {
    var j := Join(es, sep);
    JoinFour(es, sep);
    assert j[|j| - 1] == es[3][|es[3]| - 1];
    assert "\n    " + es[0] + sep + es[1] + sep + es[2] + sep + es[3] + "\n  " == "\n    " + j + "\n  ";
    TrimSurrounded("\n    ", j, "\n  ");
  }

  /** A base path that does not start with whitespace comes out verbatim:
      the `srcset` is exactly the four entries joined by the separator. */
  lemma SrcSetExact(base: string, format: Option<string>)
    requires base == [] || !IsSpace(base[0])
    ensures var fmt := if format.None? then DefaultFormat else format.value;
      GenerateSrcSet(base, format).srcSet == Join(Entries(base, fmt), EntrySeparator)
  {
    var fmt := if format.None? then DefaultFormat else format.value;
    var j := Join(Entries(base, fmt), EntrySeparator);
    assert j != [] && !IsSpace(j[0]) by {
      EntryStart(base, 640, fmt);
      JoinFirst(Entries(base, fmt), EntrySeparator);
    }
    TrimStartNoSpace(j);
  }

  /** An entry starts with the base path's first character, or with the
      dash when the base path is empty. */
  lemma EntryStart(base: string, w: nat, format: string)
    ensures Entry(base, w, format) != []
    ensures Entry(base, w, format)[0] == if base == [] then '-' else base[0]
  {
    var rest := "-" + NatToString(w) + "." + format + " " + NatToString(w) + "w";
    assert Entry(base, w, format) == base + rest;
  }

  /** A join of four texts starts where the first one does. */
  lemma JoinFirst(es: seq<string>, sep: string)
    requires |es| == 4 && es[0] != []
    ensures Join(es, sep) != [] && Join(es, sep)[0] == es[0][0]
  {
    JoinFour(es, sep);
  }

  /** Leaving the format out is the same as asking for `jpg`. */
  lemma DefaultIsJpg(base: string)
    ensures GenerateSrcSet(base, None) == GenerateSrcSet(base, Some("jpg"))
  {
  }

  /** `getOptimizedImageUrl`: the path is used as it is. */
  function GetOptimizedImageUrl(path: string): (url: string)
    ensures url == path
  {
    path
  }

  /** The two attributes that name the image files. */
  function SourceAttr(base: string): string { "srcset=\"" + base + ".webp\"" }
  function ImgAttr(base: string): string { "src=\"" + base + ".jpg\"" }

  /** The alt text and class attributes of the `<img>` tag. */
  function AltClass(alt: string, cls: string): string {
    " alt=\"" + alt + "\" class=\"" + cls + "\""
  }

  /** The markup up to the source's `srcset`. */
  const PictureStart := "\n    <picture>\n      <source "
  /** The markup between the source's `srcset` and the image's `src`. */
  const SourceEnd := " type=\"image/webp\">\n      <img "
  /** The rest of the `<img>` tag and the closing tag. */
  const PictureEnd := " loading=\"lazy\" decoding=\"async\">\n    </picture>\n  "

  /** `generatePictureHTML(basePath, alt, className?)`; a missing class
      name becomes the empty string. */
  function GeneratePictureHtml(base: string, alt: string, className: Option<string>): string {
    var cls := if className.None? then "" else className.value;
    PictureStart + SourceAttr(base) + SourceEnd + ImgAttr(base) + AltClass(alt, cls) + PictureEnd
  }

  /** The source is `<base>.webp` and the fallback image `<base>.jpg`; the
      alt text and the class follow, in that order. */
  lemma PictureSources(base: string, alt: string, className: Option<string>)
    ensures var html := GeneratePictureHtml(base, alt, className);
      var cls := if className.None? then "" else className.value;
      var img := 29 + |SourceAttr(base)| + 31;
      OccursAt(html, SourceAttr(base), 29)
      && OccursAt(html, ImgAttr(base), img)
      && OccursAt(html, AltClass(alt, cls), img + |ImgAttr(base)|)
  {
    var cls := if className.None? then "" else className.value;
    Occurrences(PictureStart, SourceAttr(base), SourceEnd, ImgAttr(base), AltClass(alt, cls), PictureEnd);
    assert |PictureStart| == 29 && |SourceEnd| == 31;
  }

  /** Where the second, fourth and fifth of six pieces sit in their
      concatenation. */
  lemma Occurrences(p: string, s: string, q: string, i: string, r: string, e: string)
    ensures OccursAt(p + s + q + i + r + e, s, |p|)
    ensures OccursAt(p + s + q + i + r + e, i, |p| + |s| + |q|)
    ensures OccursAt(p + s + q + i + r + e, r, |p| + |s| + |q| + |i|)
  {
    OccursAtEnd(p, s);
    OccursAtExtend(p + s, s, |p|, q);
    OccursAtExtend(p + s + q, s, |p|, i);
    OccursAtExtend(p + s + q + i, s, |p|, r);
    OccursAtExtend(p + s + q + i + r, s, |p|, e);
    OccursAtEnd(p + s + q, i);
    OccursAtExtend(p + s + q + i, i, |p| + |s| + |q|, r);
    OccursAtExtend(p + s + q + i + r, i, |p| + |s| + |q|, e);
    OccursAtEnd(p + s + q + i, r);
    OccursAtExtend(p + s + q + i + r, r, |p| + |s| + |q| + |i|, e);
  }

  /** Without a class name the class attribute is empty. */
  lemma PictureDefaultClass(base: string, alt: string)
    ensures GeneratePictureHtml(base, alt, None) == GeneratePictureHtml(base, alt, Some(""))
    ensures Contains(GeneratePictureHtml(base, alt, None), AltClass(alt, ""))
  {
    PictureSources(base, alt, None);
    var k := 29 + |SourceAttr(base)| + 31 + |ImgAttr(base)|;
    assert OccursAt(GeneratePictureHtml(base, alt, None), AltClass(alt, ""), k);
  }
}
