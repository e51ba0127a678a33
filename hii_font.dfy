/**
 * HIIAddRussianFont: CreateSimpleFontPkg builds a Simple Fonts package
 * (EFI_HII_SIMPLE_FONT_PACKAGE_HDR, then the narrow glyphs, then the wide
 * glyphs) behind the UINT32 length prefix that HiiAddPackages expects of
 * each package it is given.
 *
 * Layout of the allocation (all fields little-endian, packed):
 *   0   UINT32  PackageLen (the whole allocation)
 *   4   UINT24  Header.Length = PackageLen - 4
 *   7   UINT8   Header.Type = EFI_HII_PACKAGE_SIMPLE_FONTS
 *   8   UINT16  NumberOfNarrowGlyphs
 *   10  UINT16  NumberOfWideGlyphs
 *   12  narrow glyph bytes, then wide glyph bytes
 */
module HiiFont {
  import opened Efi
  import opened Buffers
  import HiiPackages

  /** sizeof (EFI_HII_SIMPLE_FONT_PACKAGE_HDR): the package header and the two counts. */
  const SIMPLE_FONT_HEADER_SIZE: nat := 8
  /** sizeof (EFI_NARROW_GLYPH): UnicodeWeight, Attributes, GlyphCol1[19]. */
  const NARROW_GLYPH_SIZE: nat := 22
  /** sizeof (EFI_WIDE_GLYPH): UnicodeWeight, Attributes, GlyphCol1[19], GlyphCol2[19], Pad[3]. */
  const WIDE_GLYPH_SIZE: nat := 44
  /** The UINT32 length in front of the package. */
  const PREFIX_SIZE: nat := 4
  /** Where the glyphs start: &SimpleFont->NumberOfWideGlyphs + 1. */
  const GLYPHS_OFFSET: nat := PREFIX_SIZE + SIMPLE_FONT_HEADER_SIZE

  /** PackageLen. It is computed in a UINT32; a sum that wraps would give a
      short allocation that the CopyMem calls overrun, so callers keep it
      below 2^32 (the glyph tables linked into the lesson are small). */
  function FontPackageSize(wide: seq<byte>, narrow: seq<byte>): nat
  {
    SIMPLE_FONT_HEADER_SIZE + |wide| + |narrow| + PREFIX_SIZE
  }

  /** The glyph counts, each truncated to UINT16 by its cast. */
  function NarrowCount(narrow: seq<byte>): u16
  {
    (|narrow| / NARROW_GLYPH_SIZE) % 0x1_0000
  }

  function WideCount(wide: seq<byte>): u16
  {
    (|wide| / WIDE_GLYPH_SIZE) % 0x1_0000
  }

  /** The first twelve bytes: the length prefix and the Simple Fonts header. */
  function FontHeader(wide: seq<byte>, narrow: seq<byte>): (r: seq<byte>)
    requires FontPackageSize(wide, narrow) < TWO_32
    ensures |r| == GLYPHS_OFFSET
  {
    var len := FontPackageSize(wide, narrow);
    LE32(len) + LE24((len - PREFIX_SIZE) % 0x100_0000) + [HiiPackages.EFI_HII_PACKAGE_SIMPLE_FONTS]
    + LE16(NarrowCount(narrow)) + LE16(WideCount(wide))
  }

  /** The bytes CreateSimpleFontPkg returns. */
  function FontPackage(wide: seq<byte>, narrow: seq<byte>): (r: seq<byte>)
    requires FontPackageSize(wide, narrow) < TWO_32
    ensures |r| == FontPackageSize(wide, narrow)
  {
    FontHeader(wide, narrow) + narrow + wide
  }

  /** CreateSimpleFontPkg: a zeroed allocation of PackageLen bytes, filled
      field by field and then by two CopyMem calls. */
  method CreateSimpleFontPkg(wide: seq<byte>, narrow: seq<byte>) returns (pkg: array<byte>)
    requires FontPackageSize(wide, narrow) < TWO_32
    ensures fresh(pkg)
    ensures pkg[..] == FontPackage(wide, narrow)
  {
    var len := FontPackageSize(wide, narrow);
    pkg := new byte[len](_ => 0);
    ghost var z := pkg[..];
    Put(pkg, 0, LE32(len));
    ghost var w0 := pkg[..];
    Put(pkg, 4, LE24((len - PREFIX_SIZE) % 0x100_0000));
    ghost var w1 := pkg[..];
    Put(pkg, 7, [HiiPackages.EFI_HII_PACKAGE_SIMPLE_FONTS]);
    ghost var w2 := pkg[..];
    Put(pkg, 8, LE16(NarrowCount(narrow)));
    ghost var w3 := pkg[..];
    Put(pkg, 10, LE16(WideCount(wide)));
    ghost var w4 := pkg[..];
    Put(pkg, GLYPHS_OFFSET, narrow);
    ghost var w5 := pkg[..];
    var at := GLYPHS_OFFSET + |narrow|;
    Put(pkg, at, wide);
    HeaderWrites(z, w0, w1, w2, w3, w4, wide, narrow);
    GlyphWrites(z, w4, w5, pkg[..], at, wide, narrow);
  }

  /** The five header stores leave the header at the start of the buffer. */
  lemma HeaderWrites(z: seq<byte>, w0: seq<byte>, w1: seq<byte>, w2: seq<byte>, w3: seq<byte>,
                     w4: seq<byte>, wide: seq<byte>, narrow: seq<byte>)
    requires FontPackageSize(wide, narrow) < TWO_32 && |z| == FontPackageSize(wide, narrow)
    requires w0 == Splice(z, 0, LE32(FontPackageSize(wide, narrow)))
    requires w1 == Splice(w0, 4, LE24((FontPackageSize(wide, narrow) - PREFIX_SIZE) % 0x100_0000))
    requires w2 == Splice(w1, 7, [HiiPackages.EFI_HII_PACKAGE_SIMPLE_FONTS])
    requires w3 == Splice(w2, 8, LE16(NarrowCount(narrow)))
    requires w4 == Splice(w3, 10, LE16(WideCount(wide)))
    ensures w4 == Splice(z, 0, FontHeader(wide, narrow))
  {
    var len := FontPackageSize(wide, narrow);
    var a := LE32(len);
    var b := LE24((len - PREFIX_SIZE) % 0x100_0000);
    var c: seq<byte> := [HiiPackages.EFI_HII_PACKAGE_SIMPLE_FONTS];
    var d := LE16(NarrowCount(narrow));
    var e := LE16(WideCount(wide));
    SpliceAppend(z, 0, a, 4, b);
    SpliceAppend(z, 0, a + b, 7, c);
    SpliceAppend(z, 0, a + b + c, 8, d);
    SpliceAppend(z, 0, a + b + c + d, 10, e);
  }

  /** The two CopyMem calls fill the rest of the buffer exactly. */
  lemma GlyphWrites(z: seq<byte>, w4: seq<byte>, w5: seq<byte>, w6: seq<byte>, at: nat,
                    wide: seq<byte>, narrow: seq<byte>)
    requires FontPackageSize(wide, narrow) < TWO_32 && |z| == FontPackageSize(wide, narrow)
    requires at == GLYPHS_OFFSET + |narrow|
    requires w4 == Splice(z, 0, FontHeader(wide, narrow))
    requires w5 == Splice(w4, GLYPHS_OFFSET, narrow)
    requires w6 == Splice(w5, at, wide)
    ensures w6 == FontPackage(wide, narrow)
  {
    var h := FontHeader(wide, narrow);
    SpliceAppend(z, 0, h, GLYPHS_OFFSET, narrow);
    SpliceAppend(z, 0, h + narrow, at, wide);
    SpliceWhole(z, h + narrow + wide);
  }

  // ---------------------------------------------------------------------
  // The package as the HII database reads it back

  /** The narrow and wide glyph bytes of a Simple Fonts package. */
  datatype Glyphs = Glyphs(narrow: seq<byte>, wide: seq<byte>)

  /** A Simple Fonts package `p` (from its header on) read back: the header
      must give its own length and the Simple Fonts type, and the glyph
      arrays its counts describe must lie inside it. */
  function ParseSimpleFont(p: seq<byte>): (r: Option<Glyphs>)
    ensures r.Some? ==>
      && |p| >= SIMPLE_FONT_HEADER_SIZE
      && U24At(p, 0) == |p| && p[3] == HiiPackages.EFI_HII_PACKAGE_SIMPLE_FONTS
      && |r.value.narrow| == NARROW_GLYPH_SIZE * U16At(p, 4)
      && |r.value.wide| == WIDE_GLYPH_SIZE * U16At(p, 6)
  {
    if |p| < SIMPLE_FONT_HEADER_SIZE || U24At(p, 0) != |p|
       || p[3] != HiiPackages.EFI_HII_PACKAGE_SIMPLE_FONTS then None
    else
      var n := NARROW_GLYPH_SIZE * U16At(p, 4);
      var w := WIDE_GLYPH_SIZE * U16At(p, 6);
      if SIMPLE_FONT_HEADER_SIZE + n + w > |p| then None
      else Some(Glyphs(p[8..8 + n], p[8 + n..8 + n + w]))
  }

  /** The package proper, behind the length prefix. */
  function SimpleFontPackage(wide: seq<byte>, narrow: seq<byte>): (r: seq<byte>)
    requires FontPackageSize(wide, narrow) < TWO_32
    ensures |r| == FontPackageSize(wide, narrow) - PREFIX_SIZE
  {
    LE24((FontPackageSize(wide, narrow) - PREFIX_SIZE) % 0x100_0000)
    + [HiiPackages.EFI_HII_PACKAGE_SIMPLE_FONTS]
    + LE16(NarrowCount(narrow)) + LE16(WideCount(wide)) + narrow + wide
  }

  /** The allocation is the length prefix followed by the package. */
  lemma PrefixedPackage(wide: seq<byte>, narrow: seq<byte>)
    requires FontPackageSize(wide, narrow) < TWO_32
    ensures FontPackage(wide, narrow)[PREFIX_SIZE..] == SimpleFontPackage(wide, narrow)
  {
    var len := FontPackageSize(wide, narrow);
    assert FontPackage(wide, narrow) == LE32(len) + SimpleFontPackage(wide, narrow);
  }

  /** The package behind the prefix reads back as the glyphs it was built
      from, when both tables hold whole glyphs, fewer than 2^16 of each, and
      the package length fits the 24-bit Length field. */
  lemma FontRoundTrip(wide: seq<byte>, narrow: seq<byte>)
    requires FontPackageSize(wide, narrow) - PREFIX_SIZE < 0x100_0000
    requires |narrow| % NARROW_GLYPH_SIZE == 0 && |narrow| / NARROW_GLYPH_SIZE < 0x1_0000
    requires |wide| % WIDE_GLYPH_SIZE == 0 && |wide| / WIDE_GLYPH_SIZE < 0x1_0000
    ensures ParseSimpleFont(FontPackage(wide, narrow)[PREFIX_SIZE..]) == Some(Glyphs(narrow, wide))
  {
    var len := FontPackageSize(wide, narrow) - PREFIX_SIZE;
    PrefixedPackage(wide, narrow);
    assert len % 0x100_0000 == len;
    WholeGlyphs(|narrow|, NARROW_GLYPH_SIZE);
    WholeGlyphs(|wide|, WIDE_GLYPH_SIZE);
    ParseParts(len, NarrowCount(narrow), WideCount(wide), narrow, wide);
  }

  /** A count of whole glyphs below 2^16 survives the UINT16 cast. */
  lemma WholeGlyphs(bytes: nat, size: nat)
    requires size > 0 && bytes % size == 0 && bytes / size < 0x1_0000
    ensures size * ((bytes / size) % 0x1_0000) == bytes
  {
  }

  /** Reading a package laid out as CreateSimpleFontPkg lays it out. */
  lemma ParseParts(len: u24, cn: u16, cw: u16, narrow: seq<byte>, wide: seq<byte>)
    requires NARROW_GLYPH_SIZE * cn == |narrow| && WIDE_GLYPH_SIZE * cw == |wide|
    requires len == SIMPLE_FONT_HEADER_SIZE + |narrow| + |wide|
    ensures ParseSimpleFont(LE24(len) + [HiiPackages.EFI_HII_PACKAGE_SIMPLE_FONTS]
              + LE16(cn) + LE16(cw) + narrow + wide) == Some(Glyphs(narrow, wide))
  {
    var p := LE24(len) + [HiiPackages.EFI_HII_PACKAGE_SIMPLE_FONTS] + LE16(cn) + LE16(cw) + narrow + wide;
    var n := |narrow|;
    assert p[0..3] == LE24(len);
    ReadLE24(p, 0, len);
    assert p[4..6] == LE16(cn);
    ReadLE16(p, 4, cn);
    assert p[6..8] == LE16(cw);
    ReadLE16(p, 6, cw);
    assert p[8..8 + n] == narrow;
    assert p[8 + n..8 + n + |wide|] == wide;
  }

  /** Every field CreateSimpleFontPkg stores, read back from its result. */
  lemma FontFields(wide: seq<byte>, narrow: seq<byte>)
    requires FontPackageSize(wide, narrow) < TWO_32
    ensures var pkg := FontPackage(wide, narrow);
      var len := FontPackageSize(wide, narrow);
      && U32At(pkg, 0) == len
      && U24At(pkg, 4) == (len - PREFIX_SIZE) % 0x100_0000
      && pkg[7] == HiiPackages.EFI_HII_PACKAGE_SIMPLE_FONTS
      && U16At(pkg, 8) == NarrowCount(narrow)
      && U16At(pkg, 10) == WideCount(wide)
      && pkg[GLYPHS_OFFSET..GLYPHS_OFFSET + |narrow|] == narrow
      && pkg[GLYPHS_OFFSET + |narrow|..] == wide
  {
    var pkg := FontPackage(wide, narrow);
    var len := FontPackageSize(wide, narrow);
    var b := LE24((len - PREFIX_SIZE) % 0x100_0000);
    var d := LE16(NarrowCount(narrow));
    var e := LE16(WideCount(wide));
    assert pkg == LE32(len) + b + [HiiPackages.EFI_HII_PACKAGE_SIMPLE_FONTS] + d + e + narrow + wide;
    assert pkg[0..4] == LE32(len);
    ReadLE32(pkg, 0, len);
    assert pkg[4..7] == b;
    ReadLE24(pkg, 4, (len - PREFIX_SIZE) % 0x100_0000);
    assert pkg[8..10] == d;
    ReadLE16(pkg, 8, NarrowCount(narrow));
    assert pkg[10..12] == e;
    ReadLE16(pkg, 10, WideCount(wide));
  }
}
