/**
 * FfsFile: names of FFS section and file types, the walk over the sections
 * of a file read from a firmware volume (a 24-bit size in each
 * EFI_COMMON_SECTION_HEADER, the next section at the following 4-byte
 * boundary), the hexdump it prints, and the command line.
 */
module FfsFile {
  import opened Efi
  import CfgPrint

  // ---------------------------------------------------------------------
  // EFI_SECTION_TYPE values (PI Specification, volume 3)

  const EFI_SECTION_ALL: byte := 0x00
  const EFI_SECTION_COMPRESSION: byte := 0x01
  const EFI_SECTION_GUID_DEFINED: byte := 0x02
  const EFI_SECTION_DISPOSABLE: byte := 0x03
  const EFI_SECTION_PE32: byte := 0x10
  const EFI_SECTION_PIC: byte := 0x11
  const EFI_SECTION_TE: byte := 0x12
  const EFI_SECTION_DXE_DEPEX: byte := 0x13
  const EFI_SECTION_VERSION: byte := 0x14
  const EFI_SECTION_USER_INTERFACE: byte := 0x15
  const EFI_SECTION_COMPATIBILITY16: byte := 0x16
  const EFI_SECTION_FIRMWARE_VOLUME_IMAGE: byte := 0x17
  const EFI_SECTION_FREEFORM_SUBTYPE_GUID: byte := 0x18
  const EFI_SECTION_RAW: byte := 0x19
  const EFI_SECTION_PEI_DEPEX: byte := 0x1B
  const EFI_SECTION_MM_DEPEX: byte := 0x1C

  /** The sixteen section types SectionTypeString names. */
  const NamedSections: set<byte> := {
    EFI_SECTION_ALL, EFI_SECTION_COMPRESSION, EFI_SECTION_GUID_DEFINED, EFI_SECTION_DISPOSABLE,
    EFI_SECTION_PE32, EFI_SECTION_PIC, EFI_SECTION_TE, EFI_SECTION_DXE_DEPEX, EFI_SECTION_VERSION,
    EFI_SECTION_USER_INTERFACE, EFI_SECTION_COMPATIBILITY16, EFI_SECTION_FIRMWARE_VOLUME_IMAGE,
    EFI_SECTION_FREEFORM_SUBTYPE_GUID, EFI_SECTION_RAW, EFI_SECTION_PEI_DEPEX, EFI_SECTION_MM_DEPEX
  }

  function SectionTypeString(t: byte): (r: string)
    ensures r == "UNKNOWN" <==> t !in NamedSections
  {
    if t == EFI_SECTION_ALL then "ALL"
    else if t == EFI_SECTION_COMPRESSION then "COMPRESSION"
    else if t == EFI_SECTION_GUID_DEFINED then "GUID_DEFINED"
    else if t == EFI_SECTION_DISPOSABLE then "DISPOSABLE"
    else if t == EFI_SECTION_PE32 then "PE32"
    else if t == EFI_SECTION_PIC then "PIC"
    else if t == EFI_SECTION_TE then "TE"
    else if t == EFI_SECTION_DXE_DEPEX then "DXE_DEPEX"
    else if t == EFI_SECTION_VERSION then "VERSION"
    else if t == EFI_SECTION_USER_INTERFACE then "USER_INTERFACE"
    else if t == EFI_SECTION_COMPATIBILITY16 then "COMPATIBILITY16"
    else if t == EFI_SECTION_FIRMWARE_VOLUME_IMAGE then "FV_IMAGE"
    else if t == EFI_SECTION_FREEFORM_SUBTYPE_GUID then "SUBTYPE_GUID"
    else if t == EFI_SECTION_RAW then "RAW"
    else if t == EFI_SECTION_PEI_DEPEX then "PEI_DEPEX"
    else if t == EFI_SECTION_MM_DEPEX then "MM_DEPEX"
    else "UNKNOWN"
  }

  /** The <SectionType> argument: the printed names, except that
      COMPRESSION, GUID_DEFINED, USER_INTERFACE and COMPATIBILITY16 are
      spelt COMPRESS, GUIDED, UI and COMPAT16. */
  function SectionTypeOfName(name: string): (r: Option<byte>)
    ensures r.Some? ==> r.value in NamedSections
  {
    if name == "ALL" then Some(EFI_SECTION_ALL)
    else if name == "COMPRESS" then Some(EFI_SECTION_COMPRESSION)
    else if name == "GUIDED" then Some(EFI_SECTION_GUID_DEFINED)
    else if name == "DISPOSABLE" then Some(EFI_SECTION_DISPOSABLE)
    else if name == "PE32" then Some(EFI_SECTION_PE32)
    else if name == "PIC" then Some(EFI_SECTION_PIC)
    else if name == "TE" then Some(EFI_SECTION_TE)
    else if name == "DXE_DEPEX" then Some(EFI_SECTION_DXE_DEPEX)
    else if name == "VERSION" then Some(EFI_SECTION_VERSION)
    else if name == "UI" then Some(EFI_SECTION_USER_INTERFACE)
    else if name == "COMPAT16" then Some(EFI_SECTION_COMPATIBILITY16)
    else if name == "FV_IMAGE" then Some(EFI_SECTION_FIRMWARE_VOLUME_IMAGE)
    else if name == "SUBTYPE_GUID" then Some(EFI_SECTION_FREEFORM_SUBTYPE_GUID)
    else if name == "RAW" then Some(EFI_SECTION_RAW)
    else if name == "PEI_DEPEX" then Some(EFI_SECTION_PEI_DEPEX)
    else if name == "MM_DEPEX" then Some(EFI_SECTION_MM_DEPEX)
    else None
  }

  /** The argument spelling of a printed section name. */
  function ArgumentName(printed: string): string
  {
    if printed == "COMPRESSION" then "COMPRESS"
    else if printed == "GUID_DEFINED" then "GUIDED"
    else if printed == "USER_INTERFACE" then "UI"
    else if printed == "COMPATIBILITY16" then "COMPAT16"
    else printed
  }

  /** Every section type can be asked for by name: the argument spelling of
      its printed name selects exactly that type. */
  lemma SectionNamesRoundTrip(t: byte)
    requires t in NamedSections
    ensures SectionTypeOfName(ArgumentName(SectionTypeString(t))) == Some(t)
  {
    if t < EFI_SECTION_VERSION {
      SectionNamesLow(t);
    } else {
      SectionNamesHigh(t);
    }
  }

  lemma SectionNamesLow(t: byte)
    requires t in NamedSections && t < EFI_SECTION_VERSION
    ensures SectionTypeOfName(ArgumentName(SectionTypeString(t))) == Some(t)
  {
    if t == EFI_SECTION_ALL {
    } else if t == EFI_SECTION_COMPRESSION {
    } else if t == EFI_SECTION_GUID_DEFINED {
    } else if t == EFI_SECTION_DISPOSABLE {
    } else if t == EFI_SECTION_PE32 {
    } else if t == EFI_SECTION_PIC {
    } else if t == EFI_SECTION_TE {
    }
  }

  lemma SectionNamesHigh(t: byte)
    requires t in NamedSections && t >= EFI_SECTION_VERSION
    ensures SectionTypeOfName(ArgumentName(SectionTypeString(t))) == Some(t)
  {
    var printed := SectionTypeString(t);
    if t == EFI_SECTION_VERSION {
      assert printed == "VERSION";
    } else if t == EFI_SECTION_USER_INTERFACE {
      assert printed == "USER_INTERFACE";
    } else if t == EFI_SECTION_COMPATIBILITY16 {
      assert printed == "COMPATIBILITY16";
    } else if t == EFI_SECTION_FIRMWARE_VOLUME_IMAGE {
      assert printed == "FV_IMAGE";
    } else if t == EFI_SECTION_FREEFORM_SUBTYPE_GUID {
      assert printed == "SUBTYPE_GUID";
    } else if t == EFI_SECTION_RAW {
      assert printed == "RAW";
    } else if t == EFI_SECTION_PEI_DEPEX {
      assert printed == "PEI_DEPEX";
    } else {
      assert printed == "MM_DEPEX";
    }
  }

  /** Conversely, an accepted name is the argument spelling of the name
      printed for the type it selects. */
  lemma SectionArgumentsRoundTrip(name: string)
    requires SectionTypeOfName(name).Some?
    ensures ArgumentName(SectionTypeString(SectionTypeOfName(name).value)) == name
  {
    if name in {"ALL", "COMPRESS", "GUIDED", "DISPOSABLE", "PE32", "PIC", "TE", "DXE_DEPEX"} {
      SectionArgumentsLow(name);
    } else {
      SectionArgumentsHigh(name);
    }
  }

  lemma SectionArgumentsLow(name: string)
    requires name in {"ALL", "COMPRESS", "GUIDED", "DISPOSABLE", "PE32", "PIC", "TE", "DXE_DEPEX"}
    ensures SectionTypeOfName(name).Some?
    ensures ArgumentName(SectionTypeString(SectionTypeOfName(name).value)) == name
  {
    if name == "ALL" {
    } else if name == "COMPRESS" {
    } else if name == "GUIDED" {
    } else if name == "DISPOSABLE" {
    } else if name == "PE32" {
    } else if name == "PIC" {
    } else if name == "TE" {
    }
  }

  lemma SectionArgumentsHigh(name: string)
    requires SectionTypeOfName(name).Some?
    requires name !in {"ALL", "COMPRESS", "GUIDED", "DISPOSABLE", "PE32", "PIC", "TE", "DXE_DEPEX"}
    ensures ArgumentName(SectionTypeString(SectionTypeOfName(name).value)) == name
  {
    if name == "VERSION" {
    } else if name == "UI" {
    } else if name == "COMPAT16" {
    } else if name == "FV_IMAGE" {
    } else if name == "SUBTYPE_GUID" {
    } else if name == "RAW" {
    } else if name == "PEI_DEPEX" {
    }
  }

  // ---------------------------------------------------------------------
  // EFI_FV_FILETYPE values

  const EFI_FV_FILETYPE_RAW: byte := 0x01
  const EFI_FV_FILETYPE_FREEFORM: byte := 0x02
  const EFI_FV_FILETYPE_SECURITY_CORE: byte := 0x03
  const EFI_FV_FILETYPE_PEI_CORE: byte := 0x04
  const EFI_FV_FILETYPE_DXE_CORE: byte := 0x05
  const EFI_FV_FILETYPE_PEIM: byte := 0x06
  const EFI_FV_FILETYPE_DRIVER: byte := 0x07
  const EFI_FV_FILETYPE_COMBINED_PEIM_DRIVER: byte := 0x08
  const EFI_FV_FILETYPE_APPLICATION: byte := 0x09
  const EFI_FV_FILETYPE_MM: byte := 0x0A
  const EFI_FV_FILETYPE_FIRMWARE_VOLUME_IMAGE: byte := 0x0B
  const EFI_FV_FILETYPE_COMBINED_MM_DXE: byte := 0x0C
  const EFI_FV_FILETYPE_MM_CORE: byte := 0x0D
  const EFI_FV_FILETYPE_MM_STANDALONE: byte := 0x0E
  const EFI_FV_FILETYPE_MM_CORE_STANDALONE: byte := 0x0F
  const EFI_FV_FILETYPE_FFS_PAD: byte := 0xF0

  /** The names of the fifteen defined file types 0x01..0x0F, the OEM,
      DEBUG and FFS ranges, FFS_PAD, and UNKNOWN for the rest. */
  function FileTypeString(t: byte): (r: string)
    ensures r == "UNKNOWN" <==> t == 0x00 || 0x10 <= t < 0xC0
    ensures r == "OEM" <==> 0xC0 <= t <= 0xDF
    ensures r == "DEBUG" <==> 0xE0 <= t <= 0xEF
    ensures r == "FFS_PAD" <==> t == EFI_FV_FILETYPE_FFS_PAD
    ensures r == "FFS" <==> 0xF1 <= t
  {
    if t == EFI_FV_FILETYPE_RAW then "RAW"
    else if t == EFI_FV_FILETYPE_FREEFORM then "FREEFORM"
    else if t == EFI_FV_FILETYPE_SECURITY_CORE then "SEC_CORE"
    else if t == EFI_FV_FILETYPE_PEI_CORE then "PEI_CORE"
    else if t == EFI_FV_FILETYPE_DXE_CORE then "DXE_CORE"
    else if t == EFI_FV_FILETYPE_PEIM then "PEIM"
    else if t == EFI_FV_FILETYPE_DRIVER then "DRIVER"
    else if t == EFI_FV_FILETYPE_COMBINED_PEIM_DRIVER then "COMBINED_PEIM_DRIVER"
    else if t == EFI_FV_FILETYPE_APPLICATION then "APPLICATION"
    else if t == EFI_FV_FILETYPE_MM then "MM"
    else if t == EFI_FV_FILETYPE_FIRMWARE_VOLUME_IMAGE then "FV_IMAGE"
    else if t == EFI_FV_FILETYPE_COMBINED_MM_DXE then "COMBINED_MM_DXE"
    else if t == EFI_FV_FILETYPE_MM_CORE then "MM_CORE"
    else if t == EFI_FV_FILETYPE_MM_STANDALONE then "MM_STANDALONE"
    else if t == EFI_FV_FILETYPE_MM_CORE_STANDALONE then "MM_CORE_STANDALONE"
    else if 0xC0 <= t <= 0xDF then "OEM"
    else if 0xE0 <= t <= 0xEF then "DEBUG"
    else if t == EFI_FV_FILETYPE_FFS_PAD then "FFS_PAD"
    else if 0xF0 <= t <= 0xFF then "FFS"
    else "UNKNOWN"
  }

  /** The fifteen defined file types get fifteen different names. */
  lemma FileTypeNamesDistinct(s: byte, t: byte)
    requires 0x01 <= s <= 0x0F && 0x01 <= t <= 0x0F && s != t
    ensures FileTypeString(s) != FileTypeString(t)
  {
  }

  // ---------------------------------------------------------------------
  // The section walk of ReadFile

  /** sizeof (EFI_COMMON_SECTION_HEADER): Size[3] and Type. */
  const SECTION_HEADER_SIZE: nat := 4

  /** The offset after `x` rounded up to a multiple of 4, as
      `if (i%4) i += (4-(i%4))` does. */
  function Align4(x: nat): (r: nat)
    ensures r % 4 == 0 && x <= r < x + 4
  {
    if x % 4 != 0 then x + (4 - x % 4) else x
  }

  /** Align4 gives the least multiple of 4 at or after `x`. */
  lemma Align4Least(x: nat, m: nat)
    requires m % 4 == 0 && x <= m
    ensures Align4(x) <= m
  {
  }

  /** The walk from offset `i` stays inside the buffer and ends: every
      header it reads is inside the buffer, every size is at least the
      header (so the data length does not underflow and the walk moves on),
      and every section's data is inside the buffer. Nothing in ReadFile
      checks any of this. */
  predicate WalkSafe(b: seq<byte>, i: nat)
    decreases if i < |b| then |b| - i else 0
  {
    i >= |b| ||
      (i + SECTION_HEADER_SIZE <= |b|
       && SECTION_HEADER_SIZE <= U24At(b, i)
       && i + U24At(b, i) <= |b|
       && WalkSafe(b, Align4(i + U24At(b, i))))
  }

  /** A section as ReadFile reports it: where its header is, its type and
      its size (header included). */
  datatype Section = Section(offset: nat, kind: byte, size: nat)

  /** The sections from offset `i` on. */
  function Sections(b: seq<byte>, i: nat): seq<Section>
    requires WalkSafe(b, i)
    decreases if i < |b| then |b| - i else 0
  {
    if i >= |b| then []
    else [Section(i, b[i + 3], U24At(b, i))] + Sections(b, Align4(i + U24At(b, i)))
  }

  /** A section found in `b`: its header is where it says, its size is the
      24-bit Size field, and header and data lie inside the buffer. */
  predicate SectionIn(b: seq<byte>, s: Section)
  {
    && s.offset + SECTION_HEADER_SIZE <= |b|
    && s.size == U24At(b, s.offset)
    && s.kind == b[s.offset + 3]
    && SECTION_HEADER_SIZE <= s.size
    && s.offset + s.size <= |b|
  }

  /** How the sections `ss` of `b` lie: each is a real section, each next
      one starts at the end of the one before rounded up to 4, and the last
      one's end, rounded up, is past the buffer. */
  predicate WalkLayout(b: seq<byte>, ss: seq<Section>)
  {
    && (forall k :: 0 <= k < |ss| ==> SectionIn(b, ss[k]))
    && (forall j, k {:trigger ss[j], ss[k]} :: 0 <= j && k == j + 1 < |ss| ==>
         ss[k].offset == Align4(ss[j].offset + ss[j].size))
    && (|ss| > 0 ==> Align4(ss[|ss| - 1].offset + ss[|ss| - 1].size) >= |b|)
  }

  /** The sections from an aligned offset `i`: the first is at `i`, there
      are none exactly when `i` is past the end, each is a real section at
      an aligned offset, each next one starts at the end of the one before
      rounded up to 4, and the last one's end, rounded up, is past the
      buffer. */
  lemma SectionsLayout(b: seq<byte>, i: nat)
    requires WalkSafe(b, i) && i % 4 == 0
    ensures var ss := Sections(b, i);
      && (|ss| == 0 <==> i >= |b|)
      && (|ss| > 0 ==> ss[0].offset == i)
      && (forall k :: 0 <= k < |ss| ==> SectionIn(b, ss[k]) && ss[k].offset % 4 == 0)
      && (forall k :: 0 <= k < |ss| - 1 ==> ss[k + 1].offset == Align4(ss[k].offset + ss[k].size))
      && (|ss| > 0 ==> Align4(ss[|ss| - 1].offset + ss[|ss| - 1].size) >= |b|)
  {
    SectionsInside(b, i);
    SectionsChain(b, i);
    SectionsLast(b, i);
  }

  lemma {:induction false} SectionsInside(b: seq<byte>, i: nat)
    requires WalkSafe(b, i) && i % 4 == 0
    ensures forall k :: 0 <= k < |Sections(b, i)| ==>
      SectionIn(b, Sections(b, i)[k]) && Sections(b, i)[k].offset % 4 == 0
    decreases if i < |b| then |b| - i else 0
  {
    if i < |b| {
      var next := Align4(i + U24At(b, i));
      SectionsInside(b, next);
      var ss := Sections(b, i);
      assert ss == [Section(i, b[i + 3], U24At(b, i))] + Sections(b, next);
      assert forall k :: 1 <= k < |ss| ==> ss[k] == Sections(b, next)[k - 1];
    }
  }

  lemma {:induction false} SectionsChain(b: seq<byte>, i: nat)
    requires WalkSafe(b, i)
    ensures var ss := Sections(b, i);
      && (|ss| > 0 ==> ss[0].offset == i)
      && forall k :: 0 <= k < |ss| - 1 ==> ss[k + 1].offset == Align4(ss[k].offset + ss[k].size)
    decreases if i < |b| then |b| - i else 0
  {
    if i < |b| {
      var next := Align4(i + U24At(b, i));
      SectionsChain(b, next);
      var ss := Sections(b, i);
      var rest := Sections(b, next);
      assert ss == [Section(i, b[i + 3], U24At(b, i))] + rest;
      forall k | 0 <= k < |ss| - 1
        ensures ss[k + 1].offset == Align4(ss[k].offset + ss[k].size)
      {
        if k > 0 {
          assert ss[k] == rest[k - 1] && ss[k + 1] == rest[k];
        }
      }
    }
  }

  lemma {:induction false} SectionsLast(b: seq<byte>, i: nat)
    requires WalkSafe(b, i)
    ensures var ss := Sections(b, i);
      && (|ss| == 0 <==> i >= |b|)
      && (|ss| > 0 ==> Align4(ss[|ss| - 1].offset + ss[|ss| - 1].size) >= |b|)
    decreases if i < |b| then |b| - i else 0
  {
    if i < |b| {
      var next := Align4(i + U24At(b, i));
      SectionsLast(b, next);
      var rest := Sections(b, next);
      assert Sections(b, i) == [Section(i, b[i + 3], U24At(b, i))] + rest;
      if |rest| > 0 {
        assert Sections(b, i)[|Sections(b, i)| - 1] == rest[|rest| - 1];
      }
    }
  }

  // ---------------------------------------------------------------------
  // PrintBuffer: rows of sixteen bytes, "0x%08x: " and the offset, the
  // bytes as "%02x" separated by one blank, "   " for every missing byte of
  // a short last row, then "  |", the characters and "|".

  /** The character shown for a byte: itself strictly between 0x20 and 0x7E, '.' otherwise. */
  function Visible(b: byte): char
  {
    if 0x20 < b < 0x7E then b as char else '.'
  }

  function Chars(row: seq<byte>): (r: string)
    ensures |r| == |row|
  {
    if row == [] then [] else Chars(row[..|row| - 1]) + [Visible(row[|row| - 1])]
  }

  /** "0x%08x: " of a row offset (Print reads the UINTN as 32 bits, and
      HexFixed keeps the low eight digits). */
  function OffsetText(k: nat): (r: string)
    ensures |r| == 12
  {
    "0x" + HexFixed(k, 8) + ": "
  }

  /** The offset of the row at `k` and its bytes as "%02x", one blank
      between two bytes. */
  function Line(k: nat, row: seq<byte>): (r: string)
    requires 1 <= |row|
    ensures |r| == 12 + 3 * |row| - 1
  {
    if |row| == 1 then OffsetText(k) + Hex2(row[0])
    else Line(k, row[..|row| - 1]) + " " + Hex2(row[|row| - 1])
  }

  /** The line for the bytes `row` found at offset `k`. */
  function RowText(k: nat, row: seq<byte>): (r: string)
    requires 1 <= |row| <= 16
  {
    Line(k, row) + CfgPrint.Blanks(16 - |row|) + "  |" + Chars(row) + "|\n"
  }

  /** The lines of the full rows before offset `row`. */
  function FullRows(b: seq<byte>, row: nat): string
    requires row % 16 == 0 && row <= |b|
    decreases row
  {
    if row == 0 then [] else FullRows(b, row - 16) + RowText(row - 16, b[row - 16..row])
  }

  /** What PrintBuffer prints: the full rows, a short last row if any, and
      an empty line. */
  function Dump(b: seq<byte>): string
  {
    var full := |b| - |b| % 16;
    if full < |b| then FullRows(b, full) + RowText(full, b[full..|b|]) + "\n" else FullRows(b, full) + "\n"
  }

  /** The text of the row at `row` after its bytes up to `i`: the blank
      after the last byte is printed unless the buffer ends there. */
  function OpenRow(b: seq<byte>, row: nat, i: nat): string
    requires row <= i <= |b|
  {
    if row == i then [] else if i < |b| then Line(row, b[row..i]) + " " else Line(row, b[row..i])
  }

  /** PrintBuffer. The characters of a row are collected in `line` and
      appended to `out` when the row closes; `out` receives the characters
      the console receives, in the same order. */
  method PrintBuffer(buffer: seq<byte>) returns (out: string)
    ensures out == Dump(buffer)
  {
    var n := |buffer|;
    out := [];
    var line := [];
    var i := 0;
    ghost var row := 0;
    while i < n
      invariant row % 16 == 0 && row <= i <= n && i - row < 16
      invariant out == FullRows(buffer, row)
      invariant line == OpenRow(buffer, row, i)
    {
      line := Cell(buffer, row, i, line);
      i := i + 1;
      RowEnd(row, i);
      if i % 16 != 0 {
        if i != n {
          line := line + " ";
        }
      } else {
        var shown := ShowChars(buffer, i);
        var rowText := line + CfgPrint.Blanks(0) + "  |" + shown + "|\n";
        out := out + rowText;
        line := [];
        row := i;
      }
    }
    out := Finish(buffer, row, i, line, out);
  }

  /** After the walk: the padding, the characters of a short last row, and
      the closing empty line. */
  method Finish(buffer: seq<byte>, ghost row: nat, i: nat, line: string, out: string) returns (r: string)
    requires row % 16 == 0 && row <= i == |buffer| && i - row < 16
    requires out == FullRows(buffer, row) && line == OpenRow(buffer, row, i)
    ensures r == Dump(buffer)
  {
    if i % 16 != 0 {
      LastShort(buffer, row, i);
      var pad, end := PadRow(row, i);
      var shown := ShowChars(buffer, end);
      var rowText := line + pad + "  |" + shown + "|\n";
      RowTextOf(buffer[row..i], row, line, pad, shown, rowText);
      r := out + rowText + "\n";
    } else {
      LastFull(buffer, row, i);
      r := out + "\n";
    }
  }

  /** The printed pieces of a short last row make up its line. */
  lemma RowTextOf(part: seq<byte>, row: nat, line: string, pad: string, shown: string, rowText: string)
    requires 1 <= |part| <= 16 && line == Line(row, part)
    requires pad == CfgPrint.Blanks(16 - |part|) && shown == Chars(part)
    requires rowText == line + pad + "  |" + shown + "|\n"
    ensures rowText == RowText(row, part)
  {
  }

  /** The start of the loop body: the offset if a row begins, then the byte. */
  method Cell(buffer: seq<byte>, ghost row: nat, i: nat, line: string) returns (r: string)
    requires row % 16 == 0 && row <= i < |buffer| && i - row < 16
    requires line == OpenRow(buffer, row, i)
    ensures r == Line(row, buffer[row..i + 1])
  {
    RowStep(buffer, row, i + 1);
    r := line;
    if i % 16 == 0 {
      r := r + OffsetText(i);
    }
    r := r + Hex2(buffer[i]);
  }

  /** `while (i%16) { Print (L"   "); i++; }` after a short last row. */
  method PadRow(ghost row: nat, i: nat) returns (pad: string, end: nat)
    requires row % 16 == 0 && row < i < row + 16
    ensures end == row + 16 && pad == CfgPrint.Blanks(16 - (i - row))
  {
    pad := [];
    end := i;
    while end % 16 != 0
      invariant i <= end <= row + 16
      invariant pad == CfgPrint.Blanks(end - i)
      decreases row + 16 - end
    {
      RowEnd(row, end);
      pad := pad + "   ";
      end := end + 1;
    }
    RowEnd(row, end);
  }

  /** With rows starting at multiples of 16, a position inside or at the end
      of a row is a multiple of 16 exactly when it closes the row. */
  lemma RowEnd(row: nat, i: nat)
    requires row % 16 == 0 && row <= i <= row + 16
    ensures i % 16 == 0 <==> (i == row || i == row + 16)
  {
  }

  /** The inner loop `for (j = 16; j > 0; j--)`: the characters of the
      bytes from `i - 16` that exist. */
  method ShowChars(buffer: seq<byte>, i: nat) returns (shown: string)
    requires 16 <= i && i - 16 < |buffer|
    ensures shown == Chars(buffer[i - 16..if i < |buffer| then i else |buffer|])
  {
    var end := if i < |buffer| then i else |buffer|;
    shown := [];
    var j := 16;
    while j > 0
      invariant 0 <= j <= 16
      invariant shown == Chars(buffer[i - 16..if i - j < end then i - j else end])
    {
      if i - j < |buffer| {
        assert buffer[i - 16..i - j + 1][..i - j - (i - 16)] == buffer[i - 16..i - j];
        shown := shown + [Visible(buffer[i - j])];
      }
      j := j - 1;
    }
  }

  /** The byte at `i - 1` extends the row at `row`: a new row starts with
      its offset, a continued row with the blank printed before. */
  lemma RowStep(b: seq<byte>, row: nat, i: nat)
    requires row % 16 == 0 && row < i <= |b| && i - row <= 16
    ensures (i - 1) % 16 == 0 <==> i - 1 == row
    ensures i - 1 == row ==> Line(row, b[row..i]) == OffsetText(i - 1) + Hex2(b[i - 1])
    ensures i - 1 > row ==> Line(row, b[row..i]) == Line(row, b[row..i - 1]) + " " + Hex2(b[i - 1])
  {
    assert b[row..i][..i - 1 - row] == b[row..i - 1];
  }

  /** The walk ended inside a row: it is the short last row of the dump. */
  lemma LastShort(b: seq<byte>, row: nat, i: nat)
    requires row % 16 == 0 && row <= i == |b| && i - row < 16 && i % 16 != 0
    ensures row < i && row + 16 - i == 16 - |b[row..i]|
    ensures Dump(b) == FullRows(b, row) + RowText(row, b[row..i]) + "\n"
  {
    RowStart(row, i);
  }

  /** The walk ended on a row boundary. */
  lemma LastFull(b: seq<byte>, row: nat, i: nat)
    requires row % 16 == 0 && row <= i == |b| && i - row < 16 && i % 16 == 0
    ensures row == i && Dump(b) == FullRows(b, row) + "\n"
  {
    RowStart(row, i);
  }

  /** The row holding position `i` starts at `i - i % 16`. */
  lemma RowStart(row: nat, i: nat)
    requires row % 16 == 0 && row <= i < row + 16
    ensures i - i % 16 == row
  {
    var q := row / 16;
    assert row == 16 * q;
    assert i == 16 * q + (i - row);
  }

  /** Each line is 64 characters plus one per byte; byte j's two digits sit
      at column 12 + 3j, and the offset's eight digits after "0x". */
  lemma RowShape(k: nat, row: seq<byte>)
    requires 1 <= |row| <= 16
    ensures |RowText(k, row)| == 64 + |row|
    ensures RowText(k, row)[..2] == "0x" && RowText(k, row)[2..10] == HexFixed(k, 8)
    ensures forall j :: 0 <= j < |row| ==> RowText(k, row)[12 + 3 * j..14 + 3 * j] == Hex2(row[j])
  {
    var r := RowText(k, row);
    LineStart(k, row);
    forall j | 0 <= j < |row|
      ensures r[12 + 3 * j..14 + 3 * j] == Hex2(row[j])
    {
      LineAt(k, row, j);
      assert r[12 + 3 * j..14 + 3 * j] == Line(k, row)[12 + 3 * j..14 + 3 * j];
    }
  }

  lemma {:induction false} LineStart(k: nat, row: seq<byte>)
    requires 1 <= |row|
    ensures Line(k, row)[..12] == OffsetText(k)
  {
    if |row| > 1 {
      LineStart(k, row[..|row| - 1]);
    }
  }

  lemma {:induction false} LineAt(k: nat, row: seq<byte>, j: nat)
    requires j < |row|
    ensures Line(k, row)[12 + 3 * j..14 + 3 * j] == Hex2(row[j])
  {
    var last := |row| - 1;
    if j < last {
      LineAt(k, row[..last], j);
      assert Line(k, row)[..12 + 3 * last - 1] == Line(k, row[..last]);
    }
  }

  // ---------------------------------------------------------------------
  // ReadFile: the file's header fields, its raw dump and, unless it is a
  // RAW file, the walk over its sections.

  /** The text ReadFile prints for one section: its type name, its size
      as "0x%08x", and the hexdump of its data after the header. */
  function SectionText(b: seq<byte>, s: Section): string
    requires SectionIn(b, s)
  {
    SectionHead(s) + Dump(SectionData(b, s))
  }

  /** The bytes of a section after its header. */
  function SectionData(b: seq<byte>, s: Section): seq<byte>
    requires SectionIn(b, s)
  {
    b[s.offset + SECTION_HEADER_SIZE..s.offset + s.size]
  }

  /** "Section %s, size 0x%08x\n" and "Data:\n". */
  function SectionHead(s: Section): string
  {
    "Section " + SectionTypeString(s.kind) + ", size 0x" + HexFixed(s.size, 8) + "\n" + "Data:\n"
  }

  /** The texts of the sections `ss`, in order. */
  function SectionsText(b: seq<byte>, ss: seq<Section>): string
    requires forall k :: 0 <= k < |ss| ==> SectionIn(b, ss[k])
  {
    if ss == [] then [] else SectionsText(b, ss[..|ss| - 1]) + SectionText(b, ss[|ss| - 1])
  }

  /** What the walk of a whole file prints: the text of every section it
      finds from offset 0. */
  function WalkText(b: seq<byte>): string
    requires WalkSafe(b, 0)
  {
    SectionsInside(b, 0);
    SectionsText(b, Sections(b, 0))
  }

  /** The loop of ReadFile over the sections: `i` is the offset of the next
      header, moved past each section and up to the next 4-byte boundary;
      the `k`-th turn prints the `k`-th section of Sections. */
  method WalkSections(b: seq<byte>) returns (out: string)
    requires WalkSafe(b, 0)
    ensures out == WalkText(b)
  {
    ghost var ss := Sections(b, 0);
    WalkStart(b);
    var n := |b|;
    var i := 0;
    out := [];
    ghost var k := 0;
    while i < n
      invariant 0 <= k <= |ss| && (k < |ss| <==> i < n)
      invariant k < |ss| ==> ss[k].offset == i
      invariant out == SectionsText(b, ss[..k])
      decreases |ss| - k
    {
      i, out := WalkTurn(b, ss, k, i, out);
      k := k + 1;
    }
    assert ss[..k] == ss;
  }

  /** The walk starts at the first section, if there is one, and the
      sections lie as WalkLayout says. */
  lemma WalkStart(b: seq<byte>)
    requires WalkSafe(b, 0)
    ensures var ss := Sections(b, 0);
      && WalkLayout(b, ss)
      && (|ss| > 0 <==> |b| > 0) && (|ss| > 0 ==> ss[0].offset == 0)
  {
    SectionsLayout(b, 0);
  }

  /** One turn of the walk: print the `k`-th section, at `i`, and move to
      where the next one starts. */
  method WalkTurn(b: seq<byte>, ghost ss: seq<Section>, ghost k: nat, i: nat, out: string)
    returns (next: nat, out': string)
    requires WalkLayout(b, ss) && k < |ss| && ss[k].offset == i
    requires out == SectionsText(b, ss[..k])
    ensures out' == SectionsText(b, ss[..k + 1])
    ensures k + 1 < |ss| ==> ss[k + 1].offset == next && next < |b|
    ensures k + 1 == |ss| ==> next >= |b|
  {
    var section := TurnSection(b, ss, k, i);
    next := TurnAdvance(b, ss, k, i, section);
    out' := TurnShow(b, ss, k, section, out);
  }

  /** Past the `k`-th section to where the next one starts. */
  method TurnAdvance(b: seq<byte>, ghost ss: seq<Section>, ghost k: nat, i: nat, section: Section)
    returns (next: nat)
    requires WalkLayout(b, ss) && k < |ss| && ss[k].offset == i
    requires i + SECTION_HEADER_SIZE <= |b| && section == Section(i, b[i + 3], U24At(b, i))
    ensures k + 1 < |ss| ==> ss[k + 1].offset == next && next < |b|
    ensures k + 1 == |ss| ==> next >= |b|
  {
    next := NextSection(i, section.size);
    TurnNext(b, ss, k, i, section, next);
  }

  /** The header at `i` is read as the `k`-th section. */
  method TurnSection(b: seq<byte>, ghost ss: seq<Section>, ghost k: nat, i: nat)
    returns (section: Section)
    requires WalkLayout(b, ss) && k < |ss| && ss[k].offset == i
    ensures i + SECTION_HEADER_SIZE <= |b| && section == ss[k]
    ensures section == Section(i, b[i + 3], U24At(b, i))
  {
    TurnStart(b, ss, k, i);
    section := Section(i, b[i + 3], U24At(b, i));
    TurnNext(b, ss, k, i, section, Align4(i + section.size));
  }

  /** The `k`-th section's text, added to the text of the ones before it. */
  method TurnShow(b: seq<byte>, ghost ss: seq<Section>, ghost k: nat, section: Section, out: string)
    returns (out': string)
    requires k < |ss| && (forall j :: 0 <= j < |ss| ==> SectionIn(b, ss[j])) && ss[k] == section
    requires out == SectionsText(b, ss[..k])
    ensures out' == SectionsText(b, ss[..k + 1])
  {
    var text := ShowSection(b, section);
    TurnText(b, ss, k, section, text, out);
    out' := out + text;
  }

  /** The header at `i` is the `k`-th section's. */
  lemma TurnStart(b: seq<byte>, ss: seq<Section>, k: nat, i: nat)
    requires WalkLayout(b, ss) && k < |ss| && ss[k].offset == i
    ensures i + SECTION_HEADER_SIZE <= |b| && SectionIn(b, Section(i, b[i + 3], U24At(b, i)))
  {
    assert SectionIn(b, ss[k]);
  }

  /** After printing the `k`-th section the text covers one more section. */
  lemma TurnText(b: seq<byte>, ss: seq<Section>, k: nat, section: Section, text: string, out: string)
    requires k < |ss| && (forall j :: 0 <= j < |ss| ==> SectionIn(b, ss[j])) && ss[k] == section
    requires text == SectionText(b, section) && out == SectionsText(b, ss[..k])
    ensures out + text == SectionsText(b, ss[..k + 1])
  {
    TextStep(b, ss, k);
  }

  /** After the `k`-th section the walk moves to where the next one starts,
      or past the end of the buffer after the last one. */
  lemma TurnNext(b: seq<byte>, ss: seq<Section>, k: nat, i: nat, section: Section, next: nat)
    requires WalkLayout(b, ss) && k < |ss| && ss[k].offset == i
    requires i + SECTION_HEADER_SIZE <= |b| && section == Section(i, b[i + 3], U24At(b, i))
    requires next == Align4(i + section.size)
    ensures ss[k] == section
    ensures k + 1 < |ss| ==> ss[k + 1].offset == next && next < |b|
    ensures k + 1 == |ss| ==> next >= |b|
  {
    assert SectionIn(b, ss[k]);
    if k + 1 < |ss| {
      assert SectionIn(b, ss[k + 1]);
    }
  }

  /** The offset after a section of `size` bytes at `i`, rounded up to a
      multiple of 4. */
  method NextSection(i: nat, size: nat) returns (j: nat)
    ensures j == Align4(i + size)
  {
    j := i + size;
    if j % 4 != 0 {
      j := j + (4 - j % 4);
    }
  }

  /** The text of the first `k + 1` sections extends that of the first `k`. */
  lemma TextStep(b: seq<byte>, ss: seq<Section>, k: nat)
    requires k < |ss| && forall j :: 0 <= j < |ss| ==> SectionIn(b, ss[j])
    ensures SectionsText(b, ss[..k + 1]) == SectionsText(b, ss[..k]) + SectionText(b, ss[k])
  {
    assert ss[..k + 1][..k] == ss[..k];
  }

  /** The lines the walk prints for a section: the header's type and
      size, then the dump of the data after the header. */
  method ShowSection(b: seq<byte>, s: Section) returns (text: string)
    requires SectionIn(b, s)
    ensures text == SectionText(b, s)
  {
    var data := PrintBuffer(SectionData(b, s));
    text := SectionHead(s) + data;
  }

  /** The end of an aligned walk is not reached before the buffer ends:
      when the last section's end, rounded up, is exactly the buffer's end
      (as in a well-formed FFS file), the sections cover the buffer with no
      gap larger than the alignment. */
  lemma WalkCovers(b: seq<byte>)
    requires WalkSafe(b, 0) && |b| > 0
    ensures var ss := Sections(b, 0);
      && |ss| > 0 && ss[0].offset == 0
      && forall k :: 0 <= k < |ss| - 1 ==>
           ss[k].offset + ss[k].size <= ss[k + 1].offset < ss[k].offset + ss[k].size + 4
  {
    SectionsChain(b, 0);
    SectionsLast(b, 0);
  }

  /** EFI_FV_FILE_ATTRIBUTES and the rest of what FV2 ReadFile hands back. */
  datatype FileRead = FileRead(status: Status, buffer: seq<byte>, fileType: byte, attributes: u32, authentication: u32)

  /** What a run prints and the status it returns. */
  datatype Run = Run(status: Status, text: string)

  const RULE: string := "-------------------------------------\n"

  /** The lines ReadFile prints before the parsed data. */
  function FileHead(r: FileRead): string
  {
    "FileType=" + FileTypeString(r.fileType) + "\n"
    + "FileAttributes=0x" + HexFixed(r.attributes, 8) + "\n"
    + "AuthenticationStatus=0x" + HexFixed(r.authentication, 8) + "\n"
    + "\n"
    + "Raw Data:\n" + Dump(r.buffer) + RULE
  }

  /** Whether ReadFile walks the sections of what it read. */
  predicate Parses(r: FileRead)
  {
    !IsError(r.status) && r.fileType != EFI_FV_FILETYPE_RAW
  }

  /** ReadFile: an error of FV2 ReadFile is reported and returned; a RAW
      file is dumped only; any other file is dumped and then walked. */
  function ReadFileRun(r: FileRead, statusText: Status -> string): Run
    requires Parses(r) ==> WalkSafe(r.buffer, 0)
  {
    if IsError(r.status) then Run(r.status, "Error! ReadFile returned error: " + statusText(r.status) + "\n")
    else if r.fileType == EFI_FV_FILETYPE_RAW then Run(Success, FileHead(r))
    else Run(Success, FileHead(r) + "Parsed Data:\n\n" + WalkText(r.buffer))
  }

  method ReadFile(r: FileRead, statusText: Status -> string) returns (run: Run)
    requires Parses(r) ==> WalkSafe(r.buffer, 0)
    ensures run == ReadFileRun(r, statusText)
  {
    if IsError(r.status) {
      return Run(r.status, "Error! ReadFile returned error: " + statusText(r.status) + "\n");
    }
    var raw := PrintBuffer(r.buffer);
    var head := "FileType=" + FileTypeString(r.fileType) + "\n"
      + "FileAttributes=0x" + HexFixed(r.attributes, 8) + "\n"
      + "AuthenticationStatus=0x" + HexFixed(r.authentication, 8) + "\n"
      + "\n"
      + "Raw Data:\n" + raw + RULE;
    if r.fileType == EFI_FV_FILETYPE_RAW {
      return Run(Success, head);
    }
    var parsed := WalkSections(r.buffer);
    run := Run(Success, head + "Parsed Data:\n\n" + parsed);
  }

  // ---------------------------------------------------------------------
  // PrintFiles and ReadSection

  /** What GetNextFile reports for one file. */
  datatype FileEntry = FileEntry(guid: Guid, fileType: byte, size: nat)

  function FileLine(e: FileEntry): string
  {
    GuidText(e.guid) + " - " + FileTypeString(e.fileType) + " - " + Dec32(e.size) + " bytes\n"
  }

  /** The lines of the files `files`, in order. */
  function FilesText(files: seq<FileEntry>): string
  {
    if files == [] then [] else FilesText(files[..|files| - 1]) + FileLine(files[|files| - 1])
  }

  /** PrintFiles. `files` are the files GetNextFile returns before it first
      fails; the loop stops at that failure and PrintFiles succeeds. */
  method PrintFiles(files: seq<FileEntry>) returns (run: Run)
    ensures run == Run(Success, FilesText(files))
  {
    var out := [];
    var k := 0;
    while k < |files|
      invariant 0 <= k <= |files|
      invariant out == FilesText(files[..k])
    {
      assert files[..k + 1][..k] == files[..k];
      out := out + FileLine(files[k]);
      k := k + 1;
    }
    assert files[..k] == files;
    run := Run(Success, out);
  }

  /** What FV2 ReadSection hands back. */
  datatype SectionRead = SectionRead(status: Status, buffer: seq<byte>)

  function ReadSectionRun(t: byte, instance: nat, r: SectionRead, statusText: Status -> string): Run
  {
    var head := "Section " + SectionTypeString(t) + " " + Dec32(instance) + "\n";
    if IsError(r.status) then Run(r.status, head + "Error! ReadSection returned error: " + statusText(r.status) + "\n")
    else Run(r.status, head + Dump(r.buffer))
  }

  method ReadSection(t: byte, instance: nat, r: SectionRead, statusText: Status -> string) returns (run: Run)
    ensures run == ReadSectionRun(t, instance, r, statusText)
  {
    var head := "Section " + SectionTypeString(t) + " " + Dec32(instance) + "\n";
    if !IsError(r.status) {
      var dump := PrintBuffer(r.buffer);
      run := Run(r.status, head + dump);
    } else {
      run := Run(r.status, head + "Error! ReadSection returned error: " + statusText(r.status) + "\n");
    }
  }

  // ---------------------------------------------------------------------
  // ShellAppMain

  /** The services the application relies on. */
  datatype Volume = Volume(
    locate: Status,                                  // LocateProtocol of EFI_FIRMWARE_VOLUME2_PROTOCOL
    files: seq<FileEntry>,                           // what GetNextFile returns before it fails
    readFile: Guid -> FileRead,                      // FV2 ReadFile
    readSection: (Guid, byte, nat) -> SectionRead,   // FV2 ReadSection
    strToGuid: string -> Option<Guid>,               // StrToGuid
    decimal: string -> nat,                          // StrDecimalToUintn
    statusText: Status -> string)                    // what "%r" prints

  const UsageText: string :=
    "Usage:\n"
    + "  FfsFile [<FileGUID> [<SectionType> <SectionInstance>]]\n"
    + "\n"
    + "<FileGUID>:\n"
    + "GUID name of the File in FFS\n"
    + "\n"
    + "<SectionType>:\n"
    + "ALL|COMPRESS|GUIDED|DISPOSABLE|PE32|PIC|TE|DXE_DEPEX|PEI_DEPEX|MM_DEPEX\n"
    + "VERSION|UI|COMPAT16|FV_IMAGE|SUBTYPE_GUID|RAW\n"
    + "\n"
    + "<SectionInstance>: section instance number in a target file\n"

  /** The file ShellAppMain reads when given a GUID, if it is walked, must
      have sections the walk can follow. */
  predicate MainSafe(argv: seq<CString>, vol: Volume)
  {
    |argv| == 2 && vol.strToGuid(argv[1]).Some? ==>
      var r := vol.readFile(vol.strToGuid(argv[1]).value);
      Parses(r) ==> WalkSafe(r.buffer, 0)
  }

  /** The status and text of a run that stops before reading anything. */
  function Refusal(argv: seq<CString>, vol: Volume): Option<Run>
  {
    if |argv| != 1 && |argv| != 2 && |argv| != 4 then Some(Run(InvalidParameter, UsageText))
    else if |argv| > 1 && vol.strToGuid(argv[1]).None? then
      Some(Run(InvalidParameter, "Error! Can't convert <File GUID> argument to GUID\n"))
    else if |argv| == 4 && SectionTypeOfName(argv[2]).None? then
      Some(Run(InvalidParameter, "Error! Wrong <SectionType>\n"))
    else if IsError(vol.locate) then
      Some(Run(vol.locate, "Error! Can't locate EFI_FIRMWARE_VOLUME2_PROTOCOL: " + vol.statusText(vol.locate) + "\n"))
    else None
  }

  /** ShellAppMain. `argv` holds Argv[0] .. Argv[Argc-1]. */
  function MainRun(argv: seq<CString>, vol: Volume): Run
    requires |argv| >= 1 && MainSafe(argv, vol)
  {
    match Refusal(argv, vol)
    case Some(run) => run
    case None =>
      if |argv| == 1 then Run(Success, FilesText(vol.files))
      else
        var guid := vol.strToGuid(argv[1]).value;
        if |argv| == 2 then ReadFileRun(vol.readFile(guid), vol.statusText)
        else
          var t := SectionTypeOfName(argv[2]).value;
          var instance := vol.decimal(argv[3]);
          ReadSectionRun(t, instance, vol.readSection(guid, t, instance), vol.statusText)
  }

  method ShellAppMain(argv: seq<CString>, vol: Volume) returns (run: Run)
    requires |argv| >= 1 && MainSafe(argv, vol)
    ensures run == MainRun(argv, vol)
  {
    var argc := |argv|;
    if argc != 1 && argc != 2 && argc != 4 {
      return Run(InvalidParameter, UsageText);
    }
    var guid: Guid := [0, 0, 0, 0, 0, 0, 0, 0, 0, 0, 0, 0, 0, 0, 0, 0];
    if argc > 1 {
      var parsed := vol.strToGuid(argv[1]);
      if parsed.None? {
        return Run(InvalidParameter, "Error! Can't convert <File GUID> argument to GUID\n");
      }
      guid := parsed.value;
    }
    var sectionType: byte := 0;
    var instance: nat := 0;
    if argc == 4 {
      var named := SectionTypeOfName(argv[2]);
      if named.None? {
        return Run(InvalidParameter, "Error! Wrong <SectionType>\n");
      }
      sectionType := named.value;
      instance := vol.decimal(argv[3]);
    }
    if IsError(vol.locate) {
      return Run(vol.locate, "Error! Can't locate EFI_FIRMWARE_VOLUME2_PROTOCOL: " + vol.statusText(vol.locate) + "\n");
    }
    if argc == 1 {
      run := PrintFiles(vol.files);
    } else if argc == 2 {
      run := ReadFile(vol.readFile(guid), vol.statusText);
    } else {
      run := ReadSection(sectionType, instance, vol.readSection(guid, sectionType, instance), vol.statusText);
    }
  }

  /** Only one, two or four arguments are accepted, a GUID argument must
      convert, and a section name must be one of the sixteen; each refusal
      returns INVALID_PARAMETER before the firmware volume is looked for. */
  lemma MainRefusals(argv: seq<CString>, vol: Volume)
    requires |argv| >= 1 && MainSafe(argv, vol)
    ensures var run := MainRun(argv, vol);
      && (|argv| !in {1, 2, 4} ==> run == Run(InvalidParameter, UsageText))
      && (|argv| in {2, 4} && vol.strToGuid(argv[1]).None? ==> run.status == InvalidParameter)
      && (|argv| == 4 && vol.strToGuid(argv[1]).Some? && SectionTypeOfName(argv[2]).None? ==>
            run == Run(InvalidParameter, "Error! Wrong <SectionType>\n"))
  {
  }

  /** Once the arguments are accepted and the volume is found, listing the
      files always succeeds, and reading a file or a section returns the
      firmware's status. */
  lemma MainStatus(argv: seq<CString>, vol: Volume)
    requires |argv| >= 1 && MainSafe(argv, vol) && Refusal(argv, vol).None?
    ensures var run := MainRun(argv, vol);
      && (|argv| == 1 ==> run.status == Success)
      && (|argv| == 2 ==> run.status == vol.readFile(vol.strToGuid(argv[1]).value).status)
      && (|argv| == 4 ==>
            run.status == vol.readSection(vol.strToGuid(argv[1]).value,
                                          SectionTypeOfName(argv[2]).value,
                                          vol.decimal(argv[3])).status)
  {
  }
}
