/**
 * HIIStringsC: a String package built by hand (EFI_HII_STRING_PACKAGE_HDR,
 * one EFI_HII_SIBT_STRING_UCS2 block per string, one EFI_HII_SIBT_END
 * block) and a package list holding an en-US and a fr-FR package followed
 * by an END package, assembled in a zeroed 200-byte buffer.
 *
 * The UEFI HII structures are packed: EFI_HII_STRING_PACKAGE_HDR is the
 * package header (Length:24, Type:8), HdrSize (UINT32), StringInfoOffset
 * (UINT32), LanguageWindow (16 CHAR16), LanguageName (UINT16) and
 * Language[1] (CHAR8), 47 bytes; EFI_HII_SIBT_STRING_UCS2_BLOCK is a
 * one-byte block header and StringText[1] (CHAR16), 3 bytes; an
 * EFI_HII_SIBT_END_BLOCK is its one-byte header.
 */
module HiiStrings {
  import opened Efi
  import opened Buffers
  import HiiPackages

  const EFI_HII_PACKAGE_STRINGS: byte := 0x04
  const EFI_HII_PACKAGE_END: byte := 0xDF
  const EFI_HII_SIBT_END: byte := 0x00
  const EFI_HII_SIBT_STRING_UCS2: byte := 0x14

  const STRING_PACKAGE_HDR_SIZE: nat := 47   // sizeof (EFI_HII_STRING_PACKAGE_HDR)
  const LANGUAGE_OFFSET: nat := 46           // OFFSET_OF (EFI_HII_STRING_PACKAGE_HDR, Language)
  const UCS2_BLOCK_SIZE: nat := 3            // sizeof (EFI_HII_SIBT_STRING_UCS2_BLOCK)
  const END_BLOCK_SIZE: nat := 1             // sizeof (EFI_HII_SIBT_END_BLOCK)
  const LIST_HEADER_SIZE: nat := 20          // sizeof (EFI_HII_PACKAGE_LIST_HEADER)
  const PACKAGE_HEADER_SIZE: nat := 4        // sizeof (EFI_HII_PACKAGE_HEADER)
  const DATA_SIZE: nat := 200                // the AllocateZeroPool in UefiMain

  /** An ASCII language tag such as "en-US", without its NUL. */
  type Ascii = s: seq<byte> | 0 !in s
  /** A CHAR16 string without its NUL. */
  type Text16 = s: seq<u16> | 0 !in s

  // ---------------------------------------------------------------------
  // The String package as bytes

  /** HeaderSize: AsciiStrSize (Language) - 1 + sizeof (EFI_HII_STRING_PACKAGE_HDR). */
  function HeaderSize(language: Ascii): nat
  {
    STRING_PACKAGE_HDR_SIZE + |language|
  }

  function BlockSize(s: Text16): nat
  {
    UCS2_BLOCK_SIZE + 2 * |s|
  }

  function BlocksSize(strings: seq<Text16>): nat
  {
    if strings == [] then 0 else BlockSize(strings[0]) + BlocksSize(strings[1..])
  }

  /** The size InitStringPackage returns: header, blocks and end block. */
  function PackageSize(language: Ascii, strings: seq<Text16>): nat
  {
    HeaderSize(language) + BlocksSize(strings) + END_BLOCK_SIZE
  }

  /** One EFI_HII_SIBT_STRING_UCS2 block: its type and the NUL-terminated text. */
  function Block(s: Text16): (r: seq<byte>)
    ensures |r| == BlockSize(s)
  {
    [EFI_HII_SIBT_STRING_UCS2] + Ucs2Bytes(s) + [0, 0]
  }

  function Blocks(strings: seq<Text16>): (r: seq<byte>)
    ensures |r| == BlocksSize(strings)
  {
    if strings == [] then [] else Block(strings[0]) + Blocks(strings[1..])
  }

  /** The header after its Length field: Type, HdrSize, StringInfoOffset,
      the LanguageWindow as it was, LanguageName = 1 and the NUL-terminated
      Language. HdrSize is a UINT32. */
  function HeaderTail(window: seq<byte>, language: Ascii): (r: seq<byte>)
    requires |window| == 32
    ensures |r| == HeaderSize(language) - 3
  {
    [EFI_HII_PACKAGE_STRINGS] + LE32(HeaderSize(language) % TWO_32)
    + LE32(HeaderSize(language) % TWO_32) + window + LE16(1) + language + [0]
  }

  /** The bytes of the String package; the 24-bit Length holds the low
      24 bits of the size. */
  function StringPackage(window: seq<byte>, language: Ascii, strings: seq<Text16>): (r: seq<byte>)
    requires |window| == 32
    ensures |r| == PackageSize(language, strings)
  {
    LE24(PackageSize(language, strings) % 0x100_0000) + HeaderTail(window, language)
    + Blocks(strings) + [EFI_HII_SIBT_END]
  }

  lemma BlocksSnoc(strings: seq<Text16>, s: Text16)
    ensures Blocks(strings + [s]) == Blocks(strings) + Block(s)
    ensures BlocksSize(strings + [s]) == BlocksSize(strings) + BlockSize(s)
  {
    if strings != [] {
      assert (strings + [s])[1..] == strings[1..] + [s];
      BlocksSnoc(strings[1..], s);
    }
  }

  lemma {:induction false} BlocksSplit(strings: seq<Text16>, i: nat)
    requires i <= |strings|
    ensures Blocks(strings) == Blocks(strings[..i]) + Blocks(strings[i..])
  {
    if i > 0 {
      assert strings[1..][..i - 1] == strings[1..i];
      assert strings[1..][i - 1..] == strings[i..];
      BlocksSplit(strings[1..], i - 1);
      assert strings[..i][1..] == strings[1..i];
    } else {
      assert strings[i..] == strings;
    }
  }

  /** `after` is `before` with the String package for `language` and
      `strings` written at `at`, around the LanguageWindow `before` held. */
  ghost predicate PackageWritten(before: seq<byte>, after: seq<byte>, at: nat, language: Ascii,
                                 strings: seq<Text16>)
  {
    && at + PackageSize(language, strings) <= |before|
    && after == Splice(before, at, StringPackage(before[at + 12..at + 44], language, strings))
  }

  /** InitStringPackage: writes the String package for `language` and
      `strings` at `at` and returns its size. Only the header fields, the
      blocks and the end block are stored: the LanguageWindow keeps the
      bytes the buffer held. */
  method InitStringPackage(buf: array<byte>, at: nat, language: Ascii, strings: seq<Text16>)
    returns (size: nat)
    requires at + PackageSize(language, strings) <= buf.Length
    modifies buf
    ensures size == PackageSize(language, strings)
    ensures PackageWritten(old(buf[..]), buf[..], at, language, strings)
  {
    ghost var s0 := buf[..];
    var window := buf[..][at + 12..at + 44];
    var hs := HeaderSize(language);
    Put(buf, at + 3, HeaderTail(window, language));
    ghost var s1 := buf[..];
    WriteBlocks(buf, at + hs, strings);
    var end := at + hs + BlocksSize(strings);
    ghost var s2 := buf[..];
    Put(buf, end, [EFI_HII_SIBT_END]);
    size := hs + BlocksSize(strings) + END_BLOCK_SIZE;
    ghost var s3 := buf[..];
    Put(buf, at, LE24(size % 0x100_0000));
    PackageWrites(s0, s1, s2, s3, buf[..], at, hs, end, size, window, language, strings);
  }

  /** The loop of InitStringPackage: one UCS2 block per string, each right
      after the one before. */
  method WriteBlocks(buf: array<byte>, from: nat, strings: seq<Text16>)
    requires from + BlocksSize(strings) <= buf.Length
    modifies buf
    ensures buf[..] == Splice(old(buf[..]), from, Blocks(strings))
  {
    ghost var s0 := buf[..];
    BlocksSplit(strings, 0);
    var size := 0;
    var i := 0;
    while i < |strings|
      invariant 0 <= i <= |strings|
      invariant size == BlocksSize(strings[..i])
      invariant from + size + BlocksSize(strings[i..]) <= buf.Length
      invariant buf[..] == Splice(s0, from, Blocks(strings[..i]))
    {
      BlocksRest(strings, i);
      ghost var before := buf[..];
      Put(buf, from + size, Block(strings[i]));
      BlockWrite(s0, before, buf[..], from, strings, i);
      size := size + BlockSize(strings[i]);
      i := i + 1;
    }
    assert strings[..i] == strings;
  }

  lemma BlocksRest(strings: seq<Text16>, i: nat)
    requires i < |strings|
    ensures BlocksSize(strings[i..]) == BlockSize(strings[i]) + BlocksSize(strings[i + 1..])
  {
    assert strings[i..][1..] == strings[i + 1..] && strings[i..][0] == strings[i];
  }

  /** The loop step of WriteBlocks: block `i` goes right after the blocks
      before it. */
  lemma BlockWrite(s0: seq<byte>, before: seq<byte>, after: seq<byte>, from: nat,
                   strings: seq<Text16>, i: nat)
    requires i < |strings|
    requires from + BlocksSize(strings[..i]) + BlockSize(strings[i]) <= |s0|
    requires before == Splice(s0, from, Blocks(strings[..i]))
    requires after == Splice(before, from + BlocksSize(strings[..i]), Block(strings[i]))
    ensures BlocksSize(strings[..i + 1]) == BlocksSize(strings[..i]) + BlockSize(strings[i])
    ensures after == Splice(s0, from, Blocks(strings[..i + 1]))
  {
    BlocksSnoc(strings[..i], strings[i]);
    assert strings[..i + 1] == strings[..i] + [strings[i]];
    SpliceAppend(s0, from, Blocks(strings[..i]), from + BlocksSize(strings[..i]), Block(strings[i]));
  }

  /** The four writes of InitStringPackage make up the package. */
  lemma PackageWrites(s0: seq<byte>, s1: seq<byte>, s2: seq<byte>, s3: seq<byte>, s4: seq<byte>,
                      at: nat, hs: nat, end: nat, size: nat,
                      window: seq<byte>, language: Ascii, strings: seq<Text16>)
    requires |window| == 32 && at + PackageSize(language, strings) <= |s0|
    requires hs == HeaderSize(language) && end == at + hs + BlocksSize(strings)
    requires size == PackageSize(language, strings)
    requires window == s0[at + 12..at + 44]
    requires s1 == Splice(s0, at + 3, HeaderTail(window, language))
    requires s2 == Splice(s1, at + hs, Blocks(strings))
    requires s3 == Splice(s2, end, [EFI_HII_SIBT_END])
    requires s4 == Splice(s3, at, LE24(size % 0x100_0000))
    ensures PackageWritten(s0, s4, at, language, strings)
  {
    var tail := HeaderTail(window, language);
    var blocks := Blocks(strings);
    var length := LE24(size % 0x100_0000);
    var body := tail + blocks + [EFI_HII_SIBT_END];
    assert |tail| == hs - 3 && |blocks| == BlocksSize(strings);
    SpliceAppend(s0, at + 3, tail, at + hs, blocks);
    assert s2 == Splice(s0, at + 3, tail + blocks);
    SpliceAppend(s0, at + 3, tail + blocks, end, [EFI_HII_SIBT_END]);
    assert s3 == Splice(s0, at + 3, body);
    SplicePrepend(s0, at, length, at + 3, body);
    PackageParts(window, language, strings);
  }

  lemma PackageParts(window: seq<byte>, language: Ascii, strings: seq<Text16>)
    requires |window| == 32
    ensures LE24(PackageSize(language, strings) % 0x100_0000)
              + (HeaderTail(window, language) + Blocks(strings) + [EFI_HII_SIBT_END])
            == StringPackage(window, language, strings)
  {
  }

  // ---------------------------------------------------------------------
  // Reading the package back, as the HII database does

  /** The CHAR16 string at the start of `b`, up to its NUL. */
  function ReadUcs2(b: seq<byte>): (r: Option<Text16>)
    ensures r.Some? ==> 2 * |r.value| + 2 <= |b|
    decreases |b|
  {
    if |b| < 2 then None
    else if U16At(b, 0) == 0 then var e: Text16 := []; Some(e)
    else match ReadUcs2(b[2..])
      case None => None
      case Some(t) => var c: Text16 := [U16At(b, 0)] + t; Some(c)
  }

  /** The strings of a run of UCS2 blocks closed by an end block; None for
      a run that is cut short or holds another block type. */
  function ReadBlocks(b: seq<byte>): (r: Option<seq<Text16>>)
    decreases |b|
  {
    if |b| == 0 then None
    else if b[0] == EFI_HII_SIBT_END then var e: seq<Text16> := []; Some(e)
    else if b[0] != EFI_HII_SIBT_STRING_UCS2 then None
    else match ReadUcs2(b[1..])
      case None => None
      case Some(t) =>
        match ReadBlocks(b[3 + 2 * |t|..])
        case None => None
        case Some(ts) => Some([t] + ts)
  }

  lemma {:induction false} ReadUcs2Bytes(s: Text16, rest: seq<byte>)
    ensures ReadUcs2(Ucs2Bytes(s) + [0, 0] + rest) == Some(s)
  {
    var b := Ucs2Bytes(s) + [0, 0] + rest;
    if s == [] {
      assert b[0] == 0 && b[1] == 0;
    } else {
      assert b == LE16(s[0]) + (Ucs2Bytes(s[1..]) + [0, 0] + rest);
      ReadLE16(b, 0, s[0]);
      assert b[2..] == Ucs2Bytes(s[1..]) + [0, 0] + rest;
      ReadUcs2Bytes(s[1..], rest);
      assert [s[0]] + s[1..] == s;
    }
  }

  /** A UCS2 block followed by `tail` reads as its string before the
      strings of `tail`. */
  lemma ReadBlocksCons(s: Text16, tail: seq<byte>)
    ensures ReadBlocks(Block(s) + tail)
      == match ReadBlocks(tail) case None => None case Some(ts) => Some([s] + ts)
  {
    var b := Block(s) + tail;
    assert b == [EFI_HII_SIBT_STRING_UCS2] + (Ucs2Bytes(s) + [0, 0] + tail);
    assert b[1..] == Ucs2Bytes(s) + [0, 0] + tail;
    ReadUcs2Bytes(s, tail);
    assert b[3 + 2 * |s|..] == tail;
  }

  /** The blocks InitStringPackage writes read back as its strings. */
  lemma {:induction false} ReadBlocksRoundTrip(strings: seq<Text16>, rest: seq<byte>)
    ensures ReadBlocks(Blocks(strings) + [EFI_HII_SIBT_END] + rest) == Some(strings)
  {
    if strings != [] {
      var tail := Blocks(strings[1..]) + [EFI_HII_SIBT_END] + rest;
      assert Blocks(strings) + [EFI_HII_SIBT_END] + rest == Block(strings[0]) + tail;
      ReadBlocksCons(strings[0], tail);
      ReadBlocksRoundTrip(strings[1..], rest);
      assert [strings[0]] + strings[1..] == strings;
    }
  }

  /** Every field of the String package reads back as stored: the Length
      (the low 24 bits of the size), the Type, HdrSize and StringInfoOffset
      (both the header size), LanguageName 1, the Language tag, and the
      strings at StringInfoOffset. */
  lemma StringPackageFields(window: seq<byte>, language: Ascii, strings: seq<Text16>)
    requires |window| == 32
    ensures var pkg := StringPackage(window, language, strings);
      && U24At(pkg, 0) == PackageSize(language, strings) % 0x100_0000
      && pkg[3] == EFI_HII_PACKAGE_STRINGS
      && U32At(pkg, 4) == HeaderSize(language) % TWO_32
      && U32At(pkg, 8) == HeaderSize(language) % TWO_32
      && U16At(pkg, 44) == 1
      && CBytes(pkg[LANGUAGE_OFFSET..]) == language
      && ReadBlocks(pkg[HeaderSize(language)..]) == Some(strings)
  {
    HeaderFields(window, language, strings);
    BodyFields(window, language, strings);
  }

  lemma HeaderFields(window: seq<byte>, language: Ascii, strings: seq<Text16>)
    requires |window| == 32
    ensures var pkg := StringPackage(window, language, strings);
      && U24At(pkg, 0) == PackageSize(language, strings) % 0x100_0000
      && pkg[3] == EFI_HII_PACKAGE_STRINGS
      && U32At(pkg, 4) == HeaderSize(language) % TWO_32
      && U32At(pkg, 8) == HeaderSize(language) % TWO_32
      && U16At(pkg, 44) == 1
  {
    var pkg := StringPackage(window, language, strings);
    var hs := HeaderSize(language) % TWO_32;
    var length := LE24(PackageSize(language, strings) % 0x100_0000);
    var rest := language + [0] + Blocks(strings) + [EFI_HII_SIBT_END];
    assert pkg == length + ([EFI_HII_PACKAGE_STRINGS] + LE32(hs) + LE32(hs) + window + LE16(1)) + rest;
    assert pkg[0..3] == length;
    ReadLE24(pkg, 0, PackageSize(language, strings) % 0x100_0000);
    assert pkg[4..8] == LE32(hs);
    ReadLE32(pkg, 4, hs);
    assert pkg[8..12] == LE32(hs);
    ReadLE32(pkg, 8, hs);
    assert pkg[44..46] == LE16(1);
    ReadLE16(pkg, 44, 1);
  }

  lemma BodyFields(window: seq<byte>, language: Ascii, strings: seq<Text16>)
    requires |window| == 32
    ensures var pkg := StringPackage(window, language, strings);
      && CBytes(pkg[LANGUAGE_OFFSET..]) == language
      && ReadBlocks(pkg[HeaderSize(language)..]) == Some(strings)
  {
    var pkg := StringPackage(window, language, strings);
    var hs := HeaderSize(language) % TWO_32;
    var after := Blocks(strings) + [EFI_HII_SIBT_END];
    var head := LE24(PackageSize(language, strings) % 0x100_0000)
      + ([EFI_HII_PACKAGE_STRINGS] + LE32(hs) + LE32(hs) + window + LE16(1));
    assert pkg == head + (language + [0] + after);
    assert pkg[LANGUAGE_OFFSET..] == language + [0] + after;
    CBytesOfTerminated(language, after);
    assert pkg[HeaderSize(language)..] == Blocks(strings) + [EFI_HII_SIBT_END] + [];
    ReadBlocksRoundTrip(strings, []);
  }

  // ---------------------------------------------------------------------
  // The package list of UefiMain

  const EN_US: Ascii := [0x65, 0x6E, 0x2D, 0x55, 0x53]   // "en-US"
  const FR_FR: Ascii := [0x66, 0x72, 0x2D, 0x46, 0x52]   // "fr-FR"
  const ENGLISH: Text16 := [0x45, 0x6E, 0x67, 0x6C, 0x69, 0x73, 0x68]   // L"English"
  const HELLO: Text16 := [0x48, 0x65, 0x6C, 0x6C, 0x6F]                 // L"Hello"
  const FRENCH: Text16 := [0x46, 0x72, 0x65, 0x6E, 0x63, 0x68]          // L"French"
  const BONJOUR: Text16 := [0x42, 0x6F, 0x6E, 0x6A, 0x6F, 0x75, 0x72]   // L"Bonjour"

  const EN_STRINGS: seq<Text16> := [ENGLISH, HELLO]
  const FR_STRINGS: seq<Text16> := [FRENCH, BONJOUR]

  /** PackageLength of the list: list header, both String packages and
      the END package header. */
  function ListSize(en: seq<Text16>, fr: seq<Text16>): nat
  {
    LIST_HEADER_SIZE + PackageSize(EN_US, en) + PackageSize(FR_FR, fr) + PACKAGE_HEADER_SIZE
  }

  /** The END package: a bare header of Length 4. */
  const END_PACKAGE: seq<byte> := LE24(PACKAGE_HEADER_SIZE) + [EFI_HII_PACKAGE_END]

  /** The package list UefiMain registers; the LanguageWindows are zero
      because the buffer comes from AllocateZeroPool. */
  function PackageList(guid: Guid, en: seq<Text16>, fr: seq<Text16>): (r: seq<byte>)
    requires ListSize(en, fr) <= DATA_SIZE
    ensures |r| == ListSize(en, fr)
  {
    guid + LE32(ListSize(en, fr)) + StringPackage(ZeroBytes(32), EN_US, en)
    + StringPackage(ZeroBytes(32), FR_FR, fr) + END_PACKAGE
  }

  /** The package list with `en` and `fr` built in the 200-byte buffer:
      UefiMain with its strings as parameters. The list must fit in the
      buffer, which nothing in the source checks. */
  method BuildPackageList(guid: Guid, en: seq<Text16>, fr: seq<Text16>)
    returns (data: array<byte>, offset: nat)
    requires ListSize(en, fr) <= DATA_SIZE
    ensures fresh(data) && data.Length == DATA_SIZE
    ensures offset == ListSize(en, fr)
    ensures data[..] == PackageList(guid, en, fr) + ZeroBytes(DATA_SIZE - offset)
  {
    data := new byte[DATA_SIZE](_ => 0);
    offset := WriteList(data, guid, en, fr);
  }

  /** The writes of UefiMain into the zeroed buffer `data`. */
  method WriteList(data: array<byte>, guid: Guid, en: seq<Text16>, fr: seq<Text16>)
    returns (offset: nat)
    requires ListSize(en, fr) <= DATA_SIZE && data.Length == DATA_SIZE
    requires forall j :: 0 <= j < data.Length ==> data[j] == 0
    modifies data
    ensures offset == ListSize(en, fr)
    ensures data[..] == PackageList(guid, en, fr) + ZeroBytes(DATA_SIZE - offset)
  {
    ghost var z := data[..];
    Put(data, 0, guid);
    ghost var w0 := data[..];
    var n1 := InitStringPackage(data, LIST_HEADER_SIZE, EN_US, en);
    var o1 := LIST_HEADER_SIZE + n1;
    ghost var w1 := data[..];
    var n2 := InitStringPackage(data, o1, FR_FR, fr);
    var o2 := o1 + n2;
    ghost var w2 := data[..];
    Put(data, o2, END_PACKAGE);
    offset := o2 + PACKAGE_HEADER_SIZE;
    ghost var w3 := data[..];
    Put(data, 16, LE32(offset));
    ListWrites(z, w0, w1, w2, w3, data[..], guid, en, fr, o1, o2, offset);
  }

  /** The five writes of BuildPackageList, applied to the zeroed buffer:
      the GUID, both packages, the END header and then PackageLength. */
  lemma ListWrites(z: seq<byte>, w0: seq<byte>, w1: seq<byte>, w2: seq<byte>, w3: seq<byte>,
                   w4: seq<byte>, guid: Guid, en: seq<Text16>, fr: seq<Text16>, o1: nat, o2: nat, n: nat)
    requires ListSize(en, fr) <= DATA_SIZE && |z| == DATA_SIZE
    requires forall j :: 0 <= j < |z| ==> z[j] == 0
    requires o1 == LIST_HEADER_SIZE + PackageSize(EN_US, en) && o2 == o1 + PackageSize(FR_FR, fr)
    requires n == o2 + PACKAGE_HEADER_SIZE
    requires w0 == Splice(z, 0, guid)
    requires PackageWritten(w0, w1, LIST_HEADER_SIZE, EN_US, en)
    requires PackageWritten(w1, w2, o1, FR_FR, fr)
    requires w3 == Splice(w2, o2, END_PACKAGE)
    requires w4 == Splice(w3, 16, LE32(n))
    ensures n == ListSize(en, fr)
    ensures w4 == PackageList(guid, en, fr) + ZeroBytes(DATA_SIZE - n)
  {
    assert z == ZeroBytes(DATA_SIZE);
    var a := StringPackage(ZeroBytes(32), EN_US, en);
    var b := StringPackage(ZeroBytes(32), FR_FR, fr);
    ZeroWindows(z, w0, guid, o1);
    SpliceOutside(w0, LIST_HEADER_SIZE, a, o1 + 12, o1 + 44);
    ListBytes(z, w0, w1, w2, w3, w4, guid, a, b, END_PACKAGE, o1, o2, n);
  }

  /** Both LanguageWindows are still zero when InitStringPackage reaches them. */
  lemma ZeroWindows(z: seq<byte>, w0: seq<byte>, guid: Guid, o1: nat)
    requires z == ZeroBytes(DATA_SIZE) && o1 + 44 <= DATA_SIZE
    requires w0 == Splice(z, 0, guid)
    ensures w0[LIST_HEADER_SIZE + 12..LIST_HEADER_SIZE + 44] == ZeroBytes(32)
    ensures o1 >= 16 ==> w0[o1 + 12..o1 + 44] == ZeroBytes(32)
  {
    SpliceOutside(z, 0, guid, LIST_HEADER_SIZE + 12, LIST_HEADER_SIZE + 44);
    assert z[LIST_HEADER_SIZE + 12..LIST_HEADER_SIZE + 44] == ZeroBytes(32);
    if o1 >= 16 {
      SpliceOutside(z, 0, guid, o1 + 12, o1 + 44);
      assert z[o1 + 12..o1 + 44] == ZeroBytes(32);
    }
  }

  /** The same five writes with the packages as given byte strings. */
  lemma ListBytes(z: seq<byte>, w0: seq<byte>, w1: seq<byte>, w2: seq<byte>, w3: seq<byte>,
                  w4: seq<byte>, guid: Guid, a: seq<byte>, b: seq<byte>, e: seq<byte>,
                  o1: nat, o2: nat, n: u32)
    requires z == ZeroBytes(DATA_SIZE)
    requires o1 == LIST_HEADER_SIZE + |a| && o2 == o1 + |b| && n == o2 + |e| <= DATA_SIZE
    requires w0 == Splice(z, 0, guid)
    requires w1 == Splice(w0, LIST_HEADER_SIZE, a)
    requires w2 == Splice(w1, o1, b)
    requires w3 == Splice(w2, o2, e)
    requires w4 == Splice(w3, 16, LE32(n))
    ensures w4 == guid + LE32(n) + a + b + e + ZeroBytes(DATA_SIZE - n)
  {
    var z4 := ZeroBytes(4);
    SpliceSame(w0, 16, z4);
    SpliceAppend(z, 0, guid, 16, z4);
    SpliceAppend(z, 0, guid + z4, LIST_HEADER_SIZE, a);
    SpliceAppend(z, 0, guid + z4 + a, o1, b);
    SpliceAppend(z, 0, guid + z4 + a + b, o2, e);
    var all := guid + z4 + a + b + e;
    SpliceInner(z, 0, all, 16, LE32(n));
    assert Splice(all, 16, LE32(n)) == guid + LE32(n) + a + b + e;
    SpliceZeros(DATA_SIZE, guid + LE32(n) + a + b + e);
  }

  // ---------------------------------------------------------------------
  // The list as ShowHII walks it

  /** A package header that starts `x`, placed after `pre` in `db`. */
  lemma HeaderAt(db: seq<byte>, pre: seq<byte>, x: seq<byte>, post: seq<byte>, len: u24, kind: byte)
    requires db == pre + x + post && |x| >= PACKAGE_HEADER_SIZE
    requires x[..3] == LE24(len) && x[3] == kind
    ensures |pre| + PACKAGE_HEADER_SIZE <= |db|
    ensures HiiPackages.PackageLength(db, |pre|) == len && HiiPackages.PackageKind(db, |pre|) == kind
  {
    assert db[|pre|..|pre| + 3] == x[..3];
    ReadLE24(db, |pre|, len);
    assert db[|pre| + 3] == x[3];
  }

  /** The String package starts with its own header: Length and Type STRINGS. */
  lemma StringPackageHeader(window: seq<byte>, language: Ascii, strings: seq<Text16>)
    requires |window| == 32 && PackageSize(language, strings) < 0x100_0000
    ensures var pkg := StringPackage(window, language, strings);
      pkg[..3] == LE24(|pkg|) && pkg[3] == EFI_HII_PACKAGE_STRINGS
  {
  }

  /** ShowHII, run over what UefiMain registers, finds one list with the
      GUID and the whole length, holding the en-US and fr-FR String
      packages and the END package. */
  lemma PackageListWalk(guid: Guid, en: seq<Text16>, fr: seq<Text16>)
    requires ListSize(en, fr) <= DATA_SIZE
    ensures var db := PackageList(guid, en, fr);
      var p1 := PackageSize(EN_US, en);
      var p2 := PackageSize(FR_FR, fr);
      && HiiPackages.Walkable(db)
      && HiiPackages.Lists(db, 0) == [HiiPackages.ListInfo(0, guid, |db|)]
      && HiiPackages.Packages(db, LIST_HEADER_SIZE, |db|)
         == [HiiPackages.PackageInfo(LIST_HEADER_SIZE, EFI_HII_PACKAGE_STRINGS, p1),
             HiiPackages.PackageInfo(LIST_HEADER_SIZE + p1, EFI_HII_PACKAGE_STRINGS, p2),
             HiiPackages.PackageInfo(LIST_HEADER_SIZE + p1 + p2, EFI_HII_PACKAGE_END, 4)]
  {
    ListHeaders(guid, en, fr);
    ListOfThree(PackageList(guid, en, fr), guid, PackageSize(EN_US, en), PackageSize(FR_FR, fr));
  }

  /** A list with the GUID and the whole length, whose headers give two
      String packages of `p1` and `p2` bytes and the END package, walks
      as one list of those three packages. */
  lemma ListOfThree(db: seq<byte>, guid: Guid, p1: nat, p2: nat)
    requires LIST_HEADER_SIZE + p1 + p2 + 4 == |db| && p1 >= 4 && p2 >= 4
    requires db[0..16] == guid && HiiPackages.ListLength(db, 0) == |db|
    requires HiiPackages.PackageLength(db, LIST_HEADER_SIZE) == p1
    requires HiiPackages.PackageKind(db, LIST_HEADER_SIZE) == EFI_HII_PACKAGE_STRINGS
    requires HiiPackages.PackageLength(db, LIST_HEADER_SIZE + p1) == p2
    requires HiiPackages.PackageKind(db, LIST_HEADER_SIZE + p1) == EFI_HII_PACKAGE_STRINGS
    requires HiiPackages.PackageLength(db, LIST_HEADER_SIZE + p1 + p2) == 4
    requires HiiPackages.PackageKind(db, LIST_HEADER_SIZE + p1 + p2) == EFI_HII_PACKAGE_END
    ensures HiiPackages.Walkable(db)
    ensures HiiPackages.Lists(db, 0) == [HiiPackages.ListInfo(0, guid, |db|)]
    ensures HiiPackages.Packages(db, LIST_HEADER_SIZE, |db|)
         == [HiiPackages.PackageInfo(LIST_HEADER_SIZE, EFI_HII_PACKAGE_STRINGS, p1),
             HiiPackages.PackageInfo(LIST_HEADER_SIZE + p1, EFI_HII_PACKAGE_STRINGS, p2),
             HiiPackages.PackageInfo(LIST_HEADER_SIZE + p1 + p2, EFI_HII_PACKAGE_END, 4)]
  {
    ThreePackages(db, LIST_HEADER_SIZE, p1, p2, 4);
    OneList(db, guid);
  }

  /** The headers of the list UefiMain builds: its GUID and length, then
      the lengths and types of its three packages. */
  lemma ListHeaders(guid: Guid, en: seq<Text16>, fr: seq<Text16>)
    requires ListSize(en, fr) <= DATA_SIZE
    ensures var db := PackageList(guid, en, fr);
      var p1 := PackageSize(EN_US, en);
      var p2 := PackageSize(FR_FR, fr);
      && LIST_HEADER_SIZE + p1 + p2 + 4 == |db| && p1 >= 4 && p2 >= 4
      && db[0..16] == guid && HiiPackages.ListLength(db, 0) == |db|
      && HiiPackages.PackageLength(db, LIST_HEADER_SIZE) == p1
      && HiiPackages.PackageKind(db, LIST_HEADER_SIZE) == EFI_HII_PACKAGE_STRINGS
      && HiiPackages.PackageLength(db, LIST_HEADER_SIZE + p1) == p2
      && HiiPackages.PackageKind(db, LIST_HEADER_SIZE + p1) == EFI_HII_PACKAGE_STRINGS
      && HiiPackages.PackageLength(db, LIST_HEADER_SIZE + p1 + p2) == 4
      && HiiPackages.PackageKind(db, LIST_HEADER_SIZE + p1 + p2) == EFI_HII_PACKAGE_END
  {
    var db := PackageList(guid, en, fr);
    var a := StringPackage(ZeroBytes(32), EN_US, en);
    var b := StringPackage(ZeroBytes(32), FR_FR, fr);
    var head := guid + LE32(|db|);
    assert db == head + a + b + END_PACKAGE;
    assert db[16..20] == LE32(|db|);
    ReadLE32(db, 16, |db|);
    assert db[0..16] == guid;
    StringPackageHeader(ZeroBytes(32), EN_US, en);
    StringPackageHeader(ZeroBytes(32), FR_FR, fr);
    HeaderAt(db, head, a, b + END_PACKAGE, |a|, EFI_HII_PACKAGE_STRINGS);
    HeaderAt(db, head + a, b, END_PACKAGE, |b|, EFI_HII_PACKAGE_STRINGS);
    HeaderAt(db, head + a + b, END_PACKAGE, [], 4, EFI_HII_PACKAGE_END);
  }

  /** Three packages whose headers read as lengths `l0`, `l1`, `l2` and fill
      `db` from `q` to its end. */
  lemma ThreePackages(db: seq<byte>, q: nat, l0: nat, l1: nat, l2: nat)
    requires q + l0 + l1 + l2 == |db| && l0 >= 4 && l1 >= 4 && l2 >= 4
    requires HiiPackages.PackageLength(db, q) == l0
    requires HiiPackages.PackageLength(db, q + l0) == l1
    requires HiiPackages.PackageLength(db, q + l0 + l1) == l2
    ensures HiiPackages.PackagesWalkable(db, q, |db|)
    ensures HiiPackages.Packages(db, q, |db|)
      == [HiiPackages.PackageInfo(q, HiiPackages.PackageKind(db, q), l0),
          HiiPackages.PackageInfo(q + l0, HiiPackages.PackageKind(db, q + l0), l1),
          HiiPackages.PackageInfo(q + l0 + l1, HiiPackages.PackageKind(db, q + l0 + l1), l2)]
  {
    var e := |db|;
    var q1, q2 := q + l0, q + l0 + l1;
    assert HiiPackages.PackagesWalkable(db, e, e) && HiiPackages.Packages(db, e, e) == [];
    assert HiiPackages.PackagesWalkable(db, q2, e);
    assert HiiPackages.Packages(db, q2, e)
      == [HiiPackages.PackageInfo(q2, HiiPackages.PackageKind(db, q2), l2)] + [];
    assert HiiPackages.PackagesWalkable(db, q1, e);
    assert HiiPackages.Packages(db, q1, e)
      == [HiiPackages.PackageInfo(q1, HiiPackages.PackageKind(db, q1), l1)] + HiiPackages.Packages(db, q2, e);
    assert HiiPackages.PackagesWalkable(db, q, e);
    assert HiiPackages.Packages(db, q, e)
      == [HiiPackages.PackageInfo(q, HiiPackages.PackageKind(db, q), l0)] + HiiPackages.Packages(db, q1, e);
  }

  /** A buffer holding exactly one list, whose PackageLength is the buffer
      length and whose packages can be walked, is walkable and lists as
      that one list. */
  lemma OneList(db: seq<byte>, guid: Guid)
    requires LIST_HEADER_SIZE <= |db| && db[0..16] == guid
    requires HiiPackages.ListLength(db, 0) == |db|
    requires HiiPackages.PackagesWalkable(db, LIST_HEADER_SIZE, |db|)
    ensures HiiPackages.Walkable(db)
    ensures HiiPackages.Lists(db, 0) == [HiiPackages.ListInfo(0, guid, |db|)]
  {
    var e := |db|;
    assert HiiPackages.ListsWalkable(db, e) && HiiPackages.Lists(db, e) == [];
    assert HiiPackages.ListsWalkable(db, 0);
    assert HiiPackages.InnerWalkable(db, e);
  }
}
