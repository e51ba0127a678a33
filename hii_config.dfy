/**
 * HIIConfig, the shell application of Lesson_Configuration_Language_5:
 * `dump` prints the whole configuration of the HII database, `extract`
 * asks a driver for the configuration a request names and prints it,
 * `route` hands a configuration string to the drivers. Every string is
 * printed piece by piece by PrintConfigSubString, which decodes the
 * GUID=, NAME=, PATH= and VALUE= payloads.
 *
 * The HII config-routing protocol, StrToGuid, the device-path services,
 * HiiConstructConfigHdr and the print library's "%r" text are firmware
 * services: they are the fields of `Firmware`.
 */
module HiiConfig {
  import opened Efi
  import opened CfgDecode
  import opened CfgPrint

  // ---------------------------------------------------------------------
  // PrintConfigSubString

  datatype Branch = GuidBranch | NameBranch | PathBranch | ValueBranch | OffsetWidthBranch | PlainBranch

  /** The branch a piece takes: the first keyword, in this order, that
      occurs anywhere in the piece (StrStr, not a prefix test). */
  function Classify(seg: string): (b: Branch)
    ensures (b.GuidBranch? || b.NameBranch? || b.PathBranch?) ==> |seg| >= 5
    ensures b.ValueBranch? ==> |seg| >= 6
  {
    if Contains(seg, "GUID=") then GuidBranch
    else if Contains(seg, "NAME=") then NameBranch
    else if Contains(seg, "PATH=") then PathBranch
    else if Contains(seg, "VALUE=") then ValueBranch
    else if Contains(seg, "OFFSET=") || Contains(seg, "WIDTH=") then OffsetWidthBranch
    else PlainBranch
  }

  /** The pieces of a <ConfigHdr> and of a <ConfigBody>, a keyword and a
      hex payload, each take their own branch. */
  lemma ClassifyKeyword(h: string)
    requires AllHexDigits(h)
    ensures Classify("GUID=" + h) == GuidBranch
    ensures Classify("NAME=" + h) == NameBranch
    ensures Classify("PATH=" + h) == PathBranch
    ensures Classify("VALUE=" + h) == ValueBranch
    ensures Classify("OFFSET=" + h) == OffsetWidthBranch
    ensures Classify("WIDTH=" + h) == OffsetWidthBranch
  {
    Leading("GUID=", h);
    ClassifyName(h);
    ClassifyPath(h);
    ClassifyValue(h);
    ClassifyOffset(h);
    ClassifyWidth(h);
  }

  lemma ClassifyName(h: string)
    requires AllHexDigits(h)
    ensures Classify("NAME=" + h) == NameBranch
  {
    var s := "NAME=" + h;
    Leading("NAME=", h);
    KeywordLetters("NAME=", h, 'G');
    Absent(s, "GUID=", 0);
  }

  lemma ClassifyPath(h: string)
    requires AllHexDigits(h)
    ensures Classify("PATH=" + h) == PathBranch
  {
    var s := "PATH=" + h;
    Leading("PATH=", h);
    KeywordLetters("PATH=", h, 'G');
    KeywordLetters("PATH=", h, 'N');
    Absent(s, "GUID=", 0);
    Absent(s, "NAME=", 0);
  }

  lemma ClassifyValue(h: string)
    requires AllHexDigits(h)
    ensures Classify("VALUE=" + h) == ValueBranch
  {
    var s := "VALUE=" + h;
    Leading("VALUE=", h);
    KeywordLetters("VALUE=", h, 'G');
    KeywordLetters("VALUE=", h, 'N');
    KeywordLetters("VALUE=", h, 'P');
    Absent(s, "GUID=", 0);
    Absent(s, "NAME=", 0);
    Absent(s, "PATH=", 0);
  }

  lemma ClassifyOffset(h: string)
    requires AllHexDigits(h)
    ensures Classify("OFFSET=" + h) == OffsetWidthBranch
  {
    var s := "OFFSET=" + h;
    Leading("OFFSET=", h);
    KeywordLetters("OFFSET=", h, 'G');
    KeywordLetters("OFFSET=", h, 'N');
    KeywordLetters("OFFSET=", h, 'P');
    KeywordLetters("OFFSET=", h, 'V');
    Absent(s, "GUID=", 0);
    Absent(s, "NAME=", 0);
    Absent(s, "PATH=", 0);
    Absent(s, "VALUE=", 0);
  }

  lemma ClassifyWidth(h: string)
    requires AllHexDigits(h)
    ensures Classify("WIDTH=" + h) == OffsetWidthBranch
  {
    var s := "WIDTH=" + h;
    Leading("WIDTH=", h);
    KeywordLetters("WIDTH=", h, 'G');
    KeywordLetters("WIDTH=", h, 'N');
    KeywordLetters("WIDTH=", h, 'P');
    KeywordLetters("WIDTH=", h, 'V');
    KeywordLetters("WIDTH=", h, 'O');
    Absent(s, "GUID=", 0);
    Absent(s, "NAME=", 0);
    Absent(s, "PATH=", 0);
    Absent(s, "VALUE=", 0);
    Absent(s, "OFFSET=", 0);
  }

  /** The name NAME= shows: the CHAR16 of NameFromCfgString's buffer up to
      its first zero. */
  function NameShown(p: string): (r: string)
    requires 0 in NameBuffer(p)
    ensures |r| < |p|
  {
    var c := CStr16(NameBuffer(p));
    seq(|c|, k requires 0 <= k < |c| => Char16(c[k]))
  }

  /** PrintConfigSubString reads only what it was given: the NAME= buffer
      holds a zero to end the name, and the PATH= walk stays inside the
      decoded bytes. */
  predicate PieceDefined(seg: string)
  {
    match Classify(seg)
    case NameBranch => 0 in NameBuffer(seg[5..])
    case PathBranch => PathReadable(HexBytes(seg[5..]), 0)
    case _ => true
  }

  /** What PrintConfigSubString prints for one piece; `maxChars` is Print's
      buffer size and `devText` is ConvertDevicePathToText. The payload
      starts right after the five or six keyword characters. */
  function SubStringText(seg: string, maxChars: nat, devText: seq<byte> -> string): string
    requires maxChars >= 6 && PieceDefined(seg)
  {
    match Classify(seg)
    case GuidBranch =>
      var payload := seg[5..];
      if |payload| == 31 || |payload| == 32 then
        var g: Guid := HexBytes(payload);
        "\n" + Printed(seg + " (" + GuidText(g) + ")\n", maxChars)
      else "\n" + Printed(seg + "\n", maxChars)
    case NameBranch =>
      Printed(seg + " (" + NameShown(seg[5..]) + ")\n", maxChars)
    case PathBranch =>
      var b := HexBytes(seg[5..]);
      if PathStatus(b, 0) == Success then Printed(seg + " (" + devText(b) + ")\n", maxChars)
      else Printed(seg + "\n", maxChars)
    case ValueBranch =>
      LongText(seg, maxChars) + "\n" + Hexdump(HexBytesReversed(seg[6..]))
    case OffsetWidthBranch =>
      Printed(seg + "  ", maxChars)
    case PlainBranch =>
      Printed(seg + "\n", maxChars)
  }

  /** PrintConfigSubString as the sub-printer of PrintConfigString. */
  function PieceText(maxChars: nat, devText: seq<byte> -> string): string --> string
    requires maxChars >= 6
  {
    seg requires PieceDefined(seg) => SubStringText(seg, maxChars, devText)
  }

  predicate ConfigDefined(s: string)
  {
    forall i :: 0 <= i < |Pieces(s)| ==> PieceDefined(Pieces(s)[i])
  }

  /** What PrintConfigString prints for a whole configuration string. */
  function ConfigText(s: string, maxChars: nat, devText: seq<byte> -> string): string
    requires maxChars >= 6 && ConfigDefined(s)
  {
    assert Defined(PieceText(maxChars, devText), Pieces(s));
    Outputs(PieceText(maxChars, devText), Pieces(s))
  }

  // ---------------------------------------------------------------------
  // What the branches show for well-formed pieces.

  /** A GUID= piece carrying the "%02x" text of a GUID's bytes shows that
      GUID in "%g" form. */
  lemma GuidPiece(g: Guid, maxChars: nat, devText: seq<byte> -> string)
    requires maxChars >= 6
    ensures var seg := "GUID=" + HexText(g);
      PieceDefined(seg)
      && SubStringText(seg, maxChars, devText) == "\n" + Printed(seg + " (" + GuidText(g) + ")\n", maxChars)
  {
    var seg := "GUID=" + HexText(g);
    HexTextDigits(g);
    ClassifyKeyword(HexText(g));
    assert seg[5..] == HexText(g);
    HexBytesOfHexText(g);
  }

  /** A NAME= piece carrying the "%04x" text of a name without a zero
      character shows the name. */
  lemma NamePiece(name: seq<u16>, maxChars: nat, devText: seq<byte> -> string)
    requires maxChars >= 6 && |name| >= 1 && 0 !in name
    requires forall i :: 0 <= i < |name| ==> name[i] < 0xD800 || 0xE000 <= name[i]
    ensures var seg := "NAME=" + NameText(name);
      PieceDefined(seg)
      && SubStringText(seg, maxChars, devText) == Printed(seg + " (" + NameString(name) + ")\n", maxChars)
  {
    var seg := "NAME=" + NameText(name);
    NameTextDigits(name);
    ClassifyName(NameText(name));
    assert seg[5..] == NameText(name);
    NameShownOf(name);
  }

  /** The name decoded from its own NAME= text, shown up to its first zero,
      is the name. */
  lemma NameShownOf(name: seq<u16>)
    requires |name| >= 1 && 0 !in name
    requires forall i :: 0 <= i < |name| ==> name[i] < 0xD800 || 0xE000 <= name[i]
    ensures 0 in NameBuffer(NameText(name)) && NameShown(NameText(name)) == NameString(name)
  {
    var p := NameText(name);
    NameRoundTrip(name);
    NameBufferTerminated(p);
    var buf := NameBuffer(p);
    assert buf[..|name|] == name && buf[|name|] == 0;
    assert buf == name + [0] + buf[|name| + 1..];
    CStr16Of(name, buf[|name| + 1..]);
  }

  /** The characters of a name. */
  function NameString(name: seq<u16>): (r: string)
    requires forall i :: 0 <= i < |name| ==> name[i] < 0xD800 || 0xE000 <= name[i]
    ensures |r| == |name| && forall i :: 0 <= i < |name| ==> r[i] as int == name[i]
  {
    seq(|name|, k requires 0 <= k < |name| => Char16(name[k]))
  }

  lemma {:induction false} CStr16Of(s: seq<u16>, rest: seq<u16>)
    requires 0 !in s
    ensures CStr16(s + [0] + rest) == s
  {
    if |s| > 0 {
      assert (s + [0] + rest)[1..] == s[1..] + [0] + rest;
      CStr16Of(s[1..], rest);
    }
  }

  lemma {:induction false} NameTextDigits(name: seq<u16>)
    ensures AllHexDigits(NameText(name))
  {
    if name != [] {
      NameTextDigits(name[1..]);
      assert NameText(name) == HexFixed(name[0], 4) + NameText(name[1..]);
    }
  }

  lemma HexTextDigits(b: seq<byte>)
    ensures AllHexDigits(HexText(b))
  {
    var t := HexText(b);
    forall i | 0 <= i < |t| ensures IsHexDigit(t[i]) {
      HexTextAt(b, i / 2);
    }
  }

  /** A PATH= piece carrying the hex text of a well-built device path is
      shown with the path's text exactly when none of its nodes has a zero
      Type or SubType. */
  lemma PathPiece(ns: seq<PathNode>, maxChars: nat, devText: seq<byte> -> string)
    requires maxChars >= 6
    requires forall i :: 0 <= i < |ns| ==> NodeFits(ns[i]) && !(ns[i].kind == 0x7F && ns[i].subKind == 0xFF)
    ensures var b := EncodePath(ns); var seg := "PATH=" + HexText(b);
      PieceDefined(seg)
      && (SubStringText(seg, maxChars, devText) == Printed(seg + " (" + devText(b) + ")\n", maxChars)
          <== (forall i :: 0 <= i < |ns| ==> ns[i].kind != 0 && ns[i].subKind != 0))
      && (SubStringText(seg, maxChars, devText) == Printed(seg + "\n", maxChars)
          <== (exists i :: 0 <= i < |ns| && (ns[i].kind == 0 || ns[i].subKind == 0)))
  {
    var b := EncodePath(ns);
    var seg := "PATH=" + HexText(b);
    HexTextDigits(b);
    ClassifyKeyword(HexText(b));
    assert seg[5..] == HexText(b);
    HexBytesOfHexText(b);
    EncodedPathStatus(ns);
  }

  /** A VALUE= piece is a number written most significant digit first; the
      dump under it shows the bytes of that number in little-endian order,
      which for an even number of digits are the digits' bytes back to
      front. */
  lemma ValuePiece(h: string, maxChars: nat, devText: seq<byte> -> string)
    requires maxChars >= 6 && AllHexDigits(h)
    ensures var seg := "VALUE=" + h;
      PieceDefined(seg)
      && SubStringText(seg, maxChars, devText) == LongText(seg, maxChars) + "\n" + Hexdump(HexBytesReversed(h))
      && LENumber(HexBytesReversed(h)) == HexNumber(h)
      && (|h| % 2 == 0 ==> HexBytesReversed(h) == Reverse(HexBytes(h)))
  {
    var seg := "VALUE=" + h;
    ClassifyKeyword(h);
    assert seg[6..] == h;
    ReversedIsLittleEndian(h);
    if |h| % 2 == 0 {
      ReversedIsReverse(h);
    }
  }

  // ---------------------------------------------------------------------
  // A whole <ConfigHdr>.

  /** GUID=<guid>&NAME=<name>&PATH=<path>, as HiiConstructConfigHdr writes it. */
  function HdrString(g: Guid, name: seq<u16>, path: seq<byte>): string
  {
    "GUID=" + HexText(g) + "&" + ("NAME=" + NameText(name)) + "&" + ("PATH=" + HexText(path))
  }

  /** PrintConfigString shows a header as three lines: the GUID, the name
      and the device path, each decoded from its hex payload. */
  lemma HdrLines(g: Guid, name: seq<u16>, ns: seq<PathNode>, maxChars: nat, devText: seq<byte> -> string)
    requires maxChars >= 6 && |name| >= 1 && 0 !in name
    requires forall i :: 0 <= i < |name| ==> name[i] < 0xD800 || 0xE000 <= name[i]
    requires forall i :: 0 <= i < |ns| ==>
      NodeFits(ns[i]) && ns[i].kind != 0 && ns[i].subKind != 0 && !(ns[i].kind == 0x7F && ns[i].subKind == 0xFF)
    ensures var s := HdrString(g, name, EncodePath(ns));
      ConfigDefined(s)
      && ConfigText(s, maxChars, devText) ==
           "\n" + Printed("GUID=" + HexText(g) + " (" + GuidText(g) + ")\n", maxChars)
           + Printed("NAME=" + NameText(name) + " (" + NameString(name) + ")\n", maxChars)
           + Printed("PATH=" + HexText(EncodePath(ns)) + " (" + devText(EncodePath(ns)) + ")\n", maxChars)
  {
    var b := EncodePath(ns);
    var gp, np, pp := "GUID=" + HexText(g), "NAME=" + NameText(name), "PATH=" + HexText(b);
    HdrPieces(g, name, b);
    GuidPiece(g, maxChars, devText);
    NamePiece(name, maxChars, devText);
    PathPiece(ns, maxChars, devText);
    ThreePieces(HdrString(g, name, b), gp, np, pp, maxChars, devText);
  }

  /** The text of a string of three pieces is the three pieces' texts. */
  lemma ThreePieces(s: string, a: string, b: string, c: string, maxChars: nat, devText: seq<byte> -> string)
    requires maxChars >= 6 && Pieces(s) == [a, b, c]
    requires PieceDefined(a) && PieceDefined(b) && PieceDefined(c)
    ensures ConfigDefined(s)
    ensures ConfigText(s, maxChars, devText) ==
      SubStringText(a, maxChars, devText) + SubStringText(b, maxChars, devText) + SubStringText(c, maxChars, devText)
  {
    var ps := Pieces(s);
    forall i | 0 <= i < |ps| ensures PieceDefined(ps[i]) {
      assert ps[i] in {a, b, c};
    }
    var f := PieceText(maxChars, devText);
    assert f.requires(a) && f.requires(b) && f.requires(c);
    Outputs3(f, a, b, c);
  }

  /** A header splits into its GUID=, NAME= and PATH= pieces. */
  lemma HdrPieces(g: Guid, name: seq<u16>, path: seq<byte>)
    ensures Pieces(HdrString(g, name, path)) ==
              ["GUID=" + HexText(g), "NAME=" + NameText(name), "PATH=" + HexText(path)]
  {
    var gp, np, pp := "GUID=" + HexText(g), "NAME=" + NameText(name), "PATH=" + HexText(path);
    HexTextDigits(g);
    NameTextDigits(name);
    HexTextDigits(path);
    KeywordLetters("GUID=", HexText(g), '&');
    KeywordLetters("NAME=", NameText(name), '&');
    KeywordLetters("PATH=", HexText(path), '&');
    PiecesSingle(gp);
    PiecesAppend(gp, np);
    PiecesAppend(gp + "&" + np, pp);
  }

  // ---------------------------------------------------------------------
  // Building requests from arguments

  /** extract with seven arguments: "<hdr>&OFFSET=<o>&WIDTH=<w>", printed
      with UnicodeSPrint into a buffer of (length + 1) CHAR16, which holds
      the whole request. */
  function ExtractRequest(hdr: string, offset: string, width: string): (r: string)
    ensures r == hdr + "&OFFSET=" + offset + "&WIDTH=" + width
  {
    var size := (|hdr| + |"&OFFSET="| + |offset| + |"&WIDTH="| + |width| + 1) * 2;
    SPrintKeep(hdr + "&OFFSET=" + offset + "&WIDTH=" + width, size)
  }

  /** route with eight arguments: the same request plus "&VALUE=<v>". */
  function RouteRequest(hdr: string, offset: string, width: string, value: string): (r: string)
    ensures r == hdr + "&OFFSET=" + offset + "&WIDTH=" + width + "&VALUE=" + value
  {
    var size := (|hdr| + |"&OFFSET="| + |offset| + |"&WIDTH="| + |width|
                 + |"&VALUE="| + |value| + 1) * 2;
    SPrintKeep(hdr + "&OFFSET=" + offset + "&WIDTH=" + width + "&VALUE=" + value, size)
  }

  /** A built request splits back into the header's pieces and one piece
      per argument. */
  lemma ExtractRequestPieces(hdr: string, offset: string, width: string)
    requires '&' !in offset && '&' !in width
    ensures Pieces(ExtractRequest(hdr, offset, width)) ==
              Pieces(hdr) + ["OFFSET=" + offset, "WIDTH=" + width]
  {
    var o, w := "OFFSET=" + offset, "WIDTH=" + width;
    assert "&OFFSET=" == "&" + "OFFSET=" && "&WIDTH=" == "&" + "WIDTH=";
    Tagged(hdr, "OFFSET=", offset);
    Tagged(hdr + "&" + o, "WIDTH=", width);
    PiecesAppend(hdr, o);
    PiecesAppend(hdr + "&" + o, w);
  }

  /** Appending "&" + key and then a value appends the piece key + value. */
  lemma Tagged(s: string, key: string, value: string)
    ensures s + ("&" + key) + value == s + "&" + (key + value)
  {
  }

  lemma RouteRequestPieces(hdr: string, offset: string, width: string, value: string)
    requires '&' !in offset && '&' !in width && '&' !in value
    ensures Pieces(RouteRequest(hdr, offset, width, value)) ==
              Pieces(hdr) + ["OFFSET=" + offset, "WIDTH=" + width, "VALUE=" + value]
  {
    var e := ExtractRequest(hdr, offset, width);
    var v := "VALUE=" + value;
    ExtractRequestPieces(hdr, offset, width);
    assert "&VALUE=" == "&" + "VALUE=";
    Tagged(e, "VALUE=", value);
    PiecesAppend(e, v);
  }

  // ---------------------------------------------------------------------
  // ShellAppMain

  /** What ExtractConfig and RouteConfig hand back. */
  datatype Reply = Reply(status: Status, progress: string, result: string)

  /** The services the application relies on. */
  datatype Firmware = Firmware(
    locate: Status,                         // LocateProtocol of the config-routing protocol
    exported: string,                       // ExportConfig's result
    extract: string -> Reply,               // ExtractConfig
    route: string -> Reply,                 // RouteConfig (its result is not used)
    strToGuid: string -> Option<Guid>,      // StrToGuid
    driverOf: string -> Option<nat>,        // the driver handle LocateDevicePath finds, if any
    configHdr: (Guid, string, nat) -> string,  // HiiConstructConfigHdr
    devText: seq<byte> -> string,           // ConvertDevicePathToText
    statusText: Status -> string)           // what "%r" prints

  /** What a run prints and returns, and the request it sent, if any. */
  datatype Run = Run(status: Status, text: string, sent: Option<string>)

  /** The usage lines, each printed by its own Print call. */
  const USAGE_LINES: seq<string> := [
    "Usage:\n",
    "HIIConfig.efi dump\n",
    "HIIConfig.efi extract <ConfigStr>\n",
    "HIIConfig.efi extract <Guid> <Name> <Path>\n",
    "HIIConfig.efi extract <Guid> <Name> <Path> <Offset> <Width>\n",
    "HIIConfig.efi route <ConfigStr>\n",
    "HIIConfig.efi route <Guid> <Name> <Path> <Offset> <Width> <Value>\n"]

  /** Each line as Print shows it, one after the other. */
  function PrintedLines(lines: seq<string>, maxChars: nat): string
  {
    if lines == [] then [] else Printed(lines[0], maxChars) + PrintedLines(lines[1..], maxChars)
  }

  function UsageText(maxChars: nat): string
  {
    PrintedLines(USAGE_LINES, maxChars)
  }

  function WrongArguments(maxChars: nat): string
  {
    Printed("Error! Wrong arguments\n", maxChars) + UsageText(maxChars)
  }

  datatype Header = Hdr(hdr: string) | NoHdr(text: string)

  /** CreateCfgHeader: the GUID text must convert and the device path must
      lead to a driver handle; the header is then HiiConstructConfigHdr's. */
  function CreateCfgHeader(guidStr: string, nameStr: string, pathStr: string,
                           fw: Firmware, maxChars: nat): (h: Header)
    ensures h.Hdr? <==> fw.strToGuid(guidStr).Some? && fw.driverOf(pathStr).Some?
  {
    match fw.strToGuid(guidStr)
    case None => NoHdr(Printed("Error! Can't convert <FormsetGuid> argument to GUID\n", maxChars))
    case Some(g) =>
      match fw.driverOf(pathStr)
      case None => NoHdr(Printed("Error! Can't get DriverHandle\n", maxChars))
      case Some(handle) => Hdr(fw.configHdr(g, nameStr, handle))
  }

  /** The request of a command, or the status and text it stops with. */
  datatype Req = Req(request: string, text: string) | Refused(status: Status, text: string)

  function ExtractReq(argv: seq<CString>, fw: Firmware, maxChars: nat): Req
    requires |argv| >= 2
  {
    if |argv| == 3 then Req(argv[2], [])
    else if |argv| == 5 || |argv| == 7 then
      match CreateCfgHeader(argv[2], argv[3], argv[4], fw, maxChars)
      case NoHdr(text) => Refused(InvalidParameter, text)
      case Hdr(hdr) =>
        var r := if |argv| == 7 then ExtractRequest(hdr, argv[5], argv[6]) else hdr;
        Req(r, Printed("Request: " + r + "\n", maxChars))
    else Refused(InvalidParameter, WrongArguments(maxChars))
  }

  function RouteReq(argv: seq<CString>, fw: Firmware, maxChars: nat): Req
    requires |argv| >= 2
  {
    if |argv| == 3 then Req(argv[2], Printed("Request: " + argv[2] + "\n", maxChars))
    else if |argv| == 8 then
      match CreateCfgHeader(argv[2], argv[3], argv[4], fw, maxChars)
      case NoHdr(text) => Refused(InvalidParameter, text)
      case Hdr(hdr) =>
        var r := RouteRequest(hdr, argv[5], argv[6], argv[7]);
        Req(r, Printed("Request: " + r + "\n", maxChars))
    else Refused(InvalidParameter, WrongArguments(maxChars))
  }

  /** The warnings after RouteConfig: some of the request was not parsed,
      and, if the unparsed part is not the whole request, some was written. */
  function RouteWarnings(progress: string, request: string, maxChars: nat): string
  {
    if progress == [] then []
    else Printed("Part of string was unparsed: " + progress + "\n", maxChars)
         + (if progress != request then Printed("IMPORTANT: part of the data was written!\n", maxChars) else [])
  }

  /** Progress points into the request, at the first part the drivers did
      not take: the "written" warning appears exactly when they took a
      non-empty part but not all of it. */
  lemma RouteWarningsMeaning(request: string, k: nat, maxChars: nat)
    requires k <= |request| && maxChars >= 41
    ensures var w := RouteWarnings(request[k..], request, maxChars);
      (w == [] <==> k == |request|)
      && (0 < k < |request| ==> w[|w| - 41..] == "IMPORTANT: part of the data was written!\n")
      && (k == 0 < |request| ==> w == Printed("Part of string was unparsed: " + request + "\n", maxChars))
  {
    if 0 < k < |request| {
      assert |request[k..]| < |request|;
    }
    if k == 0 {
      assert request[k..] == request;
    }
  }

  /** The request `extract` or `route` sends, when it gets that far. */
  function SentRequest(argv: seq<CString>, fw: Firmware, maxChars: nat): Option<string>
    requires |argv| >= 2
  {
    var q := if argv[1] == "extract" then ExtractReq(argv, fw, maxChars) else RouteReq(argv, fw, maxChars);
    if q.Req? then Some(q.request) else None
  }

  /** Everything the run prints can be printed: the configuration strings
      that `dump` and `extract` show decode within their buffers. */
  predicate MainDefined(argv: seq<CString>, fw: Firmware, maxChars: nat)
  {
    |argv| >= 2 ==>
      (argv[1] == "dump" ==> ConfigDefined(fw.exported))
      && (argv[1] == "extract" && SentRequest(argv, fw, maxChars).Some? ==>
            ConfigDefined(fw.extract(SentRequest(argv, fw, maxChars).value).result))
  }

  function Extract(argv: seq<CString>, fw: Firmware, maxChars: nat): Run
    requires |argv| >= 2 && argv[1] == "extract" && maxChars >= 6 && MainDefined(argv, fw, maxChars)
  {
    match ExtractReq(argv, fw, maxChars)
    case Refused(status, text) => Run(status, text, None)
    case Req(request, text) =>
      var reply := fw.extract(request);
      var text := text + (if reply.progress != [] then Printed("Part of string was unparsed " + reply.progress + "\n", maxChars) else []);
      if IsError(reply.status) then
        Run(reply.status, text + Printed("Error! ExtractConfig returned " + fw.statusText(reply.status) + "\n", maxChars), Some(request))
      else
        Run(Success, text + Printed("Response: ", maxChars) + LongText(reply.result, maxChars) + "\n\n"
                     + ConfigText(reply.result, maxChars, fw.devText), Some(request))
  }

  function Route(argv: seq<CString>, fw: Firmware, maxChars: nat): Run
    requires |argv| >= 2
  {
    match RouteReq(argv, fw, maxChars)
    case Refused(status, text) => Run(status, text, None)
    case Req(request, text) =>
      var reply := fw.route(request);
      var text := text + RouteWarnings(reply.progress, request, maxChars);
      if IsError(reply.status) then
        Run(reply.status, text + Printed("Error! RouteConfig returned " + fw.statusText(reply.status) + "\n", maxChars), Some(request))
      else Run(Success, text, Some(request))
  }

  /** ShellAppMain. `argv` holds Argv[0] .. Argv[Argc-1]. */
  function ShellAppMain(argv: seq<CString>, fw: Firmware, maxChars: nat): Run
    requires |argv| >= 1 && maxChars >= 6 && MainDefined(argv, fw, maxChars)
  {
    if IsError(fw.locate) then
      Run(fw.locate, Printed("Error! Can't locate gEfiHiiConfigRoutingProtocolGuid: " + fw.statusText(fw.locate), maxChars), None)
    else if |argv| == 1 then Run(Success, UsageText(maxChars), None)
    else if argv[1] == "dump" then
      Run(Success, Printed("Full configuration for the HII Database (Size = " + DecText(|fw.exported|) + "):\n", maxChars)
                   + ConfigText(fw.exported, maxChars, fw.devText), None)
    else if argv[1] == "extract" then Extract(argv, fw, maxChars)
    else if argv[1] == "route" then Route(argv, fw, maxChars)
    else Run(InvalidParameter, WrongArguments(maxChars), None)
  }

  /** The run of a command `extract` or `route`: what ShellAppMain does
      once the protocol is located. */
  lemma MainDispatch(argv: seq<CString>, fw: Firmware, maxChars: nat)
    requires |argv| >= 2 && maxChars >= 6 && MainDefined(argv, fw, maxChars) && !IsError(fw.locate)
    ensures argv[1] == "extract" ==> ShellAppMain(argv, fw, maxChars) == Extract(argv, fw, maxChars)
    ensures argv[1] == "route" ==> ShellAppMain(argv, fw, maxChars) == Route(argv, fw, maxChars)
  {
  }

  /** `extract` sends the request it built, and a refused request ends the
      run with the refusal. */
  lemma ExtractSends(argv: seq<CString>, fw: Firmware, maxChars: nat)
    requires |argv| >= 2 && argv[1] == "extract" && maxChars >= 6 && MainDefined(argv, fw, maxChars)
    ensures var q := ExtractReq(argv, fw, maxChars);
      && (q.Req? ==> Extract(argv, fw, maxChars).sent == Some(q.request))
      && (q.Refused? ==> Extract(argv, fw, maxChars) == Run(q.status, q.text, None))
  {
  }

  /** `route` likewise. */
  lemma RouteSends(argv: seq<CString>, fw: Firmware, maxChars: nat)
    requires |argv| >= 2
    ensures var q := RouteReq(argv, fw, maxChars);
      && (q.Req? ==> Route(argv, fw, maxChars).sent == Some(q.request))
      && (q.Refused? ==> Route(argv, fw, maxChars) == Run(q.status, q.text, None))
  {
  }

  /** `extract` takes exactly 3, 5 or 7 arguments: with any other count it
      prints the usage and returns INVALID_PARAMETER without sending
      anything; with an accepted count the request is sent unless the
      header cannot be built. */
  lemma ExtractCounts(argv: seq<CString>, fw: Firmware, maxChars: nat)
    requires |argv| >= 2 && argv[1] == "extract" && maxChars >= 6
    requires MainDefined(argv, fw, maxChars) && !IsError(fw.locate)
    ensures var run := ShellAppMain(argv, fw, maxChars);
      var header := |argv| >= 5 && CreateCfgHeader(argv[2], argv[3], argv[4], fw, maxChars).Hdr?;
      (run.sent.Some? <==> |argv| == 3 || ((|argv| == 5 || |argv| == 7) && header))
      && (!(|argv| in {3, 5, 7}) ==> run == Run(InvalidParameter, WrongArguments(maxChars), None))
  {
    MainDispatch(argv, fw, maxChars);
    ExtractSends(argv, fw, maxChars);
  }

  /** `route` takes exactly 3 or 8 arguments, with the same consequences. */
  lemma RouteCounts(argv: seq<CString>, fw: Firmware, maxChars: nat)
    requires |argv| >= 2 && argv[1] == "route" && maxChars >= 6
    requires MainDefined(argv, fw, maxChars) && !IsError(fw.locate)
    ensures var run := ShellAppMain(argv, fw, maxChars);
      var header := |argv| >= 5 && CreateCfgHeader(argv[2], argv[3], argv[4], fw, maxChars).Hdr?;
      (run.sent.Some? <==> |argv| == 3 || (|argv| == 8 && header))
      && (!(|argv| in {3, 8}) ==> run == Run(InvalidParameter, WrongArguments(maxChars), None))
  {
    MainDispatch(argv, fw, maxChars);
    RouteSends(argv, fw, maxChars);
  }

  /** A command other than dump, extract and route is refused like a wrong
      argument count; no arguments at all print the usage and succeed. */
  lemma OtherCommands(argv: seq<CString>, fw: Firmware, maxChars: nat)
    requires |argv| >= 1 && maxChars >= 6 && MainDefined(argv, fw, maxChars) && !IsError(fw.locate)
    ensures |argv| == 1 ==> ShellAppMain(argv, fw, maxChars) == Run(Success, UsageText(maxChars), None)
    ensures |argv| >= 2 && !(argv[1] in {"dump", "extract", "route"}) ==>
      ShellAppMain(argv, fw, maxChars) == Run(InvalidParameter, WrongArguments(maxChars), None)
  {
  }

  /** The requests sent: the argument itself, the header, or the header
      with the offset, width (and value) pieces appended, never cut short. */
  lemma SentRequests(argv: seq<CString>, fw: Firmware, maxChars: nat)
    requires |argv| >= 2 && maxChars >= 6 && MainDefined(argv, fw, maxChars) && !IsError(fw.locate)
    ensures var run := ShellAppMain(argv, fw, maxChars);
      (argv[1] in {"extract", "route"} && |argv| == 3 ==> run.sent.Some? && run.sent.value == argv[2])
      && (argv[1] == "extract" && |argv| == 7 && run.sent.Some? ==>
            var h := CreateCfgHeader(argv[2], argv[3], argv[4], fw, maxChars);
            h.Hdr? && run.sent == Some(h.hdr + "&OFFSET=" + argv[5] + "&WIDTH=" + argv[6]))
      && (argv[1] == "route" && |argv| == 8 && run.sent.Some? ==>
            var h := CreateCfgHeader(argv[2], argv[3], argv[4], fw, maxChars);
            h.Hdr? && run.sent == Some(h.hdr + "&OFFSET=" + argv[5] + "&WIDTH=" + argv[6] + "&VALUE=" + argv[7]))
  {
    MainDispatch(argv, fw, maxChars);
    if argv[1] == "extract" {
      ExtractSent(argv, fw, maxChars);
    } else if argv[1] == "route" {
      RouteSent(argv, fw, maxChars);
    }
  }

  /** The requests `extract` sends. */
  lemma ExtractSent(argv: seq<CString>, fw: Firmware, maxChars: nat)
    requires |argv| >= 2 && argv[1] == "extract" && maxChars >= 6 && MainDefined(argv, fw, maxChars)
    ensures var run := Extract(argv, fw, maxChars);
      (|argv| == 3 ==> run.sent.Some? && run.sent.value == argv[2])
      && (|argv| == 7 && run.sent.Some? ==>
            var h := CreateCfgHeader(argv[2], argv[3], argv[4], fw, maxChars);
            h.Hdr? && run.sent == Some(h.hdr + "&OFFSET=" + argv[5] + "&WIDTH=" + argv[6]))
  {
    ExtractSends(argv, fw, maxChars);
    if |argv| >= 5 {
      HeaderSent(argv, fw, maxChars, CreateCfgHeader(argv[2], argv[3], argv[4], fw, maxChars));
    }
  }

  /** The requests `route` sends. */
  lemma RouteSent(argv: seq<CString>, fw: Firmware, maxChars: nat)
    requires |argv| >= 2 && argv[1] == "route"
    ensures var run := Route(argv, fw, maxChars);
      (|argv| == 3 ==> run.sent.Some? && run.sent.value == argv[2])
      && (|argv| == 8 && run.sent.Some? ==>
            var h := CreateCfgHeader(argv[2], argv[3], argv[4], fw, maxChars);
            h.Hdr? && run.sent == Some(h.hdr + "&OFFSET=" + argv[5] + "&WIDTH=" + argv[6] + "&VALUE=" + argv[7]))
  {
    RouteSends(argv, fw, maxChars);
    if |argv| >= 5 {
      HeaderSent(argv, fw, maxChars, CreateCfgHeader(argv[2], argv[3], argv[4], fw, maxChars));
    }
  }

  /** With five or more arguments, a request is built only from a header. */
  lemma HeaderSent(argv: seq<CString>, fw: Firmware, maxChars: nat, h: Header)
    requires |argv| >= 5 && h == CreateCfgHeader(argv[2], argv[3], argv[4], fw, maxChars)
    ensures |argv| == 7 && ExtractReq(argv, fw, maxChars).Req? ==>
      h.Hdr? && ExtractReq(argv, fw, maxChars).request == h.hdr + "&OFFSET=" + argv[5] + "&WIDTH=" + argv[6]
    ensures |argv| == 8 && RouteReq(argv, fw, maxChars).Req? ==>
      h.Hdr? && RouteReq(argv, fw, maxChars).request
                == h.hdr + "&OFFSET=" + argv[5] + "&WIDTH=" + argv[6] + "&VALUE=" + argv[7]
  {
  }
}
