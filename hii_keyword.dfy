/**
 * HIIKeyword, the shell application of Lesson_Configuration_Language_7:
 * `get` reads keywords through the EFI_CONFIG_KEYWORD_HANDLER_PROTOCOL and
 * prints the <MultiKeywordResp> piece by piece, `set` writes a
 * <MultiKeywordRequest>. Its decoders, PrintBuffer, PrintLongString and
 * PrintConfigString are the same code as HIIConfig's and are modelled once,
 * in CfgDecode and CfgPrint; only the piece printer and the argument rules
 * differ.
 */
module HiiKeyword {
  import opened Efi
  import opened CfgDecode
  import opened CfgPrint

  // ---------------------------------------------------------------------
  // PrintConfigSubString of the keyword responses

  datatype Branch = NamespaceBranch | PathBranch | ValueBranch | PlainBranch

  /** The first of NAMESPACE=, PATH= and VALUE= that occurs anywhere in
      the piece. */
  function Classify(seg: string): (b: Branch)
    ensures b.PathBranch? ==> |seg| >= 5
    ensures b.ValueBranch? ==> |seg| >= 6
  {
    if Contains(seg, "NAMESPACE=") then NamespaceBranch
    else if Contains(seg, "PATH=") then PathBranch
    else if Contains(seg, "VALUE=") then ValueBranch
    else PlainBranch
  }

  /** The pieces of a keyword response take their own branch: a namespace
      piece whatever follows the keyword, a path or value piece when a hex
      payload follows. */
  lemma ClassifyKeyword(x: string, h: string)
    requires AllHexDigits(h)
    ensures Classify("NAMESPACE=" + x) == NamespaceBranch
    ensures Classify("PATH=" + h) == PathBranch
    ensures Classify("VALUE=" + h) == ValueBranch
  {
    Leading("NAMESPACE=", x);
    Leading("PATH=", h);
    Leading("VALUE=", h);
    KeywordLetters("PATH=", h, 'N');
    Absent("PATH=" + h, "NAMESPACE=", 0);
    KeywordLetters("VALUE=", h, 'N');
    KeywordLetters("VALUE=", h, 'P');
    Absent("VALUE=" + h, "NAMESPACE=", 0);
    Absent("VALUE=" + h, "PATH=", 0);
  }

  /** The PATH= walk stays inside the decoded bytes. */
  predicate PieceDefined(seg: string)
  {
    Classify(seg).PathBranch? ==> PathReadable(HexBytes(seg[5..]), 0)
  }

  /** What PrintConfigSubString prints for one piece of a response. */
  function SubStringText(seg: string, maxChars: nat, devText: seq<byte> -> string): string
    requires maxChars >= 6 && PieceDefined(seg)
  {
    match Classify(seg)
    case NamespaceBranch => "\n" + Printed(seg + "\n", maxChars)
    case PathBranch =>
      var b := HexBytes(seg[5..]);
      if PathStatus(b, 0) == Success then Printed(seg + " (" + devText(b) + ")\n", maxChars)
      else Printed(seg + "\n", maxChars)
    case ValueBranch =>
      LongText(seg, maxChars) + "\n" + Hexdump(HexBytesReversed(seg[6..]))
    case PlainBranch => Printed(seg + "\n", maxChars)
  }

  function PieceText(maxChars: nat, devText: seq<byte> -> string): string --> string
    requires maxChars >= 6
  {
    seg requires PieceDefined(seg) => SubStringText(seg, maxChars, devText)
  }

  predicate ResponseDefined(s: string)
  {
    forall i :: 0 <= i < |Pieces(s)| ==> PieceDefined(Pieces(s)[i])
  }

  /** What PrintConfigString prints for a keyword response. */
  function ResponseText(s: string, maxChars: nat, devText: seq<byte> -> string): string
    requires maxChars >= 6 && ResponseDefined(s)
  {
    assert Defined(PieceText(maxChars, devText), Pieces(s));
    Outputs(PieceText(maxChars, devText), Pieces(s))
  }

  /** A VALUE= piece shows its payload as a little-endian number. */
  lemma ValuePiece(h: string, maxChars: nat, devText: seq<byte> -> string)
    requires maxChars >= 6 && AllHexDigits(h)
    ensures var seg := "VALUE=" + h;
      PieceDefined(seg)
      && SubStringText(seg, maxChars, devText) == LongText(seg, maxChars) + "\n" + Hexdump(HexBytesReversed(h))
      && LENumber(HexBytesReversed(h)) == HexNumber(h)
  {
    ClassifyKeyword([], h);
    assert ("VALUE=" + h)[6..] == h;
    ReversedIsLittleEndian(h);
  }

  /** A namespace piece opens a new block: an empty line, then the piece. */
  lemma NamespacePiece(x: string, maxChars: nat, devText: seq<byte> -> string)
    requires maxChars >= 6
    ensures PieceDefined("NAMESPACE=" + x)
    ensures SubStringText("NAMESPACE=" + x, maxChars, devText) == "\n" + Printed("NAMESPACE=" + x + "\n", maxChars)
  {
    ClassifyKeyword(x, []);
  }

  // ---------------------------------------------------------------------
  // ProgressErrorStr

  const KEYWORD_HANDLER_NAMESPACE_ID_NOT_FOUND: u32 := 0x1
  const KEYWORD_HANDLER_MALFORMED_STRING: u32 := 0x2
  const KEYWORD_HANDLER_KEYWORD_NOT_FOUND: u32 := 0x4
  const KEYWORD_HANDLER_INCOMPATIBLE_VALUE_DETECTED: u32 := 0x8
  const KEYWORD_HANDLER_ACCESS_NOT_PERMITTED: u32 := 0x10

  predicate KnownProgressErr(e: u32)
  {
    e in {KEYWORD_HANDLER_NAMESPACE_ID_NOT_FOUND, KEYWORD_HANDLER_MALFORMED_STRING,
          KEYWORD_HANDLER_KEYWORD_NOT_FOUND, KEYWORD_HANDLER_INCOMPATIBLE_VALUE_DETECTED,
          KEYWORD_HANDLER_ACCESS_NOT_PERMITTED}
  }

  function ProgressErrorStr(e: u32): (r: string)
    ensures |r| > 0 && r[|r| - 1] == '\n'
    ensures r == "Unknown error\n" <==> !KnownProgressErr(e)
  {
    if e == KEYWORD_HANDLER_NAMESPACE_ID_NOT_FOUND then "NamespaceId not found\n"
    else if e == KEYWORD_HANDLER_MALFORMED_STRING then "Malformed string\n"
    else if e == KEYWORD_HANDLER_KEYWORD_NOT_FOUND then "Keyword not found\n"
    else if e == KEYWORD_HANDLER_INCOMPATIBLE_VALUE_DETECTED then "Incompatible value detected\n"
    else if e == KEYWORD_HANDLER_ACCESS_NOT_PERMITTED then "Access not permitted\n"
    else "Unknown error\n"
  }

  /** The five known codes each have a message of their own. */
  lemma ProgressErrorStrDistinct(e: u32, f: u32)
    requires KnownProgressErr(e) && KnownProgressErr(f) && e != f
    ensures ProgressErrorStr(e) != ProgressErrorStr(f)
  {
  }

  // ---------------------------------------------------------------------
  // ShellAppMain

  /** What GetData and SetData hand back. */
  datatype Reply = Reply(status: Status, progress: string, progressErr: u32, results: string)

  /** The keyword-handler protocol and the texts of the print library. */
  datatype Handler = Handler(
    locate: Status,                                   // LocateProtocol of the keyword handler
    getData: (Option<string>, Option<string>) -> Reply,  // GetData(NameSpaceId, KeywordString); None is NULL
    setData: string -> Reply,                         // SetData(KeywordString)
    devText: seq<byte> -> string,                     // ConvertDevicePathToText
    statusText: Status -> string)                     // what "%r" prints

  /** The protocol call a run makes. */
  datatype Call = Get(namespace: Option<string>, keyword: Option<string>) | SetCall(request: string)

  datatype Run = Run(status: Status, text: string, call: Option<Call>)

  function UsageText(maxChars: nat): string
  {
    Printed("Usage:\n", maxChars)
    + Printed("HIIKeyword get <NamespaceStr> <KeywordStr>\n", maxChars)
    + Printed("HIIKeyword set <KeywordStr>\n", maxChars)
  }

  function WrongArgument(maxChars: nat): string
  {
    Printed("Wrong argument!\n", maxChars) + UsageText(maxChars)
  }

  /** An empty argument is passed on as NULL. */
  function NullIfEmpty(s: string): (r: Option<string>)
    ensures r.None? <==> s == []
    ensures r.Some? ==> r.value == s
  {
    if s == [] then None else Some(s)
  }

  /** The warnings both commands print after the call. */
  function Warnings(reply: Reply, maxChars: nat): string
  {
    (if reply.progress != [] then Printed("Part of string was unparsed " + reply.progress + "\n", maxChars) else [])
    + (if reply.progressErr != 0 then Printed("Error! ProgressErr=" + ProgressErrorStr(reply.progressErr) + "\n", maxChars) else [])
  }

  /** The call `argv` leads to, if any. */
  function CallOf(argv: seq<CString>): Option<Call>
    requires |argv| >= 2
  {
    if argv[1] == "get" && |argv| == 4 then Some(Get(NullIfEmpty(argv[2]), NullIfEmpty(argv[3])))
    else if argv[1] == "set" && |argv| == 3 then Some(SetCall(argv[2]))
    else None
  }

  predicate MainDefined(argv: seq<CString>, hd: Handler)
  {
    |argv| >= 2 && argv[1] == "get" && |argv| == 4 ==>
      ResponseDefined(hd.getData(NullIfEmpty(argv[2]), NullIfEmpty(argv[3])).results)
  }

  /** ShellAppMain. `argv` holds Argv[0] .. Argv[Argc-1]. */
  function ShellAppMain(argv: seq<CString>, hd: Handler, maxChars: nat): Run
    requires |argv| >= 1 && maxChars >= 6 && MainDefined(argv, hd)
  {
    if IsError(hd.locate) then
      Run(hd.locate, Printed("Error! Can't locate gEfiConfigKeywordHandlerProtocolGuid: " + hd.statusText(hd.locate), maxChars), None)
    else if |argv| == 1 then Run(Success, UsageText(maxChars), None)
    else if argv[1] == "get" then
      if |argv| != 4 then Run(InvalidParameter, WrongArgument(maxChars), None)
      else
        var call := Get(NullIfEmpty(argv[2]), NullIfEmpty(argv[3]));
        var reply := hd.getData(call.namespace, call.keyword);
        var text := Warnings(reply, maxChars);
        if IsError(reply.status) then
          Run(reply.status, text + Printed("Error! GetData returned " + hd.statusText(reply.status) + "\n", maxChars), Some(call))
        else
          Run(Success, text + Printed("Response: ", maxChars) + LongText(reply.results, maxChars) + "\n\n"
                       + ResponseText(reply.results, maxChars, hd.devText), Some(call))
    else if argv[1] == "set" then
      if |argv| != 3 then Run(InvalidParameter, WrongArgument(maxChars), None)
      else
        var reply := hd.setData(argv[2]);
        var text := Warnings(reply, maxChars);
        if IsError(reply.status) then
          Run(reply.status, text + Printed("Error! SetData returned " + hd.statusText(reply.status) + "\n", maxChars), Some(SetCall(argv[2])))
        else Run(Success, text, Some(SetCall(argv[2])))
    else Run(InvalidParameter, WrongArgument(maxChars), None)
  }

  /** `get` needs exactly four arguments and `set` exactly three; with any
      other count, or another command, nothing is called and the result is
      INVALID_PARAMETER. An empty namespace or keyword reaches GetData as
      NULL. */
  lemma ArgumentRules(argv: seq<CString>, hd: Handler, maxChars: nat)
    requires |argv| >= 2 && maxChars >= 6 && MainDefined(argv, hd) && !IsError(hd.locate)
    ensures var run := ShellAppMain(argv, hd, maxChars);
      run.call == CallOf(argv)
      && (CallOf(argv).None? ==> run == Run(InvalidParameter, WrongArgument(maxChars), None))
      && (argv[1] == "get" ==> (run.call.Some? <==> |argv| == 4))
      && (argv[1] == "set" ==> (run.call.Some? <==> |argv| == 3))
      && (run.call.Some? && run.call.value.Get? ==>
            (run.call.value.namespace.None? <==> argv[2] == [])
            && (run.call.value.keyword.None? <==> argv[3] == []))
  {
  }

  /** A non-zero ProgressErr is always reported, with its message. */
  lemma ProgressErrReported(reply: Reply, maxChars: nat)
    requires reply.progressErr != 0
    ensures var w := Warnings(reply, maxChars);
      var line := Printed("Error! ProgressErr=" + ProgressErrorStr(reply.progressErr) + "\n", maxChars);
      |w| >= |line| && w[|w| - |line|..] == line
  {
  }
}
