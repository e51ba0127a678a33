/**
 * ShowBootVariables: a shell application that lists the boot options in
 * BootOrder, marks the one in BootCurrent with "*", and shows each
 * option's description and device path.
 *
 * The variable store holds the variables of the global-variable GUID by
 * name; GetVariable answers as the UEFI runtime service does.
 * AllocateZeroPool's answers and ConvertDevicePathToText are parameters,
 * and so is the text "%r" prints for a status.
 */
module BootVariables {
  import opened Efi

  /** The variables, by name, and those whose read fails on the device. */
  datatype Nvram = Nvram(vars: map<string, seq<byte>>, failing: set<string>)

  /** What GetVariable returns: the status, the DataSize it leaves, and
      the bytes it copies. */
  datatype Answer = Answer(status: Status, size: nat, data: seq<byte>)

  /** GetVariable with a buffer of `size` bytes (`hasBuffer` false for a
      NULL Data): EFI_NOT_FOUND for a missing variable,
      EFI_BUFFER_TOO_SMALL with the size needed, EFI_INVALID_PARAMETER for
      a NULL Data that would be written, EFI_DEVICE_ERROR when the value
      cannot be read, else the value. */
  function GetVariable(nvram: Nvram, name: string, size: nat, hasBuffer: bool): Answer
  {
    if name !in nvram.vars then Answer(NotFound, size, [])
    else if size < |nvram.vars[name]| then Answer(BufferTooSmall, |nvram.vars[name]|, [])
    else if !hasBuffer then Answer(InvalidParameter, size, [])
    else if name in nvram.failing then Answer(DeviceError, size, [])
    else Answer(Success, |nvram.vars[name]|, nvram.vars[name])
  }

  /** The variable exists, is not empty and can be read. */
  predicate Stored(nvram: Nvram, name: string)
  {
    name in nvram.vars && nvram.vars[name] != [] && name !in nvram.failing
  }

  const PROBE_ERROR := "Error! 'gRT->GetVariable' call returned "
  const ALLOC_ERROR := "Error! 'AllocateZeroPool' call returned "

  /** What GetNvramVariable hands back: its status, *Buffer (None for a
      NULL or untouched pointer), *BufferSize, and what it printed. */
  datatype Fetch = Fetch(status: Status, buffer: Option<seq<byte>>, size: nat, text: string)

  /** GetNvramVariable as the evidently intended check of `*Buffer` would
      make it: a variable is read whole exactly when it is stored and its
      buffer can be allocated; a refused allocation is reported and gives
      EFI_OUT_OF_RESOURCES; a failed read leaves no buffer and a zero
      size. */
  function NvramRead(nvram: Nvram, name: string, alloc: nat -> bool, statusText: Status -> string): (r: Fetch)
    ensures r.status == Success <==> Stored(nvram, name) && alloc(|nvram.vars[name]|)
    ensures r.status == Success ==> r.buffer == Some(nvram.vars[name]) && r.size == |nvram.vars[name]| && r.text == ""
    ensures IsError(r.status) ==> r.buffer == None && r.size == 0
    ensures name !in nvram.vars ==> r.status == NotFound && r.text == PROBE_ERROR + statusText(NotFound) + "\n"
    ensures name in nvram.vars && nvram.vars[name] != [] && !alloc(|nvram.vars[name]|) ==>
      r.status == OutOfResources && r.text == ALLOC_ERROR + statusText(BufferTooSmall) + "\n"
    ensures name in nvram.vars && nvram.vars[name] != [] && alloc(|nvram.vars[name]|) && name in nvram.failing ==>
      r.status == DeviceError && r.text == ""
  {
    var probe := GetVariable(nvram, name, 0, false);
    if probe.status != BufferTooSmall then Fetch(probe.status, None, 0, PROBE_ERROR + statusText(probe.status) + "\n")
    else if !alloc(probe.size) then Fetch(OutOfResources, None, 0, ALLOC_ERROR + statusText(probe.status) + "\n")
    else
      var read := GetVariable(nvram, name, probe.size, true);
      if read.status == Success then Fetch(Success, Some(read.data), read.size, "")
      else Fetch(read.status, None, 0, "")
  }

  /** GetNvramVariable as written: it tests the out-parameter `Buffer`,
      never NULL, rather than `*Buffer`, so a refused allocation goes on to
      GetVariable with a NULL Data and ends in EFI_INVALID_PARAMETER,
      without the AllocateZeroPool line: EFI_OUT_OF_RESOURCES is never
      returned. */
  function NvramReadAsWritten(nvram: Nvram, name: string, alloc: nat -> bool, statusText: Status -> string): (r: Fetch)
    ensures r.status != OutOfResources
    ensures r.status == Success <==> Stored(nvram, name) && alloc(|nvram.vars[name]|)
    ensures r.status == Success ==> r.buffer == Some(nvram.vars[name]) && r.size == |nvram.vars[name]| && r.text == ""
    ensures IsError(r.status) ==> r.buffer == None && r.size == 0
    ensures name !in nvram.vars ==> r.status == NotFound && r.text == PROBE_ERROR + statusText(NotFound) + "\n"
    ensures name in nvram.vars && nvram.vars[name] != [] && !alloc(|nvram.vars[name]|) ==>
      r.status == InvalidParameter && r.text == ""
    ensures name in nvram.vars && nvram.vars[name] != [] && alloc(|nvram.vars[name]|) && name in nvram.failing ==>
      r.status == DeviceError && r.text == ""
  {
    var probe := GetVariable(nvram, name, 0, false);
    if probe.status != BufferTooSmall then Fetch(probe.status, None, 0, PROBE_ERROR + statusText(probe.status) + "\n")
    else
      var read := GetVariable(nvram, name, probe.size, alloc(probe.size));
      if read.status == Success then Fetch(Success, Some(read.data), read.size, "")
      else Fetch(read.status, None, 0, "")
  }

  /** The two reads part only where the allocation is refused: there the
      intended check reports it and returns EFI_OUT_OF_RESOURCES, while
      the code as written prints nothing and returns the
      EFI_INVALID_PARAMETER of a read into a NULL buffer. */
  lemma NullBufferCheck(nvram: Nvram, name: string, alloc: nat -> bool, statusText: Status -> string)
    ensures var intended := NvramRead(nvram, name, alloc, statusText);
      var written := NvramReadAsWritten(nvram, name, alloc, statusText);
      if name in nvram.vars && nvram.vars[name] != [] && !alloc(|nvram.vars[name]|) then
        intended.status == OutOfResources && written.status == InvalidParameter
        && intended.text == ALLOC_ERROR + statusText(BufferTooSmall) + "\n" && written.text == ""
      else intended == written
  {
  }

  /** GetNvramVariable: size probe, AllocateZeroPool, then the read proper,
      whose failure frees the buffer. The test after the allocation is on
      the out-parameter itself, so a refused allocation is not caught. */
  method GetNvramVariable(nvram: Nvram, name: string, alloc: nat -> bool, statusText: Status -> string)
    returns (status: Status, buffer: Option<seq<byte>>, bufferSize: nat, text: string)
    ensures Fetch(status, buffer, bufferSize, text) == NvramReadAsWritten(nvram, name, alloc, statusText)
  {
    var size := 0;
    bufferSize := 0;
    buffer := None;
    text := "";
    var probe := GetVariable(nvram, name, size, false);
    status := probe.status;
    size := probe.size;
    if status != BufferTooSmall {
      text := PROBE_ERROR + statusText(status) + "\n";
      return;
    }
    var pool := alloc(size);
    var read := GetVariable(nvram, name, size, pool);
    status := read.status;
    if status == Success {
      buffer := Some(read.data);
      bufferSize := read.size;
    }
  }

  // ---------------------------------------------------------------------
  // EFI_LOAD_OPTION: UINT32 Attributes, UINT16 FilePathListLength, then
  // the NUL-terminated CHAR16 description and the device path list.

  const LOAD_OPTION_SIZE: nat := 6
  const FILE_PATH_LENGTH_OFFSET: nat := 4

  /** The code units before the first NUL. */
  function BeforeNul(units: seq<u16>): (r: seq<u16>)
    ensures |r| <= |units| && r == units[..|r|] && 0 !in r
    ensures |r| < |units| ==> units[|r|] == 0
  {
    if units == [] || units[0] == 0 then [] else [units[0]] + BeforeNul(units[1..])
  }

  /** The description ends inside the option, so reading it stays in the
      buffer. */
  predicate Readable(option: seq<byte>)
  {
    |option| >= LOAD_OPTION_SIZE && 0 in Units(option[LOAD_OPTION_SIZE..])
  }

  /** The description: the code units from offset 6 up to the NUL. */
  function Description(option: seq<byte>): seq<u16>
  {
    if |option| < LOAD_OPTION_SIZE then [] else BeforeNul(Units(option[LOAD_OPTION_SIZE..]))
  }

  /** The device path list: it starts StrSize(description) bytes after the
      description. */
  function FilePathList(option: seq<byte>): seq<byte>
  {
    var start := LOAD_OPTION_SIZE + 2 * (|Description(option)| + 1);
    if start <= |option| then option[start..] else []
  }

  /** Where the fields are: the description's units start at byte 6 and
      end at a NUL unit, and the device path list follows that NUL. */
  lemma OptionLayout(option: seq<byte>)
    requires Readable(option)
    ensures var d := Description(option);
      && LOAD_OPTION_SIZE + 2 * (|d| + 1) <= |option|
      && (forall k :: 0 <= k < |d| ==> d[k] == U16At(option, LOAD_OPTION_SIZE + 2 * k) != 0)
      && U16At(option, LOAD_OPTION_SIZE + 2 * |d|) == 0
      && FilePathList(option) == option[LOAD_OPTION_SIZE + 2 * |d| + 2..]
  {
    var tail := option[LOAD_OPTION_SIZE..];
    var units := Units(tail);
    var d := BeforeNul(units);
    assert d == Description(option);
    assert 0 in units && 0 !in d;
    forall k | 0 <= k <= |d|
      ensures units[k] == U16At(option, LOAD_OPTION_SIZE + 2 * k)
    {
      UnitAt(tail, k);
      assert U16At(tail, 2 * k) == U16At(option, LOAD_OPTION_SIZE + 2 * k);
    }
  }

  function Text16(units: seq<u16>): (r: string)
    ensures |r| == |units|
  {
    if units == [] then [] else [Char16(units[0])] + Text16(units[1..])
  }

  /** What PrintBootOption prints for a load option it read: the
      description, then the device path when FilePathListLength is not 0. */
  function OptionLines(option: seq<byte>, pathText: seq<byte> -> string): string
  {
    Text16(Description(option)) + "\n"
    + if |option| >= LOAD_OPTION_SIZE && U16At(option, FILE_PATH_LENGTH_OFFSET) != 0
      then pathText(FilePathList(option)) + "\n" else ""
  }

  /** Every boot option that can be read holds its description's NUL. */
  predicate OptionsReadable(nvram: Nvram)
  {
    forall name | name in nvram.vars && |name| == 8 && name[..4] == "Boot" :: Readable(nvram.vars[name])
  }

  /** What PrintBootOption prints. */
  function BootOptionText(nvram: Nvram, name: string, alloc: nat -> bool, statusText: Status -> string,
                          pathText: seq<byte> -> string): string
  {
    var f := NvramReadAsWritten(nvram, name, alloc, statusText);
    f.text + if f.status == Success then OptionLines(f.buffer.value, pathText) else "Can't get " + name + " variable\n"
  }

  /** A readable option shows its description, and the device path line
      exactly when FilePathListLength is not 0; a variable that cannot be
      read is reported by name. */
  lemma BootOptionShown(nvram: Nvram, name: string, alloc: nat -> bool, statusText: Status -> string,
                        pathText: seq<byte> -> string)
    requires Stored(nvram, name) ==> Readable(nvram.vars[name])
    ensures var t := BootOptionText(nvram, name, alloc, statusText, pathText);
      if Stored(nvram, name) && alloc(|nvram.vars[name]|) then
        var option := nvram.vars[name];
        var d := Text16(Description(option)) + "\n";
        && t[..|d|] == d
        && (U16At(option, FILE_PATH_LENGTH_OFFSET) == 0 <==> t == d)
      else
        t == NvramReadAsWritten(nvram, name, alloc, statusText).text + "Can't get " + name + " variable\n"
  {
    if Stored(nvram, name) && alloc(|nvram.vars[name]|) {
      var option := nvram.vars[name];
      var p := pathText(FilePathList(option)) + "\n";
      assert |p| > 0;
    }
  }

  method PrintBootOption(nvram: Nvram, name: string, alloc: nat -> bool, statusText: Status -> string,
                         pathText: seq<byte> -> string) returns (text: string)
    requires Stored(nvram, name) ==> Readable(nvram.vars[name])
    ensures text == BootOptionText(nvram, name, alloc, statusText, pathText)
  {
    var status, buffer, optionSize, fetched := GetNvramVariable(nvram, name, alloc, statusText);
    if status == Success {
      var option := buffer.value;
      var shown := Text16(Description(option)) + "\n";
      if U16At(option, FILE_PATH_LENGTH_OFFSET) != 0 {
        shown := shown + (pathText(FilePathList(option)) + "\n");
      }
      text := fetched + shown;
    } else {
      text := fetched + ("Can't get " + name + " variable\n");
    }
  }

  // ---------------------------------------------------------------------
  // The program.

  /** "Boot%04x": the option's name. */
  function BootName(option: u16): (r: string)
    ensures |r| == 8 && r[..4] == "Boot"
  {
    "Boot" + HexFixed(option, 4)
  }

  /** The name holds the option number: its last four characters read
      back as hex give the number. */
  lemma BootNameRoundTrip(option: u16)
    ensures forall i :: 4 <= i < 8 ==> IsHexDigit(BootName(option)[i])
    ensures HexNumber(BootName(option)[4..]) == option
  {
    assert BootName(option)[4..] == HexFixed(option, 4);
    assert Pow16(4) == 0x1_0000;
    HexFixedRoundTrip(option, 4);
  }

  /** The line naming an option, "*" after the one booted from. */
  function BootLine(option: u16, current: u16): string
  {
    BootName(option) + (if option == current then "*" else "") + "\n"
  }

  /** Only the option equal to BootCurrent is marked. */
  lemma MarkedIffCurrent(option: u16, current: u16)
    ensures '*' in BootLine(option, current) <==> option == current
  {
    var name := BootName(option);
    assert forall i :: 0 <= i < 4 ==> name[i] == "Boot"[i];
    forall i | 4 <= i < 8
      ensures name[i] != '*'
    {
      BootNameRoundTrip(option);
    }
    if option != current {
      assert BootLine(option, current) == name + "\n";
      assert forall i :: 0 <= i < |name + "\n"| ==> (name + "\n")[i] != '*';
    } else {
      assert BootLine(option, current)[8] == '*';
    }
  }

  /** What has been printed once the loop has done the first `n` entries
      of BootOrder, `head` having been printed before it and `show` giving
      what PrintBootOption prints for a name. */
  function Entries(head: string, order: seq<byte>, current: u16, n: nat, show: string -> string): string
    requires 2 * n <= |order|
  {
    if n == 0 then head
    else
      var option := U16At(order, 2 * (n - 1));
      Entries(head, order, current, n - 1, show) + BootLine(option, current) + show(BootName(option)) + "\n"
  }

  /** The entries are printed in BootOrder's order: what is printed for
      the first `k` entries begins what is printed for the first `n`. */
  lemma {:induction false} EntriesInOrder(head: string, order: seq<byte>, current: u16, k: nat, n: nat,
                                          show: string -> string)
    requires k <= n && 2 * n <= |order|
    ensures var all := Entries(head, order, current, n, show);
      var first := Entries(head, order, current, k, show);
      |first| <= |all| && all[..|first|] == first
    decreases n
  {
    if k < n {
      EntriesInOrder(head, order, current, k, n - 1, show);
      var e := Entries(head, order, current, n - 1, show);
      var option := U16At(order, 2 * (n - 1));
      var all := Entries(head, order, current, n, show);
      assert all == e + (BootLine(option, current) + show(BootName(option)) + "\n");
      var first := Entries(head, order, current, k, show);
      assert all[..|first|] == e[..|first|];
    }
  }

  /** BootCurrent is read as a UINT16 once BootOrder has an entry to
      compare with it. */
  predicate CurrentReadable(nvram: Nvram, alloc: nat -> bool)
  {
    Stored(nvram, "BootOrder") && alloc(|nvram.vars["BootOrder"]|) && |nvram.vars["BootOrder"]| >= 2 ==>
      Stored(nvram, "BootCurrent") && alloc(|nvram.vars["BootCurrent"]|) && |nvram.vars["BootCurrent"]| >= 2
  }

  /** PrintBootOption's output as a function of the option's name. */
  function Shown(nvram: Nvram, alloc: nat -> bool, statusText: Status -> string, pathText: seq<byte> -> string): string -> string
  {
    name => BootOptionText(nvram, name, alloc, statusText, pathText)
  }

  /** What ShellAppMain prints. */
  function Listing(nvram: Nvram, alloc: nat -> bool, statusText: Status -> string, pathText: seq<byte> -> string): string
    requires CurrentReadable(nvram, alloc)
  {
    var current := NvramReadAsWritten(nvram, "BootCurrent", alloc, statusText);
    var head := current.text + if current.status == Success then "" else "Can't get BootCurrent variable\n";
    var order := NvramReadAsWritten(nvram, "BootOrder", alloc, statusText);
    if order.status != Success then head + order.text + "Can't get BootOrder variable\n"
    else
      var n := order.size / 2;
      var value := if n > 0 then U16At(nvram.vars["BootCurrent"], 0) else 0;
      Entries(head + order.text, nvram.vars["BootOrder"], value, n, Shown(nvram, alloc, statusText, pathText))
  }

  /** The loop over BootOrder: each entry's name, "*" for BootCurrent,
      then PrintBootOption's output for it. */
  method PrintEntries(nvram: Nvram, head: string, order: seq<byte>, current: u16, n: nat, alloc: nat -> bool,
                      statusText: Status -> string, pathText: seq<byte> -> string) returns (text: string)
    requires OptionsReadable(nvram) && 2 * n <= |order|
    ensures text == Entries(head, order, current, n, Shown(nvram, alloc, statusText, pathText))
  {
    ghost var show := Shown(nvram, alloc, statusText, pathText);
    text := head;
    var i := 0;
    while i < n
      invariant i <= n && text == Entries(head, order, current, i, show)
    {
      var option := U16At(order, 2 * i);
      var name := BootName(option);
      text := text + (name + (if option == current then "*" else "") + "\n");
      var shown := PrintBootOption(nvram, name, alloc, statusText, pathText);
      text := text + shown + "\n";
      i := i + 1;
    }
  }

  method ShellAppMain(nvram: Nvram, alloc: nat -> bool, statusText: Status -> string, pathText: seq<byte> -> string)
    returns (status: Status, text: string)
    requires OptionsReadable(nvram) && CurrentReadable(nvram, alloc)
    ensures status == Success && text == Listing(nvram, alloc, statusText, pathText)
  {
    var currentStatus, bootCurrent, currentSize, fetched := GetNvramVariable(nvram, "BootCurrent", alloc, statusText);
    var head := fetched + if currentStatus == Success then "" else "Can't get BootCurrent variable\n";
    var orderStatus, bootOrder, optionSize, orderText := GetNvramVariable(nvram, "BootOrder", alloc, statusText);
    var current, order := Fetch(currentStatus, bootCurrent, currentSize, fetched), Fetch(orderStatus, bootOrder, optionSize, orderText);
    ListingShape(nvram, alloc, statusText, pathText, current, order);
    text := PrintOrder(nvram, alloc, statusText, pathText, head, current, order);
    status := Success;
  }

  /** The part of ShellAppMain after the two reads: the BootOrder error, or
      the entries of BootOrder with BootCurrent's marker. */
  method PrintOrder(nvram: Nvram, alloc: nat -> bool, statusText: Status -> string, pathText: seq<byte> -> string,
                    head: string, current: Fetch, order: Fetch) returns (text: string)
    requires OptionsReadable(nvram)
    requires order.status == Success ==>
      "BootOrder" in nvram.vars && order.buffer == Some(nvram.vars["BootOrder"]) && order.size == |nvram.vars["BootOrder"]|
      && (order.size / 2 > 0 ==>
            "BootCurrent" in nvram.vars && current.buffer == Some(nvram.vars["BootCurrent"]) && |nvram.vars["BootCurrent"]| >= 2)
    ensures order.status != Success ==> text == head + order.text + "Can't get BootOrder variable\n"
    ensures order.status == Success ==>
      text == Entries(head + order.text, nvram.vars["BootOrder"],
                      if order.size / 2 > 0 then U16At(nvram.vars["BootCurrent"], 0) else 0,
                      order.size / 2, Shown(nvram, alloc, statusText, pathText))
  {
    if order.status == Success {
      var n := order.size / 2;
      var value: u16 := if n > 0 then U16At(current.buffer.value, 0) else 0;
      text := PrintEntries(nvram, head + order.text, order.buffer.value, value, n, alloc, statusText, pathText);
    } else {
      text := head + order.text + "Can't get BootOrder variable\n";
    }
  }

  /** Listing in terms of the two reads: when BootOrder is read, its
      entries follow, and BootCurrent is read too if there is one. */
  lemma ListingShape(nvram: Nvram, alloc: nat -> bool, statusText: Status -> string, pathText: seq<byte> -> string,
                     current: Fetch, order: Fetch)
    requires CurrentReadable(nvram, alloc)
    requires current == NvramReadAsWritten(nvram, "BootCurrent", alloc, statusText)
    requires order == NvramReadAsWritten(nvram, "BootOrder", alloc, statusText)
    ensures var head := current.text + if current.status == Success then "" else "Can't get BootCurrent variable\n";
      && (order.status != Success ==>
            Listing(nvram, alloc, statusText, pathText) == head + order.text + "Can't get BootOrder variable\n")
      && (order.status == Success ==>
            "BootOrder" in nvram.vars && order.buffer == Some(nvram.vars["BootOrder"]) && order.size == |nvram.vars["BootOrder"]|
            && (order.size / 2 > 0 ==>
                  "BootCurrent" in nvram.vars && current.buffer == Some(nvram.vars["BootCurrent"]) && |nvram.vars["BootCurrent"]| >= 2)
            && Listing(nvram, alloc, statusText, pathText)
               == Entries(head + order.text, nvram.vars["BootOrder"],
                          if order.size / 2 > 0 then U16At(nvram.vars["BootCurrent"], 0) else 0,
                          order.size / 2, Shown(nvram, alloc, statusText, pathText)))
  {
  }
}
