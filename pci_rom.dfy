/**
 * DumpPCIroms (Lesson 32): for every PCI function with an option ROM, the
 * function's IDs and pci.ids names, then a walk over the images of the ROM,
 * each a PCI expansion ROM header (signature 0xAA55) pointing at a PCI data
 * structure ("PCIR") that gives the image's length in 512-byte blocks and
 * whether it is the last image.
 */
module PciRom {
  import opened Efi
  import PciIds

  const PCI_EXPANSION_ROM_HEADER_SIGNATURE: u16 := 0xAA55
  const EFI_PCI_EXPANSION_ROM_HEADER_EFISIGNATURE: u32 := 0x0EF1
  const PCI_CODE_TYPE_EFI_IMAGE: byte := 0x03
  /** sizeof(EFI_PCI_EXPANSION_ROM_HEADER): PcirOffset is its last field, at 0x18. */
  const ROM_HEADER_SIZE: nat := 0x1A
  /** sizeof(PCI_DATA_STRUCTURE). */
  const PCIR_SIZE: nat := 0x18
  const ROM_BLOCK_SIZE: nat := 512
  /** "PCIR" as it lies in memory. */
  const PCIR_SIGNATURE: seq<byte> := [0x50, 0x43, 0x49, 0x52]
  const CLOSING_LINE: string := "------------------\n"

  // ---------------------------------------------------------------------
  // The headers.

  /** The fields of a PCI_DATA_STRUCTURE the walk reads. */
  datatype Pcir = Pcir(signature: seq<byte>, vendorId: u16, deviceId: u16, imageLength: u16, codeType: byte, indicator: byte)

  function PcirAt(rom: seq<byte>, p: nat): (r: Pcir)
    requires p + PCIR_SIZE <= |rom|
    ensures |r.signature| == 4
  {
    Pcir(rom[p..p + 4], U16At(rom, p + 4), U16At(rom, p + 6), U16At(rom, p + 0x10), rom[p + 0x14], rom[p + 0x15])
  }

  /** Bit 7 of the Indicator marks the last image of the ROM. */
  predicate LastImage(pcir: Pcir)
  {
    BitSet(pcir.indicator, 7)
  }

  /** The PCIR check as written: the image is refused only when all four
      bytes differ from "PCIR" (the four tests are joined with &&). */
  predicate PcirRejectedAsWritten(signature: seq<byte>)
    requires |signature| == 4
  {
    signature[0] != 'P' as int && signature[1] != 'C' as int && signature[2] != 'I' as int && signature[3] != 'R' as int
  }

  /** The check intended: any byte that differs from "PCIR" refuses the image. */
  predicate PcirRejected(signature: seq<byte>)
    requires |signature| == 4
  {
    signature != PCIR_SIGNATURE
  }

  /** The intended check refuses exactly the signatures that are not "PCIR". */
  lemma PcirRejectedIff(signature: seq<byte>)
    requires |signature| == 4
    ensures PcirRejected(signature) <==> exists i :: 0 <= i < 4 && signature[i] != PCIR_SIGNATURE[i]
  {
    if forall i :: 0 <= i < 4 ==> signature[i] == PCIR_SIGNATURE[i] {
      assert signature == PCIR_SIGNATURE;
    }
  }

  /** Everything the check as written refuses, the intended one refuses;
      but "PCIX" (one byte wrong) and "XXXR" pass the check as written. */
  lemma PcirAsWrittenAccepts()
    ensures forall s :: |s| == 4 && PcirRejectedAsWritten(s) ==> PcirRejected(s)
    ensures var pcix: seq<byte> := [0x50, 0x43, 0x49, 0x58];
      !PcirRejectedAsWritten(pcix) && PcirRejected(pcix)
    ensures var xxxr: seq<byte> := [0x58, 0x58, 0x58, 0x52];
      !PcirRejectedAsWritten(xxxr) && PcirRejected(xxxr)
  {
    forall s | |s| == 4 && PcirRejectedAsWritten(s) ensures PcirRejected(s) {
      assert s[0] != PCIR_SIGNATURE[0];
    }
  }

  // ---------------------------------------------------------------------
  // The names printed.

  /** The CodeType switch. */
  function CodeTypeName(t: byte): (r: string)
    ensures r == "Unknown\n" <==> t > 3
  {
    if t == 0x00 then "IA-32, PC-AT compatible\n"
    else if t == 0x01 then "Open Firmware standard for PCI\n"
    else if t == 0x02 then "Hewlett-Packard PA RISC\n"
    else if t == 0x03 then "EFI Image\n"
    else "Unknown\n"
  }

  /** The EfiSubsystem switch: the EFI_IMAGE_SUBSYSTEM_* values 10 to 13. */
  function SubsystemName(s: u16): (r: string)
    ensures r == "Unknown\n" <==> !(10 <= s <= 13)
  {
    if s == 10 then "EFI Application\n"
    else if s == 11 then "EFI Boot Service Driver\n"
    else if s == 12 then "EFI Runtime Driver\n"
    else if s == 13 then "EFI SAL Runtime Driver\n"
    else "Unknown\n"
  }

  /** The IMAGE_FILE_MACHINE_* values the machine type switch names. */
  const KNOWN_MACHINES: set<u16> := {0x014C, 0x0200, 0x0EBC, 0x8664, 0x01C2, 0xAA64, 0x5032, 0x5064, 0x5128}

  /** The EfiMachineType switch. */
  function MachineName(m: u16): (r: string)
    ensures r == "Unknown\n" <==> m !in KNOWN_MACHINES
  {
    if m == 0x014C then "IA-32\n"
    else if m == 0x0200 then "Itanium\n"
    else if m == 0x0EBC then "EFI Byte Code (EBC)\n"
    else if m == 0x8664 then "X64\n"
    else if m == 0x01C2 then "ARM\n"
    else if m == 0xAA64 then "ARM 64-bit\n"
    else if m == 0x5032 then "RISCV32\n"
    else if m == 0x5064 then "RISCV64\n"
    else if m == 0x5128 then "RISCV128\n"
    else "Unknown\n"
  }

  /** Different known machine types get different names. */
  lemma MachineNamesDistinct(m: u16, n: u16)
    requires m in KNOWN_MACHINES && n in KNOWN_MACHINES && m != n
    ensures MachineName(m) != MachineName(n)
  {
  }

  /** The CompressionType switch. */
  function CompressionName(c: u16): (r: string)
    ensures r == "Unknown compression type\n" <==> c > 1
  {
    if c == 1 then "Compressed following the UEFI Compression Algorithm\n"
    else if c == 0 then "Uncompressed\n"
    else "Unknown compression type\n"
  }

  /** The lines about an EFI image, read from the EFI_PCI_EXPANSION_ROM_HEADER
      at `o`; nothing for an image of another code type. */
  function EfiText(rom: seq<byte>, o: nat, codeType: byte): string
    requires o + ROM_HEADER_SIZE <= |rom|
  {
    if codeType != PCI_CODE_TYPE_EFI_IMAGE then []
    else if U32At(rom, o + 4) != EFI_PCI_EXPANSION_ROM_HEADER_EFISIGNATURE then "EFI signature is incorrect!\n"
    else EfiHeaderText(rom, o)
  }

  function EfiHeaderText(rom: seq<byte>, o: nat): string
    requires o + ROM_HEADER_SIZE <= |rom|
  {
    "Subsystem: " + SubsystemName(U16At(rom, o + 8))
      + "Machine type: " + MachineName(U16At(rom, o + 0xA))
      + CompressionName(U16At(rom, o + 0xC))
  }

  // ---------------------------------------------------------------------
  // The walk over the images.

  /** The ROM header signature at `o`. */
  predicate SignatureOk(rom: seq<byte>, o: nat)
    requires o + 2 <= |rom|
  {
    U16At(rom, o) == PCI_EXPANSION_ROM_HEADER_SIGNATURE
  }

  /** Where the PCI data structure of the image at `o` lies. */
  function PcirOffsetOf(rom: seq<byte>, o: nat): nat
    requires o + ROM_HEADER_SIZE <= |rom|
  {
    o + U16At(rom, o + 0x18)
  }

  /** Every header the walk from `o` reads lies inside the ROM, and every
      image before the last has a non-zero length, so the walk ends. The
      walk itself never compares offsets with RomSize. */
  predicate RomSafe(rom: seq<byte>, o: nat)
    decreases |rom| - o
  {
    o + 2 <= |rom| &&
    (SignatureOk(rom, o) ==>
      o + ROM_HEADER_SIZE <= |rom| &&
      var p := PcirOffsetOf(rom, o);
      p + PCIR_SIZE <= |rom| &&
      var pcir := PcirAt(rom, p);
      (!PcirRejectedAsWritten(pcir.signature) && !LastImage(pcir) ==>
        pcir.imageLength > 0 && RomSafe(rom, o + pcir.imageLength * ROM_BLOCK_SIZE)))
  }

  /** What one image prints and where the walk goes next: the text of an
      accepted image, followed by the closing line if it is the last; or
      the error line that ends the walk. */
  /** `p` is where `s` starts. */
  predicate Prefix(p: string, s: string)
  {
    |p| <= |s| && s[..|p|] == p
  }

  datatype Step = Step(text: string, next: Option<nat>)

  function ImageStep(base: nat, ptrText: nat -> string, rom: seq<byte>, o: nat, index: nat): (r: Step)
    requires RomSafe(rom, o)
    ensures r.next.Some? ==> r.next.value > o && RomSafe(rom, r.next.value)
    ensures |r.text| >= |CLOSING_LINE|
    ensures SignatureOk(rom, o) && !PcirRejectedAsWritten(PcirAt(rom, PcirOffsetOf(rom, o)).signature) ==>
      Prefix("---Code Image " + Dec32(index), r.text)
  {
    if !SignatureOk(rom, o) then Step("Error! OptionROM has a wrong signature\n", None)
    else
      var pcir := PcirAt(rom, PcirOffsetOf(rom, o));
      if PcirRejectedAsWritten(pcir.signature) then Step("Error! OptionROM image has wrong signature\n", None)
      else
        var end := o + pcir.imageLength * ROM_BLOCK_SIZE;
        var text := ("---Code Image " + Dec32(index))
          + ("---\n"
             + "Address: " + ptrText(base + o) + "-" + ptrText(base + end) + "\n"
             + "VendorId: " + HexFixed(pcir.vendorId, 4) + ", DeviceId: " + HexFixed(pcir.deviceId, 4) + "\n"
             + "Type: " + CodeTypeName(pcir.codeType)
             + EfiText(rom, o, pcir.codeType));
        if LastImage(pcir) then Step(text + CLOSING_LINE, None) else Step(text, Some(end))
  }

  /** As written, an image whose PCI data structure is signed "PCIX" is
      printed as a code image, although the intended check refuses it. */
  lemma PcixImagePrinted(base: nat, ptrText: nat -> string, rom: seq<byte>, o: nat, index: nat)
    requires RomSafe(rom, o) && SignatureOk(rom, o)
    requires PcirAt(rom, PcirOffsetOf(rom, o)).signature == [0x50, 0x43, 0x49, 0x58]
    ensures ImageStep(base, ptrText, rom, o, index).text[..15] == "---Code Image " + Dec32(index)[..1]
    ensures PcirRejected(PcirAt(rom, PcirOffsetOf(rom, o)).signature)
  {
    PcirAsWrittenAccepts();
    var head := "---Code Image " + Dec32(index);
    assert head[..15] == "---Code Image " + Dec32(index)[..1];
  }

  /** The text of the walk from the image at `o`, numbered `index`. */
  function ImagesText(base: nat, ptrText: nat -> string, rom: seq<byte>, o: nat, index: nat): string
    requires RomSafe(rom, o)
    decreases |rom| - o
  {
    var step := ImageStep(base, ptrText, rom, o, index);
    if step.next.None? then step.text
    else step.text + ImagesText(base, ptrText, rom, step.next.value, index + 1)
  }

  /** The walk reaches an image marked last, with no signature error on
      the way. */
  predicate WalkEnds(rom: seq<byte>, o: nat)
    requires RomSafe(rom, o)
    decreases |rom| - o
  {
    SignatureOk(rom, o) &&
    var pcir := PcirAt(rom, PcirOffsetOf(rom, o));
    !PcirRejectedAsWritten(pcir.signature) &&
    (LastImage(pcir) || WalkEnds(rom, o + pcir.imageLength * ROM_BLOCK_SIZE))
  }

  predicate EndsWith(s: string, t: string)
  {
    |t| <= |s| && s[|s| - |t|..] == t
  }

  /** The closing line is printed exactly when the walk reaches the last
      image; a signature error ends the walk without it. */
  lemma {:induction false} ClosingLine(base: nat, ptrText: nat -> string, rom: seq<byte>, o: nat, index: nat)
    requires RomSafe(rom, o)
    ensures EndsWith(ImagesText(base, ptrText, rom, o, index), CLOSING_LINE) <==> WalkEnds(rom, o)
    decreases |rom| - o
  {
    var step := ImageStep(base, ptrText, rom, o, index);
    StepEnds(base, ptrText, rom, o, index);
    if step.next.Some? {
      var rest := ImagesText(base, ptrText, rom, step.next.value, index + 1);
      ClosingLine(base, ptrText, rom, step.next.value, index + 1);
      SuffixOfAppend(step.text, rest, CLOSING_LINE);
    }
  }

  /** Where one image leaves the walk: it goes on exactly after an accepted
      image that is not the last; when it stops, its text ends with the
      closing line exactly when the image was accepted. */
  lemma StepEnds(base: nat, ptrText: nat -> string, rom: seq<byte>, o: nat, index: nat)
    requires RomSafe(rom, o)
    ensures var step := ImageStep(base, ptrText, rom, o, index);
      && (step.next.Some? ==> ImagesText(base, ptrText, rom, o, index) == step.text + ImagesText(base, ptrText, rom, step.next.value, index + 1))
      && (step.next.Some? ==> (WalkEnds(rom, o) <==> WalkEnds(rom, step.next.value)))
      && (step.next.None? ==> ImagesText(base, ptrText, rom, o, index) == step.text)
      && (step.next.None? ==> (EndsWith(step.text, CLOSING_LINE) <==> WalkEnds(rom, o)))
  {
    var step := ImageStep(base, ptrText, rom, o, index);
    var text := step.text;
    if !SignatureOk(rom, o) || PcirRejectedAsWritten(PcirAt(rom, PcirOffsetOf(rom, o)).signature) {
      assert text[|text| - 2] == 'e';
    } else if step.next.None? {
      assert text[|text| - |CLOSING_LINE|..] == CLOSING_LINE;
    }
  }

  /** A suffix no longer than the second part is a suffix of the second part. */
  lemma SuffixOfAppend(a: string, b: string, t: string)
    requires |t| <= |b|
    ensures EndsWith(a + b, t) <==> EndsWith(b, t)
  {
    assert (a + b)[|a + b| - |t|..] == b[|b| - |t|..];
  }

  /** The walk loop of PrintPCI. */
  method WalkRom(base: nat, ptrText: nat -> string, rom: seq<byte>) returns (text: string)
    requires RomSafe(rom, 0)
    ensures text == ImagesText(base, ptrText, rom, 0, 1)
  {
    var o := 0;
    var index := 1;
    text := [];
    while true
      invariant RomSafe(rom, o)
      invariant ImagesText(base, ptrText, rom, 0, 1) == text + ImagesText(base, ptrText, rom, o, index)
      decreases |rom| - o
    {
      var step := ImageStep(base, ptrText, rom, o, index);
      if step.next.None? {
        text := text + step.text;
        return;
      }
      Regroup(text, step.text, ImagesText(base, ptrText, rom, step.next.value, index + 1));
      text := text + step.text;
      o := step.next.value;
      index := index + 1;
    }
  }

  lemma Regroup(a: string, b: string, c: string)
    ensures a + (b + c) == (a + b) + c
  {
  }

  // ---------------------------------------------------------------------
  // PrintPCI and UefiMain.

  /** What EFI_PCI_IO_PROTOCOL gives: GetLocation's status and numbers, the
      configuration header read, and the ROM image (RomImage, with RomSize
      its length). */
  datatype PciIo = PciIo(location: Status, bus: byte, device: byte, func: byte,
                         conf: Status, vendorId: u16, deviceId: u16,
                         romImage: nat, rom: seq<byte>)

  predicate PciIoOk(io: PciIo)
  {
    |io.rom| > 0 ==> RomSafe(io.rom, 0)
  }

  /** PrintPCI: a function without a ROM prints nothing; one with a ROM
      prints its IDs, names and images, and returns the status of the
      pci.ids lookup, even after a signature error ends the walk. */
  function PrintPCI(ids: PciIds.IdsBlock, ptrText: nat -> string, statusText: Status -> string, io: PciIo): (r: Report)
    requires PciIoOk(io)
    ensures IsError(io.location) ==> r.status == io.location
    ensures !IsError(io.location) && IsError(io.conf) ==> r.status == io.conf
    ensures !IsError(io.location) && !IsError(io.conf) ==>
      r.status == (if |io.rom| == 0 then io.conf else PciIds.FindPCIDevDescription(ids, statusText, io.vendorId, io.deviceId).status)
  {
    if IsError(io.location) then Report("Error in getting PCI location: " + statusText(io.location) + "\n", io.location)
    else if IsError(io.conf) then Report("Error in reading PCI conf space: " + statusText(io.conf) + "\n", io.conf)
    else if |io.rom| == 0 then Report([], io.conf)
    else
      var desc := PciIds.FindPCIDevDescription(ids, statusText, io.vendorId, io.deviceId);
      Report(RomHeader(ptrText, io, desc) + ImagesText(io.romImage, ptrText, io.rom, 0, 1), desc.status)
  }

  /** The lines PrintPCI prints before the images: the location, the IDs
      with their pci.ids names (or the lookup's error line), and the ROM's
      address range. */
  function RomHeader(ptrText: nat -> string, io: PciIo, desc: PciIds.Description): string
  {
    Hex2(io.bus) + ":" + Hex2(io.device) + "." + Hex2(io.func)
    + " - Vendor:" + HexFixed(io.vendorId, 4) + ", Device:" + HexFixed(io.deviceId, 4) + desc.text
    + (if IsError(desc.status) then "\n" else ":    " + desc.vendor + ", " + desc.device + "\n")
    + "Has OptionROM at memory " + ptrText(io.romImage) + "-" + ptrText(io.romImage + |io.rom|) + "\n"
  }

  /** PrintPCI with its walk loop. */
  method PrintPci(ids: PciIds.IdsBlock, ptrText: nat -> string, statusText: Status -> string, io: PciIo) returns (r: Report)
    requires PciIoOk(io)
    ensures r == PrintPCI(ids, ptrText, statusText, io)
  {
    if IsError(io.location) || IsError(io.conf) || |io.rom| == 0 {
      r := PrintPCI(ids, ptrText, statusText, io);
      return;
    }
    var desc := PciIds.FindPCIDevDescription(ids, statusText, io.vendorId, io.deviceId);
    var head := RomHeader(ptrText, io, desc);
    var walk := WalkRom(io.romImage, ptrText, io.rom);
    r := Report(head + walk, desc.status);
  }

  /** A handle of the PCI I/O protocol: what OpenProtocol returns and the
      function behind it. */
  datatype Handle = Handle(open: Status, io: PciIo)

  predicate HandlesOk(hs: seq<Handle>)
  {
    forall k :: 0 <= k < |hs| ==> PciIoOk(hs[k].io)
  }

  /** Handles k..: an OpenProtocol failure ends the program with its
      status; a PrintPCI failure is reported and the next handle visited. */
  function HandlesRun(ids: PciIds.IdsBlock, ptrText: nat -> string, statusText: Status -> string, hs: seq<Handle>, k: nat): Report
    requires HandlesOk(hs) && k <= |hs|
    decreases |hs| - k
  {
    if k == |hs| then Report([], Success)
    else if IsError(hs[k].open) then Report("Can't open protocol: " + statusText(hs[k].open) + "\n", hs[k].open)
    else
      var r := PrintPCI(ids, ptrText, statusText, hs[k].io);
      var rest := HandlesRun(ids, ptrText, statusText, hs, k + 1);
      Report(r.text + (if IsError(r.status) then "Error in PCI printing\n" else "") + rest.text, rest.status)
  }

  /** UefiMain of DumpPCIroms. */
  function DumpPciRomsMain(ids: PciIds.IdsBlock, ptrText: nat -> string, statusText: Status -> string, locate: Status, hs: seq<Handle>): Report
    requires HandlesOk(hs)
  {
    if IsError(locate) then Report("Can't locate EFI_PCI_IO_PROTOCOL: " + statusText(locate) + "\n", locate)
    else HandlesRun(ids, ptrText, statusText, hs, 0)
  }

  /** The program fails exactly when the protocol cannot be located or a
      handle cannot be opened; a PrintPCI failure does not change the
      Status returned. */
  lemma {:induction false} RunStatus(ids: PciIds.IdsBlock, ptrText: nat -> string, statusText: Status -> string, hs: seq<Handle>, k: nat)
    requires HandlesOk(hs) && k <= |hs|
    ensures IsError(HandlesRun(ids, ptrText, statusText, hs, k).status) <==> exists j :: k <= j < |hs| && IsError(hs[j].open)
    ensures !IsError(HandlesRun(ids, ptrText, statusText, hs, k).status) ==> HandlesRun(ids, ptrText, statusText, hs, k).status == Success
    decreases |hs| - k
  {
    if k < |hs| && !IsError(hs[k].open) {
      RunStatus(ids, ptrText, statusText, hs, k + 1);
    }
  }

  /** One handle that opens: its text follows the text so far. */
  method HandleTurn(ids: PciIds.IdsBlock, ptrText: nat -> string, statusText: Status -> string, hs: seq<Handle>, k: nat, text: string)
    returns (text': string)
    requires HandlesOk(hs) && k < |hs| && !IsError(hs[k].open)
    requires HandlesRun(ids, ptrText, statusText, hs, 0).text == text + HandlesRun(ids, ptrText, statusText, hs, k).text
    ensures HandlesRun(ids, ptrText, statusText, hs, 0).text == text' + HandlesRun(ids, ptrText, statusText, hs, k + 1).text
    ensures HandlesRun(ids, ptrText, statusText, hs, k).status == HandlesRun(ids, ptrText, statusText, hs, k + 1).status
  {
    var r := PrintPci(ids, ptrText, statusText, hs[k].io);
    var t := r.text + (if IsError(r.status) then "Error in PCI printing\n" else "");
    assert HandlesRun(ids, ptrText, statusText, hs, k).text == t + HandlesRun(ids, ptrText, statusText, hs, k + 1).text;
    Regroup(text, t, HandlesRun(ids, ptrText, statusText, hs, k + 1).text);
    text' := text + t;
  }

  /** A handle that cannot be opened ends the run with its status. */
  method OpenFailure(ids: PciIds.IdsBlock, ptrText: nat -> string, statusText: Status -> string, hs: seq<Handle>, k: nat, text: string)
    returns (run: Report)
    requires HandlesOk(hs) && k < |hs| && IsError(hs[k].open)
    requires HandlesRun(ids, ptrText, statusText, hs, 0).text == text + HandlesRun(ids, ptrText, statusText, hs, k).text
    requires HandlesRun(ids, ptrText, statusText, hs, 0).status == HandlesRun(ids, ptrText, statusText, hs, k).status
    ensures run == HandlesRun(ids, ptrText, statusText, hs, 0)
  {
    run := Report(text + ("Can't open protocol: " + statusText(hs[k].open) + "\n"), hs[k].open);
  }

  /** The handle loop of UefiMain. */
  method DumpPciRoms(ids: PciIds.IdsBlock, ptrText: nat -> string, statusText: Status -> string, locate: Status, hs: seq<Handle>)
    returns (run: Report)
    requires HandlesOk(hs)
    ensures run == DumpPciRomsMain(ids, ptrText, statusText, locate, hs)
  {
    if IsError(locate) {
      run := Report("Can't locate EFI_PCI_IO_PROTOCOL: " + statusText(locate) + "\n", locate);
      return;
    }
    var text := [];
    var k := 0;
    while k < |hs|
      invariant 0 <= k <= |hs|
      invariant HandlesRun(ids, ptrText, statusText, hs, 0).text == text + HandlesRun(ids, ptrText, statusText, hs, k).text
      invariant HandlesRun(ids, ptrText, statusText, hs, 0).status == HandlesRun(ids, ptrText, statusText, hs, k).status
    {
      if IsError(hs[k].open) {
        run := OpenFailure(ids, ptrText, statusText, hs, k, text);
        return;
      }
      text := HandleTurn(ids, ptrText, statusText, hs, k, text);
      k := k + 1;
    }
    run := Report(text, Success);
  }
}
