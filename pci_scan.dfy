/**
 * PrintRootBridge and UefiMain of the ListPCI lessons (Lesson 30, which
 * lists IDs, and Lesson 31, which adds the pci.ids names): the address
 * space descriptors of each root bridge are walked up to the end tag, and
 * for every bus descriptor each bus of its range, device 0..31 and
 * function 0..7 is probed at register 0.
 */
module PciScan {
  import opened Efi
  import opened PciAddress
  import PciIds

  const ACPI_END_TAG_DESCRIPTOR: byte := 0x79
  const ACPI_ADDRESS_SPACE_TYPE_BUS: byte := 0x02
  const PCI_MAX_DEVICE: nat := 31
  const PCI_MAX_FUNC: nat := 7
  const DEVICES: nat := PCI_MAX_DEVICE + 1
  const FUNCS: nat := PCI_MAX_FUNC + 1

  /** The fields of an EFI_ACPI_ADDRESS_SPACE_DESCRIPTOR the walk reads. */
  datatype Descriptor = Descriptor(desc: byte, resType: byte, addrRangeMin: u64, addrRangeMax: u64)

  /** What Pci.Read of the PCI_DEVICE_INDEPENDENT_REGION returns. */
  datatype Probe = Probe(status: Status, vendorId: u16, deviceId: u16)

  // ---------------------------------------------------------------------
  // The descriptors walked and the functions probed.

  predicate HasEnd(ds: seq<Descriptor>)
  {
    exists k :: 0 <= k < |ds| && ds[k].desc == ACPI_END_TAG_DESCRIPTOR
  }

  /** The descriptors before the first end tag, in order. */
  function Walked(ds: seq<Descriptor>): (r: seq<Descriptor>)
    requires HasEnd(ds)
    ensures |r| < |ds| && ds[|r|].desc == ACPI_END_TAG_DESCRIPTOR
    ensures forall k :: 0 <= k < |r| ==> r[k] == ds[k] && r[k].desc != ACPI_END_TAG_DESCRIPTOR
  {
    if ds[0].desc == ACPI_END_TAG_DESCRIPTOR then []
    else
      assert HasEnd(ds[1..]) by {
        var k :| 0 <= k < |ds| && ds[k].desc == ACPI_END_TAG_DESCRIPTOR;
        assert ds[1..][k - 1] == ds[k];
      }
      [ds[0]] + Walked(ds[1..])
  }

  /** The bus counter is a UINT8 compared with AddrRangeMax: the bus loop
      ends only if AddrRangeMax is below 255. */
  predicate BusRangeEnds(d: Descriptor)
  {
    d.resType == ACPI_ADDRESS_SPACE_TYPE_BUS ==> d.addrRangeMax < 255
  }

  /** The walk ends: there is an end tag and every bus range before it ends. */
  predicate Walkable(ds: seq<Descriptor>)
  {
    HasEnd(ds) && forall k :: 0 <= k < |Walked(ds)| ==> BusRangeEnds(Walked(ds)[k])
  }

  /** Functions 0..n-1 of one device. */
  function DeviceProbes(bus: byte, device: byte, n: nat): (r: seq<Location>)
    requires n <= PCI_MAX_FUNC + 1
    ensures |r| == n
  {
    if n == 0 then [] else DeviceProbes(bus, device, n - 1) + [Location(bus, device, n - 1, 0)]
  }

  /** Devices 0..n-1 of one bus, each with all eight functions. */
  function BusProbes(bus: byte, n: nat): (r: seq<Location>)
    requires n <= PCI_MAX_DEVICE + 1
    ensures |r| == 8 * n
  {
    if n == 0 then [] else BusProbes(bus, n - 1) + DeviceProbes(bus, n - 1, FUNCS)
  }

  /** Buses lo..end-1. */
  function RangeProbes(lo: nat, end: nat): (r: seq<Location>)
    requires end <= 0x100
    ensures |r| == if lo <= end then 0x100 * (end - lo) else 0
  {
    if end <= lo then [] else RangeProbes(lo, end - 1) + BusProbes(end - 1, DEVICES)
  }

  /** A descriptor's probes: the buses from AddrRangeMin, truncated to the
      UINT8 counter, up to AddrRangeMax, for a bus descriptor; none for
      any other. */
  function DescriptorProbes(d: Descriptor): seq<Location>
    requires BusRangeEnds(d)
  {
    if d.resType == ACPI_ADDRESS_SPACE_TYPE_BUS then RangeProbes(d.addrRangeMin % 0x100, d.addrRangeMax + 1)
    else []
  }

  /** The probes of the descriptors `ds`, in order. */
  function WalkProbes(ds: seq<Descriptor>): seq<Location>
    requires forall k :: 0 <= k < |ds| ==> BusRangeEnds(ds[k])
  {
    if ds == [] then [] else WalkProbes(ds[..|ds| - 1]) + DescriptorProbes(ds[|ds| - 1])
  }

  /** Probe `k` of a range: bus lo + k/256, device (k mod 256)/8, function
      k mod 8, register 0; so every function of every device of every bus
      in the range is probed once, in bus, device, function order. */
  lemma {:induction false} RangeProbeAt(lo: nat, end: nat, k: nat)
    requires lo <= end <= 0x100 && k < 0x100 * (end - lo)
    ensures RangeProbes(lo, end)[k] == Location(lo + k / 0x100, k % 0x100 / 8, k % 8, 0)
    decreases end
  {
    var prev := RangeProbes(lo, end - 1);
    if k < |prev| {
      RangeProbeAt(lo, end - 1, k);
    } else {
      BusProbeAt(end - 1, DEVICES, k - |prev|);
      Quotients(k - |prev|, end - 1 - lo);
    }
  }

  /** Probe `k` of a bus: device k/8, function k mod 8. */
  lemma {:induction false} BusProbeAt(bus: byte, n: nat, k: nat)
    requires n <= PCI_MAX_DEVICE + 1 && k < 8 * n
    ensures BusProbes(bus, n)[k] == Location(bus, k / 8, k % 8, 0)
    decreases n
  {
    var prev := BusProbes(bus, n - 1);
    if k < |prev| {
      BusProbeAt(bus, n - 1, k);
    } else {
      DeviceProbeAt(bus, n - 1, FUNCS, k - |prev|);
    }
  }

  lemma {:induction false} DeviceProbeAt(bus: byte, device: byte, n: nat, f: nat)
    requires n <= PCI_MAX_FUNC + 1 && f < n
    ensures DeviceProbes(bus, device, n)[f] == Location(bus, device, f, 0)
    decreases n
  {
    if f < n - 1 {
      DeviceProbeAt(bus, device, n - 1, f);
    }
  }

  /** Index arithmetic of the last bus of a range. */
  lemma Quotients(j: nat, q: nat)
    requires j < 0x100
    ensures (0x100 * q + j) / 0x100 == q && (0x100 * q + j) % 0x100 / 8 == j / 8
    ensures (0x100 * q + j) % 8 == j % 8
  {
  }

  /** Every function of every device of every bus in the range is probed. */
  lemma RangeProbesCover(lo: nat, end: nat, bus: byte, device: byte, func: byte)
    requires lo <= bus < end <= 0x100 && device <= PCI_MAX_DEVICE && func <= PCI_MAX_FUNC
    ensures Location(bus, device, func, 0) in RangeProbes(lo, end)
  {
    var k := 0x100 * (bus - lo) + 8 * device + func;
    RangeProbeAt(lo, end, k);
    Quotients(8 * device + func, bus - lo);
    assert (8 * device + func) / 8 == device && (8 * device + func) % 8 == func;
    assert RangeProbes(lo, end)[k] == Location(bus, device, func, 0);
  }

  /** Later probes of a range have higher addresses. */
  lemma RangeProbesOrdered(lo: nat, end: nat, i: nat, j: nat)
    requires lo <= end <= 0x100 && i < j < 0x100 * (end - lo)
    ensures AddressOf(RangeProbes(lo, end)[i]) < AddressOf(RangeProbes(lo, end)[j])
  {
    RangeProbeAt(lo, end, i);
    RangeProbeAt(lo, end, j);
    AddressOrder(RangeProbes(lo, end)[i], RangeProbes(lo, end)[j]);
    IndexOrder(i, j);
  }

  /** Splitting an index into bus, device and function keeps its order. */
  lemma IndexOrder(i: nat, j: nat)
    requires i < j
    ensures i / 0x100 < j / 0x100 || (i / 0x100 == j / 0x100 &&
      (i % 0x100 / 8 < j % 0x100 / 8 || (i % 0x100 / 8 == j % 0x100 / 8 && i % 8 < j % 8)))
  {
    SplitOrder(i, j, 0x100);
    if i / 0x100 == j / 0x100 {
      SplitOrder(i % 0x100, j % 0x100, 8);
      ModMod(i);
      ModMod(j);
    }
  }

  /** A quotient and a remainder, compared in that order, compare as the number. */
  lemma SplitOrder(x: nat, y: nat, m: nat)
    requires x < y && 0 < m
    ensures x / m < y / m || (x / m == y / m && x % m < y % m)
  {
    assert x == m * (x / m) + x % m;
    assert y == m * (y / m) + y % m;
    if x / m > y / m {
      MulMono(m, y / m + 1, x / m);
    }
  }

  lemma MulMono(m: nat, a: nat, b: nat)
    requires a <= b
    ensures m * a <= m * b
  {
  }

  lemma ModMod(i: nat)
    ensures i % 0x100 % 8 == i % 8
  {
    assert i == 0x100 * (i / 0x100) + i % 0x100;
    assert 0x100 * (i / 0x100) == 8 * (0x20 * (i / 0x100));
  }

  // ---------------------------------------------------------------------
  // What a probe prints.

  /** Lesson 30 lists IDs; Lesson 31 also names them from pci.ids. */
  datatype Lesson = ListIds | ListNames(ids: PciIds.IdsBlock)

  /** One probe: a read error is printed and the scan goes on; a vendor ID
      of 0xFFFF means no function and prints nothing; otherwise the IDs are
      listed, and in Lesson 31 the pci.ids lookup's status replaces the
      read's. */
  function ProbeReport(lesson: Lesson, statusText: Status -> string, l: Location, p: Probe): (r: Report)
    ensures IsError(p.status) ==> r.status == p.status
    ensures !IsError(p.status) && p.vendorId == 0xFFFF ==> r == Report([], p.status)
    ensures lesson.ListIds? ==> r.status == p.status
  {
    if IsError(p.status) then
      Report((if lesson.ListIds? then "\t" else "  ") + "Error in PCI read: " + statusText(p.status) + "\n", p.status)
    else if p.vendorId == 0xFFFF then Report([], p.status)
    else match lesson
      case ListIds =>
        Report("\tBus: " + Hex2(l.bus) + ", Dev: " + Hex2(l.device) + ", Func: " + Hex2(l.func)
               + " - Vendor:" + HexFixed(p.vendorId, 4) + ", Device:" + HexFixed(p.deviceId, 4) + "\n", p.status)
      case ListNames(ids) =>
        var desc := PciIds.FindPCIDevDescription(ids, statusText, p.vendorId, p.deviceId);
        Report("  " + Hex2(l.bus) + ":" + Hex2(l.device) + "." + Hex2(l.func)
               + " - Vendor:" + HexFixed(p.vendorId, 4) + ", Device:" + HexFixed(p.deviceId, 4) + desc.text
               + (if IsError(desc.status) then "\n" else ":    " + desc.vendor + ", " + desc.device + "\n"),
               desc.status)
  }

  /** The lesson's probe report as a value the loops apply. */
  function Shower(lesson: Lesson, statusText: Status -> string): (Location, Probe) -> Report
  {
    (l: Location, p: Probe) => ProbeReport(lesson, statusText, l, p)
  }

  /** A root bridge: what Configuration returns and what Pci.Read returns
      at each address. */
  datatype Bridge = Bridge(configuration: Status, descriptors: seq<Descriptor>, read: u64 -> Probe)

  /** The texts of the probes `ls`, in order. */
  function ScanText(show: (Location, Probe) -> Report, read: u64 -> Probe, ls: seq<Location>): string
  {
    if ls == [] then [] else ScanText(show, read, ls[..|ls| - 1]) + show(ls[|ls| - 1], read(AddressOf(ls[|ls| - 1]))).text
  }

  /** The Status after the probes `ls`: the last probe's, or `before`. */
  function ScanStatus(show: (Location, Probe) -> Report, read: u64 -> Probe, ls: seq<Location>, before: Status): Status
  {
    if ls == [] then before else show(ls[|ls| - 1], read(AddressOf(ls[|ls| - 1]))).status
  }

  lemma {:induction false} ScanTextAppend(show: (Location, Probe) -> Report, read: u64 -> Probe, a: seq<Location>, b: seq<Location>)
    ensures ScanText(show, read, a + b) == ScanText(show, read, a) + ScanText(show, read, b)
    decreases |b|
  {
    if b != [] {
      assert (a + b)[..|a + b| - 1] == a + b[..|b| - 1];
      ScanTextAppend(show, read, a, b[..|b| - 1]);
    } else {
      assert a + b == a;
    }
  }

  /** The probes `ls` followed by `m`: text and status. */
  lemma ScanAppend(show: (Location, Probe) -> Report, read: u64 -> Probe, ls: seq<Location>, m: seq<Location>, s: Status)
    ensures ScanText(show, read, ls + m) == ScanText(show, read, ls) + ScanText(show, read, m)
    ensures ScanStatus(show, read, ls + m, s) == ScanStatus(show, read, m, ScanStatus(show, read, ls, s))
  {
    ScanTextAppend(show, read, ls, m);
    if m == [] {
      assert ls + m == ls;
    }
  }

  // ---------------------------------------------------------------------
  // The nested loops.

  /** The Func loop of one device. */
  method ScanDevice(show: (Location, Probe) -> Report, read: u64 -> Probe, bus: byte, device: byte, before: Status)
    returns (text: string, status: Status)
    ensures text == ScanText(show, read, DeviceProbes(bus, device, FUNCS))
    ensures status == ScanStatus(show, read, DeviceProbes(bus, device, FUNCS), before)
  {
    text := [];
    status := before;
    var func := 0;
    while func <= PCI_MAX_FUNC
      invariant 0 <= func <= PCI_MAX_FUNC + 1
      invariant text == ScanText(show, read, DeviceProbes(bus, device, func))
      invariant status == ScanStatus(show, read, DeviceProbes(bus, device, func), before)
    {
      var address := PciConfigurationAddress(bus, device, func, 0);
      var r := show(Location(bus, device, func, 0), read(address));
      ghost var ls := DeviceProbes(bus, device, func + 1);
      assert ls[..func] == DeviceProbes(bus, device, func);
      text := text + r.text;
      status := r.status;
      func := func + 1;
    }
  }

  /** The Device loop of one bus. */
  method ScanBus(show: (Location, Probe) -> Report, read: u64 -> Probe, bus: byte, before: Status)
    returns (text: string, status: Status)
    ensures text == ScanText(show, read, BusProbes(bus, DEVICES))
    ensures status == ScanStatus(show, read, BusProbes(bus, DEVICES), before)
  {
    text := [];
    status := before;
    var device := 0;
    while device <= PCI_MAX_DEVICE
      invariant 0 <= device <= PCI_MAX_DEVICE + 1
      invariant text == ScanText(show, read, BusProbes(bus, device))
      invariant status == ScanStatus(show, read, BusProbes(bus, device), before)
    {
      var t, st := ScanDevice(show, read, bus, device, status);
      BusStep(show, read, bus, device, before);
      text := text + t;
      status := st;
      device := device + 1;
    }
    assert device == DEVICES;
  }

  /** One more device of a bus: its probes follow those of the devices before. */
  lemma BusStep(show: (Location, Probe) -> Report, read: u64 -> Probe, bus: byte, device: byte, before: Status)
    requires device < DEVICES
    ensures ScanText(show, read, BusProbes(bus, device + 1))
         == ScanText(show, read, BusProbes(bus, device)) + ScanText(show, read, DeviceProbes(bus, device, FUNCS))
    ensures ScanStatus(show, read, BusProbes(bus, device + 1), before)
         == ScanStatus(show, read, DeviceProbes(bus, device, FUNCS), ScanStatus(show, read, BusProbes(bus, device), before))
  {
    ScanAppend(show, read, BusProbes(bus, device), DeviceProbes(bus, device, FUNCS), before);
  }

  /** The Bus loop of one bus descriptor: the UINT8 counter starts at
      AddrRangeMin truncated to 8 bits and runs while it is at most
      AddrRangeMax. */
  method ScanRange(show: (Location, Probe) -> Report, read: u64 -> Probe, d: Descriptor, before: Status)
    returns (text: string, status: Status)
    requires d.resType == ACPI_ADDRESS_SPACE_TYPE_BUS && BusRangeEnds(d)
    ensures text == ScanText(show, read, DescriptorProbes(d))
    ensures status == ScanStatus(show, read, DescriptorProbes(d), before)
  {
    var lo := d.addrRangeMin % 0x100;
    var bus := lo;
    text := [];
    status := before;
    while bus <= d.addrRangeMax
      invariant lo <= bus <= d.addrRangeMax + 1 || (bus == lo && lo > d.addrRangeMax)
      invariant text == ScanText(show, read, RangeProbes(lo, bus))
      invariant status == ScanStatus(show, read, RangeProbes(lo, bus), before)
      decreases d.addrRangeMax + 1 - bus
    {
      var t, st := ScanBus(show, read, bus, status);
      RangeStep(show, read, lo, bus, before);
      text := text + t;
      status := st;
      bus := bus + 1;
    }
    assert RangeProbes(lo, bus) == RangeProbes(lo, d.addrRangeMax + 1);
  }

  /** One more bus of a range: its probes follow those of the buses before. */
  lemma RangeStep(show: (Location, Probe) -> Report, read: u64 -> Probe, lo: nat, bus: byte, before: Status)
    requires lo <= bus < 0x100
    ensures ScanText(show, read, RangeProbes(lo, bus + 1)) == ScanText(show, read, RangeProbes(lo, bus)) + ScanText(show, read, BusProbes(bus, DEVICES))
    ensures ScanStatus(show, read, RangeProbes(lo, bus + 1), before)
         == ScanStatus(show, read, BusProbes(bus, DEVICES), ScanStatus(show, read, RangeProbes(lo, bus), before))
  {
    ScanAppend(show, read, RangeProbes(lo, bus), BusProbes(bus, DEVICES), before);
  }

  /** One more descriptor of the walk. */
  lemma WalkStep(show: (Location, Probe) -> Report, read: u64 -> Probe, walked: seq<Descriptor>, n: nat, before: Status)
    requires n < |walked| && forall k :: 0 <= k < |walked| ==> BusRangeEnds(walked[k])
    ensures ScanText(show, read, WalkProbes(walked[..n + 1]))
         == ScanText(show, read, WalkProbes(walked[..n])) + ScanText(show, read, DescriptorProbes(walked[n]))
    ensures ScanStatus(show, read, WalkProbes(walked[..n + 1]), before)
         == ScanStatus(show, read, DescriptorProbes(walked[n]), ScanStatus(show, read, WalkProbes(walked[..n]), before))
  {
    assert walked[..n + 1][..n] == walked[..n];
    ScanAppend(show, read, WalkProbes(walked[..n]), DescriptorProbes(walked[n]), before);
  }

  /** PrintRootBridge: the descriptor walk, or the Configuration error. */
  function PrintRootBridge(show: (Location, Probe) -> Report, statusText: Status -> string, br: Bridge): (r: Report)
    requires !IsError(br.configuration) ==> Walkable(br.descriptors)
  {
    if IsError(br.configuration) then
      Report("\tError! Can't get EFI_ACPI_ADDRESS_SPACE_DESCRIPTOR: " + statusText(br.configuration) + "\n", br.configuration)
    else
      var ls := WalkProbes(Walked(br.descriptors));
      Report(ScanText(show, br.read, ls), ScanStatus(show, br.read, ls, br.configuration))
  }

  /** The descriptor loop of PrintRootBridge. */
  method WalkBridge(show: (Location, Probe) -> Report, statusText: Status -> string, br: Bridge) returns (r: Report)
    requires !IsError(br.configuration) ==> Walkable(br.descriptors)
    ensures r == PrintRootBridge(show, statusText, br)
  {
    if IsError(br.configuration) {
      r := Report("\tError! Can't get EFI_ACPI_ADDRESS_SPACE_DESCRIPTOR: " + statusText(br.configuration) + "\n", br.configuration);
      return;
    }
    ghost var walked := Walked(br.descriptors);
    var ds := br.descriptors;
    var n := 0;
    var text := [];
    var status := br.configuration;
    while ds[n].desc != ACPI_END_TAG_DESCRIPTOR
      invariant 0 <= n <= |walked|
      invariant text == ScanText(show, br.read, WalkProbes(walked[..n]))
      invariant status == ScanStatus(show, br.read, WalkProbes(walked[..n]), br.configuration)
      decreases |walked| - n
    {
      var d := ds[n];
      WalkStep(show, br.read, walked, n, br.configuration);
      if d.resType == ACPI_ADDRESS_SPACE_TYPE_BUS {
        var t, st := ScanRange(show, br.read, d, status);
        text := text + t;
        status := st;
      }
      n := n + 1;
    }
    assert walked[..n] == walked;
    r := Report(text, status);
  }

  /** In both lessons exactly the functions that answer with a vendor ID
      other than 0xFFFF, and the reads that fail, print something; the status
      left is an error exactly when the read failed or, in Lesson 31, pci.ids
      could not be found, opened, sized or read. */
  lemma ListedFunctions(lesson: Lesson, statusText: Status -> string, l: Location, p: Probe)
    ensures var r := ProbeReport(lesson, statusText, l, p);
      && (r.text != [] <==> IsError(p.status) || p.vendorId != 0xFFFF)
      && (IsError(r.status) <==>
            (IsError(p.status) ||
             (lesson.ListNames? && p.vendorId != 0xFFFF && PciIds.LookupFails(lesson.ids))))
  {
  }

  // ---------------------------------------------------------------------
  // UefiMain: every root bridge handle, in order.

  /** A handle of the root bridge protocol: what OpenProtocol returns and
      the bridge behind it. */
  datatype Handle = Handle(open: Status, bridge: Bridge)

  /** Every bridge that is reached has a walk that ends. */
  predicate BridgesOk(hs: seq<Handle>)
  {
    forall k :: 0 <= k < |hs| ==> !IsError(hs[k].open) && !IsError(hs[k].bridge.configuration) ==> Walkable(hs[k].bridge.descriptors)
  }

  /** The text for root bridge `index`. */
  function BridgeText(show: (Location, Probe) -> Report, statusText: Status -> string, index: nat, br: Bridge): string
    requires !IsError(br.configuration) ==> Walkable(br.descriptors)
  {
    var r := PrintRootBridge(show, statusText, br);
    "\nPCI Root Bridge " + Dec32(index) + "\n" + r.text
      + (if IsError(r.status) then "Error in PCI Root Bridge printing\n" else "")
  }

  /** Handles k..: the text printed and the Status returned. An
      OpenProtocol failure ends the program with its status; a bridge that
      fails is reported and the next one is visited. */
  function BridgesRun(show: (Location, Probe) -> Report, statusText: Status -> string, hs: seq<Handle>, k: nat): (r: Report)
    requires BridgesOk(hs) && k <= |hs|
    decreases |hs| - k
  {
    if k == |hs| then Report([], Success)
    else if IsError(hs[k].open) then Report("Can't open protocol: " + statusText(hs[k].open) + "\n", hs[k].open)
    else
      var rest := BridgesRun(show, statusText, hs, k + 1);
      Report(BridgeText(show, statusText, k, hs[k].bridge) + rest.text, rest.status)
  }

  /** The run fails exactly when a handle cannot be opened: a bridge whose
      own printing fails does not change the Status returned. */
  lemma {:induction false} RunStatus(show: (Location, Probe) -> Report, statusText: Status -> string, hs: seq<Handle>, k: nat)
    requires BridgesOk(hs) && k <= |hs|
    ensures IsError(BridgesRun(show, statusText, hs, k).status) <==> exists j :: k <= j < |hs| && IsError(hs[j].open)
    ensures !IsError(BridgesRun(show, statusText, hs, k).status) ==> BridgesRun(show, statusText, hs, k).status == Success
    decreases |hs| - k
  {
    if k < |hs| && !IsError(hs[k].open) {
      RunStatus(show, statusText, hs, k + 1);
    }
  }

  /** One reachable bridge: its text follows the text so far. */
  method BridgeTurn(show: (Location, Probe) -> Report, statusText: Status -> string, hs: seq<Handle>, k: nat, text: string)
    returns (text': string)
    requires BridgesOk(hs) && k < |hs| && !IsError(hs[k].open)
    requires BridgesRun(show, statusText, hs, 0).text == text + BridgesRun(show, statusText, hs, k).text
    ensures BridgesRun(show, statusText, hs, 0).text == text' + BridgesRun(show, statusText, hs, k + 1).text
    ensures BridgesRun(show, statusText, hs, k).status == BridgesRun(show, statusText, hs, k + 1).status
  {
    var br := WalkBridge(show, statusText, hs[k].bridge);
    var t := "\nPCI Root Bridge " + Dec32(k) + "\n" + br.text
      + (if IsError(br.status) then "Error in PCI Root Bridge printing\n" else "");
    assert BridgesRun(show, statusText, hs, k).text == t + BridgesRun(show, statusText, hs, k + 1).text;
    Regroup(text, t, BridgesRun(show, statusText, hs, k + 1).text);
    text' := text + t;
  }

  /** A handle that cannot be opened ends the run with its status. */
  method OpenFailure(show: (Location, Probe) -> Report, statusText: Status -> string, hs: seq<Handle>, k: nat, text: string)
    returns (run: Report)
    requires BridgesOk(hs) && k < |hs| && IsError(hs[k].open)
    requires BridgesRun(show, statusText, hs, 0).text == text + BridgesRun(show, statusText, hs, k).text
    requires BridgesRun(show, statusText, hs, 0).status == BridgesRun(show, statusText, hs, k).status
    ensures run == BridgesRun(show, statusText, hs, 0)
  {
    run := Report(text + ("Can't open protocol: " + statusText(hs[k].open) + "\n"), hs[k].open);
  }

  /** UefiMain of ListPCI. */
  function ListPciMain(lesson: Lesson, statusText: Status -> string, locate: Status, hs: seq<Handle>): Report
    requires BridgesOk(hs)
  {
    if IsError(locate) then Report("Can't locate EFI_PCI_ROOT_BRIDGE_IO_PROTOCOL: " + statusText(locate) + "\n", locate)
    else
      var run := BridgesRun(Shower(lesson, statusText), statusText, hs, 0);
      Report("Number of PCI root bridges in the system: " + Dec32(|hs|) + "\n" + run.text, run.status)
  }

  /** UefiMain: the handle count, then the bridges. */
  method VisitBridges(lesson: Lesson, statusText: Status -> string, locate: Status, hs: seq<Handle>) returns (r: Report)
    requires BridgesOk(hs)
    ensures r == ListPciMain(lesson, statusText, locate, hs)
  {
    if IsError(locate) {
      r := Report("Can't locate EFI_PCI_ROOT_BRIDGE_IO_PROTOCOL: " + statusText(locate) + "\n", locate);
      return;
    }
    var run := RunBridges(Shower(lesson, statusText), statusText, hs);
    r := Report("Number of PCI root bridges in the system: " + Dec32(|hs|) + "\n" + run.text, run.status);
  }

  lemma Regroup(a: string, b: string, c: string)
    ensures a + (b + c) == (a + b) + c
  {
  }

  /** The handle loop of UefiMain. */
  method RunBridges(show: (Location, Probe) -> Report, statusText: Status -> string, hs: seq<Handle>) returns (run: Report)
    requires BridgesOk(hs)
    ensures run == BridgesRun(show, statusText, hs, 0)
  {
    var text := [];
    var k := 0;
    while k < |hs|
      invariant 0 <= k <= |hs|
      invariant BridgesRun(show, statusText, hs, 0).text == text + BridgesRun(show, statusText, hs, k).text
      invariant BridgesRun(show, statusText, hs, 0).status == BridgesRun(show, statusText, hs, k).status
    {
      if IsError(hs[k].open) {
        run := OpenFailure(show, statusText, hs, k, text);
        return;
      }
      text := BridgeTurn(show, statusText, hs, k, text);
      k := k + 1;
    }
    run := Report(text, Success);
  }
}
