/**
 * FindPCIDevDescription of the ListPCI (Lesson 31) and DumpPCIroms lessons:
 * the vendor and device IDs become four lower-case hex digits and a block
 * of the pci.ids file is scanned line by line, first for a vendor line
 * "VVVV  name", then, anywhere after it, for a device line "\tDDDD  name".
 */
module PciIds {
  import opened Efi

  const BLOCK_READ_SIZE: nat := 4096
  const DESCRIPTOR_STR_MAX_SIZE: nat := 200
  const NL: byte := 0x0A
  const TAB: byte := 0x09

  // ---------------------------------------------------------------------
  // ToLowerASCII

  predicate IsUpper(c: byte)
  {
    'A' as int <= c <= 'Z' as int
  }

  /** One byte as ToLowerASCII leaves it. */
  function Lower(c: byte): (r: byte)
    ensures r != c <==> IsUpper(c)
    ensures !IsUpper(r) && (IsUpper(c) ==> r == c + 32)
  {
    if IsUpper(c) then c + 32 else c
  }

  /** Every byte of `s` lowered. */
  function LowerAll(s: seq<byte>): (r: seq<byte>)
    ensures |r| == |s|
  {
    if s == [] then [] else LowerAll(s[..|s| - 1]) + [Lower(s[|s| - 1])]
  }

  /** Byte `j` of LowerAll(s) is byte `j` of `s` lowered: 'A'..'Z' become
      'a'..'z' and nothing else changes. */
  lemma {:induction false} LowerAllAt(s: seq<byte>, j: nat)
    requires j < |s|
    ensures LowerAll(s)[j] == Lower(s[j])
    ensures LowerAll(s)[j] != s[j] <==> IsUpper(s[j])
  {
    if j < |s| - 1 {
      LowerAllAt(s[..|s| - 1], j);
    }
  }

  /** Lowering twice is lowering once. */
  lemma {:induction false} LowerAllIdempotent(s: seq<byte>)
    ensures LowerAll(LowerAll(s)) == LowerAll(s)
  {
    if s != [] {
      LowerAllIdempotent(s[..|s| - 1]);
      assert LowerAll(s)[..|s| - 1] == LowerAll(s[..|s| - 1]);
    }
  }

  /** ToLowerASCII (Str, Size): lowers the first `size` bytes in place. The
      counter is a UINT8, so the loop ends only for sizes below 256. */
  method ToLowerASCII(str: array<byte>, size: nat)
    requires size <= str.Length && size < 0x100
    modifies str
    ensures str[..] == LowerAll(old(str[..])[..size]) + old(str[..])[size..]
  {
    var i := 0;
    while i < size
      invariant 0 <= i <= size
      invariant forall j :: 0 <= j < str.Length ==> str[j] == if j < i then Lower(old(str[j])) else old(str[j])
    {
      str[i] := Lower(str[i]);
      i := i + 1;
    }
    LowerPrefix(old(str[..]), size, str[..]);
  }

  /** A buffer lowered byte by byte below `n` is LowerAll of that prefix
      followed by the rest. */
  lemma LowerPrefix(s: seq<byte>, n: nat, t: seq<byte>)
    requires n <= |s| == |t|
    requires forall j :: 0 <= j < |s| ==> t[j] == if j < n then Lower(s[j]) else s[j]
    ensures t == LowerAll(s[..n]) + s[n..]
  {
    forall j | 0 <= j < n ensures LowerAll(s[..n])[j] == t[j] {
      LowerAllAt(s[..n], j);
    }
  }

  // ---------------------------------------------------------------------
  // The IDs as text: AsciiValueToStringS with RADIX_HEX | PREFIX_ZERO and
  // width 4 writes upper-case digits, which ToLowerASCII then lowers.

  /** ASCII text as CHAR8 bytes. */
  function Ascii(s: string): (r: seq<byte>)
    requires forall k :: 0 <= k < |s| ==> s[k] as int < 0x100
    ensures |r| == |s|
  {
    if s == [] then [] else Ascii(s[..|s| - 1]) + [s[|s| - 1] as int]
  }

  /** The digits of `x` as "%0Nx" prints them, in bytes. */
  function HexBytes(x: nat, width: nat): (r: seq<byte>)
    ensures |r| == width
  {
    if width == 0 then [] else HexBytes(x / 16, width - 1) + [HexChar(x % 16) as int]
  }

  /** The digits AsciiValueToStringS writes: upper-case. */
  function HexBytesUpper(x: nat, width: nat): (r: seq<byte>)
    ensures |r| == width
  {
    if width == 0 then [] else HexBytesUpper(x / 16, width - 1) + [HexCharUpper(x % 16) as int]
  }

  /** Lowering the upper-case digits gives the lower-case ones. */
  lemma {:induction false} LowerHex(x: nat, width: nat)
    ensures LowerAll(HexBytesUpper(x, width)) == HexBytes(x, width)
  {
    if width > 0 {
      LowerHex(x / 16, width - 1);
      var u := HexBytesUpper(x, width);
      assert u[..width - 1] == HexBytesUpper(x / 16, width - 1);
    }
  }

  /** VendorStr/DeviceStr: AsciiValueToStringS fills five bytes (four digits
      and a NUL) and ToLowerASCII lowers the digits. */
  method IdString(id: u16) returns (str: array<byte>)
    ensures str.Length == 5 && str[..4] == HexBytes(id, 4) && str[4] == 0
  {
    var digits := HexBytesUpper(id, 4);
    str := new byte[5](j => if j < 4 then digits[j] else 0);
    assert str[..] == digits + [0];
    ToLowerASCII(str, 4);
    LowerHex(id, 4);
    assert str[..4] == LowerAll(digits);
  }

  // ---------------------------------------------------------------------
  // The line scan over one block of pci.ids. StrStart is the position of
  // the newline before the current line (0 for the block's first line) and
  // StrEnd the newline ending it; a line is judged by StrEnd - StrStart.

  /** The StrStart of the line ending at `e`: the last newline before `e`,
      or 0. */
  function LineStart(buf: seq<byte>, e: nat): (s: nat)
    requires e <= |buf|
    ensures s <= e && (s == 0 || (s < e && buf[s] == NL))
    ensures NoNewline(buf, s, e)
  {
    if e == 0 then 0 else if buf[e - 1] == NL then e - 1 else LineStart(buf, e - 1)
  }

  /** No newline lies strictly between `s` and `e`. */
  predicate NoNewline(buf: seq<byte>, s: nat, e: nat)
    requires e <= |buf|
  {
    forall j :: s < j < e ==> buf[j] != NL
  }

  /** The line ending at `e` carries vendor `v`: longer than 7 and bytes
      1-4 after StrStart equal to `v`. */
  predicate VendorLine(buf: seq<byte>, v: seq<byte>, e: nat)
    requires e < |buf| && |v| == 4
  {
    var s := LineStart(buf, e);
    buf[e] == NL && e - s > 7 && buf[s + 1..s + 5] == v
  }

  /** The line ending at `e` carries device `d`: longer than 8, a tab, then
      `d`. */
  predicate DeviceLine(buf: seq<byte>, d: seq<byte>, e: nat)
    requires e < |buf| && |d| == 4
  {
    var s := LineStart(buf, e);
    buf[e] == NL && e - s > 8 && buf[s + 1] == TAB && buf[s + 2..s + 6] == d
  }

  /** The first vendor line ending at or after `i`. */
  function FirstVendor(buf: seq<byte>, v: seq<byte>, i: nat): (r: Option<nat>)
    requires |v| == 4 && i <= |buf|
    ensures r.Some? ==> i <= r.value < |buf| && VendorLine(buf, v, r.value)
    ensures forall e :: i <= e < (if r.Some? then r.value else |buf|) ==> !VendorLine(buf, v, e)
    decreases |buf| - i
  {
    if i == |buf| then None
    else if VendorLine(buf, v, i) then Some(i)
    else FirstVendor(buf, v, i + 1)
  }

  /** The first device line ending at or after `i`. */
  function FirstDevice(buf: seq<byte>, d: seq<byte>, i: nat): (r: Option<nat>)
    requires |d| == 4 && i <= |buf|
    ensures r.Some? ==> i <= r.value < |buf| && DeviceLine(buf, d, r.value)
    ensures forall e :: i <= e < (if r.Some? then r.value else |buf|) ==> !DeviceLine(buf, d, e)
    decreases |buf| - i
  {
    if i == |buf| then None
    else if DeviceLine(buf, d, i) then Some(i)
    else FirstDevice(buf, d, i + 1)
  }

  /** The name on a line: "%a" from byte 7 (vendor) or 8 (device) after
      StrStart up to the NUL written over the newline. */
  function LineName(buf: seq<byte>, e: nat, skip: nat): seq<byte>
    requires e < |buf| && LineStart(buf, e) + skip <= e
  {
    CBytes(buf[LineStart(buf, e) + skip..e])
  }

  /** What the scan finds: the first vendor line's name and, if a device
      line follows it, the first such line's name. */
  datatype Found = Found(vendor: Option<seq<byte>>, device: Option<seq<byte>>)

  function Scan(buf: seq<byte>, v: seq<byte>, d: seq<byte>): (r: Found)
    requires |v| == 4 && |d| == 4
    ensures r.device.Some? ==> r.vendor.Some?
  {
    var ev := FirstVendor(buf, v, 0);
    if ev.None? then Found(None, None)
    else Found(Some(LineName(buf, ev.value, 7)), DeviceName(buf, d, ev.value + 1))
  }

  /** The name on the first device line from `from` on, if there is one. */
  function DeviceName(buf: seq<byte>, d: seq<byte>, from: nat): Option<seq<byte>>
    requires |d| == 4 && from <= |buf|
  {
    var ed := FirstDevice(buf, d, from);
    if ed.None? then None else Some(LineName(buf, ed.value, 8))
  }

  /** What the scan knows after the bytes before `i`: no vendor line yet,
      or the first vendor line at `ev`, its name taken, and no device line
      after it. */
  ghost predicate Scanned(buf: seq<byte>, v: seq<byte>, d: seq<byte>, i: nat,
                          vendor: Option<seq<byte>>, ev: nat)
    requires |v| == 4 && |d| == 4
  {
    && i <= |buf|
    && (vendor.None? ==> forall e :: 0 <= e < i ==> !VendorLine(buf, v, e))
    && (vendor.Some? ==>
          && ev < i && FirstVendor(buf, v, 0) == Some(ev)
          && vendor == Some(LineName(buf, ev, 7))
          && forall e :: ev < e < i ==> !DeviceLine(buf, d, e))
  }

  /** The for loop over one block: vendor lines are looked for until one
      matches, then device lines, and the first device line ends the scan. */
  method ScanBlock(buf: seq<byte>, v: seq<byte>, d: seq<byte>) returns (found: Found)
    requires |v| == 4 && |d| == 4
    ensures found == Scan(buf, v, d)
  {
    var strStart := 0;
    var i := 0;
    var vendor: Option<seq<byte>> := None;
    ghost var ev := 0;
    while i < |buf|
      invariant Scanned(buf, v, d, i, vendor, ev) && strStart == LineStart(buf, i)
    {
      if buf[i] == NL {
        var device;
        vendor, device, ev := AtNewline(buf, v, d, i, strStart, vendor, ev);
        if device.Some? {
          found := Found(vendor, device);
          return;
        }
        strStart := i;
      } else {
        OtherByte(buf, v, d, i, vendor, ev);
      }
      i := i + 1;
    }
    found := Found(vendor, None);
    ScanEnd(buf, v, d, vendor, ev);
  }

  /** The line ending at the newline `i` is tested for the vendor, or, once
      the vendor is known, for the device. */
  method AtNewline(buf: seq<byte>, v: seq<byte>, d: seq<byte>, i: nat, strStart: nat,
                   vendor: Option<seq<byte>>, ghost ev: nat)
    returns (vendor': Option<seq<byte>>, device: Option<seq<byte>>, ghost ev': nat)
    requires |v| == 4 && |d| == 4 && i < |buf| && buf[i] == NL
    requires Scanned(buf, v, d, i, vendor, ev) && strStart == LineStart(buf, i)
    ensures device.None? ==> Scanned(buf, v, d, i + 1, vendor', ev') && LineStart(buf, i + 1) == i
    ensures device.Some? ==> Found(vendor', device) == Scan(buf, v, d)
  {
    if vendor.None? {
      vendor', ev' := VendorAt(buf, v, d, i, strStart);
      device := None;
    } else {
      device := DeviceAt(buf, v, d, i, strStart, vendor, ev);
      vendor', ev' := vendor, ev;
    }
  }

  /** The vendor test on the line ending at `i`, with no vendor line before. */
  method VendorAt(buf: seq<byte>, v: seq<byte>, d: seq<byte>, i: nat, strStart: nat)
    returns (vendor: Option<seq<byte>>, ghost ev: nat)
    requires |v| == 4 && |d| == 4 && i < |buf| && buf[i] == NL
    requires Scanned(buf, v, d, i, None, 0) && strStart == LineStart(buf, i)
    ensures Scanned(buf, v, d, i + 1, vendor, ev) && LineStart(buf, i + 1) == i
  {
    var strEnd := i;
    if strEnd - strStart > 7 && buf[strStart + 1..strStart + 5] == v {
      assert VendorLine(buf, v, i);
      VendorHere(buf, v, d, i);
      vendor := Some(CBytes(buf[strStart + 7..strEnd]));
      ev := i;
    } else {
      assert !VendorLine(buf, v, i);
      NoVendorHere(buf, v, d, i);
      vendor, ev := None, 0;
    }
  }

  /** The first vendor line ends at `i`: its name is taken. */
  lemma VendorHere(buf: seq<byte>, v: seq<byte>, d: seq<byte>, i: nat)
    requires |v| == 4 && |d| == 4 && i < |buf| && buf[i] == NL
    requires Scanned(buf, v, d, i, None, 0) && VendorLine(buf, v, i)
    ensures Scanned(buf, v, d, i + 1, Some(LineName(buf, i, 7)), i) && LineStart(buf, i + 1) == i
  {
    NoVendorBefore(buf, v, 0, i);
  }

  /** A line ending at `i` without the vendor leaves the vendor unfound. */
  lemma NoVendorHere(buf: seq<byte>, v: seq<byte>, d: seq<byte>, i: nat)
    requires |v| == 4 && |d| == 4 && i < |buf| && buf[i] == NL
    requires Scanned(buf, v, d, i, None, 0) && !VendorLine(buf, v, i)
    ensures Scanned(buf, v, d, i + 1, None, 0) && LineStart(buf, i + 1) == i
  {
  }

  /** The device test on the line ending at `i`, after the vendor line `ev`. */
  method DeviceAt(buf: seq<byte>, v: seq<byte>, d: seq<byte>, i: nat, strStart: nat,
                  vendor: Option<seq<byte>>, ghost ev: nat)
    returns (device: Option<seq<byte>>)
    requires |v| == 4 && |d| == 4 && i < |buf| && buf[i] == NL && vendor.Some?
    requires Scanned(buf, v, d, i, vendor, ev) && strStart == LineStart(buf, i)
    ensures device.None? ==> Scanned(buf, v, d, i + 1, vendor, ev) && LineStart(buf, i + 1) == i
    ensures device.Some? ==> Found(vendor, device) == Scan(buf, v, d)
  {
    var strEnd := i;
    var matches := strEnd - strStart > 8 && buf[strStart + 1] == TAB && buf[strStart + 2..strStart + 6] == d;
    DeviceTest(buf, d, i, strStart, matches);
    if matches {
      DeviceFound(buf, v, d, ev, i);
      device := Some(CBytes(buf[strStart + 8..strEnd]));
    } else {
      NoDeviceHere(buf, v, d, i, vendor, ev);
      device := None;
    }
  }

  /** The byte test of the loop is DeviceLine. */
  lemma DeviceTest(buf: seq<byte>, d: seq<byte>, i: nat, strStart: nat, matches: bool)
    requires |d| == 4 && i < |buf| && buf[i] == NL && strStart == LineStart(buf, i)
    requires matches == (i - strStart > 8 && buf[strStart + 1] == TAB && buf[strStart + 2..strStart + 6] == d)
    ensures matches == DeviceLine(buf, d, i)
  {
  }

  /** A line ending at `i` without the device keeps the scan going. */
  lemma NoDeviceHere(buf: seq<byte>, v: seq<byte>, d: seq<byte>, i: nat, vendor: Option<seq<byte>>, ev: nat)
    requires |v| == 4 && |d| == 4 && i < |buf| && buf[i] == NL && vendor.Some?
    requires Scanned(buf, v, d, i, vendor, ev) && !DeviceLine(buf, d, i)
    ensures Scanned(buf, v, d, i + 1, vendor, ev) && LineStart(buf, i + 1) == i
  {
  }

  /** The first device line after the vendor's completes what Scan finds. */
  lemma DeviceFound(buf: seq<byte>, v: seq<byte>, d: seq<byte>, ev: nat, i: nat)
    requires |v| == 4 && |d| == 4 && ev < i < |buf| && FirstVendor(buf, v, 0) == Some(ev)
    requires DeviceLine(buf, d, i) && forall e :: ev < e < i ==> !DeviceLine(buf, d, e)
    ensures Scan(buf, v, d) == Found(Some(LineName(buf, ev, 7)), Some(LineName(buf, i, 8)))
  {
    NoDeviceBefore(buf, d, ev + 1, i);
    DeviceHere(buf, d, i);
    DeviceNameAt(buf, d, ev + 1, i);
    ScanFindsDevice(buf, v, d, ev, LineName(buf, i, 8));
  }

  lemma DeviceHere(buf: seq<byte>, d: seq<byte>, i: nat)
    requires |d| == 4 && i < |buf| && DeviceLine(buf, d, i)
    ensures FirstDevice(buf, d, i) == Some(i)
  {
  }

  lemma DeviceNameAt(buf: seq<byte>, d: seq<byte>, from: nat, i: nat)
    requires |d| == 4 && from <= i < |buf| && FirstDevice(buf, d, from) == Some(i)
    ensures DeviceName(buf, d, from) == Some(LineName(buf, i, 8))
  {
  }

  /** Scan's result once the first vendor and the following device name are known. */
  lemma ScanFindsDevice(buf: seq<byte>, v: seq<byte>, d: seq<byte>, ev: nat, name: seq<byte>)
    requires |v| == 4 && |d| == 4 && ev < |buf| && FirstVendor(buf, v, 0) == Some(ev)
    requires DeviceName(buf, d, ev + 1) == Some(name)
    ensures Scan(buf, v, d) == Found(Some(LineName(buf, ev, 7)), Some(name))
  {
  }

  /** A byte other than a newline ends no line. */
  lemma OtherByte(buf: seq<byte>, v: seq<byte>, d: seq<byte>, i: nat, vendor: Option<seq<byte>>, ev: nat)
    requires |v| == 4 && |d| == 4 && i < |buf| && buf[i] != NL
    requires Scanned(buf, v, d, i, vendor, ev)
    ensures Scanned(buf, v, d, i + 1, vendor, ev) && LineStart(buf, i + 1) == LineStart(buf, i)
  {
  }

  /** At the end of the block the scan has found what Scan describes. */
  lemma ScanEnd(buf: seq<byte>, v: seq<byte>, d: seq<byte>, vendor: Option<seq<byte>>, ev: nat)
    requires |v| == 4 && |d| == 4 && Scanned(buf, v, d, |buf|, vendor, ev)
    ensures Found(vendor, None) == Scan(buf, v, d)
  {
    if vendor.Some? {
      NoDeviceBefore(buf, d, ev + 1, |buf|);
    } else {
      NoVendorBefore(buf, v, 0, |buf|);
    }
  }

  /** With no vendor line in [from, i), the first from `from` is at `i` or later. */
  lemma {:induction false} NoVendorBefore(buf: seq<byte>, v: seq<byte>, from: nat, i: nat)
    requires |v| == 4 && from <= i <= |buf|
    requires forall e :: from <= e < i ==> !VendorLine(buf, v, e)
    ensures FirstVendor(buf, v, from) == FirstVendor(buf, v, i)
    decreases i - from
  {
    if from < i {
      NoVendorBefore(buf, v, from + 1, i);
    }
  }

  /** With no device line in [from, i), the first from `from` is at `i` or later. */
  lemma {:induction false} NoDeviceBefore(buf: seq<byte>, d: seq<byte>, from: nat, i: nat)
    requires |d| == 4 && from <= i <= |buf|
    requires forall e :: from <= e < i ==> !DeviceLine(buf, d, e)
    ensures FirstDevice(buf, d, from) == FirstDevice(buf, d, i)
    decreases i - from
  {
    if from < i {
      NoDeviceBefore(buf, d, from + 1, i);
    }
  }

  // ---------------------------------------------------------------------
  // FindPCIDevDescription

  /** The pci.ids file as the shell hands it over: what ShellFileExists,
      ShellOpenFileByName, ShellGetFileSize and ShellReadFile answer, and
      the contents. */
  datatype IdsFile = IdsFile(present: Status, open: Status, size: Status, read: Status, data: seq<byte>)

  /** A pci.ids whose contents fit the one block FindPCIDevDescription reads. */
  type IdsBlock = f: IdsFile | |f.data| <= BLOCK_READ_SIZE witness IdsFile(Success, Success, Success, Success, [])

  /** One of the shell calls on pci.ids fails. */
  predicate LookupFails(f: IdsFile)
  {
    IsError(f.present) || IsError(f.open) || IsError(f.size) || IsError(f.read)
  }

  /** What FindPCIDevDescription prints and leaves in its buffers: the
      status, the error line, and the vendor and device descriptions. */
  datatype Description = Description(status: Status, text: string, vendor: string, device: string)

  /** A description as UnicodeSPrint stores it in DescBufferSize bytes, or
      "Undefined". */
  function DescText(name: Option<seq<byte>>): (r: string)
    ensures name.None? ==> r == "Undefined"
    ensures name.Some? ==> r == SPrintKeep(Widen(name.value), DESCRIPTOR_STR_MAX_SIZE)
  {
    match name
    case None => "Undefined"
    case Some(n) => SPrintKeep(Widen(n), DESCRIPTOR_STR_MAX_SIZE)
  }

  /** FindPCIDevDescription over a file that fits one block: a failing
      shell call is reported with its status and returned; once the file
      is open, a missing name is "Undefined". */
  function FindPCIDevDescription(ids: IdsFile, statusText: Status -> string, vendorId: u16, deviceId: u16): (r: Description)
    requires |ids.data| <= BLOCK_READ_SIZE
    ensures IsError(r.status) <==> LookupFails(ids)
    ensures r.text == [] <==> !LookupFails(ids)
    ensures !IsError(ids.present) && !IsError(ids.open) && LookupFails(ids) ==> r.vendor == r.device == "Undefined"
    ensures |r.vendor| < DESCRIPTOR_STR_MAX_SIZE / 2 && |r.device| < DESCRIPTOR_STR_MAX_SIZE / 2
  {
    if IsError(ids.present) then Description(ids.present, "No file pci.ids: " + statusText(ids.present) + "\n", "", "")
    else if IsError(ids.open) then Description(ids.open, "Can't open file pci.ids: " + statusText(ids.open) + "\n", "", "")
    else if IsError(ids.size) then
      Description(ids.size, "Can't get file size for file pci.ids: " + statusText(ids.size) + "\n", "Undefined", "Undefined")
    else if IsError(ids.read) then
      Description(ids.read, "Can't read file pci.ids: " + statusText(ids.read) + "\n", "Undefined", "Undefined")
    else
      var found := Scan(ids.data, HexBytes(vendorId, 4), HexBytes(deviceId, 4));
      Description(Success, [], DescText(found.vendor), DescText(found.device))
  }

  /** A file read without error names the vendor and the device exactly
      as the scan finds them. */
  lemma LookupNames(ids: IdsFile, statusText: Status -> string, vendorId: u16, deviceId: u16)
    requires |ids.data| <= BLOCK_READ_SIZE && !LookupFails(ids)
    ensures var r := FindPCIDevDescription(ids, statusText, vendorId, deviceId);
      var found := Scan(ids.data, HexBytes(vendorId, 4), HexBytes(deviceId, 4));
      && (r.vendor == "Undefined" <== found.vendor.None?)
      && (found.vendor.Some? ==> r.vendor == SPrintKeep(Widen(found.vendor.value), DESCRIPTOR_STR_MAX_SIZE))
      && (found.device.Some? ==> r.device == SPrintKeep(Widen(found.device.value), DESCRIPTOR_STR_MAX_SIZE))
      && (r.device == "Undefined" <== found.device.None?)
  {
  }

  /** The scan names a vendor exactly when some line carries its ID, and
      a device exactly when a line carrying the device ID follows a vendor
      line, whichever vendor's block it sits in. */
  lemma ScanFinds(buf: seq<byte>, v: seq<byte>, d: seq<byte>)
    requires |v| == 4 && |d| == 4
    ensures Scan(buf, v, d).vendor.Some? <==> exists e :: 0 <= e < |buf| && VendorLine(buf, v, e)
    ensures Scan(buf, v, d).device.Some? <==>
      exists e, e' :: 0 <= e < e' < |buf| && VendorLine(buf, v, e) && DeviceLine(buf, d, e')
  {
    match FirstVendor(buf, v, 0)
    case None =>
    case Some(e0) =>
      if e, e' :| 0 <= e < e' < |buf| && VendorLine(buf, v, e) && DeviceLine(buf, d, e') {
        assert e0 <= e;
        assert FirstDevice(buf, d, e0 + 1).Some?;
      }
  }
}
