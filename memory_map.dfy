/**
 * The MemoryInfo lessons (Lesson 11 and Lesson 29): GetMemoryMap, then a
 * walk over the EFI_MEMORY_DESCRIPTOR entries of the map, stepping by the
 * DescriptorSize the firmware reports. Lesson 11 prints every descriptor;
 * Lesson 29 does so with the argument "full", and otherwise merges
 * adjacent descriptors of the same kind into one range in the style of the
 * e820 list an operating system prints.
 */
module MemoryMap {
  import opened Efi

  const EFI_PAGE_SIZE: nat := 4096
  /** sizeof(EFI_MEMORY_DESCRIPTOR): Type, padding, PhysicalStart,
      VirtualStart, NumberOfPages, Attribute. */
  const DESCRIPTOR_SIZE: nat := 40
  const ATTRIBUTE_STR_SIZE: nat := 50

  // ---------------------------------------------------------------------
  // Type names.

  /** memory_types: the EFI_MEMORY_TYPE names, EfiMaxMemoryType last. */
  const MEMORY_TYPES: seq<string> := [
    "EfiReservedMemoryType", "EfiLoaderCode", "EfiLoaderData", "EfiBootServicesCode",
    "EfiBootServicesData", "EfiRuntimeServicesCode", "EfiRuntimeServicesData",
    "EfiConventionalMemory", "EfiUnusableMemory", "EfiACPIReclaimMemory", "EfiACPIMemoryNVS",
    "EfiMemoryMappedIO", "EfiMemoryMappedIOPortSpace", "EfiPalCode", "EfiPersistentMemory",
    "EfiMaxMemoryType"]

  /** memory_types_OS_view: what an operating system calls each type. */
  const OS_VIEW: seq<string> := [
    "reserved", "usable", "usable", "usable", "usable", "reserved", "reserved", "usable",
    "reserved", "ACPI data", "ACPI NVS", "reserved", "reserved", "reserved", "usable", "usable"]

  /** A table lookup as written: "Unknown" only above the entry count, so
      the type equal to the count reads one entry past the table (None). */
  function LookupAsWritten(table: seq<string>, t: u32): Option<string>
  {
    if t > |table| then Some("Unknown")
    else if t < |table| then Some(table[t])
    else None
  }

  /** The lookup intended: "Unknown" for every type outside the table. */
  function Lookup(table: seq<string>, t: u32): (r: string)
    ensures t < |table| ==> r == table[t]
    ensures t >= |table| ==> r == "Unknown"
  {
    if t >= |table| then "Unknown" else table[t]
  }

  /** The bound test of memory_type_to_str lets type 16 through: it reads
      past the 16-entry table; every other type gets the intended name. */
  lemma LookupAsWrittenOffByOne(table: seq<string>, t: u32)
    requires |table| < TWO_32
    ensures t != |table| ==> LookupAsWritten(table, t) == Some(Lookup(table, t))
    ensures LookupAsWritten(table, |table| as u32).None?
  {
  }

  /** memory_type_to_str, with the intended bound. */
  function MemoryTypeName(t: u32): string
  {
    Lookup(MEMORY_TYPES, t)
  }

  /** memory_type_to_str_OS_view, with the intended bound. */
  function OsView(t: u32): string
  {
    Lookup(OS_VIEW, t)
  }

  /** Every type below 16 has its own name; the names are not "Unknown". */
  lemma MemoryTypeNames(t: u32, u: u32)
    ensures MemoryTypeName(t) == "Unknown" <==> t >= 16
    ensures t < 16 && u < 16 && t != u ==> MemoryTypeName(t) != MemoryTypeName(u)
  {
  }

  /** The OS view sorts the types into five classes. */
  lemma OsViewClasses(t: u32)
    ensures OsView(t) == "usable" <==> t in {1, 2, 3, 4, 7, 14, 15}
    ensures OsView(t) == "ACPI data" <==> t == 9
    ensures OsView(t) == "ACPI NVS" <==> t == 10
    ensures OsView(t) == "reserved" <==> t in {0, 5, 6, 8, 11, 12, 13}
    ensures OsView(t) == "Unknown" <==> t >= 16
  {
  }

  // ---------------------------------------------------------------------
  // memory_attrs_to_str.

  /** A flag name: a non-empty word, no blank and no NUL in it. */
  type Word = s: string | s != [] && ' ' !in s && '\0' !in s witness "UC"

  /** An EFI_MEMORY_* attribute bit and the name its macro prints. */
  datatype Flag = Flag(mask: Mask, name: Word)

  type Mask = m: nat | m > 0 witness 1

  /** The CHECK_EFI_MEMORY_ATTRIBUTE lines, in order. */
  const FLAGS: seq<Flag> := [
    Flag(0x1, "UC"), Flag(0x2, "WC"), Flag(0x4, "WT"), Flag(0x8, "WB"), Flag(0x10, "UCE"),
    Flag(0x1000, "WP"), Flag(0x2000, "RP"), Flag(0x4000, "XP"), Flag(0x8000, "NV"),
    Flag(0x1_0000, "MORE_RELIABLE"), Flag(0x2_0000, "RO"), Flag(0x4_0000, "SP"),
    Flag(0x8_0000, "CPU_CRYPTO"), Flag(0x8000_0000_0000_0000, "RUNTIME")]

  const FLAG_COUNT: nat := 14

  /** `attrs & mask` is non-zero, for a one-bit mask. */
  predicate HasFlag(attrs: u64, mask: Mask)
  {
    attrs / mask % 2 == 1
  }

  /** What the first `k` checks append: " NAME" for each set flag. */
  function AttrsUpTo(attrs: u64, k: nat): string
    requires k <= |FLAGS|
  {
    if k == 0 then []
    else AttrsUpTo(attrs, k - 1) + (if HasFlag(attrs, FLAGS[k - 1].mask) then " " + FLAGS[k - 1].name else [])
  }

  /** The string memory_attrs_to_str leaves in its buffer. */
  function AttrsText(attrs: u64): string
  {
    AttrsUpTo(attrs, FLAG_COUNT)
  }

  /** The names of the set flags among the first `k`, in table order. */
  function SetNames(attrs: u64, k: nat): seq<Word>
    requires k <= |FLAGS|
  {
    if k == 0 then []
    else SetNames(attrs, k - 1) + (if HasFlag(attrs, FLAGS[k - 1].mask) then [FLAGS[k - 1].name] else [])
  }

  /** The words of a string of " WORD" pieces, read from the right. */
  function Words(s: string): seq<string>
    decreases |s|
  {
    if s == [] then []
    else var j := LastSpace(s, |s|);
      if j.None? then [s] else Words(s[..j.value]) + [s[j.value + 1..]]
  }

  /** The last space before position `e`. */
  function LastSpace(s: string, e: nat): (r: Option<nat>)
    requires e <= |s|
    ensures r.Some? ==> r.value < e && s[r.value] == ' ' && forall i :: r.value < i < e ==> s[i] != ' '
    ensures r.None? ==> forall i :: 0 <= i < e ==> s[i] != ' '
  {
    if e == 0 then None else if s[e - 1] == ' ' then Some(e - 1) else LastSpace(s, e - 1)
  }

  /** The attribute text reads back as the names of exactly the set flags,
      in the order of the checks. */
  lemma {:induction false} AttrsWords(attrs: u64, k: nat)
    requires k <= |FLAGS|
    ensures Words(AttrsUpTo(attrs, k)) == SetNames(attrs, k)
    ensures AttrsUpTo(attrs, k) == [] || AttrsUpTo(attrs, k)[0] == ' '
  {
    if k > 0 {
      AttrsWords(attrs, k - 1);
      WordsStep(AttrsUpTo(attrs, k - 1), SetNames(attrs, k - 1), FLAGS[k - 1], attrs);
    }
  }

  /** One check more: the piece it appends adds its name to the words. */
  lemma WordsStep(t: string, names: seq<Word>, f: Flag, attrs: u64)
    requires Words(t) == names && (t == [] || t[0] == ' ')
    ensures var u := t + (if HasFlag(attrs, f.mask) then " " + f.name else []);
      && Words(u) == names + (if HasFlag(attrs, f.mask) then [f.name] else [])
      && (u == [] || u[0] == ' ')
  {
    if HasFlag(attrs, f.mask) {
      WordsSnoc(t, f.name);
    } else {
      assert t + [] == t && names + [] == names;
    }
  }

  lemma WordsSnoc(t: string, name: Word)
    requires t == [] || t[0] == ' '
    ensures Words(t + (" " + name)) == Words(t) + [name]
    ensures (t + (" " + name))[0] == ' '
  {
    var s := t + (" " + name);
    forall i | |t| < i < |s|
      ensures s[i] != ' '
    {
      assert s[i] == name[i - |t| - 1];
    }
    LastSpaceFrom(s, |t|, |s|);
    assert s[..|t|] == t && s[|t| + 1..] == name;
  }

  lemma {:induction false} LastSpaceFrom(s: string, p: nat, e: nat)
    requires p < e <= |s| && s[p] == ' '
    requires forall i :: p < i < e ==> s[i] != ' '
    ensures LastSpace(s, e) == Some(p)
  {
    if e - 1 > p {
      LastSpaceFrom(s, p, e - 1);
    }
  }


  /** No flag set gives the empty string. */
  lemma {:induction false} AttrsNone(k: nat)
    requires k <= |FLAGS|
    ensures AttrsUpTo(0, k) == []
  {
    if k > 0 {
      AttrsNone(k - 1);
    }
  }

  /** The longest text the checks can give: every name with its blank. */
  function MaxUpTo(k: nat): nat
    requires k <= |FLAGS|
  {
    if k == 0 then 0 else MaxUpTo(k - 1) + 1 + |FLAGS[k - 1].name|
  }

  const ATTRIBUTE_TEXT_MAX: nat := 67

  lemma MaxValue()
    ensures MaxUpTo(|FLAGS|) == ATTRIBUTE_TEXT_MAX
  {
    assert MaxUpTo(4) == 12;
    assert MaxUpTo(9) == 28;
    assert MaxUpTo(12) == 48;
  }

  lemma {:induction false} AttrsBoundUpTo(attrs: u64, k: nat)
    requires k <= |FLAGS|
    ensures |AttrsUpTo(attrs, k)| <= MaxUpTo(k)
  {
    if k > 0 {
      AttrsBoundUpTo(attrs, k - 1);
    }
  }

  /** Every attribute text is at most 67 characters long. */
  lemma AttrsBound(attrs: u64)
    ensures |AttrsText(attrs)| <= ATTRIBUTE_TEXT_MAX
  {
    AttrsBoundUpTo(attrs, |FLAGS|);
    MaxValue();
  }

  /** All fourteen flags at once give the 67-character text, which does
      not fit the 50-character buffer of the lessons. */
  lemma AttrsOverflow()
    ensures |AttrsText(ALL_FLAGS)| == ATTRIBUTE_TEXT_MAX && ATTRIBUTE_TEXT_MAX >= ATTRIBUTE_STR_SIZE
  {
    AllFlagsSet(|FLAGS|);
    MaxValue();
  }

  /** EFI_MEMORY_UC | ... | EFI_MEMORY_RUNTIME. */
  const ALL_FLAGS: u64 := 0x8000_0000_000F_F01F

  lemma {:induction false} AllFlagsSet(k: nat)
    requires k <= |FLAGS|
    ensures |AttrsUpTo(ALL_FLAGS, k)| == MaxUpTo(k)
  {
    if k > 0 {
      AllFlagsSet(k - 1);
      FlagOfAll(k - 1);
    }
  }

  lemma FlagOfAll(k: nat)
    requires k < |FLAGS|
    ensures HasFlag(ALL_FLAGS, FLAGS[k].mask)
  {
    if k < 5 {
      assert k == 0 || k == 1 || k == 2 || k == 3 || k == 4;
    } else if k < 9 {
      assert k == 5 || k == 6 || k == 7 || k == 8;
    } else if k < 13 {
      assert k == 9 || k == 10 || k == 11 || k == 12;
    }
  }

  /** The text only grows check by check. */
  lemma {:induction false} AttrsGrow(attrs: u64, k: nat)
    requires k <= |FLAGS|
    ensures |AttrsUpTo(attrs, k)| <= |AttrsText(attrs)|
    decreases |FLAGS| - k
  {
    if k < |FLAGS| {
      AttrsGrow(attrs, k + 1);
    }
  }

  /** memory_attrs_to_str: SetMem clears sizeof(str), the 8 bytes of the
      pointer (4 characters), then each check copies " NAME" with its NUL
      at position i and moves i past it. Nothing checks the length: the
      text must fit the buffer. */
  method MemoryAttrsToStr(str: array<char>, attrs: u64)
    requires str.Length > |AttrsText(attrs)| && str.Length >= 4
    modifies str
    ensures str[..|AttrsText(attrs)|] == AttrsText(attrs) && str[|AttrsText(attrs)|] == '\0'
  {
    str[0], str[1], str[2], str[3] := '\0', '\0', '\0', '\0';
    var i: nat := 0;
    i := CheckAttribute(str, attrs, 0, i);
    i := CheckAttribute(str, attrs, 1, i);
    i := CheckAttribute(str, attrs, 2, i);
    i := CheckAttribute(str, attrs, 3, i);
    i := CheckAttribute(str, attrs, 4, i);
    i := CheckAttribute(str, attrs, 5, i);
    i := CheckAttribute(str, attrs, 6, i);
    i := CheckAttribute(str, attrs, 7, i);
    i := CheckAttribute(str, attrs, 8, i);
    i := CheckAttribute(str, attrs, 9, i);
    i := CheckAttribute(str, attrs, 10, i);
    i := CheckAttribute(str, attrs, 11, i);
    i := CheckAttribute(str, attrs, 12, i);
    i := CheckAttribute(str, attrs, 13, i);
  }

  /** One CHECK_EFI_MEMORY_ATTRIBUTE: StrCpyS of " NAME" at &str[i]. */
  method CheckAttribute(str: array<char>, attrs: u64, k: nat, i: nat) returns (i': nat)
    requires str.Length > |AttrsText(attrs)| && k < FLAG_COUNT
    requires i == |AttrsUpTo(attrs, k)| && i < str.Length
    requires str[..i] == AttrsUpTo(attrs, k) && str[i] == '\0'
    modifies str
    ensures i' == |AttrsUpTo(attrs, k + 1)| && i' < str.Length
    ensures str[..i'] == AttrsUpTo(attrs, k + 1) && str[i'] == '\0'
  {
    AttrsGrow(attrs, k + 1);
    AttrsStep(attrs, k);
    var flag := FLAGS[k];
    if HasFlag(attrs, flag.mask) {
      var piece := " " + flag.name;
      StrCpy(str, i, piece);
      i' := i + |piece|;
    } else {
      i' := i;
    }
  }

  lemma AttrsStep(attrs: u64, k: nat)
    requires k < |FLAGS|
    ensures HasFlag(attrs, FLAGS[k].mask) ==> AttrsUpTo(attrs, k + 1) == AttrsUpTo(attrs, k) + (" " + FLAGS[k].name)
    ensures !HasFlag(attrs, FLAGS[k].mask) ==> AttrsUpTo(attrs, k + 1) == AttrsUpTo(attrs, k)
  {
  }

  /** StrCpyS: the characters of `s` and a NUL at position `i`. */
  method StrCpy(str: array<char>, i: nat, s: string)
    requires i + |s| < str.Length
    modifies str
    ensures str[..i + |s|] == old(str[..i]) + s && str[i + |s|] == '\0'
  {
    forall j | i <= j < i + |s| {
      str[j] := s[j - i];
    }
    str[i + |s|] := '\0';
  }

  // ---------------------------------------------------------------------
  // The map.

  /** The fields of an EFI_MEMORY_DESCRIPTOR the walk reads. */
  datatype Descriptor = Descriptor(memoryType: u32, physicalStart: u64, numberOfPages: u64, attribute: u64)

  function DescriptorAt(b: seq<byte>, o: nat): Descriptor
    requires o + DESCRIPTOR_SIZE <= |b|
  {
    Descriptor(U32At(b, o), U64At(b, o + 8), U64At(b, o + 24), U64At(b, o + 32))
  }

  /** The buffer GetMemoryMap filled, MemoryMapSize bytes, and the
      DescriptorSize it reported. */
  datatype MemMap = MemMap(bytes: seq<byte>, descriptorSize: nat)

  /** Every descriptor the walk reads lies in the buffer: DescriptorSize is
      at least sizeof(EFI_MEMORY_DESCRIPTOR) and divides MemoryMapSize. */
  predicate Shaped(m: MemMap)
  {
    m.descriptorSize >= DESCRIPTOR_SIZE && |m.bytes| % m.descriptorSize == 0
  }

  function Count(m: MemMap): nat
    requires Shaped(m)
  {
    |m.bytes| / m.descriptorSize
  }

  /** Slot `k` ends inside the buffer exactly when `k` is below the count. */
  lemma Slot(m: MemMap, k: nat)
    requires Shaped(m)
    ensures k < Count(m) <==> k * m.descriptorSize < |m.bytes|
    ensures k < Count(m) ==> (k + 1) * m.descriptorSize <= |m.bytes|
  {
    var d := m.descriptorSize;
    var n := Count(m);
    assert |m.bytes| == n * d;
    if k < n {
      MulLe(k + 1, n, d);
    } else {
      MulLe(n, k, d);
    }
  }

  lemma MulLe(a: nat, b: nat, d: nat)
    requires a <= b
    ensures a * d <= b * d
  {
  }

  /** Descriptor `k`, at k * DescriptorSize. */
  function Nth(m: MemMap, k: nat): Descriptor
    requires Shaped(m) && k < Count(m)
  {
    Slot(m, k);
    DescriptorAt(m.bytes, k * m.descriptorSize)
  }

  /** The descriptors of the map, in order. */
  function Decode(m: MemMap): (ds: seq<Descriptor>)
    requires Shaped(m)
    ensures |ds| == Count(m)
  {
    Prefix(m, Count(m))
  }

  /** The first `n` descriptors. */
  function Prefix(m: MemMap, n: nat): (ds: seq<Descriptor>)
    requires Shaped(m) && n <= Count(m)
    ensures |ds| == n
  {
    if n == 0 then [] else Prefix(m, n - 1) + [Nth(m, n - 1)]
  }

  lemma {:induction false} PrefixAt(m: MemMap, n: nat, k: nat)
    requires Shaped(m) && k < n <= Count(m)
    ensures Prefix(m, n)[k] == Nth(m, k)
  {
    if k < n - 1 {
      PrefixAt(m, n - 1, k);
    }
  }

  /** Where descriptor `k` begins: `k` steps of DescriptorSize. */
  function Offset(m: MemMap, k: nat): nat
  {
    if k == 0 then 0 else Offset(m, k - 1) + m.descriptorSize
  }

  lemma {:induction false} OffsetIsProduct(m: MemMap, k: nat)
    ensures Offset(m, k) == k * m.descriptorSize
  {
    if k > 0 {
      OffsetIsProduct(m, k - 1);
    }
  }

  /** The walk's pointer `o` stands at descriptor `k`: it is inside the
      buffer exactly when `k` is below the count, it reads descriptor `k`
      there, and one more DescriptorSize brings it to descriptor `k + 1`. */
  lemma At(m: MemMap, k: nat, o: nat)
    requires Shaped(m) && k <= Count(m) && o == Offset(m, k)
    ensures o < |m.bytes| <==> k < Count(m)
    ensures o + m.descriptorSize == Offset(m, k + 1)
  {
    OffsetIsProduct(m, k);
    Slot(m, k);
  }

  /** The descriptor at the walk's pointer. */
  method Read(m: MemMap, ghost k: nat, o: nat) returns (d: Descriptor)
    requires Shaped(m) && k < Count(m) && o == Offset(m, k)
    ensures d == Decode(m)[k]
  {
    OffsetIsProduct(m, k);
    Slot(m, k);
    PrefixAt(m, Count(m), k);
    d := DescriptorAt(m.bytes, o);
  }

  /** The UINTN mapping_size: NumberOfPages * 4096, modulo 2^64. */
  function PageBytes(d: Descriptor): u64
  {
    d.numberOfPages * EFI_PAGE_SIZE % TWO_64
  }

  /** `start + size - 1` in UINT64. */
  function LastByte(start: u64, size: u64): u64
  {
    (start + size - 1) % TWO_64
  }

  /** The "%016llx" of a UINT64. */
  function Hex16(x: u64): string
  {
    HexFixed(x, 16)
  }

  // ---------------------------------------------------------------------
  // Every descriptor: Lesson 11 and the "full" mode of Lesson 29.

  /** The two Print calls of descriptor `d`, numbered `n`, given the
      attribute text memory_attrs_to_str left in the buffer. */
  function FullLine(d: Descriptor, n: nat, attrs: string): string
  {
    "[#" + PadDec(n, 2) + "] Type: " + MemoryTypeName(d.memoryType) + "  Attr: " + attrs + "\n"
      + "      Phys: " + Hex16(d.physicalStart) + "-" + Hex16(LastByte(d.physicalStart, PageBytes(d))) + "\n"
  }

  /** How one descriptor is printed; the walks are stated for any such
      formatter and used with FullLine. */
  type Printer = (Descriptor, nat, string) -> string

  /** The lines of the first `n` descriptors. */
  function FullText(show: Printer, ds: seq<Descriptor>, n: nat): string
    requires n <= |ds|
  {
    if n == 0 then [] else FullText(show, ds, n - 1) + show(ds[n - 1], n - 1, AttrsText(ds[n - 1].attribute))
  }

  /** The walk of Lesson 11, and of Lesson 29 with "full": every
      descriptor, numbered from 0, stepping by DescriptorSize, its
      attributes written into a buffer large enough for any of them. */
  method WalkFull(m: MemMap, show: Printer) returns (text: string)
    requires Shaped(m)
    ensures text == FullText(show, Decode(m), Count(m))
  {
    ghost var ds := Decode(m);
    var o: nat := 0;
    var i: nat := 0;
    text := [];
    At(m, 0, 0);
    while o < |m.bytes|
      invariant i <= Count(m) && o == Offset(m, i) && (o < |m.bytes| <==> i < Count(m))
      invariant text == FullText(show, ds, i)
      decreases Count(m) - i
    {
      At(m, i, o);
      var desc := Read(m, i, o);
      var str := new char[ATTRIBUTE_TEXT_MAX + 1];
      AttrsBound(desc.attribute);
      MemoryAttrsToStr(str, desc.attribute);
      text := text + show(desc, i, str[..|AttrsText(desc.attribute)|]);
      i := i + 1;
      o := o + m.descriptorSize;
      At(m, i, o);
    }
  }

  // ---------------------------------------------------------------------
  // Merged ranges: Lesson 29 without "full".

  /** Descriptor `e` continues `d`: it starts where `d` ends, and the two
      have the same type or the same OS view. */
  predicate Mergeable(d: Descriptor, e: Descriptor)
  {
    (d.physicalStart + PageBytes(d)) % TWO_64 == e.physicalStart &&
    (d.memoryType == e.memoryType || OsView(d.memoryType) == OsView(e.memoryType))
  }

  /** The last descriptor of the run that starts at `i`. */
  function RunEnd(ds: seq<Descriptor>, i: nat): (j: nat)
    requires i < |ds|
    ensures i <= j < |ds|
    decreases |ds| - i
  {
    if i + 1 < |ds| && Mergeable(ds[i], ds[i + 1]) then RunEnd(ds, i + 1) else i
  }

  /** A run is maximal: each descriptor in it continues the one before,
      and the descriptor after it does not continue it. */
  lemma {:induction false} RunMaximal(ds: seq<Descriptor>, i: nat)
    requires i < |ds|
    ensures forall k :: i <= k < RunEnd(ds, i) ==> Mergeable(ds[k], ds[k + 1])
    ensures RunEnd(ds, i) + 1 < |ds| ==> !Mergeable(ds[RunEnd(ds, i)], ds[RunEnd(ds, i) + 1])
    decreases |ds| - i
  {
    if i + 1 < |ds| && Mergeable(ds[i], ds[i + 1]) {
      RunMaximal(ds, i + 1);
    }
  }

  /** The mapping_size the code holds after the inner loop: recomputed only
      at the top of each pass, so a run that merges up to the last
      descriptor of the map keeps the size of the one before it. */
  function RunSizeAsWritten(ds: seq<Descriptor>, i: nat, j: nat): u64
    requires i <= j < |ds|
  {
    if j + 1 == |ds| && j > i then PageBytes(ds[j - 1]) else PageBytes(ds[j])
  }

  /** The " [mem: ...]" line of a range: its first and last byte and the
      OS view of its last descriptor. */
  function RangeText(start: u64, last: u64, view: string): string
  {
    " [mem: " + Hex16(start) + "-" + Hex16(last) + "] " + view + "\n"
  }

  /** The last byte the line of the run from `i` names, as written. */
  function RunLastAsWritten(ds: seq<Descriptor>, i: nat): u64
    requires i < |ds|
  {
    var j := RunEnd(ds, i);
    LastByte(ds[j].physicalStart, RunSizeAsWritten(ds, i, j))
  }

  /** The last byte intended: where the last descriptor of the run ends. */
  function RunLast(ds: seq<Descriptor>, i: nat): u64
    requires i < |ds|
  {
    var j := RunEnd(ds, i);
    LastByte(ds[j].physicalStart, PageBytes(ds[j]))
  }

  /** The line of the run from `i`, as written. */
  function RunLineAsWritten(ds: seq<Descriptor>, i: nat): string
    requires i < |ds|
  {
    RangeText(ds[i].physicalStart, RunLastAsWritten(ds, i), OsView(ds[RunEnd(ds, i)].memoryType))
  }

  /** The line intended. */
  function RunLine(ds: seq<Descriptor>, i: nat): string
    requires i < |ds|
  {
    RangeText(ds[i].physicalStart, RunLast(ds, i), OsView(ds[RunEnd(ds, i)].memoryType))
  }

  /** The bytes the descriptors i..j-1 cover. */
  function RunBytes(ds: seq<Descriptor>, i: nat, j: nat): nat
    requires i <= j <= |ds|
    decreases j - i
  {
    if i == j then 0 else PageBytes(ds[i]) + RunBytes(ds, i + 1, j)
  }

  /** Each descriptor of a run starts where the ones before it end. */
  lemma {:induction false} RunCovered(ds: seq<Descriptor>, i: nat, k: nat)
    requires i < |ds| && i <= k <= RunEnd(ds, i)
    ensures ds[k].physicalStart == (ds[i].physicalStart + RunBytes(ds, i, k)) % TWO_64
    decreases k - i
  {
    if k > i {
      RunCovered(ds, i, k - 1);
      RunMaximal(ds, i);
      assert Mergeable(ds[k - 1], ds[k]);
      RunBytesSnoc(ds, i, k - 1);
      ModAdd(ds[i].physicalStart + RunBytes(ds, i, k - 1), PageBytes(ds[k - 1]));
    }
  }

  lemma {:induction false} RunBytesSnoc(ds: seq<Descriptor>, i: nat, j: nat)
    requires i <= j < |ds|
    ensures RunBytes(ds, i, j + 1) == RunBytes(ds, i, j) + PageBytes(ds[j])
    decreases j - i
  {
    if i < j {
      RunBytesSnoc(ds, i + 1, j);
    }
  }

  /** Adding a multiple of 2^64 leaves the remainder alone. */
  lemma ModAdd(a: int, b: int)
    ensures (a % TWO_64 + b) % TWO_64 == (a + b) % TWO_64
  {
    var q := a / TWO_64;
    assert a == q * TWO_64 + a % TWO_64;
    ModShift(a % TWO_64 + b, q);
  }

  lemma ModShift(x: int, q: int)
    ensures (x + q * TWO_64) % TWO_64 == x % TWO_64
  {
  }

  /** The intended line spans the whole run: it ends one byte before the
      start of the run plus the sizes of all its descriptors. */
  lemma RunLastSpan(ds: seq<Descriptor>, i: nat)
    requires i < |ds|
    ensures RunLast(ds, i) == LastByte(ds[i].physicalStart, (RunBytes(ds, i, RunEnd(ds, i) + 1) % TWO_64) as u64)
  {
    var j := RunEnd(ds, i);
    var s := ds[i].physicalStart;
    var e := RunBytes(ds, i, j + 1);
    var p := PageBytes(ds[j]);
    RunCovered(ds, i, j);
    RunBytesSnoc(ds, i, j);
    assert e == RunBytes(ds, i, j) + p;
    ModAdd(s + RunBytes(ds, i, j), p as int - 1);
    ModAdd(e, s as int - 1);
  }

  /** Both versions agree except on a run that merges into the last
      descriptor of the map. */
  lemma RunLineAgrees(ds: seq<Descriptor>, i: nat)
    requires i < |ds|
    ensures RunEnd(ds, i) + 1 < |ds| || RunEnd(ds, i) == i ==> RunLineAsWritten(ds, i) == RunLine(ds, i)
  {
  }

  /** Two descriptors of free memory, one page at 0 and two pages at
      0x1000: they merge, and the line as written ends at 0x1fff, one page
      short of the 0x2fff the run reaches. */
  lemma StaleSizeExample()
    ensures var ds := [Descriptor(7, 0, 1, 0), Descriptor(7, 0x1000, 2, 0)];
      && RunEnd(ds, 0) == 1
      && RunLastAsWritten(ds, 0) == 0x1FFF && RunLast(ds, 0) == 0x2FFF
      && RunLineAsWritten(ds, 0) != RunLine(ds, 0)
  {
    var ds := [Descriptor(7, 0, 1, 0), Descriptor(7, 0x1000, 2, 0)];
    assert Mergeable(ds[0], ds[1]);
    assert RunEnd(ds, 0) == 1;
    LinesDiffer(0, 0x1FFF, 0x2FFF, OsView(7));
  }

  /** Range lines with different ends differ. */
  lemma LinesDiffer(start: u64, x: u64, y: u64, view: string)
    requires x != y
    ensures RangeText(start, x, view) != RangeText(start, y, view)
  {
    Hex16Differs(x, y);
    var p := " [mem: " + Hex16(start) + "-";
    var l1 := RangeText(start, x, view);
    var l2 := RangeText(start, y, view);
    assert l1 == p + Hex16(x) + ("] " + view + "\n");
    assert l2 == p + Hex16(y) + ("] " + view + "\n");
    assert l1[|p|..|p| + 16] == Hex16(x);
    assert l2[|p|..|p| + 16] == Hex16(y);
  }

  lemma Hex16Differs(x: u64, y: u64)
    requires x != y
    ensures Hex16(x) != Hex16(y)
  {
    Pow16Value();
    HexFixedRoundTrip(x, 16);
    HexFixedRoundTrip(y, 16);
  }

  lemma Pow16Value()
    ensures Pow16(16) == TWO_64
  {
    assert Pow16(4) == 0x1_0000 by {
      assert Pow16(2) == 0x100;
    }
    assert Pow16(8) == 0x1_0000_0000 by {
      assert Pow16(6) == 0x100_0000;
    }
    assert Pow16(12) == 0x1_0000_0000_0000 by {
      assert Pow16(10) == 0x100_0000_0000;
    }
    assert Pow16(14) == 0x100_0000_0000_0000;
  }

  /** How one range is printed; the walk is stated for any such
      formatter and used with RangeText. */
  type RangePrinter = (u64, u64, string) -> string

  /** The ranges of the runs from descriptor `i` on, each with the
      intended end. */
  function MergedText(show: RangePrinter, ds: seq<Descriptor>, i: nat): string
    requires i <= |ds|
    decreases |ds| - i
  {
    if i == |ds| then []
    else
      var j := RunEnd(ds, i);
      show(ds[i].physicalStart, RunLast(ds, i), OsView(ds[j].memoryType)) + MergedText(show, ds, j + 1)
  }

  /** The ranges of the runs from descriptor `i` on, as Lesson 29 prints
      them: each end computed from the mapping_size the inner loop leaves. */
  function MergedTextAsWritten(show: RangePrinter, ds: seq<Descriptor>, i: nat): string
    requires i <= |ds|
    decreases |ds| - i
  {
    if i == |ds| then []
    else
      var j := RunEnd(ds, i);
      show(ds[i].physicalStart, RunLastAsWritten(ds, i), OsView(ds[j].memoryType)) + MergedTextAsWritten(show, ds, j + 1)
  }

  /** When the last two descriptors of the map do not merge, the printed
      ranges are the intended ones. */
  lemma {:induction false} MergedAgrees(show: RangePrinter, ds: seq<Descriptor>, i: nat)
    requires i <= |ds|
    requires |ds| < 2 || !Mergeable(ds[|ds| - 2], ds[|ds| - 1])
    ensures MergedTextAsWritten(show, ds, i) == MergedText(show, ds, i)
    decreases |ds| - i
  {
    if i < |ds| {
      var j := RunEnd(ds, i);
      LastAgrees(ds, i);
      MergedAgrees(show, ds, j + 1);
    }
  }

  /** A run that does not merge into the last descriptor ends where it
      should. */
  lemma LastAgrees(ds: seq<Descriptor>, i: nat)
    requires i < |ds|
    requires |ds| < 2 || !Mergeable(ds[|ds| - 2], ds[|ds| - 1])
    ensures RunLastAsWritten(ds, i) == RunLast(ds, i)
  {
    RunMaximal(ds, i);
  }

  /** The two-descriptor map of StaleSizeExample: the printed range is
      not the intended one. */
  lemma MergedDiffers()
    ensures var ds := [Descriptor(7, 0, 1, 0), Descriptor(7, 0x1000, 2, 0)];
      MergedTextAsWritten(RangeText, ds, 0) != MergedText(RangeText, ds, 0)
  {
    var ds := [Descriptor(7, 0, 1, 0), Descriptor(7, 0x1000, 2, 0)];
    StaleSizeExample();
    assert MergedTextAsWritten(RangeText, ds, 0) == RunLineAsWritten(ds, 0) + MergedTextAsWritten(RangeText, ds, 2);
    assert MergedText(RangeText, ds, 0) == RunLine(ds, 0) + MergedText(RangeText, ds, 2);
    PrefixesDiffer(RunLineAsWritten(ds, 0), RunLine(ds, 0), MergedTextAsWritten(RangeText, ds, 2), MergedText(RangeText, ds, 2));
  }

  /** Texts that start with different lines of one length differ. */
  lemma PrefixesDiffer(a: string, b: string, x: string, y: string)
    requires |a| == |b| && a != b
    ensures a + x != b + y
  {
    assert (a + x)[..|a|] == a;
    assert (b + y)[..|b|] == b;
  }

  /** With RangeText, the merged text is the intended line of each run. */
  lemma MergedLines(ds: seq<Descriptor>, i: nat)
    requires i < |ds|
    ensures MergedText(RangeText, ds, i) == RunLine(ds, i) + MergedText(RangeText, ds, RunEnd(ds, i) + 1)
  {
    var j := RunEnd(ds, i);
    var line := RangeText(ds[i].physicalStart, RunLast(ds, i), OsView(ds[j].memoryType));
    assert MergedText(RangeText, ds, i) == line + MergedText(RangeText, ds, j + 1);
  }

  /** The inner loop of Lesson 29: follows the run from descriptor `i`
      (at offset `o`) and returns its last descriptor's offset, the offset
      after it and the mapping_size the loop leaves. */
  method FollowRun(m: MemMap, ghost i: nat, o: nat) returns (ghost j: nat, last: nat, next: nat, mappingSize: u64)
    requires Shaped(m) && i < Count(m) && o == Offset(m, i)
    ensures j == RunEnd(Decode(m), i) && last == Offset(m, j) && next == last + m.descriptorSize
    ensures mappingSize == RunSizeAsWritten(Decode(m), i, j)
  {
    ghost var ds := Decode(m);
    At(m, i, o);
    var desc := o;
    var first := Read(m, i, desc);
    mappingSize := PageBytes(first);
    next := desc + m.descriptorSize;
    j := i;
    At(m, j + 1, next);
    while next < |m.bytes|
      invariant i <= j < |ds| && desc == Offset(m, j) && next == Offset(m, j + 1)
      invariant next < |m.bytes| <==> j + 1 < |ds|
      invariant RunEnd(ds, j) == RunEnd(ds, i)
      invariant mappingSize == if j == i then PageBytes(ds[i]) else PageBytes(ds[j - 1])
      decreases |ds| - j
    {
      At(m, j + 1, next);
      var d := Read(m, j, desc);
      var e := Read(m, j + 1, next);
      mappingSize := PageBytes(d);
      if (d.physicalStart + mappingSize) % TWO_64 == e.physicalStart {
        if d.memoryType != e.memoryType {
          if OsView(d.memoryType) != OsView(e.memoryType) {
            RunStops(ds, i, j);
            break;
          }
        }
        RunContinues(ds, i, j);
        desc := next;
        next := next + m.descriptorSize;
        j := j + 1;
        At(m, j + 1, next);
      } else {
        RunStops(ds, i, j);
        break;
      }
    }
    if next >= |m.bytes| {
      RunStops(ds, i, j);
    }
    last := desc;
  }

  lemma RunContinues(ds: seq<Descriptor>, i: nat, j: nat)
    requires i <= j && j + 1 < |ds| && RunEnd(ds, j) == RunEnd(ds, i) && Mergeable(ds[j], ds[j + 1])
    ensures RunEnd(ds, j + 1) == RunEnd(ds, i)
  {
  }

  lemma RunStops(ds: seq<Descriptor>, i: nat, j: nat)
    requires i <= j < |ds| && RunEnd(ds, j) == RunEnd(ds, i)
    requires j + 1 == |ds| || !Mergeable(ds[j], ds[j + 1])
    ensures RunEnd(ds, i) == j
  {
  }

  /** The outer loop of Lesson 29 without "full": one line per run, the
      range ending where the stale mapping_size puts it. */
  method WalkMerged(m: MemMap, show: RangePrinter) returns (text: string)
    requires Shaped(m)
    ensures text == MergedTextAsWritten(show, Decode(m), 0)
  {
    ghost var ds := Decode(m);
    var o: nat := 0;
    ghost var k := 0;
    text := [];
    At(m, 0, 0);
    while o < |m.bytes|
      invariant k <= |ds| && o == Offset(m, k) && (o < |m.bytes| <==> k < |ds|)
      invariant MergedTextAsWritten(show, ds, 0) == text + MergedTextAsWritten(show, ds, k)
      decreases |ds| - k
    {
      ghost var j;
      j, text, o := VisitRun(m, show, k, o, text);
      k := j + 1;
      At(m, k, o);
    }
  }

  /** One pass of the outer loop: the run from descriptor `k` is followed
      and its line appended. */
  method VisitRun(m: MemMap, show: RangePrinter, ghost k: nat, o: nat, text: string)
    returns (ghost j: nat, text': string, next: nat)
    requires Shaped(m) && k < Count(m) && o == Offset(m, k)
    ensures j == RunEnd(Decode(m), k) && next == Offset(m, j + 1)
    ensures text + MergedTextAsWritten(show, Decode(m), k) == text' + MergedTextAsWritten(show, Decode(m), j + 1)
  {
    ghost var ds := Decode(m);
    var head := Read(m, k, o);
    var last, staleSize;
    j, last, next, staleSize := FollowRun(m, k, o);
    At(m, j, last);
    var lastDesc := Read(m, j, last);
    var line := show(head.physicalStart, LastByte(lastDesc.physicalStart, staleSize), OsView(lastDesc.memoryType));
    MergedStep(show, ds, k, text);
    text' := text + line;
  }

  /** One pass of the outer loop: the text of the run from `k` on is the
      run's line followed by the text from the next run. */
  lemma MergedStep(show: RangePrinter, ds: seq<Descriptor>, k: nat, text: string)
    requires k < |ds|
    ensures var j := RunEnd(ds, k);
      text + MergedTextAsWritten(show, ds, k)
      == (text + show(ds[k].physicalStart, LastByte(ds[j].physicalStart, RunSizeAsWritten(ds, k, j)), OsView(ds[j].memoryType)))
        + MergedTextAsWritten(show, ds, j + 1)
  {
  }

  // ---------------------------------------------------------------------
  // UefiMain.

  /** What the firmware answers: the GetMemoryMap call without a buffer,
      AllocatePool, the call with the buffer, and the map it fills. */
  datatype Firmware = Firmware(probe: Status, alloc: Status, fill: Status, memoryMap: MemMap)

  /** The shared frame of both lessons: the map is printed by `walk` when
      both GetMemoryMap calls behave. */
  function MapReport(fw: Firmware, statusText: Status -> string, walk: string): Report
  {
    if fw.probe != BufferTooSmall then Report("GetMemoryMap without buffer error: " + statusText(fw.probe) + "\n", fw.probe)
    else if IsError(fw.alloc) then Report("AllocatePool error: " + statusText(fw.alloc) + "\n", fw.alloc)
    else if IsError(fw.fill) then Report("GetMemoryMap with buffer error: " + statusText(fw.fill) + "\n", fw.fill)
    else Report(walk, fw.fill)
  }

  /** Lesson 11: every descriptor. */
  function MemoryInfo11(fw: Firmware, statusText: Status -> string): Report
    requires Shaped(fw.memoryMap)
  {
    MapReport(fw, statusText, FullText(FullLine, Decode(fw.memoryMap), Count(fw.memoryMap)))
  }

  /** Lesson 29 prints every descriptor when the shell passed exactly one
      argument, "full"; `argv` is None when the shell parameters protocol
      is missing. */
  function FullMode(argv: Option<seq<string>>): bool
  {
    argv.Some? && |argv.value| == 2 && argv.value[1] == "full"
  }

  /** Lesson 29. */
  function MemoryInfo29(fw: Firmware, statusText: Status -> string, argv: Option<seq<string>>): Report
    requires Shaped(fw.memoryMap)
  {
    MapReport(fw, statusText,
      if FullMode(argv) then FullText(FullLine, Decode(fw.memoryMap), Count(fw.memoryMap))
      else MergedTextAsWritten(RangeText, Decode(fw.memoryMap), 0))
  }

  /** The map is printed only when the probe reports a buffer too small
      and both later calls succeed; otherwise an error status comes back,
      except when the probe itself succeeds: then the error line is printed
      and EFI_SUCCESS returned. */
  lemma MapReportStatus(fw: Firmware, statusText: Status -> string, walk: string)
    ensures var ok := fw.probe == BufferTooSmall && !IsError(fw.alloc) && !IsError(fw.fill);
      ok ==> MapReport(fw, statusText, walk) == Report(walk, fw.fill)
    ensures var ok := fw.probe == BufferTooSmall && !IsError(fw.alloc) && !IsError(fw.fill);
      IsError(MapReport(fw, statusText, walk).status) <==> !ok && fw.probe != Success
  {
  }

  method MapCalls(fw: Firmware, statusText: Status -> string) returns (r: Report, walk: bool)
    ensures walk <==> fw.probe == BufferTooSmall && !IsError(fw.alloc) && !IsError(fw.fill)
    ensures !walk ==> r == MapReport(fw, statusText, [])
  {
    walk := false;
    if fw.probe != BufferTooSmall {
      r := Report("GetMemoryMap without buffer error: " + statusText(fw.probe) + "\n", fw.probe);
    } else if IsError(fw.alloc) {
      r := Report("AllocatePool error: " + statusText(fw.alloc) + "\n", fw.alloc);
    } else if IsError(fw.fill) {
      r := Report("GetMemoryMap with buffer error: " + statusText(fw.fill) + "\n", fw.fill);
    } else {
      r := Report([], fw.fill);
      walk := true;
    }
  }

  /** UefiMain of Lesson 11. */
  method MemoryInfoMain11(fw: Firmware, statusText: Status -> string) returns (r: Report)
    requires Shaped(fw.memoryMap)
    ensures r == MemoryInfo11(fw, statusText)
  {
    var walk;
    r, walk := MapCalls(fw, statusText);
    if walk {
      var text := WalkFull(fw.memoryMap, FullLine);
      r := Report(text, fw.fill);
    }
  }

  /** UefiMain of Lesson 29. */
  method MemoryInfoMain29(fw: Firmware, statusText: Status -> string, argv: Option<seq<string>>) returns (r: Report)
    requires Shaped(fw.memoryMap)
    ensures r == MemoryInfo29(fw, statusText, argv)
  {
    var full := false;
    if argv.Some? && |argv.value| == 2 && argv.value[1] == "full" {
      full := true;
    }
    var walk;
    r, walk := MapCalls(fw, statusText);
    if walk {
      var text;
      if full {
        text := WalkFull(fw.memoryMap, FullLine);
      } else {
        text := WalkMerged(fw.memoryMap, RangeText);
      }
      r := Report(text, fw.fill);
    }
  }
}
