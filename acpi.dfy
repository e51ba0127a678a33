/**
 * The AcpiInfo application: it finds the ACPI 2.0 Root System Description
 * Pointer in the configuration table, checks the RSDP signature "RSD PTR "
 * (section 5.2.5.3 of the ACPI 6.3 specification) and the XSDT signature
 * "XSDT" (section 5.2.8), and lists the tables whose 64-bit addresses
 * follow the XSDT's 36-byte description header.
 *
 * The RSDP, the XSDT and the tables are read from physical memory, a
 * parameter here.
 */
module Acpi {
  import opened Efi

  /** gEfiAcpi20TableGuid (8868E871-E4F1-11D3-BC22-0080C73C8881) as it lies
      in memory. */
  const ACPI_20_TABLE_GUID: Guid :=
    [0x71, 0xE8, 0x68, 0x88, 0xF1, 0xE4, 0xD3, 0x11,
     0xBC, 0x22, 0x00, 0x80, 0xC7, 0x3C, 0x88, 0x81]

  /** "RSD PTR " and "XSDT" as they lie in memory. */
  const RSDP_SIGNATURE: seq<byte> := [0x52, 0x53, 0x44, 0x20, 0x50, 0x54, 0x52, 0x20]
  const XSDT_SIGNATURE: seq<byte> := [0x58, 0x53, 0x44, 0x54]

  /** Offsets of RsdtAddress and XsdtAddress in the RSDP, of Length in a
      description header, and sizeof(EFI_ACPI_DESCRIPTION_HEADER). */
  const RSDT_ADDRESS_OFFSET: nat := 16
  const XSDT_ADDRESS_OFFSET: nat := 24
  const LENGTH_OFFSET: nat := 4
  const DESCRIPTION_HEADER_SIZE: nat := 36
  const ENTRY_SIZE: nat := 8

  const NO_ACPI := "No ACPI2.0 table was found in the system\n"
  const BAD_RSDP := "Error! RSDP signature is not valid!\n"
  const BAD_XSDT := "Error! XSDT signature is not valid!\n"

  // ---------------------------------------------------------------------
  // The bytes of a little-endian value, as `(x >> 8*k) & 0xFF` picks them.

  /** `(x >> 8*k) & 0xFF`. */
  function ShiftByte(x: nat, k: nat): byte
  {
    if k == 0 then x % 0x100 else ShiftByte(x / 0x100, k - 1)
  }

  lemma Digit(p: nat, q: nat)
    requires q < 0x100
    ensures (q + 0x100 * p) / 0x100 == p && (q + 0x100 * p) % 0x100 == q
  {
  }

  /** Byte `k` of a little-endian value is the byte stored `k` places in. */
  lemma {:induction false} ShiftByteRead(mem: Memory, a: nat, n: nat, k: nat)
    requires k < n
    ensures ShiftByte(ReadLe(mem, a, n), k) == mem(a + k)
    decreases k
  {
    Digit(ReadLe(mem, a + 1, n - 1), mem(a));
    if k > 0 {
      ShiftByteRead(mem, a + 1, n - 1, k - 1);
    }
  }

  /** Memory holding the bytes of `x`, least significant first, reads back
      as `x`. */
  lemma {:induction false} ReadShifted(mem: Memory, a: nat, n: nat, x: nat)
    requires x < Pow256(n)
    requires forall j :: 0 <= j < n ==> mem(a + j) == ShiftByte(x, j)
    ensures ReadLe(mem, a, n) == x
    decreases n
  {
    if n > 0 {
      forall j | 0 <= j < n - 1
        ensures mem(a + 1 + j) == ShiftByte(x / 0x100, j)
      {
        assert mem(a + (j + 1)) == ShiftByte(x, j + 1);
      }
      assert mem(a + 0) == ShiftByte(x, 0);
      ReadShifted(mem, a + 1, n - 1, x / 0x100);
    }
  }

  // ---------------------------------------------------------------------
  // The RSDP: the VendorTable of the last ACPI 2.0 entry.

  predicate IsAcpi20(e: ConfigEntry)
  {
    e.vendorGuid == ACPI_20_TABLE_GUID
  }

  /** RSDP after the loop has seen the first `n` entries (NULL before any
      match). */
  function LastRsdp(config: seq<ConfigEntry>, n: nat): u64
    requires n <= |config|
  {
    if n == 0 then 0
    else if IsAcpi20(config[n - 1]) then config[n - 1].vendorTable
    else LastRsdp(config, n - 1)
  }

  /** Entry `k` is the last ACPI 2.0 entry among the first `n`. */
  predicate LastAcpi20(config: seq<ConfigEntry>, k: nat, n: nat)
    requires n <= |config|
  {
    k < n && IsAcpi20(config[k]) && forall j :: k < j < n ==> !IsAcpi20(config[j])
  }

  /** The loop does not stop at a match: the RSDP is the table of the last
      ACPI 2.0 entry, and NULL when there is none. */
  lemma LastRsdpIsLast(config: seq<ConfigEntry>, n: nat)
    requires n <= |config|
    ensures (forall k :: 0 <= k < n ==> !IsAcpi20(config[k])) ==> LastRsdp(config, n) == 0
    ensures forall k: nat :: LastAcpi20(config, k, n) ==> LastRsdp(config, n) == config[k].vendorTable
  {
    if forall k :: 0 <= k < n ==> !IsAcpi20(config[k]) {
      NoneIsNull(config, n);
    }
    forall k: nat | LastAcpi20(config, k, n)
      ensures LastRsdp(config, n) == config[k].vendorTable
    {
      LastIsFound(config, k, n);
    }
  }

  lemma {:induction false} NoneIsNull(config: seq<ConfigEntry>, n: nat)
    requires n <= |config| && forall k :: 0 <= k < n ==> !IsAcpi20(config[k])
    ensures LastRsdp(config, n) == 0
  {
    if n > 0 {
      NoneIsNull(config, n - 1);
    }
  }

  lemma {:induction false} LastIsFound(config: seq<ConfigEntry>, k: nat, n: nat)
    requires n <= |config| && LastAcpi20(config, k, n)
    ensures LastRsdp(config, n) == config[k].vendorTable
  {
    if k < n - 1 {
      assert !IsAcpi20(config[n - 1]);
      LastIsFound(config, k, n - 1);
    }
  }

  function RsdpLine(e: ConfigEntry, ptrText: nat -> string): string
  {
    if IsAcpi20(e) then "RSDP table is placed at " + ptrText(e.vendorTable) + "\n\n" else ""
  }

  function RsdpLines(config: seq<ConfigEntry>, ptrText: nat -> string, n: nat): string
    requires n <= |config|
  {
    if n == 0 then "" else RsdpLines(config, ptrText, n - 1) + RsdpLine(config[n - 1], ptrText)
  }

  /** The loop over the configuration table: every ACPI 2.0 entry is
      printed and overwrites RSDP. */
  method FindRsdp(config: seq<ConfigEntry>, ptrText: nat -> string) returns (rsdp: u64, text: string)
    ensures rsdp == LastRsdp(config, |config|) && text == RsdpLines(config, ptrText, |config|)
  {
    rsdp, text := 0, "";
    var i: nat := 0;
    while i < |config|
      invariant i <= |config| && rsdp == LastRsdp(config, i) && text == RsdpLines(config, ptrText, i)
    {
      if IsAcpi20(config[i]) {
        text := text + ("RSDP table is placed at " + ptrText(config[i].vendorTable) + "\n\n");
        rsdp := config[i].vendorTable;
      }
      i := i + 1;
    }
  }

  // ---------------------------------------------------------------------
  // Signatures.

  /** The RSDP test as written: one of the eight shifted bytes of Signature
      differs from "RSD PTR ". */
  predicate RsdpRejected(signature: u64)
  {
    || ShiftByte(signature, 0) != 'R' as int || ShiftByte(signature, 1) != 'S' as int
    || ShiftByte(signature, 2) != 'D' as int || ShiftByte(signature, 3) != ' ' as int
    || ShiftByte(signature, 4) != 'P' as int || ShiftByte(signature, 5) != 'T' as int
    || ShiftByte(signature, 6) != 'R' as int || ShiftByte(signature, 7) != ' ' as int
  }

  /** The XSDT test as written, on the four bytes of a 32-bit Signature. */
  predicate XsdtRejected(signature: u32)
  {
    || ShiftByte(signature, 0) != 'X' as int || ShiftByte(signature, 1) != 'S' as int
    || ShiftByte(signature, 2) != 'D' as int || ShiftByte(signature, 3) != 'T' as int
  }

  /** The RSDP is accepted exactly when its eight bytes spell "RSD PTR ". */
  lemma RsdpSignature(mem: Memory, a: nat)
    ensures !RsdpRejected(Read64(mem, a)) <==> Bytes(mem, a, 8) == RSDP_SIGNATURE
  {
    var b := Bytes(mem, a, 8);
    forall k | 0 <= k < 8 ensures ShiftByte(Read64(mem, a), k) == b[k] {
      ShiftByteRead(mem, a, 8, k);
    }
    RsdpBytes(Read64(mem, a), b);
  }

  /** The shifted-byte test compares the eight bytes with "RSD PTR ". */
  lemma RsdpBytes(x: u64, b: seq<byte>)
    requires |b| == 8 && forall k :: 0 <= k < 8 ==> ShiftByte(x, k) == b[k]
    ensures !RsdpRejected(x) <==> b == RSDP_SIGNATURE
  {
    assert ShiftByte(x, 0) == b[0] && ShiftByte(x, 1) == b[1] && ShiftByte(x, 2) == b[2] && ShiftByte(x, 3) == b[3];
    assert ShiftByte(x, 4) == b[4] && ShiftByte(x, 5) == b[5] && ShiftByte(x, 6) == b[6] && ShiftByte(x, 7) == b[7];
    if !RsdpRejected(x) {
      assert b == RSDP_SIGNATURE;
    }
  }

  /** The XSDT is accepted exactly when its four signature bytes spell "XSDT". */
  lemma XsdtSignature(mem: Memory, a: nat)
    ensures !XsdtRejected(Read32(mem, a)) <==> Bytes(mem, a, 4) == XSDT_SIGNATURE
  {
    var b := Bytes(mem, a, 4);
    forall k | 0 <= k < 4 ensures ShiftByte(Read32(mem, a), k) == b[k] {
      ShiftByteRead(mem, a, 4, k);
    }
    if !XsdtRejected(Read32(mem, a)) {
      assert b == XSDT_SIGNATURE;
    }
  }

  // ---------------------------------------------------------------------
  // The XSDT entries.

  /** How many times `offset`, from 36 in steps of 8, stays below Length. */
  function EntryCount(length: nat): nat
  {
    if length <= DESCRIPTION_HEADER_SIZE then 0
    else (length - DESCRIPTION_HEADER_SIZE + ENTRY_SIZE - 1) / ENTRY_SIZE
  }

  /** Every counted entry starts below Length and the next one would not. */
  lemma EntryCountBounds(length: nat)
    ensures var c := EntryCount(length);
      && (c > 0 ==> DESCRIPTION_HEADER_SIZE + ENTRY_SIZE * (c - 1) < length)
      && DESCRIPTION_HEADER_SIZE + ENTRY_SIZE * c >= length
  {
  }

  /** The loop's exit: the first offset at or past Length fixes the count. */
  lemma EntryCountExact(length: nat, k: nat)
    requires k == 0 || DESCRIPTION_HEADER_SIZE + ENTRY_SIZE * (k - 1) < length
    requires DESCRIPTION_HEADER_SIZE + ENTRY_SIZE * k >= length
    ensures EntryCount(length) == k
  {
  }

  /** The address in entry `k` of the XSDT at `xsdt`. */
  function EntryAddress(mem: Memory, xsdt: nat, k: nat): u64
  {
    Read64(mem, xsdt + DESCRIPTION_HEADER_SIZE + ENTRY_SIZE * k)
  }

  /** The entry read at `offset` is entry `k`. */
  lemma EntryAt(mem: Memory, xsdt: nat, k: nat, offset: nat)
    requires offset == DESCRIPTION_HEADER_SIZE + ENTRY_SIZE * k
    ensures Read64(mem, xsdt + offset) == EntryAddress(mem, xsdt, k)
  {
  }

  /** A write the program asks for: the file, and the `size` bytes of
      memory from `address` on that go into it. */
  datatype Write = Write(fileName: string, address: nat, size: nat)

  /** What visiting tables prints and the writes it asks for. */
  datatype Visit = Visit(text: string, writes: seq<Write>)

  function Join(a: Visit, b: Visit): Visit
  {
    Visit(a.text + b.text, a.writes + b.writes)
  }

  /** The visits of the first `n` entries, in XSDT order. */
  function Entries(visit: u64 -> Visit, mem: Memory, xsdt: nat, n: nat): Visit
  {
    if n == 0 then Visit("", []) else Join(Entries(visit, mem, xsdt, n - 1), visit(EntryAddress(mem, xsdt, n - 1)))
  }

  /** The writes asked for by the first `n` entries when the table at `a`
      asks for `files(a)`. */
  function FilesUpTo(files: u64 -> seq<Write>, mem: Memory, xsdt: nat, n: nat): seq<Write>
  {
    if n == 0 then [] else FilesUpTo(files, mem, xsdt, n - 1) + files(EntryAddress(mem, xsdt, n - 1))
  }

  /** A walk asks for the writes of its entries, in XSDT order. */
  lemma {:induction false} EntriesWrites(visit: u64 -> Visit, files: u64 -> seq<Write>, mem: Memory, xsdt: nat, n: nat)
    requires forall a: u64 :: visit(a).writes == files(a)
    ensures Entries(visit, mem, xsdt, n).writes == FilesUpTo(files, mem, xsdt, n)
  {
    if n > 0 {
      EntriesWrites(visit, files, mem, xsdt, n - 1);
    }
  }

  /** A write is asked for exactly when one of the entries asks for it, and
      entries asking for at most one write each ask for at most `n`. */
  lemma {:induction false} FilesUpToExactly(files: u64 -> seq<Write>, mem: Memory, xsdt: nat, n: nat)
    ensures forall w :: w in FilesUpTo(files, mem, xsdt, n) <==>
      exists k :: 0 <= k < n && w in files(EntryAddress(mem, xsdt, k))
    ensures (forall a: u64 :: |files(a)| <= 1) ==> |FilesUpTo(files, mem, xsdt, n)| <= n
  {
    if n > 0 {
      FilesUpToExactly(files, mem, xsdt, n - 1);
      forall w | w in FilesUpTo(files, mem, xsdt, n)
        ensures exists k :: 0 <= k < n && w in files(EntryAddress(mem, xsdt, k))
      {
        if w !in FilesUpTo(files, mem, xsdt, n - 1) {
          assert w in files(EntryAddress(mem, xsdt, n - 1));
        }
      }
    }
  }

  /** The offset loop over the XSDT: entries at 36, 44, 52, ... while the
      offset is below the XSDT's Length. */
  method WalkXsdt(visit: u64 -> Visit, mem: Memory, xsdt: nat) returns (v: Visit)
    ensures v == Entries(visit, mem, xsdt, EntryCount(Read32(mem, xsdt + LENGTH_OFFSET)))
  {
    var length := Read32(mem, xsdt + LENGTH_OFFSET);
    var offset: nat := DESCRIPTION_HEADER_SIZE;
    ghost var k: nat := 0;
    v := Visit("", []);
    while offset < length
      invariant offset == DESCRIPTION_HEADER_SIZE + ENTRY_SIZE * k
      invariant k == 0 || DESCRIPTION_HEADER_SIZE + ENTRY_SIZE * (k - 1) < length
      invariant v == Entries(visit, mem, xsdt, k)
      decreases length - offset
    {
      var tableAddress := Read64(mem, xsdt + offset);
      v := Join(v, visit(tableAddress));
      offset := offset + ENTRY_SIZE;
      k := k + 1;
    }
    EntryCountExact(length, k);
  }

  /** An XSDT laid out with Length = 36 + 8 * n and the n addresses after
      the header is walked over exactly those addresses, in order. */
  lemma XsdtRoundTrip(mem: Memory, xsdt: nat, addresses: seq<u64>, k: nat)
    requires Read32(mem, xsdt + LENGTH_OFFSET) == DESCRIPTION_HEADER_SIZE + ENTRY_SIZE * |addresses|
    requires k < |addresses|
    requires forall j :: 0 <= j < 8 ==>
      mem(xsdt + DESCRIPTION_HEADER_SIZE + ENTRY_SIZE * k + j) == ShiftByte(addresses[k], j)
    ensures EntryCount(Read32(mem, xsdt + LENGTH_OFFSET)) == |addresses|
    ensures EntryAddress(mem, xsdt, k) == addresses[k]
  {
    Pow256Widths();
    ReadShifted(mem, xsdt + DESCRIPTION_HEADER_SIZE + ENTRY_SIZE * k, 8, addresses[k]);
    EntryCountExact(DESCRIPTION_HEADER_SIZE + ENTRY_SIZE * |addresses|, |addresses|);
  }

  // ---------------------------------------------------------------------
  // The program.

  /** "%c" of a CHAR8: a NUL prints nothing. */
  function CharText(b: byte): string
  {
    if b == 0 then "" else [b as char]
  }

  /** The four bytes of a table's 32-bit Signature. */
  function SignatureBytes(signature: u32): (r: seq<byte>)
    ensures |r| == 4
  {
    [ShiftByte(signature, 0), ShiftByte(signature, 1), ShiftByte(signature, 2), ShiftByte(signature, 3)]
  }

  /** The Signature bytes read through the shifts are the bytes at the table. */
  lemma SignatureBytesAt(mem: Memory, a: nat)
    ensures SignatureBytes(Read32(mem, a)) == Bytes(mem, a, 4)
  {
    ShiftByteRead(mem, a, 4, 0);
    ShiftByteRead(mem, a, 4, 1);
    ShiftByteRead(mem, a, 4, 2);
    ShiftByteRead(mem, a, 4, 3);
  }

  /** The line for one table: its signature as four "%c", its address and
      its Length. */
  function ShowTable(mem: Memory, ptrText: nat -> string, table: u64): Visit
  {
    var s := SignatureBytes(Read32(mem, table));
    Visit("\t" + CharText(s[0]) + CharText(s[1]) + CharText(s[2]) + CharText(s[3])
          + " table is placed at address " + ptrText(table)
          + " with length 0x" + HexLower(Read32(mem, table + LENGTH_OFFSET)) + "\n", [])
  }

  /** The lines before the tables: RSDT and XSDT addresses. */
  function SystemTablesText(mem: Memory, ptrText: nat -> string, rsdp: nat): string
  {
    "System description tables:\n"
    + "\tRSDT table is placed at address " + ptrText(Read32(mem, rsdp + RSDT_ADDRESS_OFFSET)) + "\n"
    + "\tXSDT table is placed at address " + ptrText(Read64(mem, rsdp + XSDT_ADDRESS_OFFSET)) + "\n"
    + "\n"
  }

  /** `v` with `head` printed before it. */
  function Prefixed(head: string, v: Visit): (r: Visit)
    ensures r.writes == v.writes && |r.text| == |head| + |v.text|
  {
    Visit(head + v.text, v.writes)
  }

  /** What follows an accepted RSDP: the system tables, then either the
      reason it stops (a bad XSDT signature) or the tables. */
  function AfterRsdp(mem: Memory, ptrText: nat -> string, rsdp: nat, visit: u64 -> Visit): Visit
  {
    var xsdt := Read64(mem, rsdp + XSDT_ADDRESS_OFFSET);
    var system := SystemTablesText(mem, ptrText, rsdp);
    if XsdtRejected(Read32(mem, xsdt)) then Visit(system + BAD_XSDT, [])
    else Prefixed(system + "Main ACPI tables:\n", Entries(visit, mem, xsdt, EntryCount(Read32(mem, xsdt + LENGTH_OFFSET))))
  }

  /** What the program prints and asks to write with `visit` for each table:
      the ACPI 2.0 entries, then either the reason it stops (no RSDP, a bad
      RSDP or a bad XSDT signature) or the tables. */
  function AcpiTables(config: seq<ConfigEntry>, ptrText: nat -> string, mem: Memory, visit: u64 -> Visit): Visit
  {
    var rsdp := LastRsdp(config, |config|);
    Prefixed(RsdpLines(config, ptrText, |config|),
      if rsdp == 0 then Visit(NO_ACPI, [])
      else if RsdpRejected(Read64(mem, rsdp)) then Visit(BAD_RSDP, [])
      else AfterRsdp(mem, ptrText, rsdp, visit))
  }

  /** The part of the walk after the RSDP check. */
  method ListTables(mem: Memory, ptrText: nat -> string, rsdp: nat, visit: u64 -> Visit) returns (v: Visit)
    ensures v == AfterRsdp(mem, ptrText, rsdp, visit)
  {
    var system := SystemTablesText(mem, ptrText, rsdp);
    var xsdt := Read64(mem, rsdp + XSDT_ADDRESS_OFFSET);
    AfterRsdpCases(mem, ptrText, rsdp, visit, system, xsdt);
    if XsdtRejected(Read32(mem, xsdt)) {
      return Visit(system + BAD_XSDT, []);
    }
    var tables := WalkXsdt(visit, mem, xsdt);
    v := Prefixed(system + "Main ACPI tables:\n", tables);
  }

  lemma AfterRsdpCases(mem: Memory, ptrText: nat -> string, rsdp: nat, visit: u64 -> Visit, system: string, xsdt: u64)
    requires system == SystemTablesText(mem, ptrText, rsdp) && xsdt == Read64(mem, rsdp + XSDT_ADDRESS_OFFSET)
    ensures XsdtRejected(Read32(mem, xsdt)) ==> AfterRsdp(mem, ptrText, rsdp, visit) == Visit(system + BAD_XSDT, [])
    ensures !XsdtRejected(Read32(mem, xsdt)) ==>
      AfterRsdp(mem, ptrText, rsdp, visit)
      == Prefixed(system + "Main ACPI tables:\n", Entries(visit, mem, xsdt, EntryCount(Read32(mem, xsdt + LENGTH_OFFSET))))
  {
  }

  /** The walk as the program runs it. */
  method Tables(config: seq<ConfigEntry>, ptrText: nat -> string, mem: Memory, visit: u64 -> Visit) returns (v: Visit)
    ensures v == AcpiTables(config, ptrText, mem, visit)
  {
    var rsdp, head := FindRsdp(config, ptrText);
    var rest: Visit;
    if rsdp == 0 {
      rest := Visit(NO_ACPI, []);
    } else if RsdpRejected(Read64(mem, rsdp)) {
      rest := Visit(BAD_RSDP, []);
    } else {
      rest := ListTables(mem, ptrText, rsdp, visit);
    }
    v := Prefixed(head, rest);
  }

  /** Without an ACPI 2.0 entry the program stops after the list. */
  lemma NoAcpi(config: seq<ConfigEntry>, ptrText: nat -> string, mem: Memory, visit: u64 -> Visit)
    requires forall k :: 0 <= k < |config| ==> !IsAcpi20(config[k])
    ensures AcpiTables(config, ptrText, mem, visit) == Visit(RsdpLines(config, ptrText, |config|) + NO_ACPI, [])
  {
    LastRsdpIsLast(config, |config|);
  }

  /** A found RSDP that does not spell "RSD PTR " stops the program. */
  lemma BadRsdp(config: seq<ConfigEntry>, ptrText: nat -> string, mem: Memory, visit: u64 -> Visit)
    requires LastRsdp(config, |config|) != 0
    requires Bytes(mem, LastRsdp(config, |config|), 8) != RSDP_SIGNATURE
    ensures AcpiTables(config, ptrText, mem, visit) == Visit(RsdpLines(config, ptrText, |config|) + BAD_RSDP, [])
  {
    RsdpSignature(mem, LastRsdp(config, |config|));
  }

  /** After a good RSDP, an XSDT that does not spell "XSDT" stops the
      program after the system tables; one that does lists the tables. */
  lemma XsdtOutcome(mem: Memory, ptrText: nat -> string, rsdp: nat, visit: u64 -> Visit)
    ensures var xsdt := Read64(mem, rsdp + XSDT_ADDRESS_OFFSET);
      var system := SystemTablesText(mem, ptrText, rsdp);
      && (Bytes(mem, xsdt, 4) != XSDT_SIGNATURE ==> AfterRsdp(mem, ptrText, rsdp, visit) == Visit(system + BAD_XSDT, []))
      && (Bytes(mem, xsdt, 4) == XSDT_SIGNATURE ==>
            AfterRsdp(mem, ptrText, rsdp, visit)
            == Join(Visit(system + "Main ACPI tables:\n", []), Entries(visit, mem, xsdt, EntryCount(Read32(mem, xsdt + LENGTH_OFFSET)))))
  {
    XsdtSignature(mem, Read64(mem, rsdp + XSDT_ADDRESS_OFFSET));
  }

  /** A found RSDP that spells "RSD PTR " goes on to the XSDT. */
  lemma GoodRsdp(config: seq<ConfigEntry>, ptrText: nat -> string, mem: Memory, visit: u64 -> Visit)
    requires LastRsdp(config, |config|) != 0
    requires Bytes(mem, LastRsdp(config, |config|), 8) == RSDP_SIGNATURE
    ensures AcpiTables(config, ptrText, mem, visit)
         == Prefixed(RsdpLines(config, ptrText, |config|), AfterRsdp(mem, ptrText, LastRsdp(config, |config|), visit))
  {
    RsdpSignature(mem, LastRsdp(config, |config|));
  }

  /** UefiMain: every way out returns EFI_SUCCESS. */
  function AcpiInfo(config: seq<ConfigEntry>, ptrText: nat -> string, mem: Memory): Report
  {
    Report(AcpiTables(config, ptrText, mem, (a: u64) => ShowTable(mem, ptrText, a)).text, Success)
  }

  method UefiMain(config: seq<ConfigEntry>, ptrText: nat -> string, mem: Memory) returns (r: Report)
    ensures r == AcpiInfo(config, ptrText, mem)
  {
    var v := Tables(config, ptrText, mem, (a: u64) => ShowTable(mem, ptrText, a));
    r := Report(v.text, Success);
  }
}
