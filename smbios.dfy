/**
 * The SmbiosInfo application: GetRecordString, which finds the n-th string
 * of an SMBIOS structure's string set (DMTF DSP0134 section 6.1.3), and the
 * report UefiMain prints for the structures EFI_SMBIOS_PROTOCOL.GetNext
 * hands out.
 *
 * A structure is its bytes from the header on: Type, Length (the size of
 * the formatted area), Handle, the rest of the formatted area, and then
 * the string set, each string NUL-terminated and the set closed by one more
 * NUL.
 */
module Smbios {
  import opened Efi

  // ---------------------------------------------------------------------
  // The string set.

  /** Where the string set starts: the end of the formatted area. */
  function SetStart(rec: seq<byte>): nat
    requires |rec| >= 2
  {
    rec[1]
  }

  /** What follows the first NUL-terminated string of `s`: where
      `String + AsciiStrSize(String)` points. */
  function Next(s: seq<byte>): (t: seq<byte>)
    requires Terminates(s)
    ensures |t| < |s| && t == s[|CBytes(s)| + 1..]
  {
    s[|CBytes(s)| + 1..]
  }

  /** A NUL ends the first string of `s` before `s` ends. */
  predicate Terminates(s: seq<byte>)
  {
    |CBytes(s)| < |s|
  }

  /** `s` starts with at least `n` NUL-terminated strings. */
  predicate Holds(s: seq<byte>, n: nat)
    decreases n
  {
    n == 0 || (Terminates(s) && Holds(Next(s), n - 1))
  }

  /** The `n`-th of the strings `s` starts with, counting from 1. */
  function Nth(s: seq<byte>, n: nat): (r: seq<byte>)
    requires 1 <= n && Holds(s, n)
    decreases n
  {
    if n == 1 then CBytes(s) else Nth(Next(s), n - 1)
  }

  /** Skipping the first string moves every later one up by one place. */
  lemma NthNext(s: seq<byte>, n: nat)
    requires 2 <= n && Holds(s, n)
    ensures Terminates(s) && Holds(Next(s), n - 1) && Nth(s, n) == Nth(Next(s), n - 1)
  {
  }

  /** The structure holds at least `n` strings after its formatted area. */
  predicate HasStrings(rec: seq<byte>, n: nat)
  {
    |rec| >= 2 && (n == 0 || (SetStart(rec) <= |rec| && Holds(rec[SetStart(rec)..], n)))
  }

  /** String `number` of the structure (counting from 1), and "" for 0: the
      field value SMBIOS uses for "no string". */
  function RecordString(rec: seq<byte>, number: nat): (r: seq<byte>)
    requires HasStrings(rec, number)
  {
    if number == 0 then [] else Nth(rec[SetStart(rec)..], number)
  }

  /** GetRecordString: string 1 starts at the end of the formatted area and
      every further one after the NUL of the one before. The source does not
      look for the double NUL closing the set, so the structure must hold at
      least `number` strings. */
  method GetRecordString(rec: seq<byte>, number: u64) returns (s: seq<byte>)
    requires HasStrings(rec, number)
    ensures s == RecordString(rec, number)
  {
    if number == 0 {
      return [];
    }
    var str := rec[rec[1]..];
    var i: nat := 1;
    while i < number
      invariant 1 <= i <= number && Holds(str, number - i + 1)
      invariant Nth(str, number - i + 1) == Nth(rec[SetStart(rec)..], number)
    {
      NthNext(str, number - i + 1);
      var size := |CBytes(str)| + 1;
      str := str[size..];
      i := i + 1;
    }
    s := CBytes(str);
  }

  // ---------------------------------------------------------------------
  // The layout firmware gives a structure, read back by RecordString.

  /** The strings, each followed by its NUL. */
  function Terminated(strings: seq<seq<byte>>): seq<byte>
  {
    if strings == [] then [] else strings[0] + [0] + Terminated(strings[1..])
  }

  /** A whole structure: the formatted area, the strings and the NUL that
      closes the set (two NULs when there is no string). */
  function Structure(formatted: seq<byte>, strings: seq<seq<byte>>): seq<byte>
  {
    formatted + Terminated(strings) + (if strings == [] then [0, 0] else [0])
  }

  /** The formatted area starts with a header whose Length byte is the
      area's size, and no string holds a NUL. */
  predicate WellFormed(formatted: seq<byte>, strings: seq<seq<byte>>)
  {
    4 <= |formatted| < 0x100 && formatted[1] == |formatted| && NoNul(strings)
  }

  /** No string holds a NUL. */
  predicate NoNul(strings: seq<seq<byte>>)
  {
    strings == [] || (0 !in strings[0] && NoNul(strings[1..]))
  }

  /** The string a field with value `n` names: "" for 0. */
  function Named(strings: seq<seq<byte>>, n: nat): seq<byte>
    requires n <= |strings|
  {
    if n == 0 then [] else strings[n - 1]
  }

  /** RecordString reads back every string of a well-formed structure. */
  lemma RecordStringRoundTrip(formatted: seq<byte>, strings: seq<seq<byte>>, n: nat)
    requires WellFormed(formatted, strings) && n <= |strings|
    ensures var rec := Structure(formatted, strings);
      HasStrings(rec, n) && RecordString(rec, n) == Named(strings, n)
  {
    var rec := Structure(formatted, strings);
    var tail := if strings == [] then [0, 0] else [0];
    assert rec[|formatted|..] == Terminated(strings) + tail;
    assert SetStart(rec) == |formatted|;
    if n > 0 {
      TerminatedStrings(strings, tail, n);
    }
  }

  /** The laid-out strings are found one after the other. */
  lemma {:induction false} TerminatedStrings(strings: seq<seq<byte>>, tail: seq<byte>, n: nat)
    requires NoNul(strings) && 1 <= n <= |strings|
    ensures Holds(Terminated(strings) + tail, n) && Nth(Terminated(strings) + tail, n) == strings[n - 1]
    decreases n
  {
    var s := Terminated(strings) + tail;
    var rest := strings[1..];
    var after := Terminated(rest) + tail;
    assert s == strings[0] + [0] + after;
    CBytesOfTerminated(strings[0], after);
    assert s[|strings[0]|] == 0;
    assert Next(s) == after;
    if n > 1 {
      TerminatedStrings(rest, tail, n - 1);
    }
  }

  // ---------------------------------------------------------------------
  // What UefiMain prints.

  /** gEfiSmbiosTableGuid (EB9D2D31-2D88-11D3-9A16-0090273FC14D) as it lies
      in memory. */
  const SMBIOS_TABLE_GUID: Guid :=
    [0x31, 0x2D, 0x9D, 0xEB, 0x88, 0x2D, 0xD3, 0x11,
     0x9A, 0x16, 0x00, 0x90, 0x27, 0x3F, 0xC1, 0x4D]

  /** The line for one configuration-table entry: the SMBIOS entry point's
      address (rendered by `ptrText`, the "%p" conversion) or nothing. */
  function EntryLine(e: ConfigEntry, ptrText: u64 -> string): string
  {
    if e.vendorGuid == SMBIOS_TABLE_GUID
    then "SMBIOS table is placed at " + ptrText(e.vendorTable) + "\n\n"
    else ""
  }

  /** The lines for the first `n` entries. */
  function TableLines(config: seq<ConfigEntry>, ptrText: u64 -> string, n: nat): string
    requires n <= |config|
  {
    if n == 0 then "" else TableLines(config, ptrText, n - 1) + EntryLine(config[n - 1], ptrText)
  }

  /** The loop over the configuration table, which prints every SMBIOS entry. */
  method PrintTables(config: seq<ConfigEntry>, ptrText: u64 -> string) returns (text: string)
    ensures text == TableLines(config, ptrText, |config|)
  {
    text := "";
    var i: nat := 0;
    while i < |config|
      invariant i <= |config| && text == TableLines(config, ptrText, i)
    {
      text := text + EntryLine(config[i], ptrText);
      i := i + 1;
    }
  }

  /** Every entry with the SMBIOS GUID is printed, however many there are. */
  lemma {:induction false} TableLinesCount(config: seq<ConfigEntry>, ptrText: u64 -> string, n: nat)
    requires n <= |config|
    ensures TableLines(config, ptrText, n) == [] <==>
      forall k :: 0 <= k < n ==> config[k].vendorGuid != SMBIOS_TABLE_GUID
  {
    if n > 0 {
      TableLinesCount(config, ptrText, n - 1);
    }
  }

  /** Sizes of SMBIOS_TABLE_TYPE0 and SMBIOS_TABLE_TYPE1 up to the last
      field the report reads. */
  const TYPE0_SIZE := 0x16
  const TYPE1_SIZE := 0x1B

  /** The bytes the report reads are there: the Type 0 or Type 1 fields,
      and as many strings as each string field names. */
  predicate Readable(rec: seq<byte>)
  {
    && |rec| >= 4
    && (rec[0] == 0 ==> BiosReadable(rec))
    && (rec[0] == 1 ==> SystemReadable(rec))
  }

  predicate BiosReadable(rec: seq<byte>)
  {
    |rec| >= TYPE0_SIZE && HasStrings(rec, rec[4]) && HasStrings(rec, rec[5]) && HasStrings(rec, rec[8])
  }

  predicate SystemReadable(rec: seq<byte>)
  {
    && |rec| >= TYPE1_SIZE
    && HasStrings(rec, rec[4]) && HasStrings(rec, rec[5]) && HasStrings(rec, rec[6])
    && HasStrings(rec, rec[7]) && HasStrings(rec, rec[0x19]) && HasStrings(rec, rec[0x1A])
  }

  /** "%a" of the string the field at `off` names. */
  function StringField(rec: seq<byte>, off: nat): string
    requires off < |rec| && HasStrings(rec, rec[off])
  {
    Widen(RecordString(rec, rec[off]))
  }

  /** What the report shows of a Type 0 (BIOS information) structure. */
  datatype Bios = Bios(vendor: string, biosVersion: string, biosReleaseDate: string,
                       biosSegment: u16, majorRelease: byte, minorRelease: byte)

  /** What the report shows of a Type 1 (system information) structure. */
  datatype System = System(manufacturer: string, productName: string, version: string,
                           serialNumber: string, uuid: Guid, wakeUpType: byte,
                           skuNumber: string, family: string)

  function BiosOf(rec: seq<byte>): Bios
    requires BiosReadable(rec)
  {
    Bios(StringField(rec, 4), StringField(rec, 5), StringField(rec, 8),
         U16At(rec, 6), rec[0x14], rec[0x15])
  }

  function SystemOf(rec: seq<byte>): System
    requires SystemReadable(rec)
  {
    System(StringField(rec, 4), StringField(rec, 5), StringField(rec, 6), StringField(rec, 7),
           rec[8..24], rec[0x18], StringField(rec, 0x19), StringField(rec, 0x1A))
  }

  function BiosLines(b: Bios): string
  {
    "\tVendor=" + b.vendor + "\n" +
    "\tBiosVersion=" + b.biosVersion + "\n" +
    "\tBiosReleaseDate=" + b.biosReleaseDate + "\n" +
    "\tBiosSegment=0x" + HexLower(b.biosSegment) + "\n" +
    "\tSystemBiosMajorRelease=0x" + HexLower(b.majorRelease) + "\n" +
    "\tSystemBiosMinorRelease=0x" + HexLower(b.minorRelease) + "\n"
  }

  function SystemLines(s: System): string
  {
    "\tManufacturer=" + s.manufacturer + "\n" +
    "\tProductName=" + s.productName + "\n" +
    "\tVersion=" + s.version + "\n" +
    "\tSerialNumber=" + s.serialNumber + "\n" +
    "\tUUID=" + GuidText(s.uuid) + "\n" +
    "\tWakeUpType=" + DecText(s.wakeUpType) + "\n" +
    "\tSKUNumber=" + s.skuNumber + "\n" +
    "\tFamily=" + s.family + "\n"
  }

  /** The first line of every structure's report. */
  function Heading(structureType: byte): string
  {
    "SMBIOS Type " + DecText(structureType) + " \n"
  }

  const PLACEHOLDER := "\tTODO: Parsing for this table is not ready yet\n"

  /** The lines for one structure: its type, then the Type 0 or Type 1
      fields, or the placeholder for every other type. */
  function RecordText(rec: seq<byte>): string
    requires Readable(rec)
  {
    Heading(rec[0]) +
    if rec[0] == 0 then BiosLines(BiosOf(rec))
    else if rec[0] == 1 then SystemLines(SystemOf(rec))
    else PLACEHOLDER
  }

  /** A string field of a well-formed structure shows the string it names. */
  lemma StringFieldNamed(formatted: seq<byte>, strings: seq<seq<byte>>, off: nat)
    requires WellFormed(formatted, strings) && off < |formatted| && formatted[off] <= |strings|
    ensures var rec := Structure(formatted, strings);
      off < |rec| && rec[off] == formatted[off] && HasStrings(rec, rec[off])
      && StringField(rec, off) == Widen(Named(strings, formatted[off]))
  {
    var rec := Structure(formatted, strings);
    assert rec[off] == formatted[off];
    RecordStringRoundTrip(formatted, strings, formatted[off]);
  }

  /** A Type 0 structure laid out by firmware shows the vendor, version and
      release-date strings its fields name ("" for a zero field). */
  lemma BiosInformation(formatted: seq<byte>, strings: seq<seq<byte>>)
    requires WellFormed(formatted, strings) && formatted[0] == 0 && |formatted| >= TYPE0_SIZE
    requires formatted[4] <= |strings| && formatted[5] <= |strings| && formatted[8] <= |strings|
    ensures var rec := Structure(formatted, strings);
      Readable(rec) && RecordText(rec) == Heading(0) + BiosLines(
        Bios(Widen(Named(strings, formatted[4])), Widen(Named(strings, formatted[5])),
             Widen(Named(strings, formatted[8])), U16At(formatted, 6), formatted[0x14], formatted[0x15]))
  {
    var rec := Structure(formatted, strings);
    StringFieldNamed(formatted, strings, 4);
    StringFieldNamed(formatted, strings, 5);
    StringFieldNamed(formatted, strings, 8);
    assert rec[0] == 0 && rec[6] == formatted[6] && rec[7] == formatted[7];
    assert rec[0x14] == formatted[0x14] && rec[0x15] == formatted[0x15];
    assert U16At(rec, 6) == U16At(formatted, 6);
    assert BiosOf(rec) == Bios(Widen(Named(strings, formatted[4])), Widen(Named(strings, formatted[5])),
      Widen(Named(strings, formatted[8])), U16At(formatted, 6), formatted[0x14], formatted[0x15]);
  }

  /** A Type 1 structure laid out by firmware shows each of its six string
      fields as the string the field names ("" for a zero field). */
  lemma SystemInformation(formatted: seq<byte>, strings: seq<seq<byte>>)
    requires WellFormed(formatted, strings) && formatted[0] == 1 && |formatted| >= TYPE1_SIZE
    requires formatted[4] <= |strings| && formatted[5] <= |strings| && formatted[6] <= |strings|
    requires formatted[7] <= |strings| && formatted[0x19] <= |strings| && formatted[0x1A] <= |strings|
    ensures var rec := Structure(formatted, strings);
      Readable(rec) && RecordText(rec) == Heading(1) + SystemLines(
        System(Widen(Named(strings, formatted[4])), Widen(Named(strings, formatted[5])),
               Widen(Named(strings, formatted[6])), Widen(Named(strings, formatted[7])),
               formatted[8..24], formatted[0x18],
               Widen(Named(strings, formatted[0x19])), Widen(Named(strings, formatted[0x1A]))))
  {
    var rec := Structure(formatted, strings);
    StringFieldNamed(formatted, strings, 4);
    StringFieldNamed(formatted, strings, 5);
    StringFieldNamed(formatted, strings, 6);
    StringFieldNamed(formatted, strings, 7);
    StringFieldNamed(formatted, strings, 0x19);
    StringFieldNamed(formatted, strings, 0x1A);
    assert rec[8..24] == formatted[8..24];
    assert rec[0] == 1 && rec[0x18] == formatted[0x18];
  }

  /** Only Type 0 and Type 1 structures have fields decoded: any other type
      shows its number and the placeholder line. */
  lemma OtherTypes(rec: seq<byte>)
    requires Readable(rec) && rec[0] > 1
    ensures RecordText(rec) == Heading(rec[0]) + PLACEHOLDER
  {
  }

  /** The lines `show` gives the first `n` structures. */
  function RecordsText(show: seq<byte> --> string, records: seq<seq<byte>>, n: nat): string
    requires n <= |records| && forall k :: 0 <= k < |records| ==> show.requires(records[k])
  {
    if n == 0 then "" else RecordsText(show, records, n - 1) + show(records[n - 1])
  }

  /** The GetNext loop, one structure at a time. */
  method PrintRecords(show: seq<byte> --> string, records: seq<seq<byte>>) returns (text: string)
    requires forall k :: 0 <= k < |records| ==> show.requires(records[k])
    ensures text == RecordsText(show, records, |records|)
  {
    text := "";
    var i: nat := 0;
    while i < |records|
      invariant i <= |records| && text == RecordsText(show, records, i)
    {
      text := text + show(records[i]);
      i := i + 1;
    }
  }

  /** UefiMain: the SMBIOS entries of the configuration table, then, once
      the SMBIOS protocol is located, every structure GetNext returns until
      it fails. A failed LocateProtocol is returned; otherwise the program
      returns EFI_SUCCESS. */
  function SmbiosInfo(config: seq<ConfigEntry>, ptrText: u64 -> string, locate: Status,
                      records: seq<seq<byte>>): Report
    requires forall k :: 0 <= k < |records| ==> Readable(records[k])
  {
    var tables := TableLines(config, ptrText, |config|);
    if IsError(locate) then Report(tables, locate)
    else Report(tables + RecordsText(RecordText, records, |records|), Success)
  }

  /** The status is LocateProtocol's: nothing the structures hold can make
      the program fail. */
  lemma SmbiosInfoOutcome(config: seq<ConfigEntry>, ptrText: u64 -> string, locate: Status,
                          records: seq<seq<byte>>)
    requires forall k :: 0 <= k < |records| ==> Readable(records[k])
    ensures SmbiosInfo(config, ptrText, locate, records).status == locate
  {
  }

  /** UefiMain as the program runs it. */
  method UefiMain(config: seq<ConfigEntry>, ptrText: u64 -> string, locate: Status,
                  records: seq<seq<byte>>) returns (r: Report)
    requires forall k :: 0 <= k < |records| ==> Readable(records[k])
    ensures r == SmbiosInfo(config, ptrText, locate, records)
  {
    var text := PrintTables(config, ptrText);
    if IsError(locate) {
      return Report(text, locate);
    }
    var rest := PrintRecords(RecordText, records);
    r := Report(text + rest, Success);
  }
}
