/**
 * The AcpiInfo application of lesson 28: the ACPI walk of the AcpiInfo
 * module, which also saves every table the XSDT points to into a file
 * "<signature>.aml" through the shell protocol.
 *
 * The shell's answers (LocateProtocol, OpenFileByName, WriteFile and
 * CloseFile) are parameters: a file system is not part of this model.
 */
module AcpiSave {
  import opened Efi
  import opened Acpi

  /** What the shell answers: the status of locating EFI_SHELL_PROTOCOL,
      and the status OpenFileByName and CloseFile return for a file name and
      WriteFile for a write (the file, and the buffer address and size it
      is given). */
  datatype Shell = Shell(
    locate: Status,
    open: string -> Status,
    write: Write -> Status,
    close: string -> Status)

  /** CHAR16 TableName[5] and CHAR16 FileName[9]. */
  const TABLE_NAME_SIZE: nat := 5
  const FILE_NAME_SIZE: nat := 9
  const EXTENSION := ".aml"

  // ---------------------------------------------------------------------
  // The two names of a table.

  /** TableName as filled: the four Signature bytes widened, then a NUL. */
  function NameBuffer(signature: u32): (r: string)
    ensures |r| == TABLE_NAME_SIZE && r[4] == '\0'
  {
    Widen(SignatureBytes(signature)) + ['\0']
  }

  /** What "%s" prints of TableName: the signature up to its first NUL. */
  function TableName(signature: u32): (r: string)
    ensures |r| <= 4 && '\0' !in r
  {
    CStr(NameBuffer(signature))
  }

  /** The file one table is saved to, and what is written into it: the
      table's Length bytes, from its own header on. */
  function TableFile(mem: Memory, table: u64): Write
  {
    Write(TableName(Read32(mem, table)) + EXTENSION, table, Read32(mem, table + LENGTH_OFFSET))
  }

  /** A saved file holds the whole table, and its name, the signature and
      ".aml", fits FileName[9] with its NUL. */
  lemma TableFileShape(mem: Memory, table: u64)
    ensures var w := TableFile(mem, table);
      && w.address == table && w.size == Read32(mem, table + LENGTH_OFFSET)
      && |EXTENSION| <= |w.fileName| <= FILE_NAME_SIZE - 1
      && w.fileName[|w.fileName| - |EXTENSION|..] == EXTENSION
  {
  }

  // The two buffers are locals of UefiMain: each is modelled as a sequence
  // that the string routines return updated.

  /** StrCpyS(dest, destMax, src) when the source fits: the C string in
      `src` and its NUL are copied to the front of `dest`. */
  method StrCpyS(dest: string, destMax: nat, src: string) returns (d: string)
    requires destMax == |dest|
    requires '\0' in src && |CStr(src)| < destMax
    ensures |d| == |dest| && CStr(d) == CStr(src)
  {
    ghost var c := |CStr(src)|;
    d := dest;
    var i := 0;
    while src[i] != '\0'
      invariant i <= c && |d| == |dest| && d[..i] == src[..i]
      decreases c - i
    {
      d := d[i := src[i]];
      i := i + 1;
    }
    d := d[i := '\0'];
    assert d == src[..i] + ['\0'] + d[i + 1..];
    CStrOfTerminated(src[..i], d[i + 1..]);
  }

  /** StrCatS(dest, destMax, src) when the result fits: `src` is copied
      over the NUL that ends the C string in `dest`, then a NUL follows. */
  method StrCatS(dest: string, destMax: nat, src: string) returns (d: string)
    requires destMax == |dest| && '\0' !in src
    requires '\0' in dest && |CStr(dest)| + |src| < destMax
    ensures |d| == |dest| && CStr(d) == CStr(dest) + src
  {
    ghost var front := CStr(dest);
    d := dest;
    var n := 0;
    while d[n] != '\0'
      invariant n <= |front| && d[..n] == front[..n]
      decreases |front| - n
    {
      n := n + 1;
    }
    var j := 0;
    while j < |src|
      invariant j <= |src| && |d| == |dest| && d[..n + j] == front + src[..j]
    {
      d := d[n + j := src[j]];
      j := j + 1;
    }
    d := d[n + j := '\0'];
    assert d == front + src + ['\0'] + d[n + j + 1..];
    CStrOfTerminated(front + src, d[n + j + 1..]);
  }

  /** TableName filled from the Signature and FileName built from it by
      StrCpyS and StrCatS. */
  method NameTable(signature: u32) returns (tableName: string, fileName: string)
    ensures |tableName| == TABLE_NAME_SIZE && |fileName| == FILE_NAME_SIZE
    ensures CStr(tableName) == TableName(signature)
    ensures CStr(fileName) == TableName(signature) + EXTENSION
  {
    tableName := ['\0', '\0', '\0', '\0', '\0'];
    var k := 0;
    while k < 4
      invariant k <= 4 && |tableName| == TABLE_NAME_SIZE && tableName[4] == '\0'
      invariant forall j :: 0 <= j < k ==> tableName[j] == NameBuffer(signature)[j]
    {
      tableName := tableName[k := ShiftByte(signature, k) as char];
      k := k + 1;
    }
    assert tableName == NameBuffer(signature);
    fileName := ['\0', '\0', '\0', '\0', '\0', '\0', '\0', '\0', '\0'];
    fileName := StrCpyS(fileName, FILE_NAME_SIZE, tableName);
    fileName := StrCatS(fileName, FILE_NAME_SIZE, EXTENSION);
  }

  // ---------------------------------------------------------------------
  // One table.

  /** The line for one table: its name by "%s", its address and Length. */
  function TableLine(mem: Memory, ptrText: nat -> string, table: u64): string
  {
    "\t" + TableName(Read32(mem, table)) + " table is placed at address " + ptrText(table)
    + " with length 0x" + HexLower(Read32(mem, table + LENGTH_OFFSET)) + "\n"
  }

  const OPEN_FAILED := "Error in OpenFileByName: "
  const WRITE_FAILED := "Error in WriteFile: "
  const CLOSE_FAILED := "Error in CloseFile: "

  /** "<prefix>%r\n" when `s` is an error, nothing otherwise. */
  function ErrorLine(prefix: string, s: Status, statusText: Status -> string): string
  {
    if IsError(s) then prefix + statusText(s) + "\n" else ""
  }

  /** One table: its line, then the file is opened; when that succeeds the
      table is written and the file closed, each failure printed and none
      of them stopping the walk. */
  function SaveTable(shell: Shell, mem: Memory, ptrText: nat -> string, statusText: Status -> string, table: u64): Visit
  {
    var file := TableFile(mem, table);
    var openStatus := shell.open(file.fileName);
    if IsError(openStatus) then Visit(TableLine(mem, ptrText, table) + ErrorLine(OPEN_FAILED, openStatus, statusText), [])
    else
      Visit(TableLine(mem, ptrText, table)
            + ErrorLine(WRITE_FAILED, shell.write(file), statusText)
            + ErrorLine(CLOSE_FAILED, shell.close(file.fileName), statusText),
            [file])
  }

  function Saver(shell: Shell, mem: Memory, ptrText: nat -> string, statusText: Status -> string): u64 -> Visit
  {
    (table: u64) => SaveTable(shell, mem, ptrText, statusText, table)
  }

  method SaveOne(shell: Shell, mem: Memory, ptrText: nat -> string, statusText: Status -> string, table: u64)
    returns (v: Visit)
    ensures v == SaveTable(shell, mem, ptrText, statusText, table)
  {
    var signature := Read32(mem, table);
    var tableName, fileName := NameTable(signature);
    var name := CStr(tableName);
    var file := CStr(fileName);
    var size := Read32(mem, table + LENGTH_OFFSET);
    var line := "\t" + name + " table is placed at address " + ptrText(table)
      + " with length 0x" + HexLower(size) + "\n";
    assert line == TableLine(mem, ptrText, table);
    assert file == TableFile(mem, table).fileName;
    var status := shell.open(file);
    if !IsError(status) {
      var writeError, closeError := "", "";
      status := shell.write(Write(file, table, size));
      if IsError(status) {
        writeError := WRITE_FAILED + statusText(status) + "\n";
      }
      status := shell.close(file);
      if IsError(status) {
        closeError := CLOSE_FAILED + statusText(status) + "\n";
      }
      v := Visit(line + writeError + closeError, [Write(file, table, size)]);
    } else {
      v := Visit(line + (OPEN_FAILED + statusText(status) + "\n"), []);
    }
  }

  // ---------------------------------------------------------------------
  // The walk: the offset loop of the AcpiInfo module, with SaveTable as the
  // step for each table.

  /** What the program prints and writes: without the shell protocol only
      the reason; otherwise the ACPI walk, saving every table. */
  function AcpiSave(shell: Shell, config: seq<ConfigEntry>, ptrText: nat -> string,
                    statusText: Status -> string, mem: Memory): Visit
  {
    if IsError(shell.locate) then Visit("Can't open EFI_SHELL_PROTOCOL: " + statusText(shell.locate) + "\n", [])
    else AcpiTables(config, ptrText, mem, Saver(shell, mem, ptrText, statusText))
  }

  /** UefiMain: every way out returns EFI_SUCCESS. */
  method UefiMain(shell: Shell, config: seq<ConfigEntry>, ptrText: nat -> string,
                  statusText: Status -> string, mem: Memory)
    returns (r: Report, writes: seq<Write>)
    ensures r == Report(AcpiSave(shell, config, ptrText, statusText, mem).text, Success)
    ensures writes == AcpiSave(shell, config, ptrText, statusText, mem).writes
  {
    if IsError(shell.locate) {
      return Report("Can't open EFI_SHELL_PROTOCOL: " + statusText(shell.locate) + "\n", Success), [];
    }
    var v := Tables(config, ptrText, mem, Saver(shell, mem, ptrText, statusText));
    r, writes := Report(v.text, Success), v.writes;
  }

  // ---------------------------------------------------------------------
  // Properties.

  /** The file saved for the table at `table`: one when it opens, none
      otherwise. */
  function Saved(shell: Shell, mem: Memory, table: u64): (r: seq<Write>)
    ensures |r| <= 1
  {
    var file := TableFile(mem, table);
    if IsError(shell.open(file.fileName)) then [] else [file]
  }

  /** The files written while walking the first `n` entries are exactly the
      tables whose file opened, at most one per entry. */
  lemma SavedFiles(shell: Shell, mem: Memory, ptrText: nat -> string, statusText: Status -> string, xsdt: nat, n: nat)
    ensures var writes := Entries(Saver(shell, mem, ptrText, statusText), mem, xsdt, n).writes;
      && |writes| <= n
      && forall w :: w in writes <==>
           exists k :: 0 <= k < n && w == TableFile(mem, EntryAddress(mem, xsdt, k)) && !IsError(shell.open(w.fileName))
  {
    var files := (a: u64) => Saved(shell, mem, a);
    var save := Saver(shell, mem, ptrText, statusText);
    forall a: u64 ensures save(a).writes == files(a) {
    }
    EntriesWrites(save, files, mem, xsdt, n);
    FilesUpToExactly(files, mem, xsdt, n);
  }

  /** The "%s" name agrees with the four "%c" of the AcpiInfo module when no
      Signature byte is NUL. */
  lemma NameWithoutNul(signature: u32)
    requires 0 !in SignatureBytes(signature)
    ensures var s := SignatureBytes(signature);
      TableName(signature) == CharText(s[0]) + CharText(s[1]) + CharText(s[2]) + CharText(s[3])
  {
    var w := Widen(SignatureBytes(signature));
    assert '\0' !in w;
    CStrOfTerminated(w, []);
  }

  /** With a NUL inside the Signature they differ: "%s" stops at it while
      "%c" skips it. */
  lemma NameWithNul()
    ensures SignatureBytes(0x4200_0041) == [0x41, 0, 0, 0x42]
    ensures TableName(0x4200_0041) == "A"
    ensures CharText(0x41) + CharText(0) + CharText(0) + CharText(0x42) == "AB"
  {
    assert ShiftByte(0x4200_0041, 3) == ShiftByte(0x42, 0);
    var w := Widen(SignatureBytes(0x4200_0041));
    assert w == ['A'] + ['\0'] + ['\0', 'B'];
    CStrOfTerminated(['A'], ['\0', 'B', '\0']);
    assert NameBuffer(0x4200_0041) == ['A'] + ['\0'] + ['\0', 'B', '\0'];
  }
}
