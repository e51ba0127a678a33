/**
 * The SaveBGRT application: it asks the ACPI SDT protocol for tables by
 * index until the first "BGRT" (Boot Graphics Resource Table, section
 * 5.2.22 of the ACPI 6.3 specification), and when that table holds a BMP
 * image (ImageType 0) it saves the image to "BGRT.bmp".
 *
 * Memory, the tables GetAcpiTable hands out and the shell's file services
 * are parameters.
 */
module SaveBgrt {
  import opened Efi
  import opened Acpi

  /** Offsets of ImageType and ImageAddress in the BGRT. */
  const IMAGE_TYPE_OFFSET: nat := 39
  const IMAGE_ADDRESS_OFFSET: nat := 40

  /** Offsets of Size, PixelWidth and PixelHeight in BMP_IMAGE_HEADER. */
  const BMP_SIZE_OFFSET: nat := 2
  const PIXEL_WIDTH_OFFSET: nat := 18
  const PIXEL_HEIGHT_OFFSET: nat := 22

  const FILE_NAME := "BGRT.bmp"
  const NO_BGRT := "BGRT table is not present in the system\n"
  const BAD_BMP := "BMP image has wrong signature!\n"
  const SHORT_WRITE := "Error! Not all data was written\n"
  const NOT_WRITTEN := "Error! Can't write BGRT.bmp file\n"

  /** What ShellWriteFile returns: its status and the size it reports back
      through its in/out Size argument. */
  datatype WriteResult = WriteResult(status: Status, written: nat)

  /** The shell library's answers for a file name and for a write. */
  datatype Files = Files(open: string -> Status, write: Write -> WriteResult, close: string -> Status)

  /** What a call prints, its status and the writes it asks for. */
  datatype Run = Run(text: string, status: Status, writes: seq<Write>)

  // ---------------------------------------------------------------------
  // The search.

  /** The signature test as written: the four shifted bytes spell "BGRT". */
  predicate IsBgrt(signature: u32)
  {
    && ShiftByte(signature, 0) == 'B' as int && ShiftByte(signature, 1) == 'G' as int
    && ShiftByte(signature, 2) == 'R' as int && ShiftByte(signature, 3) == 'T' as int
  }

  /** The test reads the table's first four bytes. */
  lemma BgrtSignature(mem: Memory, table: nat)
    ensures IsBgrt(Read32(mem, table)) <==> Bytes(mem, table, 4) == [0x42, 0x47, 0x52, 0x54]
  {
    var b := Bytes(mem, table, 4);
    forall k | 0 <= k < 4 ensures ShiftByte(Read32(mem, table), k) == b[k] {
      ShiftByteRead(mem, table, 4, k);
    }
    if IsBgrt(Read32(mem, table)) {
      assert b == [0x42, 0x47, 0x52, 0x54];
    }
  }

  predicate BgrtAt(mem: Memory, table: u64)
  {
    IsBgrt(Read32(mem, table))
  }

  /** The index the search stops at, from `i` on: GetAcpiTable succeeds for
      the indices below |tables| and fails past them. */
  function FirstBgrt(mem: Memory, tables: seq<u64>, i: nat): (r: Option<nat>)
    requires i <= |tables|
    ensures r.Some? ==> i <= r.value < |tables| && BgrtAt(mem, tables[r.value])
    decreases |tables| - i
  {
    if i == |tables| then None
    else if BgrtAt(mem, tables[i]) then Some(i)
    else FirstBgrt(mem, tables, i + 1)
  }

  /** The search selects the first BGRT, and finds none only when there is
      none. */
  lemma {:induction false} FirstBgrtIsFirst(mem: Memory, tables: seq<u64>, i: nat)
    requires i <= |tables|
    ensures FirstBgrt(mem, tables, i).None? <==> forall j :: i <= j < |tables| ==> !BgrtAt(mem, tables[j])
    ensures FirstBgrt(mem, tables, i).Some? ==>
      forall j :: i <= j < FirstBgrt(mem, tables, i).value ==> !BgrtAt(mem, tables[j])
    decreases |tables| - i
  {
    if i < |tables| && !BgrtAt(mem, tables[i]) {
      FirstBgrtIsFirst(mem, tables, i + 1);
    }
  }

  /** The Index loop: it breaks at the first BGRT or at the first failing
      GetAcpiTable. */
  method FindBgrt(mem: Memory, tables: seq<u64>) returns (found: bool, index: nat)
    ensures found <==> FirstBgrt(mem, tables, 0).Some?
    ensures found ==> index == FirstBgrt(mem, tables, 0).value
  {
    found := false;
    index := 0;
    while true
      invariant index <= |tables| && FirstBgrt(mem, tables, 0) == FirstBgrt(mem, tables, index)
      decreases |tables| - index
    {
      if index == |tables| {
        break;
      }
      if BgrtAt(mem, tables[index]) {
        found := true;
        break;
      }
      index := index + 1;
    }
  }

  // ---------------------------------------------------------------------
  // WriteFile.

  /** WriteFile(FileName, Data, Size): open, write, check the size written
      back, close; every failure is printed, and the status returned is the
      last one the shell gave. */
  function WriteFileRun(files: Files, w: Write, statusText: Status -> string): Run
  {
    var openStatus := files.open(w.fileName);
    if IsError(openStatus) then Run("Can't open file: " + statusText(openStatus) + "\n", openStatus, [])
    else
      var wrote := files.write(w);
      var closed := files.close(w.fileName);
      Run("Save it to " + w.fileName + "\n"
          + (if IsError(wrote.status) then "Can't write file: " + statusText(wrote.status) + "\n" else "")
          + (if wrote.written != w.size then SHORT_WRITE else "")
          + (if IsError(closed) then "Can't close file: " + statusText(closed) + "\n" else ""),
          closed, [w])
  }

  method WriteFile(files: Files, w: Write, statusText: Status -> string) returns (run: Run)
    ensures run == WriteFileRun(files, w, statusText)
  {
    var status := files.open(w.fileName);
    if !IsError(status) {
      var text := "Save it to " + w.fileName + "\n";
      var toWrite := w.size;
      var wrote := files.write(w);
      status := wrote.status;
      if IsError(status) {
        text := text + ("Can't write file: " + statusText(status) + "\n");
      }
      if wrote.written != toWrite {
        text := text + SHORT_WRITE;
      }
      status := files.close(w.fileName);
      if IsError(status) {
        text := text + ("Can't close file: " + statusText(status) + "\n");
      }
      run := Run(text, status, [w]);
    } else {
      run := Run("Can't open file: " + statusText(status) + "\n", status, []);
    }
  }

  /** Once the file opened, the status WriteFile returns is CloseFile's: a
      failed or short write is printed but not returned. */
  lemma WriteFileStatus(files: Files, w: Write, statusText: Status -> string)
    ensures var run := WriteFileRun(files, w, statusText);
      && (IsError(files.open(w.fileName)) ==> run.status == files.open(w.fileName) && run.writes == [])
      && (!IsError(files.open(w.fileName)) ==> run.status == files.close(w.fileName) && run.writes == [w])
  {
  }

  // ---------------------------------------------------------------------
  // UefiMain.

  /** The image the BGRT at `bgrt` points to, and the write of it. */
  function ImageWrite(mem: Memory, bmp: u64): Write
  {
    Write(FILE_NAME, bmp, Read32(mem, bmp + BMP_SIZE_OFFSET))
  }

  function ResolutionLine(mem: Memory, bmp: u64): string
  {
    "BGRT conatins BMP image with " + Dec32(Read32(mem, bmp + PIXEL_WIDTH_OFFSET)) + "x"
    + Dec32(Read32(mem, bmp + PIXEL_HEIGHT_OFFSET)) + " resolution\n"
  }

  /** The BGRT found: nothing to do unless it holds a BMP; a BMP must start
      with "BM"; then it is written whole. */
  function SaveImage(mem: Memory, files: Files, statusText: Status -> string, bgrt: u64): Run
  {
    if mem(bgrt + IMAGE_TYPE_OFFSET) != 0 then Run("", Success, [])
    else
      var bmp := Read64(mem, bgrt + IMAGE_ADDRESS_OFFSET);
      if mem(bmp) != 'B' as int || mem(bmp + 1) != 'M' as int then Run(BAD_BMP, Unsupported, [])
      else
        var run := WriteFileRun(files, ImageWrite(mem, bmp), statusText);
        Run(ResolutionLine(mem, bmp) + run.text + (if IsError(run.status) then NOT_WRITTEN else ""),
            run.status, run.writes)
  }

  /** What UefiMain prints, returns and writes. */
  function SaveBgrtRun(locate: Status, mem: Memory, tables: seq<u64>, files: Files, statusText: Status -> string): Run
  {
    if IsError(locate) then Run("", locate, [])
    else
      match FirstBgrt(mem, tables, 0)
      case None => Run(NO_BGRT, Unsupported, [])
      case Some(i) => SaveImage(mem, files, statusText, tables[i])
  }

  method SaveFound(mem: Memory, files: Files, statusText: Status -> string, bgrt: u64) returns (run: Run)
    ensures run == SaveImage(mem, files, statusText, bgrt)
  {
    if mem(bgrt + IMAGE_TYPE_OFFSET) != 0 {
      return Run("", Success, []);
    }
    var bmp := Read64(mem, bgrt + IMAGE_ADDRESS_OFFSET);
    if mem(bmp) != 'B' as int || mem(bmp + 1) != 'M' as int {
      return Run(BAD_BMP, Unsupported, []);
    }
    var text := ResolutionLine(mem, bmp);
    var size := Read32(mem, bmp + BMP_SIZE_OFFSET);
    var written := WriteFile(files, Write(FILE_NAME, bmp, size), statusText);
    text := text + written.text;
    if IsError(written.status) {
      text := text + NOT_WRITTEN;
    }
    run := Run(text, written.status, written.writes);
  }

  method UefiMain(locate: Status, mem: Memory, tables: seq<u64>, files: Files, statusText: Status -> string)
    returns (run: Run)
    ensures run == SaveBgrtRun(locate, mem, tables, files, statusText)
  {
    if IsError(locate) {
      return Run("", locate, []);
    }
    var found, index := FindBgrt(mem, tables);
    if !found {
      return Run(NO_BGRT, Unsupported, []);
    }
    run := SaveFound(mem, files, statusText, tables[index]);
  }

  /** The only file ever written is BGRT.bmp, holding the BMP's Size bytes
      from the image address of the first BGRT, and only when that BGRT
      holds a BMP starting with "BM" and the file opened. */
  lemma SavedImage(locate: Status, mem: Memory, tables: seq<u64>, files: Files, statusText: Status -> string)
    ensures var run := SaveBgrtRun(locate, mem, tables, files, statusText);
      && |run.writes| <= 1
      && (run.writes != [] <==>
            && !IsError(locate)
            && FirstBgrt(mem, tables, 0).Some?
            && var bgrt := tables[FirstBgrt(mem, tables, 0).value];
               var bmp := Read64(mem, bgrt + IMAGE_ADDRESS_OFFSET);
               && mem(bgrt + IMAGE_TYPE_OFFSET) == 0
               && mem(bmp) == 'B' as int && mem(bmp + 1) == 'M' as int
               && !IsError(files.open(FILE_NAME)))
      && forall w :: w in run.writes ==>
           w.fileName == FILE_NAME && w.size == Read32(mem, w.address + BMP_SIZE_OFFSET)
  {
  }

  /** A write that fails on a file that then closes cleanly is printed
      but WriteFile still returns EFI_SUCCESS, so UefiMain does not print
      "Can't write BGRT.bmp file". */
  lemma FailedWriteReturnsSuccess(statusText: Status -> string, w: Write)
    ensures var files := Files(_ => Success, _ => WriteResult(DeviceError, 0), _ => Success);
      var run := WriteFileRun(files, w, statusText);
      && run.status == Success && run.writes == [w]
      && run.text == "Save it to " + w.fileName + "\nCan't write file: " + statusText(DeviceError) + "\n"
                     + (if w.size != 0 then SHORT_WRITE else "")
  {
  }

  /** How UefiMain ends: the locate error, EFI_UNSUPPORTED without a BGRT,
      and otherwise what the first BGRT's image gives. */
  lemma SaveBgrtStatus(locate: Status, mem: Memory, tables: seq<u64>, files: Files, statusText: Status -> string)
    ensures var run := SaveBgrtRun(locate, mem, tables, files, statusText);
      && (IsError(locate) ==> run == Run("", locate, []))
      && (!IsError(locate) && (forall j :: 0 <= j < |tables| ==> !BgrtAt(mem, tables[j])) ==>
            run == Run(NO_BGRT, Unsupported, []))
      && (!IsError(locate) && (exists j :: 0 <= j < |tables| && BgrtAt(mem, tables[j])) ==>
            exists k :: 0 <= k < |tables| && BgrtAt(mem, tables[k])
              && (forall j :: 0 <= j < k ==> !BgrtAt(mem, tables[j]))
              && run == SaveImage(mem, files, statusText, tables[k]))
  {
    FirstBgrtIsFirst(mem, tables, 0);
  }
}
