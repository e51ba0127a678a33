/**
 * UpdateDmpstoreDump: a shell application that walks a file written by
 * the shell's `dmpstore -s` and recomputes the CRC-32 that ends every
 * variable record, so that an edited dump loads again.
 *
 * A record is NameSize (UINT32), DataSize (UINT32), the name, the vendor
 * GUID, the attributes (UINT32), the data, and a UINT32 CRC-32 of
 * everything before it in the record. The CRC-32 itself (the boot
 * service CalculateCrc32) and AllocatePool's answers are parameters.
 */
module DmpstoreDump {
  import opened Efi

  /** NameSize and DataSize, then what follows the name. */
  const HEADER_SIZE: nat := 8
  const GUID_SIZE: nat := 16
  const ATTRIBUTES_SIZE: nat := 4
  const CRC_SIZE: nat := 4

  const USAGE := "Recalculate CRCs for dmpstore command dump\n\n  UpdateDmpstoreDump <filename>\n"
  const SHORT_WRITE := "Error! Not all data was written\n"

  /** The Status variable of ShellAppMain: an EFI_STATUS from a file call,
      or one of the two SHELL_STATUS codes the loop stores in it,
      SHELL_OUT_OF_RESOURCES (9) and SHELL_VOLUME_CORRUPTED (10). Those
      codes lack the high bit, so EFI_ERROR does not count them as errors. */
  datatype LoopStatus = Efi(status: Status) | ShellOutOfResources | ShellVolumeCorrupted

  /** EFI_ERROR on the Status variable. */
  predicate LoopError(s: LoopStatus)
  {
    s.Efi? && IsError(s.status)
  }

  /** The EFI_STATUS of the same name as each code. */
  function AsEfi(s: LoopStatus): (r: Status)
    ensures IsError(r) <==> s != Efi(Success)
    ensures s.Efi? ==> r == s.status
  {
    match s
    case Efi(status) => status
    case ShellOutOfResources => OutOfResources
    case ShellVolumeCorrupted => VolumeCorrupted
  }

  /** What one ShellWriteFile call answers: its status, and how many bytes
      it wrote, which it hands back in the size argument. */
  datatype WriteAnswer = WriteAnswer(status: Status, written: nat)

  /** The size a write of `size` bytes reports: at most what was asked. */
  function WrittenSize(a: WriteAnswer, size: nat): (r: nat)
    ensures r <= size && (r == size <==> a.written >= size)
  {
    if a.written < size then a.written else size
  }

  /** A CRC write the loop accepts: no EFI error and all four bytes
      written. */
  predicate WriteDone(a: WriteAnswer)
  {
    !IsError(a.status) && WrittenSize(a, CRC_SIZE) == CRC_SIZE
  }

  /** A file opened with ShellOpenFileByName: its bytes and the position
      the next read or write starts at. A ShellWriteFile at position `p`
      answers `answer(p)`: each call has its own status and may write
      fewer bytes than asked, whatever the status. */
  class DumpFile {
    var data: seq<byte>
    var pos: nat
    const answer: nat -> WriteAnswer

    constructor (contents: seq<byte>, answer: nat -> WriteAnswer)
      ensures data == contents && pos == 0 && this.answer == answer
    {
      data := contents;
      pos := 0;
      this.answer := answer;
    }

    /** ShellReadFile of `n` bytes: fewer once the end of the file is
        reached, and the position moves past what was read. */
    method Read(n: nat) returns (bytes: seq<byte>)
      requires pos <= |data|
      modifies this
      ensures bytes == Chunk(old(data), old(pos), n)
      ensures data == old(data) && pos == old(pos) + |bytes|
    {
      bytes := Chunk(data, pos, n);
      pos := pos + |bytes|;
    }

    /** ShellWriteFile: the bytes it writes, the first `written` of those
        asked for, replace those at the position, the file grows when they
        run past its end, and the position moves past them. */
    method Write(bytes: seq<byte>) returns (status: Status, written: nat)
      requires pos <= |data|
      modifies this
      ensures status == answer(old(pos)).status && written == WrittenSize(answer(old(pos)), |bytes|)
      ensures data == Overwrite(old(data), old(pos), bytes[..written]) && pos == old(pos) + written
    {
      var a := answer(pos);
      status, written := a.status, WrittenSize(a, |bytes|);
      data := Overwrite(data, pos, bytes[..written]);
      pos := pos + written;
    }
  }

  /** What a read of `n` bytes at `pos` returns. */
  function Chunk(data: seq<byte>, pos: nat, n: nat): (r: seq<byte>)
    requires pos <= |data|
    ensures |r| <= n && (|r| == n <==> pos + n <= |data|)
    ensures pos + |r| <= |data| && r == data[pos..pos + |r|]
  {
    if pos + n <= |data| then data[pos..pos + n] else data[pos..]
  }

  /** `data` with `bytes` written at `pos`. */
  function Overwrite(data: seq<byte>, pos: nat, bytes: seq<byte>): (r: seq<byte>)
    requires pos <= |data|
    ensures |r| == if pos + |bytes| <= |data| then |data| else pos + |bytes|
    ensures r[pos..pos + |bytes|] == bytes
    ensures forall i :: 0 <= i < |data| && !(pos <= i < pos + |bytes|) ==> r[i] == data[i]
  {
    data[..pos] + bytes + if pos + |bytes| <= |data| then data[pos + |bytes|..] else []
  }

  // ---------------------------------------------------------------------
  // The records.

  /** The end of the body of the record at `pos`: where its CRC goes. */
  function BodyEnd(data: seq<byte>, pos: nat): nat
    requires pos + HEADER_SIZE <= |data|
  {
    pos + HEADER_SIZE + U32At(data, pos) + GUID_SIZE + ATTRIBUTES_SIZE + U32At(data, pos + 4)
  }

  /** Why the record at `pos` ends the walk, if it does: a header or a body
      cut short by the end of the file, or a buffer AllocatePool refuses. */
  function Stop(data: seq<byte>, pos: nat, pool: nat -> bool): Option<LoopStatus>
  {
    if pos + HEADER_SIZE > |data| then Some(ShellVolumeCorrupted)
    else if !pool(BodyEnd(data, pos) - pos) then Some(ShellOutOfResources)
    else if BodyEnd(data, pos) > |data| then Some(ShellVolumeCorrupted)
    else None
  }

  /** The CRC field written behind the record `data[start..end]`: its
      CRC-32, little-endian. */
  function CrcField(crc: seq<byte> -> u32, data: seq<byte>, start: nat, end: nat): (r: seq<byte>)
    requires start <= end <= |data|
    ensures |r| == CRC_SIZE
  {
    LE32(crc(data[start..end]))
  }

  /** What the loop leaves: the file, the status and what it printed. */
  datatype Outcome = Outcome(data: seq<byte>, status: LoopStatus, text: string)

  /** The FilePos loop from `pos`: the records are those of the file as
      opened, `data` (a CRC is written only behind the position, so the
      reads never see one), and `out` is the file as the writes leave it.
      Each whole record gets the CRC-32 of its header and body written
      right after it; a write that fails or falls short leaves what it
      wrote and ends the loop with its status, which may be EFI_SUCCESS. */
  function Walk(data: seq<byte>, out: seq<byte>, fileSize: nat, pos: nat, crc: seq<byte> -> u32, pool: nat -> bool,
                write: nat -> WriteAnswer): Outcome
    requires |data| <= |out|
    decreases fileSize - pos
  {
    if pos >= fileSize then Outcome(out, Efi(Success), "")
    else match Stop(data, pos, pool)
      case Some(s) => Outcome(out, s, "")
      case None =>
        var end := BodyEnd(data, pos);
        var a := write(end);
        if WriteDone(a) then
          Walk(data, Overwrite(out, end, CrcField(crc, data, pos, end)), fileSize, end + CRC_SIZE, crc, pool, write)
        else
          ShortWrite(out, end, CrcField(crc, data, pos, end), a)
  }

  /** The loop's end at a CRC write `a` that fails or falls short: the
      bytes it wrote are in the file, and the status is the write's. */
  function ShortWrite(out: seq<byte>, end: nat, field: seq<byte>, a: WriteAnswer): (r: Outcome)
    requires end <= |out| && |field| == CRC_SIZE
    ensures r.text == SHORT_WRITE && r.status == Efi(a.status)
  {
    Outcome(Overwrite(out, end, field[..WrittenSize(a, CRC_SIZE)]), Efi(a.status), SHORT_WRITE)
  }

  /** A record of the file: where it starts and where its body ends. */
  datatype Span = Span(start: nat, end: nat)

  /** The records the walk meets from `pos`, up to the first one that
      stops it. */
  function Spans(data: seq<byte>, fileSize: nat, pos: nat, pool: nat -> bool): seq<Span>
    decreases fileSize - pos
  {
    if pos >= fileSize || Stop(data, pos, pool).Some? then []
    else [Span(pos, BodyEnd(data, pos))] + Spans(data, fileSize, BodyEnd(data, pos) + CRC_SIZE, pool)
  }

  /** The records follow each other: each whole, not refused by the pool,
      starting before the file size, the next one right after the CRC of
      the one before. */
  lemma {:induction false} SpansChain(data: seq<byte>, fileSize: nat, pos: nat, pool: nat -> bool)
    ensures var r := Spans(data, fileSize, pos, pool);
      && (r != [] ==> r[0].start == pos)
      && (forall k :: 0 <= k < |r| ==>
            && pos <= r[k].start < fileSize && r[k].start + HEADER_SIZE <= r[k].end <= |data|
            && Stop(data, r[k].start, pool).None? && r[k].end == BodyEnd(data, r[k].start))
      && (forall k :: 0 < k < |r| ==> r[k].start == r[k - 1].end + CRC_SIZE)
    decreases fileSize - pos
  {
    if pos < fileSize && Stop(data, pos, pool).None? {
      var next := BodyEnd(data, pos) + CRC_SIZE;
      SpansChain(data, fileSize, next, pool);
      var r := Spans(data, fileSize, pos, pool);
      assert r == [Span(pos, BodyEnd(data, pos))] + Spans(data, fileSize, next, pool);
    }
  }

  /** Where the walk from `pos` stops: past the file size or at the record
      that stops it. */
  function StopPos(data: seq<byte>, fileSize: nat, pos: nat, pool: nat -> bool): (r: nat)
    ensures r >= pos
    decreases fileSize - pos
  {
    if pos >= fileSize || Stop(data, pos, pool).Some? then pos
    else StopPos(data, fileSize, BodyEnd(data, pos) + CRC_SIZE, pool)
  }

  /** The status the walk ends with when it stops at `pos`. */
  function EndStatus(data: seq<byte>, fileSize: nat, pos: nat, pool: nat -> bool): LoopStatus
  {
    if pos >= fileSize || Stop(data, pos, pool).None? then Efi(Success) else Stop(data, pos, pool).value
  }

  /** The record whose CRC write the loop does not accept, if the loop
      reaches one before it stops. */
  function FirstFailure(data: seq<byte>, fileSize: nat, pos: nat, pool: nat -> bool, write: nat -> WriteAnswer): (r: Option<Span>)
    ensures r.Some? ==>
      && pos <= r.value.start < fileSize && Stop(data, r.value.start, pool).None?
      && r.value.end == BodyEnd(data, r.value.start) && r.value.start + HEADER_SIZE <= r.value.end
      && !WriteDone(write(r.value.end))
    decreases fileSize - pos
  {
    if pos >= fileSize || Stop(data, pos, pool).Some? then None
    else if !WriteDone(write(BodyEnd(data, pos))) then Some(Span(pos, BodyEnd(data, pos)))
    else FirstFailure(data, fileSize, BodyEnd(data, pos) + CRC_SIZE, pool, write)
  }

  /** The records whose CRC the loop writes in full, in order. */
  function Done(data: seq<byte>, fileSize: nat, pos: nat, pool: nat -> bool, write: nat -> WriteAnswer): seq<Span>
    decreases fileSize - pos
  {
    if pos >= fileSize || Stop(data, pos, pool).Some? || !WriteDone(write(BodyEnd(data, pos))) then []
    else [Span(pos, BodyEnd(data, pos))] + Done(data, fileSize, BodyEnd(data, pos) + CRC_SIZE, pool, write)
  }

  /** The records written in full are the first records the loop meets;
      when a write fails, its record is the next one. */
  lemma {:induction false} DoneSpans(data: seq<byte>, fileSize: nat, pos: nat, pool: nat -> bool, write: nat -> WriteAnswer)
    ensures var d, s, f := Done(data, fileSize, pos, pool, write), Spans(data, fileSize, pos, pool),
                           FirstFailure(data, fileSize, pos, pool, write);
      && |d| <= |s| && s[..|d|] == d
      && (f.None? ==> d == s)
      && (f.Some? ==> |d| < |s| && s[|d|] == f.value)
    decreases fileSize - pos
  {
    if pos < fileSize && Stop(data, pos, pool).None? && WriteDone(write(BodyEnd(data, pos))) {
      var next := BodyEnd(data, pos) + CRC_SIZE;
      DoneSpans(data, fileSize, next, pool, write);
      var head := Span(pos, BodyEnd(data, pos));
      assert Spans(data, fileSize, pos, pool) == [head] + Spans(data, fileSize, next, pool);
      assert Done(data, fileSize, pos, pool, write) == [head] + Done(data, fileSize, next, pool, write);
    }
  }

  /** Byte `i` lies in the CRC field of one of the records `s`. */
  predicate InCrcField(s: seq<Span>, i: nat)
  {
    s != [] && (s[0].end <= i < s[0].end + CRC_SIZE || InCrcField(s[1..], i))
  }

  /** Unless a write fails, the walk from `pos` ends with EFI_SUCCESS once
      the file size is reached, or with the status of the record that
      stops it; it prints nothing, and the file grows only when the last
      CRC runs past its end. */
  ghost predicate EndsFrom(data: seq<byte>, out: seq<byte>, fileSize: nat, pos: nat, crc: seq<byte> -> u32,
                           pool: nat -> bool, write: nat -> WriteAnswer)
    requires |data| <= |out|
  {
    var r := Walk(data, out, fileSize, pos, crc, pool, write);
    var p := StopPos(data, fileSize, pos, pool);
    FirstFailure(data, fileSize, pos, pool, write).None? ==>
      && r.text == ""
      && r.status == EndStatus(data, fileSize, p, pool)
      && |r.data| == (if p <= |out| then |out| else p)
  }

  /** EndsFrom holds from every position. */
  lemma {:induction false} WalkEnds(data: seq<byte>, out: seq<byte>, fileSize: nat, pos: nat, crc: seq<byte> -> u32,
                                    pool: nat -> bool, write: nat -> WriteAnswer)
    requires |data| <= |out| && pos <= |out|
    ensures EndsFrom(data, out, fileSize, pos, crc, pool, write)
    decreases fileSize - pos
  {
    if pos < fileSize && Stop(data, pos, pool).None? {
      var end := BodyEnd(data, pos);
      if WriteDone(write(end)) {
        WalkEnds(data, Overwrite(out, end, CrcField(crc, data, pos, end)), fileSize, end + CRC_SIZE, crc, pool, write);
        EndsOnward(data, out, fileSize, pos, crc, pool, write);
      } else {
        FailedHere(data, out, fileSize, pos, crc, pool, write);
      }
    } else {
      StoppedHere(data, out, fileSize, pos, crc, pool, write);
    }
  }

  /** WalkEnds past a record written in full follows from WalkEnds from
      the next record on. */
  lemma EndsOnward(data: seq<byte>, out: seq<byte>, fileSize: nat, pos: nat, crc: seq<byte> -> u32,
                   pool: nat -> bool, write: nat -> WriteAnswer)
    requires |data| <= |out| && pos < fileSize && Stop(data, pos, pool).None? && WriteDone(write(BodyEnd(data, pos)))
    requires EndsFrom(data, Overwrite(out, BodyEnd(data, pos), CrcField(crc, data, pos, BodyEnd(data, pos))),
                      fileSize, BodyEnd(data, pos) + CRC_SIZE, crc, pool, write)
    ensures EndsFrom(data, out, fileSize, pos, crc, pool, write)
  {
    var end := BodyEnd(data, pos);
    var out' := Overwrite(out, end, CrcField(crc, data, pos, end));
    WalkRound(data, out, fileSize, pos, crc, pool, write);
    FailureOn(data, fileSize, pos, pool, write);
    assert StopPos(data, fileSize, pos, pool) == StopPos(data, fileSize, end + CRC_SIZE, pool);
    assert |out'| == if end + CRC_SIZE <= |out| then |out| else end + CRC_SIZE;
  }

  /** Past the file size, or at a record that stops it, the walk ends
      there with no failed write. */
  lemma StoppedHere(data: seq<byte>, out: seq<byte>, fileSize: nat, pos: nat, crc: seq<byte> -> u32,
                    pool: nat -> bool, write: nat -> WriteAnswer)
    requires |data| <= |out| && (pos >= fileSize || Stop(data, pos, pool).Some?)
    ensures FirstFailure(data, fileSize, pos, pool, write).None? && StopPos(data, fileSize, pos, pool) == pos
    ensures Walk(data, out, fileSize, pos, crc, pool, write) == Outcome(out, EndStatus(data, fileSize, pos, pool), "")
    ensures FailsFrom(data, out, fileSize, pos, crc, pool, write)
    ensures pos <= |out| ==> EndsFrom(data, out, fileSize, pos, crc, pool, write)
  {
    WalkHalts(data, out, fileSize, pos, crc, pool, write);
  }

  /** The walk leaves the bytes before its start alone. */
  lemma {:induction false} WalkKeepsBefore(data: seq<byte>, out: seq<byte>, fileSize: nat, pos: nat, crc: seq<byte> -> u32,
                                           pool: nat -> bool, write: nat -> WriteAnswer)
    requires |data| <= |out|
    ensures var r := Walk(data, out, fileSize, pos, crc, pool, write);
      |r.data| >= |out| && forall i :: 0 <= i < pos && i < |out| ==> r.data[i] == out[i]
    decreases fileSize - pos
  {
    if pos < fileSize && Stop(data, pos, pool).None? && WriteDone(write(BodyEnd(data, pos))) {
      var end := BodyEnd(data, pos);
      WalkKeepsBefore(data, Overwrite(out, end, CrcField(crc, data, pos, end)), fileSize, end + CRC_SIZE, crc, pool, write);
    }
  }

  /** Only CRC fields change: every other byte of the file keeps its
      value, whatever the writes answer. */
  lemma {:induction false} WalkKeepsRest(data: seq<byte>, out: seq<byte>, fileSize: nat, pos: nat, crc: seq<byte> -> u32,
                                         pool: nat -> bool, write: nat -> WriteAnswer)
    requires |data| <= |out|
    ensures var r := Walk(data, out, fileSize, pos, crc, pool, write);
      |r.data| >= |out| && forall i :: 0 <= i < |out| && !InCrcField(Spans(data, fileSize, pos, pool), i) ==> r.data[i] == out[i]
    decreases fileSize - pos
  {
    if pos < fileSize && Stop(data, pos, pool).None? {
      var end := BodyEnd(data, pos);
      var next := end + CRC_SIZE;
      var s := Spans(data, fileSize, pos, pool);
      assert s[0] == Span(pos, end);
      if WriteDone(write(end)) {
        var out' := Overwrite(out, end, CrcField(crc, data, pos, end));
        WalkKeepsRest(data, out', fileSize, next, crc, pool, write);
        assert s[1..] == Spans(data, fileSize, next, pool);
        forall i | 0 <= i < |out| && !InCrcField(s, i)
          ensures out'[i] == out[i] && !InCrcField(Spans(data, fileSize, next, pool), i)
        {
        }
      }
    }
  }

  /** Each record whose CRC the walk writes in full gets, right after its
      body, the CRC-32 of its NameSize, DataSize and body, little-endian. */
  lemma {:induction false} WalkWritesCrcs(data: seq<byte>, out: seq<byte>, fileSize: nat, pos: nat, crc: seq<byte> -> u32,
                                          pool: nat -> bool, write: nat -> WriteAnswer)
    requires |data| <= |out|
    ensures WritesCrcs(data, Walk(data, out, fileSize, pos, crc, pool, write).data, Done(data, fileSize, pos, pool, write), crc)
    decreases fileSize - pos
  {
    if pos < fileSize && Stop(data, pos, pool).None? && WriteDone(write(BodyEnd(data, pos))) {
      var r := Walk(data, out, fileSize, pos, crc, pool, write);
      var d := Done(data, fileSize, pos, pool, write);
      var end := BodyEnd(data, pos);
      var field := CrcField(crc, data, pos, end);
      var out' := Overwrite(out, end, field);
      WalkWritesCrcs(data, out', fileSize, end + CRC_SIZE, crc, pool, write);
      WalkKeepsBefore(data, out', fileSize, end + CRC_SIZE, crc, pool, write);
      assert r == Walk(data, out', fileSize, end + CRC_SIZE, crc, pool, write);
      var rest := Done(data, fileSize, end + CRC_SIZE, pool, write);
      assert d == [Span(pos, end)] + rest;
      WritesCrcsCons(data, out', r.data, pos, end, rest, crc);
    }
  }

  /** A record whose CRC is in place joins the records before it. */
  lemma WritesCrcsCons(data: seq<byte>, out: seq<byte>, final: seq<byte>, start: nat, end: nat, rest: seq<Span>, crc: seq<byte> -> u32)
    requires start <= end <= |data| && end + CRC_SIZE <= |out| <= |final|
    requires out[end..end + CRC_SIZE] == CrcField(crc, data, start, end)
    requires forall i :: 0 <= i < end + CRC_SIZE ==> final[i] == out[i]
    requires WritesCrcs(data, final, rest, crc)
    ensures WritesCrcs(data, final, [Span(start, end)] + rest, crc)
  {
    assert final[end..end + CRC_SIZE] == out[end..end + CRC_SIZE];
  }

  /** Each record of `s` has in `out`, right after its body, the
      CRC-32 of its NameSize, DataSize and body in `data`, little-endian. */
  predicate WritesCrcs(data: seq<byte>, out: seq<byte>, s: seq<Span>, crc: seq<byte> -> u32)
  {
    forall k :: 0 <= k < |s| ==>
      && s[k].start <= s[k].end <= |data| && s[k].end + CRC_SIZE <= |out|
      && out[s[k].end..s[k].end + CRC_SIZE] == CrcField(crc, data, s[k].start, s[k].end)
  }

  /** The loop ended at the failed or short CRC write `a` of record `sp`:
      with its status and "Not all data was written", the bytes it wrote
      being the first bytes of the record's CRC, and every byte of `out`
      after them unchanged. */
  ghost predicate FailedAt(r: Outcome, out: seq<byte>, data: seq<byte>, sp: Span, a: WriteAnswer, crc: seq<byte> -> u32)
  {
    var n := WrittenSize(a, CRC_SIZE);
    && sp.start <= sp.end <= |data|
    && r.status == Efi(a.status) && r.text == SHORT_WRITE
    && sp.end + n <= |r.data| && |out| <= |r.data|
    && r.data[sp.end..sp.end + n] == CrcField(crc, data, sp.start, sp.end)[..n]
    && forall i :: sp.end + n <= i < |out| ==> r.data[i] == out[i]
  }

  /** A write that fails or falls short ends the walk from `pos` as
      FailedAt says. */
  ghost predicate FailsFrom(data: seq<byte>, out: seq<byte>, fileSize: nat, pos: nat, crc: seq<byte> -> u32,
                            pool: nat -> bool, write: nat -> WriteAnswer)
    requires |data| <= |out|
  {
    var f := FirstFailure(data, fileSize, pos, pool, write);
    f.Some? ==> FailedAt(Walk(data, out, fileSize, pos, crc, pool, write), out, data, f.value, write(f.value.end), crc)
  }

  /** FailsFrom holds from every position; the records before the failing
      one keep the CRCs already written (WalkWritesCrcs). */
  lemma {:induction false} WalkWriteFails(data: seq<byte>, out: seq<byte>, fileSize: nat, pos: nat, crc: seq<byte> -> u32,
                                          pool: nat -> bool, write: nat -> WriteAnswer)
    requires |data| <= |out|
    ensures FailsFrom(data, out, fileSize, pos, crc, pool, write)
    decreases fileSize - pos
  {
    if pos < fileSize && Stop(data, pos, pool).None? {
      var end := BodyEnd(data, pos);
      if WriteDone(write(end)) {
        WalkWriteFails(data, Overwrite(out, end, CrcField(crc, data, pos, end)), fileSize, end + CRC_SIZE, crc, pool, write);
        FailsOnward(data, out, fileSize, pos, crc, pool, write);
      } else {
        FailedHere(data, out, fileSize, pos, crc, pool, write);
      }
    } else {
      StoppedHere(data, out, fileSize, pos, crc, pool, write);
    }
  }

  /** WalkWriteFails past a record written in full follows from
      WalkWriteFails from the next record on. */
  lemma FailsOnward(data: seq<byte>, out: seq<byte>, fileSize: nat, pos: nat, crc: seq<byte> -> u32,
                    pool: nat -> bool, write: nat -> WriteAnswer)
    requires |data| <= |out| && pos < fileSize && Stop(data, pos, pool).None? && WriteDone(write(BodyEnd(data, pos)))
    requires FailsFrom(data, Overwrite(out, BodyEnd(data, pos), CrcField(crc, data, pos, BodyEnd(data, pos))),
                       fileSize, BodyEnd(data, pos) + CRC_SIZE, crc, pool, write)
    ensures FailsFrom(data, out, fileSize, pos, crc, pool, write)
  {
    var end := BodyEnd(data, pos);
    var out' := Overwrite(out, end, CrcField(crc, data, pos, end));
    var f := FirstFailure(data, fileSize, end + CRC_SIZE, pool, write);
    FailureOn(data, fileSize, pos, pool, write);
    WalkRound(data, out, fileSize, pos, crc, pool, write);
    if f.Some? {
      FailedEarlier(Walk(data, out', fileSize, end + CRC_SIZE, crc, pool, write), out, out', data, end,
                    CrcField(crc, data, pos, end), f.value, write(f.value.end), crc);
    }
  }

  /** Past a record written in full, the first failure is further on. */
  lemma FailureOn(data: seq<byte>, fileSize: nat, pos: nat, pool: nat -> bool, write: nat -> WriteAnswer)
    requires pos < fileSize && Stop(data, pos, pool).None? && WriteDone(write(BodyEnd(data, pos)))
    ensures FirstFailure(data, fileSize, pos, pool, write) == FirstFailure(data, fileSize, BodyEnd(data, pos) + CRC_SIZE, pool, write)
  {
  }

  /** A record whose CRC write fails or falls short ends the walk there. */
  lemma FailedHere(data: seq<byte>, out: seq<byte>, fileSize: nat, pos: nat, crc: seq<byte> -> u32,
                   pool: nat -> bool, write: nat -> WriteAnswer)
    requires |data| <= |out| && pos < fileSize && Stop(data, pos, pool).None? && !WriteDone(write(BodyEnd(data, pos)))
    ensures FirstFailure(data, fileSize, pos, pool, write) == Some(Span(pos, BodyEnd(data, pos)))
    ensures FailedAt(Walk(data, out, fileSize, pos, crc, pool, write), out, data, Span(pos, BodyEnd(data, pos)),
                     write(BodyEnd(data, pos)), crc)
    ensures FailsFrom(data, out, fileSize, pos, crc, pool, write) && EndsFrom(data, out, fileSize, pos, crc, pool, write)
  {
    WalkHalts(data, out, fileSize, pos, crc, pool, write);
  }

  /** A write before the failing record keeps FailedAt of the file before it. */
  lemma FailedEarlier(r: Outcome, out: seq<byte>, out': seq<byte>, data: seq<byte>, end: nat, field: seq<byte>,
                      sp: Span, a: WriteAnswer, crc: seq<byte> -> u32)
    requires end <= |out| && |field| == CRC_SIZE && out' == Overwrite(out, end, field) && end + CRC_SIZE <= sp.end
    requires FailedAt(r, out', data, sp, a, crc)
    ensures FailedAt(r, out, data, sp, a, crc)
  {
  }

  // ---------------------------------------------------------------------
  // The program.

  /** Two files of one length that agree from `pos` on. */
  predicate SameFrom(d1: seq<byte>, d2: seq<byte>, pos: nat)
  {
    |d1| == |d2| && forall i :: pos <= i < |d1| ==> d1[i] == d2[i]
  }

  /** Reading where the file still holds its first bytes reads those. */
  lemma ChunkFrom(cur: seq<byte>, data: seq<byte>, from: nat, pos: nat, n: nat)
    requires SameFrom(cur, data, from) && from <= pos <= |cur|
    ensures Chunk(cur, pos, n) == Chunk(data, pos, n)
  {
  }

  /** A write keeps the file's agreement past the written bytes. */
  lemma OverwriteFrom(cur: seq<byte>, data: seq<byte>, from: nat, pos: nat, bytes: seq<byte>)
    requires SameFrom(cur, data, from) && from <= pos && pos + |bytes| <= |cur|
    ensures SameFrom(Overwrite(cur, pos, bytes), data, pos + |bytes|)
  {
  }

  /** The header read as two UINT32s is the header of the record. */
  lemma HeaderRead(data: seq<byte>, pos: nat, nameSize: seq<byte>, dataSize: seq<byte>)
    requires pos + HEADER_SIZE <= |data|
    requires nameSize == data[pos..pos + 4] && dataSize == data[pos + 4..pos + HEADER_SIZE]
    ensures nameSize + dataSize == data[pos..pos + HEADER_SIZE]
    ensures BodyEnd(data, pos) == pos + HEADER_SIZE + U32At(nameSize, 0) + GUID_SIZE + ATTRIBUTES_SIZE + U32At(dataSize, 0)
  {
  }

  lemma SliceJoin(data: seq<byte>, a: nat, b: nat, c: nat)
    requires a <= b <= c <= |data|
    ensures data[a..b] + data[b..c] == data[a..c]
  {
  }

  /** The three ways the loop ends. */
  lemma WalkHalts(data: seq<byte>, out: seq<byte>, fileSize: nat, pos: nat, crc: seq<byte> -> u32, pool: nat -> bool,
                  write: nat -> WriteAnswer)
    requires |data| <= |out|
    ensures pos >= fileSize ==> Walk(data, out, fileSize, pos, crc, pool, write) == Outcome(out, Efi(Success), "")
    ensures pos < fileSize && Stop(data, pos, pool).Some? ==>
      Walk(data, out, fileSize, pos, crc, pool, write) == Outcome(out, Stop(data, pos, pool).value, "")
    ensures pos < fileSize && Stop(data, pos, pool).None? && !WriteDone(write(BodyEnd(data, pos))) ==>
      var end := BodyEnd(data, pos);
      var a := write(end);
      Walk(data, out, fileSize, pos, crc, pool, write) == ShortWrite(out, end, CrcField(crc, data, pos, end), a)
  {
  }

  /** Walk unfolded once, at a whole record whose CRC gets written. */
  lemma WalkRound(data: seq<byte>, out: seq<byte>, fileSize: nat, pos: nat, crc: seq<byte> -> u32, pool: nat -> bool,
                  write: nat -> WriteAnswer)
    requires pos < fileSize && |data| <= |out| && Stop(data, pos, pool).None? && WriteDone(write(BodyEnd(data, pos)))
    ensures var end := BodyEnd(data, pos);
      Walk(data, out, fileSize, pos, crc, pool, write)
      == Walk(data, Overwrite(out, end, CrcField(crc, data, pos, end)), fileSize, end + CRC_SIZE, crc, pool, write)
  {
  }

  /** A round that wrote the CRC of a whole record hands the walk on to
      the next record. */
  lemma WalkStep(data: seq<byte>, before: seq<byte>, after: seq<byte>, fileSize: nat, pos: nat, next: nat,
                 crc: seq<byte> -> u32, pool: nat -> bool, write: nat -> WriteAnswer)
    requires pos < fileSize <= |data| && SameFrom(before, data, pos)
    requires Stop(data, pos, pool).None? && WriteDone(write(BodyEnd(data, pos)))
    requires after == Overwrite(before, BodyEnd(data, pos), CrcField(crc, data, pos, BodyEnd(data, pos)))
    requires next == BodyEnd(data, pos) + CRC_SIZE
    ensures |data| <= |after|
    ensures Walk(data, after, fileSize, next, crc, pool, write) == Walk(data, before, fileSize, pos, crc, pool, write)
  {
    WalkRound(data, before, fileSize, pos, crc, pool, write);
  }

  /** The reads of one round of the FilePos loop: NameSize, DataSize,
      then the rest of the record into a buffer AllocatePool must grant.
      The buffer holds the whole record but its CRC. */
  method ReadRecord(file: DumpFile, ghost data: seq<byte>, pool: nat -> bool) returns (stop: Option<LoopStatus>, buffer: seq<byte>)
    requires file.pos < |data| && SameFrom(file.data, data, file.pos)
    modifies file
    ensures file.data == old(file.data)
    ensures stop == Stop(data, old(file.pos), pool)
    ensures stop.None? ==> file.pos == BodyEnd(data, old(file.pos)) && buffer == data[old(file.pos)..file.pos]
  {
    ghost var start := file.pos;
    ChunkFrom(file.data, data, start, start, 4);
    var nameSize := file.Read(4);
    if |nameSize| != 4 {
      return Some(ShellVolumeCorrupted), [];
    }
    ChunkFrom(file.data, data, start, file.pos, 4);
    var dataSize := file.Read(4);
    if |dataSize| != 4 {
      return Some(ShellVolumeCorrupted), [];
    }
    HeaderRead(data, start, nameSize, dataSize);
    var remainingSize := U32At(nameSize, 0) + GUID_SIZE + ATTRIBUTES_SIZE + U32At(dataSize, 0);
    if !pool(HEADER_SIZE + remainingSize) {
      return Some(ShellOutOfResources), [];
    }
    buffer := nameSize + dataSize;
    ChunkFrom(file.data, data, start, file.pos, remainingSize);
    var body := file.Read(remainingSize);
    if |body| != remainingSize {
      return Some(ShellVolumeCorrupted), [];
    }
    SliceJoin(data, start, start + HEADER_SIZE, file.pos);
    buffer := buffer + body;
    stop := None;
  }

  /** One round of the FilePos loop: read the record, then write the
      CRC-32 of its header and body behind it. `more` says whether the
      loop goes on, which it does when all four bytes of the CRC were
      written without an EFI error. */
  method Round(file: DumpFile, ghost data: seq<byte>, crc: seq<byte> -> u32, pool: nat -> bool)
    returns (status: LoopStatus, text: string, more: bool)
    requires file.pos < |data| <= |file.data| && SameFrom(file.data, data, file.pos)
    modifies file
    ensures var start := old(file.pos);
      match Stop(data, start, pool)
      case Some(s) => !more && status == s && text == "" && file.data == old(file.data)
      case None =>
        var end := BodyEnd(data, start);
        var a := file.answer(end);
        if WriteDone(a) then
          more && status == Efi(Success) && text == "" && file.pos == end + CRC_SIZE
          && file.data == Overwrite(old(file.data), end, CrcField(crc, data, start, end))
        else
          var o := ShortWrite(old(file.data), end, CrcField(crc, data, start, end), a);
          !more && status == o.status && text == o.text && file.data == o.data
    ensures more && file.pos < |data| ==> SameFrom(file.data, data, file.pos)
  {
    ghost var start := file.pos;
    var stop, buffer := ReadRecord(file, data, pool);
    if stop.Some? {
      return stop.value, "", false;
    }
    var crc32 := crc(buffer);
    var field := LE32(crc32);
    if file.pos + CRC_SIZE < |data| {
      OverwriteFrom(file.data, data, start, file.pos, field);
    }
    var written, toWriteSize := file.Write(field);
    if IsError(written) || toWriteSize != CRC_SIZE {
      return Efi(written), SHORT_WRITE, false;
    }
    assert field[..toWriteSize] == field;
    return Efi(Success), "", true;
  }

  /** The FilePos loop of ShellAppMain, on the file just opened. */
  method UpdateCrcs(file: DumpFile, fileSize: nat, crc: seq<byte> -> u32, pool: nat -> bool)
    returns (status: LoopStatus, text: string)
    requires file.pos == 0 && fileSize <= |file.data|
    modifies file
    ensures var o := Walk(old(file.data), old(file.data), fileSize, 0, crc, pool, file.answer);
      file.data == o.data && status == o.status && text == o.text
  {
    ghost var data := file.data;
    ghost var goal := Walk(data, data, fileSize, 0, crc, pool, file.answer);
    var filePos := 0;
    status, text := Efi(Success), "";
    while filePos < fileSize
      invariant filePos == file.pos <= |file.data| && |data| <= |file.data|
      invariant filePos < fileSize ==> SameFrom(file.data, data, filePos)
      invariant Walk(data, file.data, fileSize, filePos, crc, pool, file.answer) == goal
      invariant status == Efi(Success) && text == ""
      decreases fileSize - filePos
    {
      ghost var before := file.data;
      WalkHalts(data, before, fileSize, filePos, crc, pool, file.answer);
      var more;
      status, text, more := Round(file, data, crc, pool);
      if !more {
        break;
      }
      WalkStep(data, before, file.data, fileSize, filePos, file.pos, crc, pool, file.answer);
      filePos := file.pos;
    }
    if filePos >= fileSize {
      WalkHalts(data, file.data, fileSize, filePos, crc, pool, file.answer);
    }
  }

  /** The line ShellAppMain prints after the loop, as written: EFI_ERROR
      sees only a failed write, never the SHELL_STATUS codes of a cut
      record or a refused buffer. */
  function WalkReport(o: Outcome, statusText: Status -> string): (r: string)
    ensures r == o.text <==> !LoopError(o.status)
    ensures o.status.Efi? ==> r == WalkReportIntended(o, statusText)
  {
    o.text + if LoopError(o.status) then "Error! " + statusText(o.status.status) + "\n" else ""
  }

  /** The line evidently intended: every way the loop stops short of the
      file size is reported, with the EFI_STATUS of the same name. */
  function WalkReportIntended(o: Outcome, statusText: Status -> string): (r: string)
    ensures r == o.text <==> o.status == Efi(Success)
  {
    o.text + if IsError(AsEfi(o.status)) then "Error! " + statusText(AsEfi(o.status)) + "\n" else ""
  }

  /** A file shorter than a record header: the walk stops at once on
      SHELL_VOLUME_CORRUPTED, and as written nothing is printed, where the
      intended line reports the corruption. */
  lemma TruncatedSilent(data: seq<byte>, crc: seq<byte> -> u32, pool: nat -> bool, write: nat -> WriteAnswer,
                        statusText: Status -> string)
    requires 0 < |data| < HEADER_SIZE
    ensures var o := Walk(data, data, |data|, 0, crc, pool, write);
      && o == Outcome(data, ShellVolumeCorrupted, "")
      && WalkReport(o, statusText) == ""
      && WalkReportIntended(o, statusText) == "Error! " + statusText(VolumeCorrupted) + "\n"
  {
  }

  /** As written, the loop's "Error! %r" line appears exactly when a CRC
      write the loop reaches returns an EFI error. A write that returns
      EFI_SUCCESS but writes fewer than four bytes prints only "Not all
      data was written". */
  lemma ReportOnlyOnWrite(data: seq<byte>, crc: seq<byte> -> u32, pool: nat -> bool, write: nat -> WriteAnswer,
                          statusText: Status -> string)
    ensures var o := Walk(data, data, |data|, 0, crc, pool, write);
      var f := FirstFailure(data, |data|, 0, pool, write);
      && (WalkReport(o, statusText) != o.text <==> f.Some? && IsError(write(f.value.end).status))
      && (f.Some? ==> o.text == SHORT_WRITE)
      && (f.Some? && !IsError(write(f.value.end).status) ==> WalkReport(o, statusText) == SHORT_WRITE)
  {
    WalkWriteFails(data, data, |data|, 0, crc, pool, write);
    WalkEnds(data, data, |data|, 0, crc, pool, write);
    EndNotEfiError(data, |data|, StopPos(data, |data|, 0, pool), pool);
  }

  /** The status a stopped walk ends with is never an EFI error. */
  lemma EndNotEfiError(data: seq<byte>, fileSize: nat, pos: nat, pool: nat -> bool)
    ensures !LoopError(EndStatus(data, fileSize, pos, pool))
  {
  }

  /** What ShellAppMain returns and prints, given the answers of
      ShellOpenFileByName, ShellGetFileSize and ShellCloseFile. */
  datatype Shell = Shell(open: Status, getSize: Status, close: Status)

  /** ShellAppMain: it needs exactly one argument, the file name; once the
      file size is known it returns EFI_SUCCESS whatever the walk ran
      into, after printing it. */
  method ShellAppMain(argv: seq<CString>, file: DumpFile, shell: Shell, crc: seq<byte> -> u32, pool: nat -> bool,
                      statusText: Status -> string)
    returns (status: Status, text: string)
    requires file.pos == 0
    modifies file
    ensures |argv| != 2 ==> status == InvalidParameter && text == USAGE && file.data == old(file.data)
    ensures |argv| == 2 && IsError(shell.open) ==>
      status == shell.open && text == "Error! Can't open file " + argv[1] + "\n" && file.data == old(file.data)
    ensures |argv| == 2 && !IsError(shell.open) && IsError(shell.getSize) ==>
      status == DeviceError && text == "" && file.data == old(file.data)
    ensures |argv| == 2 && !IsError(shell.open) && !IsError(shell.getSize) ==>
      var o := Walk(old(file.data), old(file.data), |old(file.data)|, 0, crc, pool, file.answer);
      && status == Success && file.data == o.data
      && text == WalkReport(o, statusText)
                 + (if IsError(shell.close) then "Can't close file: " + statusText(shell.close) + "\n" else "")
  {
    if |argv| != 2 {
      return InvalidParameter, USAGE;
    }
    if IsError(shell.open) {
      return shell.open, "Error! Can't open file " + argv[1] + "\n";
    }
    if IsError(shell.getSize) {
      return DeviceError, "";
    }
    var fileSize := |file.data|;
    var loopStatus;
    loopStatus, text := UpdateCrcs(file, fileSize, crc, pool);
    if LoopError(loopStatus) {
      text := text + ("Error! " + statusText(loopStatus.status) + "\n");
    }
    if IsError(shell.close) {
      text := text + ("Can't close file: " + statusText(shell.close) + "\n");
    }
    status := Success;
  }
}
