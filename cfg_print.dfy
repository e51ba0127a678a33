/**
 * Printing a configuration string the way HIIConfig and HIIKeyword do:
 * split in place at every '&', truncate over-long text with "<...>", and
 * dump decoded buffers sixteen bytes per row.
 */
module CfgPrint {
  import opened Efi

  // ---------------------------------------------------------------------
  // PrintBuffer: "%02x " per byte, blanks up to sixteen cells, " | ", the
  // printable characters, newline.

  /** The character shown for a byte: itself from 0x20 up to 0x7D, '.' otherwise. */
  function Shown(b: byte): char
  {
    if 0x20 <= b < 0x7E then b as char else '.'
  }

  function Shows(row: seq<byte>): (r: string)
    ensures |r| == |row|
  {
    seq(|row|, i requires 0 <= i < |row| => Shown(row[i]))
  }

  /** "%02x " for every byte of a row. */
  function Cells(row: seq<byte>): (r: string)
    ensures |r| == 3 * |row|
  {
    if row == [] then [] else Cells(row[..|row| - 1]) + Hex2(row[|row| - 1]) + " "
  }

  /** `n` empty cells of three blanks. */
  function Blanks(n: nat): (r: string)
    ensures |r| == 3 * n
  {
    if n == 0 then [] else Blanks(n - 1) + "   "
  }

  /** What follows the cells of a row: padding, separator, characters, newline. */
  function RowTail(row: seq<byte>): string
    requires |row| <= 16
  {
    Blanks(16 - |row|) + " | " + Shows(row) + "\n"
  }

  function DumpRow(row: seq<byte>): string
    requires 1 <= |row| <= 16
  {
    Cells(row) + RowTail(row)
  }

  function Hexdump(b: seq<byte>): string
    decreases |b|
  {
    if |b| == 0 then []
    else if |b| <= 16 then DumpRow(b)
    else DumpRow(b[..16]) + Hexdump(b[16..])
  }

  lemma HexdumpSplit(b: seq<byte>, k: nat)
    requires k % 16 == 0 && k <= |b|
    ensures Hexdump(b) == Hexdump(b[..k]) + Hexdump(b[k..])
  {
    HexdumpRows(b);
    HexdumpRows(b[..k]);
    HexdumpRows(b[k..]);
    RowsSplit(RowText, b, k);
  }

  /** A row's text, empty outside the one-to-sixteen-byte range. */
  function RowText(row: seq<byte>): string
  {
    if 1 <= |row| <= 16 then DumpRow(row) else []
  }

  /** Any per-row printer applied to consecutive sixteen-byte rows. */
  function Rows(f: seq<byte> -> string, b: seq<byte>): string
    decreases |b|
  {
    if |b| == 0 then []
    else if |b| <= 16 then f(b)
    else f(b[..16]) + Rows(f, b[16..])
  }

  lemma {:induction false} HexdumpRows(b: seq<byte>)
    ensures Hexdump(b) == Rows(RowText, b)
    decreases |b|
  {
    if |b| > 16 {
      HexdumpRows(b[16..]);
    }
  }

  lemma {:induction false} RowsSplit(f: seq<byte> -> string, b: seq<byte>, k: nat)
    requires k % 16 == 0 && k <= |b|
    ensures Rows(f, b) == Rows(f, b[..k]) + Rows(f, b[k..])
    decreases k
  {
    if k == |b| {
      assert b[..k] == b;
    } else if k > 0 {
      RowsSplit(f, b[16..], k - 16);
      assert b[16..][..k - 16] == b[..k][16..];
      assert b[16..][k - 16..] == b[k..];
      assert b[..k][..16] == b[..16];
    }
  }

  lemma HexdumpRow(b: seq<byte>, row: nat, i: nat)
    requires row % 16 == 0 && row < i <= |b| && i - row <= 16
    ensures Hexdump(b[..i]) == Hexdump(b[..row]) + DumpRow(b[row..i])
  {
    HexdumpSplit(b[..i], row);
    assert b[..i][..row] == b[..row];
    assert b[..i][row..] == b[row..i];
  }

  /** Closing a row: the text so far, the padding, the characters and the
      newline complete the dump of the bytes up to `i`. */
  lemma CloseRow(b: seq<byte>, row: nat, i: nat, prefix: string, rest: string)
    requires row % 16 == 0 && row < i <= |b| && i - row <= 16
    requires prefix == Hexdump(b[..row]) + Cells(b[row..i])
    requires rest == RowTail(b[row..i])
    ensures prefix + rest == Hexdump(b[..i])
  {
    HexdumpRow(b, row, i);
    Assoc(Hexdump(b[..row]), Cells(b[row..i]), rest);
  }

  lemma Assoc(x: string, y: string, z: string)
    ensures x + y + z == x + (y + z)
  {
  }

  lemma CloseFullRow(b: seq<byte>, row: nat, i: nat, prefix: string, shown: string)
    requires row % 16 == 0 && i == row + 16 <= |b|
    requires prefix == Hexdump(b[..row]) + Cells(b[row..i]) && shown == Shows(b[row..i])
    ensures prefix + (" | " + shown + "\n") == Hexdump(b[..i])
  {
    assert RowTail(b[row..i]) == " | " + shown + "\n" by {
      assert Blanks(0) == [];
    }
    CloseRow(b, row, i, prefix, " | " + shown + "\n");
  }

  lemma AddCell(b: seq<byte>, row: nat, i: nat, done: string, prefix: string)
    requires row <= i < |b| && prefix == done + Cells(b[row..i])
    ensures prefix + Hex2(b[i]) + " " == done + Cells(b[row..i + 1])
  {
    assert b[row..i + 1][..i - row] == b[row..i];
  }

  lemma ShowsSnoc(b: seq<byte>, row: nat, i: nat)
    requires row <= i < |b|
    ensures Shows(b[row..i + 1]) == Shows(b[row..i]) + [Shown(b[i])]
  {
    assert Shows(b[row..i + 1]) == Shows(b[row..i]) + [Shown(b[i])];
  }

  /** With rows starting at multiples of 16, a position is a multiple of 16
      exactly when it closes the current row. */
  lemma RowEnd(row: nat, i: nat)
    requires row % 16 == 0 && row < i <= row + 16
    ensures i % 16 == 0 <==> i == row + 16
    ensures i % 16 == i - row || i == row + 16
  {
  }

  /** The inner loop printing the characters of bytes `row` up to `i`. */
  method ShowChars(buffer: seq<byte>, row: nat, i: nat) returns (text: string)
    requires row <= i <= |buffer|
    ensures text == Shows(buffer[row..i])
  {
    text := [];
    var j := i - row;
    while j > 0
      invariant 0 <= j <= i - row
      invariant text == Shows(buffer[row..i - j])
    {
      ShowsSnoc(buffer, row, i - j);
      text := text + [Shown(buffer[i - j])];
      j := j - 1;
    }
  }

  /** The inner loop padding a short last row after `i` bytes. */
  method PadCells(i: nat) returns (text: string)
    requires i % 16 != 0
    ensures text == Blanks(16 - i % 16)
  {
    ghost var row := i - i % 16;
    text := [];
    var j := 0;
    while j <= 15
      invariant 0 <= j <= 16 - (i - row)
      invariant text == Blanks(j)
    {
      RowEnd(row, i + j);
      if (i + j) % 16 != 0 {
        text := text + "   ";
      } else {
        break;
      }
      j := j + 1;
    }
  }

  /** The end of a short last row: padding, separator, characters, newline. */
  method FinishRow(buffer: seq<byte>, i: nat) returns (rest: string)
    requires i % 16 != 0 && i <= |buffer|
    ensures rest == RowTail(buffer[i - i % 16..i])
  {
    var pad := PadCells(i);
    var shown := ShowChars(buffer, i - i % 16, i);
    rest := pad + " | " + shown + "\n";
  }

  /** The state of PrintBuffer's loop: `out` holds the dump of the rows
      before `row` and the cells of the current row up to `i`. */
  ghost predicate DumpState(buffer: seq<byte>, row: nat, i: nat, out: string)
  {
    row % 16 == 0 && row <= i <= |buffer| && i - row < 16
    && out == Hexdump(buffer[..row]) + Cells(buffer[row..i])
  }

  method PrintBuffer(buffer: seq<byte>) returns (out: string)
    ensures out == Hexdump(buffer)
  {
    var n := |buffer|;
    out := [];
    var i := 0;
    ghost var row := 0;
    DumpStart(buffer);
    while i < n
      invariant i <= n && DumpState(buffer, row, i, out)
    {
      out, row := DumpByte(buffer, row, i, out);
      i := i + 1;
    }
    out := DumpEnd(buffer, row, i, out);
  }

  lemma DumpStart(buffer: seq<byte>)
    ensures DumpState(buffer, 0, 0, [])
  {
    assert buffer[..0] == [] && buffer[0..0] == [];
  }

  /** One byte of the dump: its cell, and the row's characters after the
      sixteenth. */
  method DumpByte(buffer: seq<byte>, ghost row: nat, i: nat, out: string) returns (out': string, ghost row': nat)
    requires DumpState(buffer, row, i, out) && i < |buffer|
    ensures DumpState(buffer, row', i + 1, out')
  {
    AddCell(buffer, row, i, Hexdump(buffer[..row]), out);
    out' := out + Hex2(buffer[i]) + " ";
    row' := row;
    RowEnd(row, i + 1);
    if (i + 1) % 16 == 0 {
      var shown := ShowChars(buffer, i + 1 - 16, i + 1);
      CloseFullRow(buffer, row, i + 1, out', shown);
      out' := out' + (" | " + shown + "\n");
      row' := i + 1;
      assert buffer[row'..i + 1] == [];
    }
  }

  /** After the last byte: a short last row is padded and closed. */
  method DumpEnd(buffer: seq<byte>, ghost row: nat, i: nat, out: string) returns (out': string)
    requires DumpState(buffer, row, i, out) && i == |buffer|
    ensures out' == Hexdump(buffer)
  {
    assert buffer[..i] == buffer;
    if i % 16 != 0 {
      RowEnd(row, i);
      var rest := FinishRow(buffer, i);
      CloseRow(buffer, row, i, out, rest);
      out' := out + rest;
    } else {
      if row < i {
        RowEnd(row, i);
      }
      assert buffer[row..i] == [];
      out' := out;
    }
  }

  lemma {:induction false} CellsAt(row: seq<byte>, k: nat)
    requires k < |row|
    ensures Cells(row)[3 * k..3 * k + 2] == Hex2(row[k]) && Cells(row)[3 * k + 2] == ' '
  {
    var last := |row| - 1;
    if k < last {
      CellsAt(row[..last], k);
      assert Cells(row)[..3 * last] == Cells(row[..last]);
    }
  }

  /** Every row has its sixteen cells, then " | " at column 48, then one
      character per byte; cell k holds the two digits of byte k, which
      read back to the byte (Hex2). */
  lemma DumpRowShape(row: seq<byte>)
    requires 1 <= |row| <= 16
    ensures |DumpRow(row)| == 52 + |row|
    ensures DumpRow(row)[48..51] == " | "
    ensures forall k :: 0 <= k < |row| ==> DumpRow(row)[3 * k..3 * k + 2] == Hex2(row[k])
  {
    var r := DumpRow(row);
    assert r[48..51] == " | ";
    forall k | 0 <= k < |row|
      ensures r[3 * k..3 * k + 2] == Hex2(row[k])
    {
      CellsAt(row, k);
      assert r[3 * k..3 * k + 2] == Cells(row)[3 * k..3 * k + 2];
    }
  }

  // ---------------------------------------------------------------------
  // PrintLongString

  /** PrintLongString: text longer than the print buffer (`maxChars`
      characters, PcdUefiLibMaxPrintBufferSize) is cut so that it fits with
      "<...>" at the end; shorter text is printed whole. */
  method PrintLongString(str: CString, maxChars: nat) returns (shown: string)
    requires maxChars >= 6
    ensures shown == LongText(str, maxChars)
  {
    if |str| > maxChars {
      var temp := new char[maxChars](_ => '\0');
      var k := 0;
      while k < maxChars
        invariant 0 <= k <= maxChars && temp[..k] == str[..k]
      {
        temp[k] := str[k];
        k := k + 1;
      }
      temp[maxChars - 1] := '\0';
      temp[maxChars - 2] := '>';
      temp[maxChars - 3] := '.';
      temp[maxChars - 4] := '.';
      temp[maxChars - 5] := '.';
      temp[maxChars - 6] := '<';
      assert temp[..] == str[..maxChars - 6] + "<...>" + ['\0'];
      CStrOfTerminated(str[..maxChars - 6] + "<...>", []);
      shown := CStr(temp[..]);
    } else {
      shown := str;
    }
  }

  /** What PrintLongString shows. */
  function LongText(str: string, maxChars: nat): (r: string)
    requires maxChars >= 6
  {
    if |str| > maxChars then str[..maxChars - 6] + "<...>" else str
  }

  /** PrintLongString's text always fits Print's buffer, so it is shown
      whole: a string that fits is shown unchanged, and a longer one loses
      exactly its end beyond maxChars - 6 characters, which "<...>" marks,
      where a plain Print would have cut it silently. */
  lemma LongTextFits(str: string, maxChars: nat)
    requires maxChars >= 6
    ensures Printed(LongText(str, maxChars), maxChars) == LongText(str, maxChars)
    ensures |str| <= maxChars ==> LongText(str, maxChars) == Printed(str, maxChars) == str
    ensures |str| > maxChars ==>
      |LongText(str, maxChars)| == maxChars - 1
      && LongText(str, maxChars)[..maxChars - 6] == Printed(str, maxChars)[..maxChars - 6]
      && LongText(str, maxChars)[maxChars - 6..] == "<...>"
  {
  }

  // ---------------------------------------------------------------------
  // PrintConfigString: the pieces between the '&' separators.

  /** The '&'-separated pieces of `s`; there is always one more piece than
      there are separators. */
  function Pieces(s: string): (r: seq<string>)
    ensures |r| >= 1
  {
    if |s| == 0 then [[]]
    else
      var p := Pieces(s[..|s| - 1]);
      if s[|s| - 1] == '&' then p + [[]] else p[..|p| - 1] + [p[|p| - 1] + [s[|s| - 1]]]
  }

  function Join(ps: seq<string>): string
    requires |ps| >= 1
  {
    if |ps| == 1 then ps[0] else Join(ps[..|ps| - 1]) + "&" + ps[|ps| - 1]
  }

  function Count(s: string, c: char): nat
  {
    if |s| == 0 then 0 else Count(s[..|s| - 1], c) + (if s[|s| - 1] == c then 1 else 0)
  }

  lemma {:induction false} JoinLast(ps: seq<string>, x: string)
    requires |ps| >= 1
    ensures Join(ps[..|ps| - 1] + [ps[|ps| - 1] + x]) == Join(ps) + x
  {
    var qs := ps[..|ps| - 1] + [ps[|ps| - 1] + x];
    if |ps| > 1 {
      assert qs[..|qs| - 1] == ps[..|ps| - 1];
    }
  }

  lemma PiecesSnoc(t: string, c: char)
    ensures var p := Pieces(t);
      Pieces(t + [c]) == if c == '&' then p + [[]] else p[..|p| - 1] + [p[|p| - 1] + [c]]
  {
    assert (t + [c])[..|t|] == t;
  }

  /** Splitting at '&' loses nothing: joining the pieces back gives the string. */
  lemma {:induction false} PiecesJoin(s: string)
    ensures Join(Pieces(s)) == s
  {
    if |s| > 0 {
      var t, c := s[..|s| - 1], s[|s| - 1];
      assert s == t + [c];
      PiecesJoin(t);
      PiecesSnoc(t, c);
      var p := Pieces(t);
      if c == '&' {
        assert (p + [[]])[..|p|] == p;
      } else {
        JoinLast(p, [c]);
      }
    }
  }

  /** There is one piece more than there are separators. */
  lemma {:induction false} PiecesCount(s: string)
    ensures |Pieces(s)| == Count(s, '&') + 1
  {
    if |s| > 0 {
      var t, c := s[..|s| - 1], s[|s| - 1];
      assert s == t + [c];
      PiecesCount(t);
      PiecesSnoc(t, c);
    }
  }

  /** No piece holds a separator. */
  lemma {:induction false} PiecesNoAmp(s: string)
    ensures forall i :: 0 <= i < |Pieces(s)| ==> '&' !in Pieces(s)[i]
  {
    if |s| > 0 {
      var t, c := s[..|s| - 1], s[|s| - 1];
      assert s == t + [c];
      PiecesNoAmp(t);
      PiecesSnoc(t, c);
      var p, r := Pieces(t), Pieces(s);
      forall i | 0 <= i < |r| ensures '&' !in r[i] {
        if i < |p| - 1 { assert r[i] == p[i]; }
      }
    }
  }

  /** `sub` may be applied to every piece of `ps`. */
  ghost predicate Defined(sub: string --> string, ps: seq<string>)
  {
    forall i :: 0 <= i < |ps| ==> sub.requires(ps[i])
  }

  /** A string without separators is one piece. */
  lemma {:induction false} PiecesSingle(t: string)
    requires '&' !in t
    ensures Pieces(t) == [t]
  {
    if t != [] {
      var u, c := t[..|t| - 1], t[|t| - 1];
      PiecesSingle(u);
      PiecesSnoc(u, c);
      assert u + [c] == t;
    }
  }

  /** Appending "&" and a piece without separators adds exactly that piece. */
  lemma {:induction false} PiecesAppend(s: string, t: string)
    requires '&' !in t
    ensures Pieces(s + "&" + t) == Pieces(s) + [t]
    decreases |t|
  {
    if t == [] {
      PiecesSnoc(s, '&');
      assert s + "&" + t == s + ['&'];
    } else {
      var u, c := t[..|t| - 1], t[|t| - 1];
      PiecesAppend(s, u);
      assert s + "&" + t == (s + "&" + u) + [c];
      PiecesSnoc(s + "&" + u, c);
      assert u + [c] == t;
    }
  }

  /** The text of one call per piece, in order. */
  function Outputs(sub: string --> string, ps: seq<string>): string
    requires Defined(sub, ps)
  {
    if ps == [] then [] else Outputs(sub, ps[..|ps| - 1]) + sub(ps[|ps| - 1])
  }

  lemma Outputs3(sub: string --> string, a: string, b: string, c: string)
    requires sub.requires(a) && sub.requires(b) && sub.requires(c)
    ensures Defined(sub, [a, b, c]) && Outputs(sub, [a, b, c]) == sub(a) + sub(b) + sub(c)
  {
    OutputsSnoc(sub, [], a);
    assert [] + [a] == [a];
    OutputsSnoc(sub, [a], b);
    assert [a] + [b] == [a, b];
    OutputsSnoc(sub, [a, b], c);
    assert [a, b] + [c] == [a, b, c];
  }

  /** Position of the terminating NUL, where the C string ends. */
  function NulAt(a: seq<char>): (n: nat)
    requires '\0' in a
    ensures n < |a| && a[n] == '\0' && '\0' !in a[..n]
  {
    if a[0] == '\0' then 0 else assert '\0' in a[1..]; 1 + NulAt(a[1..])
  }

  lemma OutputsSnoc(sub: string --> string, ps: seq<string>, x: string)
    requires Defined(sub, ps + [x])
    ensures Defined(sub, ps) && sub.requires(x)
    ensures Outputs(sub, ps + [x]) == Outputs(sub, ps) + sub(x)
  {
    assert forall i :: 0 <= i < |ps| ==> ps[i] == (ps + [x])[i];
    assert (ps + [x])[|ps|] == x;
    assert (ps + [x])[..|ps|] == ps;
  }

  /** One more character of the string either closes the current piece (an
      '&') or extends it. */
  lemma PiecesStep(text: string, start: nat, i: nat, done: seq<string>)
    requires start <= i < |text| && Pieces(text[..i]) == done + [text[start..i]]
    ensures text[i] == '&' ==> Pieces(text[..i + 1]) == done + [text[start..i]] + [text[i + 1..i + 1]]
    ensures text[i] != '&' ==> Pieces(text[..i + 1]) == done + [text[start..i + 1]]
  {
    assert text[..i + 1] == text[..i] + [text[i]];
    PiecesSnoc(text[..i], text[i]);
    var p := done + [text[start..i]];
    assert text[i + 1..i + 1] == [];
    if text[i] != '&' {
      assert p[..|p| - 1] == done;
      assert text[start..i + 1] == text[start..i] + [text[i]];
    }
  }

  /** The pieces of a prefix of `s`, but for the last one, which may still
      grow, are the first pieces of `s`. */
  lemma {:induction false} PiecesGrow(s: string, i: nat)
    requires i <= |s|
    decreases |s| - i
    ensures var p := Pieces(s[..i]); |p| <= |Pieces(s)| && p[..|p| - 1] == Pieces(s)[..|p| - 1]
  {
    if i < |s| {
      PiecesGrow(s, i + 1);
      assert s[..i + 1] == s[..i] + [s[i]];
      PiecesSnoc(s[..i], s[i]);
      var p, q := Pieces(s[..i]), Pieces(s[..i + 1]);
      if s[i] == '&' {
        assert q[..|q| - 1] == p;
      } else {
        assert q[..|q| - 1] == p[..|p| - 1];
      }
    } else {
      assert s[..i] == s;
    }
  }

  /** The C string starting at `start` ends at the NUL at `i`. */
  lemma PieceAt(a: seq<char>, start: nat, i: nat)
    requires start <= i < |a| && a[i] == '\0' && '\0' !in a[start..i]
    ensures CStr(a[start..]) == a[start..i]
  {
    assert a[start..] == a[start..i] + ['\0'] + a[i + 1..];
    CStrOfTerminated(a[start..i], a[i + 1..]);
  }

  /** `a` with every '&' before position `i` overwritten by NUL. */
  function Cut(a: seq<char>, i: nat): (r: seq<char>)
    ensures |r| == |a|
  {
    seq(|a|, k requires 0 <= k < |a| => if k < i && a[k] == '&' then '\0' else a[k])
  }

  /** Printing the piece that ends at the NUL at `i` adds its text to the output. */
  lemma EmitPiece(sub: string --> string, a: seq<char>, start: nat, i: nat, piece: string, done: seq<string>, out: string)
    requires start <= i < |a| && a[i] == '\0' && a[start..i] == piece && '\0' !in piece
    requires Defined(sub, done) && sub.requires(piece) && out == Outputs(sub, done)
    ensures CStr(a[start..]) == piece
    ensures out + sub(CStr(a[start..])) == Outputs(sub, done + [piece])
  {
    PieceAt(a, start, i);
    OutputsSnoc(sub, done, piece);
  }

  /** The state of PrintConfigString's loop over `text`, whose NUL is at
      `n`: the array `a` has its separators before `i` cut, the pieces before
      `start` are `done` and have been printed into `out`, and the current
      piece runs from `start` to `i`. */
  ghost predicate SplitState(sub: string --> string, text: string, n: nat, a: seq<char>,
                             start: nat, i: nat, done: seq<string>, out: string)
  {
    n < |text| && text[n] == '\0' && '\0' !in text[..n] && start <= i <= n
    && a == Cut(text, i) && a[start..i] == text[start..i]
    && Pieces(text[..i]) == done + [text[start..i]]
    && Defined(sub, Pieces(text[..n])) && |done| < |Pieces(text[..n])|
    && done == Pieces(text[..n])[..|done|] && Defined(sub, done)
    && out == Outputs(sub, done)
  }

  /** The loop reads the original character at `i`, and stops at the NUL. */
  lemma SplitGuard(sub: string --> string, text: string, n: nat, a: seq<char>,
                   start: nat, i: nat, done: seq<string>, out: string)
    requires SplitState(sub, text, n, a, start, i, done, out)
    ensures a[i] == text[i] && (a[i] == '\0' <==> i == n)
  {
    if i < n {
      assert text[i] == text[..n][i];
    }
  }

  /** An ordinary character extends the current piece. */
  lemma SplitKeep(sub: string --> string, text: string, n: nat, a: seq<char>,
                  start: nat, i: nat, done: seq<string>, out: string)
    requires SplitState(sub, text, n, a, start, i, done, out) && i < n && text[i] != '&'
    ensures SplitState(sub, text, n, a, start, i + 1, done, out)
  {
    PiecesStep(text, start, i, done);
    assert Cut(text, i) == Cut(text, i + 1);
    assert a[start..i + 1] == a[start..i] + [a[i]];
  }

  /** The '&' branch of PrintConfigString's loop: the separator at `i` is
      overwritten with NUL and the piece from `start` is printed. */
  method CutPiece(cfg: array<char>, start: nat, i: nat, sub: string --> string,
                  ghost text: string, ghost n: nat, ghost done: seq<string>, out: string)
    returns (out': string)
    requires SplitState(sub, text, n, cfg[..], start, i, done, out) && i < n && text[i] == '&'
    modifies cfg
    ensures SplitState(sub, text, n, cfg[..], i + 1, i + 1, done + [text[start..i]], out')
  {
    ghost var a := cfg[..];
    cfg[i] := '\0';
    SplitCut(sub, text, n, a, cfg[..], start, i, done, out);
    out' := out + sub(CStr(cfg[start..]));
  }

  /** Cutting at the '&' at `i` closes the piece from `start`, which is
      printed next. */
  lemma SplitCut(sub: string --> string, text: string, n: nat, a: seq<char>, a': seq<char>,
                 start: nat, i: nat, done: seq<string>, out: string)
    requires SplitState(sub, text, n, a, start, i, done, out) && i < n && text[i] == '&'
    requires a' == a[i := '\0']
    ensures CStr(a'[start..]) == text[start..i] && sub.requires(text[start..i])
    ensures SplitState(sub, text, n, a', i + 1, i + 1, done + [text[start..i]],
                       out + sub(CStr(a'[start..])))
  {
    var piece := text[start..i];
    PiecesClose(text, n, start, i, done);
    CutNext(text, a, a', i);
    assert a'[i + 1..i + 1] == text[i + 1..i + 1];
    assert '\0' !in piece by {
      assert piece == text[..n][start..i];
    }
    assert sub.requires(Pieces(text[..n])[|done|]);
    EmitPiece(sub, a', start, i, piece, done, out);
  }

  /** Cutting the '&' at `i` extends the cut by one position. */
  lemma CutNext(text: string, a: seq<char>, a': seq<char>, i: nat)
    requires i < |text| && text[i] == '&' && a == Cut(text, i) && a' == a[i := '\0']
    ensures a' == Cut(text, i + 1)
  {
  }

  /** The '&' at `i` closes the piece from `start`: it is the next piece of
      the whole string, and an empty piece starts after it. */
  lemma PiecesClose(text: string, n: nat, start: nat, i: nat, done: seq<string>)
    requires start <= i < n < |text| && text[i] == '&'
    requires Pieces(text[..i]) == done + [text[start..i]]
    ensures Pieces(text[..i + 1]) == done + [text[start..i]] + [text[i + 1..i + 1]]
    ensures |done| + 1 < |Pieces(text[..n])|
    ensures done + [text[start..i]] == Pieces(text[..n])[..|done| + 1]
    ensures Pieces(text[..n])[|done|] == text[start..i]
  {
    PiecesStep(text, start, i, done);
    PiecesGrow(text[..n], i + 1);
    assert text[..n][..i + 1] == text[..i + 1];
    var ps := Pieces(text[..n]);
    var p := done + [text[start..i]] + [text[i + 1..i + 1]];
    assert p[..|p| - 1] == done + [text[start..i]];
    assert (done + [text[start..i]])[|done|] == text[start..i];
  }

  /** PrintConfigString: every '&' of the string is overwritten with NUL and
      `sub` (PrintConfigSubString) is called on each piece, the piece after
      the last '&' included. */
  method PrintConfigString(cfg: array<char>, sub: string --> string) returns (out: string)
    requires '\0' in cfg[..] && Defined(sub, Pieces(CStr(cfg[..])))
    modifies cfg
    ensures out == Outputs(sub, Pieces(CStr(old(cfg[..]))))
    ensures cfg[..] == Cut(old(cfg[..]), NulAt(old(cfg[..])))
  {
    ghost var text := cfg[..];
    ghost var n := NulAt(text);
    PieceAt(text, 0, n);
    var start := 0;
    var i := 0;
    out := [];
    ghost var done: seq<string> := [];
    assert cfg[..] == Cut(text, 0);
    while cfg[i] != '\0'
      invariant SplitState(sub, text, n, cfg[..], start, i, done, out)
      decreases n - i
    {
      SplitGuard(sub, text, n, cfg[..], start, i, done, out);
      if cfg[i] == '&' {
        out := CutPiece(cfg, start, i, sub, text, n, done, out);
        done := done + [text[start..i]];
        start := i + 1;
      } else {
        SplitKeep(sub, text, n, cfg[..], start, i, done, out);
      }
      i := i + 1;
    }
    SplitGuard(sub, text, n, cfg[..], start, i, done, out);
    SplitEnd(sub, text, n, cfg[..], start, i, done, out);
    out := out + sub(CStr(cfg[start..]));
  }

  /** At the NUL the last piece is printed: the output is that of all pieces. */
  lemma SplitEnd(sub: string --> string, text: string, n: nat, a: seq<char>,
                 start: nat, i: nat, done: seq<string>, out: string)
    requires SplitState(sub, text, n, a, start, i, done, out) && i == n
    ensures CStr(text) == text[..n] && CStr(a[start..]) == text[start..n]
    ensures sub.requires(text[start..n])
    ensures out + sub(CStr(a[start..])) == Outputs(sub, Pieces(CStr(text)))
  {
    PieceAt(text, 0, n);
    var piece := text[start..i];
    assert piece == text[..n][start..i];
    assert text[..n][..i] == text[..n];
    var ps := Pieces(text[..n]);
    assert ps == done + [piece] && ps[|done|] == piece;
    EmitPiece(sub, a, start, i, piece, done, out);
  }
}
