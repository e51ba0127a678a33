/**
 * Vocabulary shared by every lesson: the fixed-width integers of the UEFI
 * headers, EFI_STATUS values, little-endian field access, NUL-terminated
 * strings, and the text conversions of the EDK2 base and print libraries
 * (StrHexToUint64, "%x", "%d").
 */
module Efi {

  type byte = x: int | 0 <= x < 0x100
  type u16 = x: int | 0 <= x < 0x1_0000
  type u24 = x: int | 0 <= x < 0x100_0000
  type u32 = x: int | 0 <= x < 0x1_0000_0000
  type u64 = x: int | 0 <= x < 0x1_0000_0000_0000_0000

  const MAX_U64: u64 := 0xFFFF_FFFF_FFFF_FFFF
  const TWO_32: nat := 0x1_0000_0000
  const TWO_64: nat := 0x1_0000_0000_0000_0000

  /** The EFI_STATUS values the lessons return or test. */
  datatype Status =
    | Success
    | LoadError
    | InvalidParameter
    | Unsupported
    | BadBufferSize
    | BufferTooSmall
    | NotReady
    | DeviceError
    | WriteProtected
    | OutOfResources
    | VolumeCorrupted
    | VolumeFull
    | NotFound
    | AccessDenied
    | AlreadyStarted
    | SecurityViolation
    | Aborted

  predicate IsError(s: Status) { !s.Success? }

  datatype Option<T> = None | Some(value: T)

  /** What a program or a step of it prints, and the Status it returns. */
  datatype Report = Report(text: string, status: Status)

  /** An entry of the system table's configuration table. */
  datatype ConfigEntry = ConfigEntry(vendorGuid: Guid, vendorTable: u64)

  /** A CHAR16 string as the firmware hands it over: no NUL inside. */
  type CString = s: string | '\0' !in s

  // ---------------------------------------------------------------------
  // Little-endian fields inside a byte buffer.

  function U16At(b: seq<byte>, off: nat): u16
    requires off + 2 <= |b|
  {
    b[off] as int + 0x100 * b[off + 1] as int
  }

  /** A 24-bit bit-field such as the Length of a package or section header. */
  function U24At(b: seq<byte>, off: nat): u24
    requires off + 3 <= |b|
  {
    U16At(b, off) as int + 0x1_0000 * b[off + 2] as int
  }

  function U32At(b: seq<byte>, off: nat): u32
    requires off + 4 <= |b|
  {
    U16At(b, off) as int + 0x1_0000 * U16At(b, off + 2) as int
  }

  function U64At(b: seq<byte>, off: nat): u64
    requires off + 8 <= |b|
  {
    U32At(b, off) as int + TWO_32 * U32At(b, off + 4) as int
  }

  /** Physical memory, byte by byte: what a firmware table pointer reaches. */
  type Memory = nat -> byte

  /** The `n` bytes of memory from address `a` on. */
  function Bytes(mem: Memory, a: nat, n: nat): (r: seq<byte>)
    ensures |r| == n && forall k :: 0 <= k < n ==> r[k] == mem(a + k)
  {
    if n == 0 then [] else Bytes(mem, a, n - 1) + [mem(a + n - 1)]
  }

  /** 0x100 to the `n`: one more than the largest `n`-byte value. */
  function Pow256(n: nat): (r: nat)
    ensures r >= 1
  {
    if n == 0 then 1 else 0x100 * Pow256(n - 1)
  }

  lemma Pow256Widths()
    ensures Pow256(4) == TWO_32 && Pow256(8) == TWO_64
  {
    assert Pow256(2) == 0x1_0000;
    assert Pow256(4) == 0x100 * (0x100 * Pow256(2));
    assert Pow256(6) == 0x100 * (0x100 * Pow256(4));
    assert Pow256(8) == 0x100 * (0x100 * Pow256(6));
  }

  /** The `n`-byte little-endian value in memory at `a`. */
  function ReadLe(mem: Memory, a: nat, n: nat): (r: nat)
    ensures r < Pow256(n)
    decreases n, a
  {
    if n == 0 then 0 else mem(a) + 0x100 * ReadLe(mem, a + 1, n - 1)
  }

  /** A UINT32 and a UINT64 field read through a pointer. */
  function Read32(mem: Memory, a: nat): u32
  {
    Pow256Widths();
    ReadLe(mem, a, 4)
  }

  function Read64(mem: Memory, a: nat): u64
  {
    Pow256Widths();
    ReadLe(mem, a, 8)
  }

  function LE16(x: u16): (r: seq<byte>)
    ensures |r| == 2
  {
    [x % 0x100, x / 0x100]
  }

  function LE24(x: u24): (r: seq<byte>)
    ensures |r| == 3
  {
    LE16(x % 0x1_0000) + [x / 0x1_0000]
  }

  function LE32(x: u32): (r: seq<byte>)
    ensures |r| == 4
  {
    LE16(x % 0x1_0000) + LE16(x / 0x1_0000)
  }

  function LE64(x: u64): (r: seq<byte>)
    ensures |r| == 8
  {
    LE32(x % TWO_32) + LE32(x / TWO_32)
  }

  lemma ReadLE16(b: seq<byte>, off: nat, x: u16)
    requires off + 2 <= |b| && b[off..off + 2] == LE16(x)
    ensures U16At(b, off) == x
  {
    assert b[off] == b[off..off + 2][0] && b[off + 1] == b[off..off + 2][1];
  }

  lemma ReadLE24(b: seq<byte>, off: nat, x: u24)
    requires off + 3 <= |b| && b[off..off + 3] == LE24(x)
    ensures U24At(b, off) == x
  {
    assert b[off..off + 2] == b[off..off + 3][..2];
    ReadLE16(b, off, x % 0x1_0000);
    assert b[off + 2] == b[off..off + 3][2];
  }

  lemma ReadLE32(b: seq<byte>, off: nat, x: u32)
    requires off + 4 <= |b| && b[off..off + 4] == LE32(x)
    ensures U32At(b, off) == x
  {
    assert b[off..off + 2] == b[off..off + 4][..2];
    assert b[off + 2..off + 4] == b[off..off + 4][2..];
    ReadLE16(b, off, x % 0x1_0000);
    ReadLE16(b, off + 2, x / 0x1_0000);
  }

  lemma ReadLE64(b: seq<byte>, off: nat, x: u64)
    requires off + 8 <= |b| && b[off..off + 8] == LE64(x)
    ensures U64At(b, off) == x
  {
    assert b[off..off + 4] == b[off..off + 8][..4];
    assert b[off + 4..off + 8] == b[off..off + 8][4..];
    ReadLE32(b, off, x % TWO_32);
    ReadLE32(b, off + 4, x / TWO_32);
  }

  /** Bit `k` of `x`, the test `(x & (1 << k)) != 0`. */
  predicate BitSet(x: nat, k: nat)
  {
    (x / Pow2(k)) % 2 == 1
  }

  function Pow2(k: nat): (r: nat)
    ensures r >= 1
  {
    if k == 0 then 1 else 2 * Pow2(k - 1)
  }

  // ---------------------------------------------------------------------
  // NUL-terminated strings: a C string is what precedes the first NUL.

  function CStr(s: string): (r: string)
    ensures |r| <= |s| && r == s[..|r|]
    ensures '\0' !in r
    ensures |r| < |s| ==> s[|r|] == '\0'
  {
    if |s| == 0 || s[0] == '\0' then [] else [s[0]] + CStr(s[1..])
  }

  function CBytes(s: seq<byte>): (r: seq<byte>)
    ensures |r| <= |s| && r == s[..|r|]
    ensures 0 !in r
    ensures |r| < |s| ==> s[|r|] == 0
  {
    if |s| == 0 || s[0] == 0 then [] else [s[0]] + CBytes(s[1..])
  }

  /** A CHAR16 buffer read as a string: the code units before the first 0. */
  function CStr16(s: seq<u16>): (r: seq<u16>)
    requires 0 in s
    ensures |r| < |s| && r == s[..|r|] && s[|r|] == 0 && 0 !in r
  {
    if s[0] == 0 then [] else [s[0]] + CStr16(s[1..])
  }

  /** What Print shows of `text`: its buffer holds PcdUefiLibMaxPrintBufferSize
      (`maxChars`) characters, so longer text loses its end. */
  function Printed(text: string, maxChars: nat): (r: string)
    ensures |r| <= maxChars && |r| <= |text| && r == text[..|r|]
    ensures |r| == |text| || |r| == maxChars
  {
    if |text| <= maxChars then text else text[..maxChars]
  }

  lemma CStrOfTerminated(s: string, rest: string)
    requires '\0' !in s
    ensures CStr(s + ['\0'] + rest) == s
  {
    if |s| > 0 {
      assert (s + ['\0'] + rest)[1..] == s[1..] + ['\0'] + rest;
      CStrOfTerminated(s[1..], rest);
    }
  }

  lemma CBytesOfTerminated(s: seq<byte>, rest: seq<byte>)
    requires 0 !in s
    ensures CBytes(s + [0] + rest) == s
  {
    if |s| > 0 {
      assert (s + [0] + rest)[1..] == s[1..] + [0] + rest;
      CBytesOfTerminated(s[1..], rest);
    }
  }

  /** CHAR8 text widened to CHAR16 by "%a". */
  function Widen(s: seq<byte>): (r: string)
    ensures |r| == |s| && forall k :: 0 <= k < |s| ==> r[k] == s[k] as char
  {
    if s == [] then [] else Widen(s[..|s| - 1]) + [s[|s| - 1] as char]
  }

  /** What UnicodeSPrint keeps of `s` in a buffer of `bytes` bytes: at most
      bytes/2 - 1 characters, then the terminating NUL. */
  function SPrintKeep(s: string, bytes: nat): (r: string)
    requires bytes >= 2
    ensures |r| <= bytes / 2 - 1 && |r| <= |s| && r == s[..|r|]
    ensures |s| <= bytes / 2 - 1 ==> r == s
  {
    if |s| <= bytes / 2 - 1 then s else s[..bytes / 2 - 1]
  }

  // ---------------------------------------------------------------------
  // Hexadecimal and decimal text.

  predicate IsHexDigit(c: char)
  {
    ('0' <= c <= '9') || ('a' <= c <= 'f') || ('A' <= c <= 'F')
  }

  function HexValue(c: char): (d: nat)
    requires IsHexDigit(c)
    ensures d < 16
  {
    if '0' <= c <= '9' then c as int - '0' as int
    else if 'a' <= c <= 'f' then c as int - 'a' as int + 10
    else c as int - 'A' as int + 10
  }

  /** The lower-case digit "%x" prints for `d`. */
  function HexChar(d: nat): (c: char)
    requires d < 16
    ensures IsHexDigit(c) && HexValue(c) == d && !('A' <= c <= 'F')
  {
    if d < 10 then ('0' as int + d) as char else ('a' as int + d - 10) as char
  }

  /** The upper-case digit of the RADIX_HEX conversions of BaseLib: the
      "%x" digit, its letter raised. */
  function HexCharUpper(d: nat): (c: char)
    requires d < 16
    ensures IsHexDigit(c) && HexValue(c) == d && !('a' <= c <= 'f')
  {
    var lower := HexChar(d);
    if 'a' <= lower <= 'f' then (lower as int - 'a' as int + 'A' as int) as char else lower
  }

  /** `x` as exactly `width` lower-case hex digits, most significant first ("%0Nx" when x fits). */
  function HexFixed(x: nat, width: nat): (r: string)
    ensures |r| == width
    ensures forall i :: 0 <= i < |r| ==> IsHexDigit(r[i])
  {
    if width == 0 then [] else HexFixed(x / 16, width - 1) + [HexChar(x % 16)]
  }

  function HexFixedUpper(x: nat, width: nat): (r: string)
    ensures |r| == width
  {
    if width == 0 then [] else HexFixedUpper(x / 16, width - 1) + [HexCharUpper(x % 16)]
  }

  /** "%X": upper-case hex digits without leading zeros ("0" for zero). */
  function HexUpper(x: nat): (r: string)
    ensures 1 <= |r| && AllHexDigits(r)
    decreases x
  {
    if x < 16 then [HexCharUpper(x)] else HexUpper(x / 16) + [HexCharUpper(x % 16)]
  }

  lemma {:induction false} HexUpperRoundTrip(x: nat)
    ensures HexNumber(HexUpper(x)) == x
    decreases x
  {
    var r := HexUpper(x);
    if x >= 16 {
      assert r[..|r| - 1] == HexUpper(x / 16);
      HexUpperRoundTrip(x / 16);
    } else {
      assert r[..0] == [];
    }
  }

  /** "%x": lower-case hex digits without leading zeros ("0" for zero). */
  function HexLower(x: nat): (r: string)
    ensures 1 <= |r| && AllHexDigits(r)
    decreases x
  {
    if x < 16 then [HexChar(x)] else HexLower(x / 16) + [HexChar(x % 16)]
  }

  lemma {:induction false} HexLowerRoundTrip(x: nat)
    ensures HexNumber(HexLower(x)) == x
    decreases x
  {
    var r := HexLower(x);
    if x >= 16 {
      assert r[..|r| - 1] == HexLower(x / 16);
      HexLowerRoundTrip(x / 16);
    } else {
      assert r[..0] == [];
    }
  }

  /** The value of a run of hex digits. */
  function HexNumber(s: string): nat
    requires forall i :: 0 <= i < |s| ==> IsHexDigit(s[i])
  {
    if |s| == 0 then 0 else 16 * HexNumber(s[..|s| - 1]) + HexValue(s[|s| - 1])
  }

  lemma {:induction false} HexFixedRoundTrip(x: nat, width: nat)
    requires x < Pow16(width)
    ensures HexNumber(HexFixed(x, width)) == x
  {
    if width > 0 {
      var r := HexFixed(x, width);
      assert r[..|r| - 1] == HexFixed(x / 16, width - 1);
      HexFixedRoundTrip(x / 16, width - 1);
    }
  }

  function Pow16(k: nat): (r: nat)
    ensures r >= 1
  {
    if k == 0 then 1 else 16 * Pow16(k - 1)
  }

  /** "%02x" of a byte. */
  function Hex2(b: byte): (r: string)
    ensures |r| == 2
  {
    HexFixed(b, 2)
  }

  /** The two digits of a byte read back to the byte. */
  lemma Hex2RoundTrip(b: byte)
    ensures HexNumber(Hex2(b)) == b
  {
    assert Pow16(2) == 256;
    HexFixedRoundTrip(b, 2);
  }

  /** `x` in decimal with no leading zeros ("0" for zero). */
  function DecText(x: nat): (r: string)
    ensures |r| >= 1
    ensures forall i :: 0 <= i < |r| ==> '0' <= r[i] <= '9'
    ensures |r| > 1 ==> r[0] != '0'
    decreases x
  {
    if x < 10 then [('0' as int + x) as char] else DecText(x / 10) + [('0' as int + x % 10) as char]
  }

  /** What "%d"/"%ld" prints for a signed value. */
  function SignedDecText(x: int): (r: string)
    ensures |r| >= 1
    ensures r[0] == '-' <==> x < 0
  {
    if x < 0 then "-" + DecText(-x) else DecText(x)
  }

  /** "%0Nd" of a non-negative value: zeros on the left up to `width`. */
  function PadDec(x: nat, width: nat): (r: string)
    ensures |r| >= width && (|DecText(x)| <= width ==> |r| == width)
    ensures |DecText(x)| >= width ==> r == DecText(x)
    ensures forall i :: 0 <= i < |r| ==> '0' <= r[i] <= '9'
  {
    var t := DecText(x);
    if |t| >= width then t else Zeros(width - |t|) + t
  }

  function Zeros(n: nat): (r: string)
    ensures |r| == n && forall i :: 0 <= i < n ==> r[i] == '0'
  {
    if n == 0 then [] else ['0'] + Zeros(n - 1)
  }

  /** The value of a string of decimal digits. */
  function DecNumber(s: string): nat
    requires forall i :: 0 <= i < |s| ==> '0' <= s[i] <= '9'
  {
    if |s| == 0 then 0 else 10 * DecNumber(s[..|s| - 1]) + (s[|s| - 1] as int - '0' as int)
  }

  lemma {:induction false} DecTextRoundTrip(x: nat)
    ensures DecNumber(DecText(x)) == x
    decreases x
  {
    if x >= 10 {
      var r := DecText(x);
      assert r[..|r| - 1] == DecText(x / 10);
      DecTextRoundTrip(x / 10);
    }
  }

  /** INT32 view of a UINT32 argument, what "%d" reads. */
  function AsInt32(x: u32): int
  {
    if x < 0x8000_0000 then x else x - TWO_32
  }

  /** "%d" of a UINTN: the low 32 bits read as a signed INT32. */
  function Dec32(x: nat): string
  {
    SignedDecText(AsInt32((x % TWO_32) as u32))
  }

  /** INT64 view of a UINT64 argument, what "%ld" reads. */
  function AsInt64(x: u64): int
  {
    if x < 0x8000_0000_0000_0000 then x else x - TWO_64
  }

  // ---------------------------------------------------------------------
  // StrHexToUint64 of BaseLib: blanks, leading zeros, an "x" only after a
  // zero, then hex digits up to the first other character; saturates at
  // MAX_UINT64 on overflow.

  function StrHexToUint64(s: string): u64
  {
    if |s| > 0 && (s[0] == ' ' || s[0] == '\t') then StrHexToUint64(s[1..]) else HexAfterBlanks(s)
  }

  function HexAfterBlanks(s: string): u64
  {
    var u := DropZeros(s);
    if |u| > 0 && (u[0] == 'x' || u[0] == 'X') then
      (if |u| == |s| then 0 else HexRun(u[1..], 0))
    else HexRun(u, 0)
  }

  function DropZeros(s: string): (r: string)
    ensures |r| <= |s|
  {
    if |s| > 0 && s[0] == '0' then DropZeros(s[1..]) else s
  }

  function HexRun(s: string, acc: u64): u64
  {
    if |s| == 0 || !IsHexDigit(s[0]) then acc
    else if acc > (MAX_U64 - HexValue(s[0])) / 16 then MAX_U64
    else HexRun(s[1..], acc * 16 + HexValue(s[0]))
  }

  predicate AllHexDigits(s: string)
  {
    forall i :: 0 <= i < |s| ==> IsHexDigit(s[i])
  }

  lemma {:induction false} HexNumberBound(t: string)
    requires AllHexDigits(t)
    ensures HexNumber(t) < Pow16(|t|)
  {
    if |t| > 0 {
      HexNumberBound(t[..|t| - 1]);
    }
  }

  lemma {:induction false} HexNumberCons(c: char, t: string)
    requires IsHexDigit(c) && AllHexDigits(t)
    ensures AllHexDigits([c] + t)
    ensures HexNumber([c] + t) == HexValue(c) * Pow16(|t|) + HexNumber(t)
    decreases |t|
  {
    var s := [c] + t;
    assert AllHexDigits(s) by {
      forall i | 0 <= i < |s| ensures IsHexDigit(s[i]) {
        if i > 0 { assert s[i] == t[i - 1]; }
      }
    }
    if |t| > 0 {
      var t' := t[..|t| - 1];
      assert s[..|s| - 1] == [c] + t';
      assert s[|s| - 1] == t[|t| - 1];
      HexNumberCons(c, t');
      var v, p, h, d := HexValue(c), Pow16(|t'|), HexNumber(t'), HexValue(t[|t| - 1]);
      ShiftDigit(v, p, h, d, HexNumber(s), HexNumber(t), Pow16(|t|));
    }
  }

  /** Appending a digit d multiplies by 16 and adds d on both sides. */
  lemma ShiftDigit(v: int, p: int, h: int, d: int, a: int, b: int, q: int)
    requires a == 16 * (v * p + h) + d && b == 16 * h + d && q == 16 * p
    ensures a == v * q + b
  {
  }

  /** HexRun accumulates left to right what HexNumber reads right to left. */
  lemma {:induction false} HexRunValue(t: string, acc: u64)
    requires AllHexDigits(t)
    requires acc * Pow16(|t|) + HexNumber(t) <= MAX_U64
    ensures HexRun(t, acc) == acc * Pow16(|t|) + HexNumber(t)
    decreases |t|
  {
    if |t| > 0 {
      var c, rest := t[0], t[1..];
      assert t == [c] + rest;
      assert AllHexDigits(rest) by {
        forall i | 0 <= i < |rest| ensures IsHexDigit(rest[i]) { assert rest[i] == t[i + 1]; }
      }
      HexNumberCons(c, rest);
      var p := Pow16(|rest|);
      var v := HexValue(c);
      var h := HexNumber(rest);
      assert Pow16(|t|) == 16 * p;
      RunStep(acc, v, p, h);
      assert !(acc > (MAX_U64 - v) / 16);
      HexRunValue(rest, acc * 16 + v);
    }
  }

  lemma RunStep(acc: nat, v: nat, p: nat, h: nat)
    requires p >= 1 && acc * (16 * p) + (v * p + h) <= MAX_U64
    ensures acc * 16 + v <= MAX_U64
    ensures (acc * 16 + v) * p + h == acc * (16 * p) + (v * p + h)
  {
    assert (acc * 16 + v) * p == acc * (16 * p) + v * p;
    assert (acc * 16 + v) * p >= acc * 16 + v;
  }

  lemma {:induction false} DropZerosValue(t: string)
    requires AllHexDigits(t)
    ensures AllHexDigits(DropZeros(t))
    ensures HexNumber(DropZeros(t)) == HexNumber(t)
    ensures |DropZeros(t)| > 0 ==> IsHexDigit(DropZeros(t)[0])
    decreases |t|
  {
    if |t| > 0 && t[0] == '0' {
      var rest := t[1..];
      assert t == ['0'] + rest;
      assert AllHexDigits(rest) by {
        forall i | 0 <= i < |rest| ensures IsHexDigit(rest[i]) { assert rest[i] == t[i + 1]; }
      }
      HexNumberCons('0', rest);
      DropZerosValue(rest);
    }
  }

  /** StrHexToUint64 of a run of hex digits small enough to fit is its value. */
  lemma StrHexOfDigits(t: string)
    requires AllHexDigits(t) && HexNumber(t) <= MAX_U64
    ensures StrHexToUint64(t) == HexNumber(t)
  {
    DropZerosValue(t);
    var u := DropZeros(t);
    HexRunValue(u, 0);
  }

  /** A one-character StrHexToUint64: the digit's value, or 0 for anything
      that is not a hex digit. */
  lemma NibbleOfChar(c: char)
    ensures StrHexToUint64([c]) == if IsHexDigit(c) then HexValue(c) else 0
  {
    if c == ' ' || c == '\t' {
      NibbleOfBlank(c);
    } else if c == '0' {
      NibbleOfZero();
    } else {
      NibbleOfOtherChar(c);
    }
  }

  lemma NibbleOfBlank(c: char)
    requires c == ' ' || c == '\t'
    ensures StrHexToUint64([c]) == 0
  {
    assert [c][1..] == [];
    assert DropZeros([]) == [];
  }

  lemma NibbleOfZero()
    ensures StrHexToUint64(['0']) == 0
  {
    assert ['0'][1..] == [];
    assert DropZeros(['0']) == [];
  }

  lemma NibbleOfOtherChar(c: char)
    requires c != '0' && c != ' ' && c != '\t'
    ensures StrHexToUint64([c]) == if IsHexDigit(c) then HexValue(c) else 0
  {
    var s := [c];
    assert s[1..] == [];
    assert DropZeros(s) == s;
    if IsHexDigit(c) {
      assert HexRun(s[1..], HexValue(c)) == HexValue(c);
    }
  }

  // ---------------------------------------------------------------------
  // StrStr, EFI_GUID and CHAR16 text

  /** `t` occurs in `s` at position `i`. */
  predicate MatchAt(s: string, t: string, i: nat)
  {
    i + |t| <= |s| && s[i..i + |t|] == t
  }

  lemma MatchShift(s: string, t: string, i: nat)
    requires |s| > 0
    ensures MatchAt(s, t, i + 1) <==> MatchAt(s[1..], t, i)
  {
    if i + 1 + |t| <= |s| {
      assert s[i + 1..i + 1 + |t|] == s[1..][i..i + |t|];
    }
  }

  /** StrStr: the position of the first occurrence of `t` in `s`; an empty
      `t` is found at 0. */
  function StrStr(s: string, t: string): (r: Option<nat>)
    ensures r.Some? ==> MatchAt(s, t, r.value) && forall i :: 0 <= i < r.value ==> !MatchAt(s, t, i)
    ensures r.None? ==> forall i: nat :: !MatchAt(s, t, i)
  {
    if |s| < |t| then None
    else if s[..|t|] == t then Some(0)
    else
      match StrStr(s[1..], t)
      case None =>
        assert forall i: nat :: !MatchAt(s, t, i) by {
          forall i: nat ensures !MatchAt(s, t, i) {
            if i > 0 { MatchShift(s, t, i - 1); }
          }
        }
        None
      case Some(k) =>
        MatchShift(s, t, k);
        assert forall i :: 0 <= i < k + 1 ==> !MatchAt(s, t, i) by {
          forall i | 0 <= i < k + 1 ensures !MatchAt(s, t, i) {
            if i > 0 { MatchShift(s, t, i - 1); }
          }
        }
        Some(k + 1)
  }

  predicate Contains(s: string, t: string)
  {
    StrStr(s, t).Some?
  }

  /** A keyword holding a character the piece lacks does not occur in it. */
  lemma Absent(s: string, t: string, j: nat)
    requires j < |t| && t[j] !in s
    ensures !Contains(s, t)
  {
  }

  /** A piece that starts with a keyword contains it. */
  lemma Leading(k: string, h: string)
    ensures Contains(k + h, k)
  {
    assert MatchAt(k + h, k, 0);
  }

  /** A character that is no hex digit occurs in a keyword followed by hex
      digits only if it occurs in the keyword. */
  lemma KeywordLetters(k: string, h: string, c: char)
    requires AllHexDigits(h) && !IsHexDigit(c) && c !in k
    ensures c !in k + h
  {
    assert forall i :: 0 <= i < |h| ==> IsHexDigit(h[i]);
  }

  /** "%02x" of every byte of a buffer. */
  function HexText(b: seq<byte>): (r: string)
    ensures |r| == 2 * |b|
  {
    if b == [] then [] else Hex2(b[0]) + HexText(b[1..])
  }

  lemma {:induction false} HexTextPair(b: seq<byte>, k: nat)
    requires k < |b|
    ensures HexText(b)[2 * k..2 * k + 2] == Hex2(b[k])
  {
    if k > 0 {
      HexTextPair(b[1..], k - 1);
      assert HexText(b)[2 * k..2 * k + 2] == HexText(b[1..])[2 * (k - 1)..2 * (k - 1) + 2];
    }
  }

  lemma {:induction false} HexTextAt(b: seq<byte>, k: nat)
    requires k < |b|
    ensures HexText(b)[2 * k] == HexChar(b[k] / 16) && HexText(b)[2 * k + 1] == HexChar(b[k] % 16)
  {
    assert HexFixed(b[0] / 16, 1) == [HexChar(b[0] / 16 % 16)];
    assert Hex2(b[0]) == [HexChar(b[0] / 16 % 16), HexChar(b[0] % 16)];
    if k > 0 {
      HexTextAt(b[1..], k - 1);
    }
  }

  /** An EFI_GUID as its sixteen bytes in memory order. */
  type Guid = b: seq<byte> | |b| == 16 witness [0, 0, 0, 0, 0, 0, 0, 0, 0, 0, 0, 0, 0, 0, 0, 0]

  /** "%g": Data1, Data2 and Data3 read little-endian, then the eight bytes
      of Data4, all in lowercase hex: 8-4-4-4-12 digits. */
  function GuidText(g: Guid): string
  {
    GuidHead(g) + GuidTail(g)
  }

  function GuidHead(g: Guid): string
  {
    HexFixed(U32At(g, 0), 8) + "-" + HexFixed(U16At(g, 4), 4) + "-" + HexFixed(U16At(g, 6), 4) + "-"
  }

  function GuidTail(g: Guid): string
  {
    Hex2(g[8]) + Hex2(g[9]) + "-" + HexText(g[10..])
  }

  /** Where the two digits of Data4 byte k (8 <= k < 16) appear in "%g". */
  function Data4Pos(k: nat): nat
  {
    if k < 10 then 19 + 2 * (k - 8) else 20 + 2 * (k - 8)
  }

  lemma GuidHeadFields(g: Guid)
    ensures var r := GuidHead(g);
      |r| == 19 && r[8] == '-' && r[13] == '-' && r[18] == '-'
      && AllHexDigits(r[..8]) && HexNumber(r[..8]) == U32At(g, 0)
      && AllHexDigits(r[9..13]) && HexNumber(r[9..13]) == U16At(g, 4)
      && AllHexDigits(r[14..18]) && HexNumber(r[14..18]) == U16At(g, 6)
  {
    var r := GuidHead(g);
    assert Pow16(8) == 0x1_0000_0000 && Pow16(4) == 0x1_0000;
    HexFixedRoundTrip(U32At(g, 0), 8);
    HexFixedRoundTrip(U16At(g, 4), 4);
    HexFixedRoundTrip(U16At(g, 6), 4);
    assert r[..8] == HexFixed(U32At(g, 0), 8);
    assert r[9..13] == HexFixed(U16At(g, 4), 4);
    assert r[14..18] == HexFixed(U16At(g, 6), 4);
  }

  lemma GuidTailFields(g: Guid, k: nat)
    requires 8 <= k < 16
    ensures |GuidTail(g)| == 17 && GuidTail(g)[4] == '-'
    ensures GuidTail(g)[Data4Pos(k) - 19..Data4Pos(k) - 17] == Hex2(g[k])
  {
    var r := GuidTail(g);
    var rest := HexText(g[10..]);
    if k >= 10 {
      HexTextPair(g[10..], k - 10);
      assert r[5..] == rest;
      assert r[Data4Pos(k) - 19..Data4Pos(k) - 17] == rest[2 * (k - 10)..2 * (k - 10) + 2];
    }
  }

  /** "%g" has its dashes at 8, 13, 18 and 23, and every field reads back to
      the bytes it came from. */
  lemma GuidTextFields(g: Guid, k: nat)
    requires 8 <= k < 16
    ensures var r := GuidText(g);
      |r| == 36 && r[8] == '-' && r[13] == '-' && r[18] == '-' && r[23] == '-'
      && AllHexDigits(r[..8]) && HexNumber(r[..8]) == U32At(g, 0)
      && AllHexDigits(r[9..13]) && HexNumber(r[9..13]) == U16At(g, 4)
      && AllHexDigits(r[14..18]) && HexNumber(r[14..18]) == U16At(g, 6)
      && r[Data4Pos(k)..Data4Pos(k) + 2] == Hex2(g[k]) && HexNumber(Hex2(g[k])) == g[k]
  {
    var h, t := GuidHead(g), GuidTail(g);
    GuidHeadFields(g);
    GuidTailFields(g, k);
    ConcatSlice(h, t, 0, 8);
    ConcatSlice(h, t, 9, 13);
    ConcatSlice(h, t, 14, 18);
    ConcatSlice(h, t, Data4Pos(k), Data4Pos(k) + 2);
    Hex2RoundTrip(g[k]);
  }

  /** A slice of `a + b` that lies within one of the two parts. */
  lemma ConcatSlice<T>(a: seq<T>, b: seq<T>, i: nat, j: nat)
    requires i <= j <= |a| + |b|
    ensures j <= |a| ==> (a + b)[i..j] == a[i..j]
    ensures |a| <= i ==> (a + b)[i..j] == b[i - |a|..j - |a|]
  {
  }

  /** CHAR16 code units as little-endian bytes. */
  function Ucs2Bytes(s: seq<u16>): (r: seq<byte>)
    ensures |r| == 2 * |s|
  {
    if s == [] then [] else LE16(s[0]) + Ucs2Bytes(s[1..])
  }

  /** The CHAR16 code units of `b`, two bytes each, little-endian. */
  function Units(b: seq<byte>): (r: seq<u16>)
    ensures |r| == |b| / 2
    decreases |b|
  {
    if |b| < 2 then [] else [U16At(b, 0)] + Units(b[2..])
  }

  lemma {:induction false} UnitAt(b: seq<byte>, k: nat)
    requires k < |b| / 2
    ensures Units(b)[k] == U16At(b, 2 * k)
    decreases k
  {
    if k > 0 {
      UnitAt(b[2..], k - 1);
    }
  }

  /** Decoding the bytes of CHAR16 code units gives the code units back. */
  lemma {:induction false} Ucs2RoundTrip(s: seq<u16>)
    ensures Units(Ucs2Bytes(s)) == s
  {
    if s != [] {
      var b := Ucs2Bytes(s);
      assert b[..2] == LE16(s[0]);
      ReadLE16(b, 0, s[0]);
      assert b[2..] == Ucs2Bytes(s[1..]);
      Ucs2RoundTrip(s[1..]);
    }
  }

  /** A CHAR16 shown as a character; the surrogate code units, which are
      not characters on their own, are shown as U+FFFD. */
  function Char16(c: u16): (r: char)
    ensures (c < 0xD800 || 0xE000 <= c) ==> r as int == c
  {
    if 0xD800 <= c < 0xE000 then '\U{FFFD}' else c as char
  }
}
