/**
 * Decoding of the hex payloads of an UEFI configuration string
 * (GUID=, NAME=, PATH=, VALUE=), as HIIConfig and HIIKeyword do it: one
 * hex digit at a time through StrHexToUint64, two digits per byte.
 */
module CfgDecode {
  import opened Efi

  /** One digit as the decoders read it; anything that is not a hex digit
      reads as 0. */
  function Nibble(c: char): (d: byte)
    ensures d < 16
  {
    if IsHexDigit(c) then HexValue(c) else 0
  }

  /** The decoders' digit step, `(UINT8)StrHexToUint64(TempStr)` with TempStr
      holding the one character. */
  method DigitOf(c: char) returns (d: byte)
    ensures d == Nibble(c)
  {
    NibbleOfChar(c);
    d := StrHexToUint64([c]) % 0x100;
  }

  function PairByte(hi: char, lo: char): byte
  {
    16 * Nibble(hi) as int + Nibble(lo) as int
  }

  /** What ByteCfgStringToBuffer yields: byte k holds digits 2k (high) and
      2k+1 (low); an odd last digit is a byte of its own. */
  function HexBytes(s: string): (r: seq<byte>)
    ensures |r| == (|s| + 1) / 2
  {
    seq((|s| + 1) / 2, k requires 0 <= k < (|s| + 1) / 2 =>
      if 2 * k + 1 < |s| then PairByte(s[2 * k], s[2 * k + 1]) else Nibble(s[2 * k]))
  }

  /** What ByteCfgStringToBufferReversed yields: the digits are read from
      the right, so byte 0 holds the two last digits. */
  function HexBytesReversed(s: string): (r: seq<byte>)
    ensures |r| == (|s| + 1) / 2
  {
    seq((|s| + 1) / 2, k requires 0 <= k < (|s| + 1) / 2 =>
      if 2 * k + 1 < |s| then PairByte(s[|s| - 2 - 2 * k], s[|s| - 1 - 2 * k]) else Nibble(s[0]))
  }

  method ByteCfgStringToBuffer(s: string) returns (buffer: array<byte>)
    ensures buffer[..] == HexBytes(s)
  {
    buffer := new byte[(|s| + 1) / 2](_ => 0);
    var index := 0;
    while index < |s|
      invariant 0 <= index <= |s|
      invariant buffer.Length == (|s| + 1) / 2
      invariant DecodedSoFar(s, buffer[..], index)
    {
      DecodeDigit(s, buffer, index);
      index := index + 1;
    }
  }

  /** After `index` digits: the finished bytes hold their pairs, and an
      odd last digit waits in the next byte. */
  ghost predicate DecodedSoFar(s: string, b: seq<byte>, index: nat)
    requires index <= |s| && |b| == (|s| + 1) / 2
  {
    (forall k :: 0 <= k < index / 2 ==> b[k] == PairByte(s[2 * k], s[2 * k + 1]))
    && (index % 2 == 1 ==> b[index / 2] == Nibble(s[index - 1]))
  }

  /** One iteration of the decoder: digit `index` goes into byte index/2. */
  method DecodeDigit(s: string, buffer: array<byte>, index: nat)
    requires index < |s| && buffer.Length == (|s| + 1) / 2
    requires DecodedSoFar(s, buffer[..], index)
    modifies buffer
    ensures DecodedSoFar(s, buffer[..], index + 1)
  {
    var digit := DigitOf(s[index]);
    var j := index / 2;
    if index % 2 == 0 {
      buffer[j] := digit;
    } else {
      buffer[j] := (buffer[j] as int * 16 + digit as int) % 0x100;
      assert buffer[j] == PairByte(s[2 * j], s[2 * j + 1]);
    }
  }

  method ByteCfgStringToBufferReversed(s: string) returns (buffer: array<byte>)
    ensures buffer[..] == HexBytesReversed(s)
  {
    var n := |s|;
    buffer := new byte[(n + 1) / 2](_ => 0);
    var index: int := n - 1;
    while index >= 0
      invariant -1 <= index < n
      invariant buffer.Length == (n + 1) / 2
      invariant ReversedSoFar(s, buffer[..], n - 1 - index)
    {
      ReversedDigit(s, buffer, n - 1 - index);
      index := index - 1;
    }
  }

  /** After `done` digits read from the right: the finished bytes hold
      their pairs, and an odd last digit waits in the next byte. */
  ghost predicate ReversedSoFar(s: string, b: seq<byte>, done: nat)
    requires done <= |s| && |b| == (|s| + 1) / 2
  {
    var n := |s|;
    (forall k :: 0 <= k < done / 2 ==> b[k] == PairByte(s[n - 2 - 2 * k], s[n - 1 - 2 * k]))
    && (done % 2 == 1 ==> b[done / 2] == Nibble(s[n - done]))
  }

  /** One iteration of the reversed decoder: digit n-1-done goes into byte done/2. */
  method ReversedDigit(s: string, buffer: array<byte>, done: nat)
    requires done < |s| && buffer.Length == (|s| + 1) / 2
    requires ReversedSoFar(s, buffer[..], done)
    modifies buffer
    ensures ReversedSoFar(s, buffer[..], done + 1)
  {
    var n := |s|;
    var digit := DigitOf(s[n - 1 - done]);
    var j := done / 2;
    if done % 2 == 0 {
      buffer[j] := digit;
    } else {
      buffer[j] := (digit as int * 16 + buffer[j] as int) % 0x100;
      assert buffer[j] == PairByte(s[n - 2 - 2 * j], s[n - 1 - 2 * j]);
    }
  }

  /** GuidFromCfgString: the payload is decoded in any case, and accepted
      exactly when it decodes to the 16 bytes of an EFI_GUID. */
  method GuidFromCfgString(s: string) returns (status: Status, guid: array<byte>)
    ensures guid[..] == HexBytes(s)
    ensures status == Success <==> |s| == 31 || |s| == 32
    ensures status != Success ==> status == NotFound
  {
    guid := ByteCfgStringToBuffer(s);
    if guid.Length != 16 {
      return NotFound, guid;
    }
    return Success, guid;
  }

  // ---------------------------------------------------------------------
  // The inverse direction: HexText, "%02x" of every byte.

  /** Decoding the "%02x" text of a buffer gives the buffer back. */
  lemma HexBytesOfHexText(b: seq<byte>)
    ensures HexBytes(HexText(b)) == b
  {
    var s := HexText(b);
    forall k | 0 <= k < |b|
      ensures HexBytes(s)[k] == b[k]
    {
      HexTextAt(b, k);
    }
  }

  /** The bytes of `b` in the opposite order. */
  function Reverse(b: seq<byte>): (r: seq<byte>)
    ensures |r| == |b|
  {
    seq(|b|, k requires 0 <= k < |b| => b[|b| - 1 - k])
  }

  /** For an even number of digits the reversed decoder gives exactly the
      forward decoder's bytes back to front. */
  lemma ReversedIsReverse(s: string)
    requires |s| % 2 == 0
    ensures HexBytesReversed(s) == Reverse(HexBytes(s))
  {
    var r, f := HexBytesReversed(s), Reverse(HexBytes(s));
    forall k | 0 <= k < |r|
      ensures r[k] == f[k]
    {
      var j := |s| / 2 - 1 - k;
      assert 2 * j == |s| - 2 - 2 * k;
    }
  }

  // ---------------------------------------------------------------------
  // A VALUE= payload is a number written most significant digit first;
  // the reversed decoder stores it little-endian.

  function LENumber(b: seq<byte>): nat
  {
    if b == [] then 0 else b[0] + 256 * LENumber(b[1..])
  }

  lemma {:induction false} ReversedIsLittleEndian(s: string)
    requires forall i :: 0 <= i < |s| ==> IsHexDigit(s[i])
    ensures LENumber(HexBytesReversed(s)) == HexNumber(s)
    decreases |s|
  {
    var n := |s|;
    if n == 1 {
      assert s[..0] == [];
    } else if n >= 2 {
      var r := HexBytesReversed(s);
      var t := s[..n - 2];
      ReversedDropsLastPair(s);
      ReversedIsLittleEndian(t);
      HexNumberLastPair(s);
    }
  }

  lemma ReversedDropsLastPair(s: string)
    requires |s| >= 2
    ensures HexBytesReversed(s)[0] == PairByte(s[|s| - 2], s[|s| - 1])
    ensures HexBytesReversed(s)[1..] == HexBytesReversed(s[..|s| - 2])
  {
    var n := |s|;
    var r := HexBytesReversed(s);
    var t := s[..n - 2];
    forall k | 0 <= k < |r| - 1
      ensures r[1..][k] == HexBytesReversed(t)[k]
    {
      if 2 * k + 1 < |t| {
        assert s[n - 2 - 2 * (k + 1)] == t[|t| - 2 - 2 * k];
        assert s[n - 1 - 2 * (k + 1)] == t[|t| - 1 - 2 * k];
      } else {
        assert s[0] == t[0];
      }
    }
  }

  lemma HexNumberLastPair(s: string)
    requires |s| >= 2 && forall i :: 0 <= i < |s| ==> IsHexDigit(s[i])
    ensures HexNumber(s) == 256 * HexNumber(s[..|s| - 2]) + PairByte(s[|s| - 2], s[|s| - 1])
  {
    var n := |s|;
    assert s[..n - 1][..n - 2] == s[..n - 2];
    assert s[..n - 1][n - 2] == s[n - 2];
  }

  // ---------------------------------------------------------------------
  // NameFromCfgString: every four digits give one CHAR16 of the name.

  /** The CHAR16 that NameFromCfgString stores at `k`: the hex value of the
      (at most) four digits from 4k on. */
  function NameChar(s: string, k: nat): u16
    requires 4 * k < |s|
  {
    StrHexToUint64(s[4 * k..if 4 * k + 4 <= |s| then 4 * k + 4 else |s|]) % 0x1_0000
  }

  /** How many CHAR16 StrnCpyS stores (characters plus the NUL) when asked to
      copy at most `length` characters of a `srcLen`-character string into a
      destination it is told holds `destMax` characters; None when one of
      its runtime constraints rejects the call. */
  function StrnCpySWrites(destMax: nat, srcLen: nat, length: nat): (w: Option<nat>)
    ensures w.Some? ==> w.value <= length + 1 && w.value <= srcLen + 1
  {
    var sourceLen := Min(srcLen, Min(destMax, length));
    if destMax == 0 then None
    else if length >= destMax && !(destMax > sourceLen) then None
    else Some(sourceLen + 1)
  }

  function Min(a: nat, b: nat): nat { if a <= b then a else b }

  /** StrnCpyS copying into a CHAR16 array: the characters and the NUL land in
      `dest`. */
  method StrnCpyS(dest: array<char>, destMax: nat, src: CString, length: nat) returns (status: Status)
    requires StrnCpySWrites(destMax, |src|, length).Some? ==>
      StrnCpySWrites(destMax, |src|, length).value <= dest.Length
    modifies dest
    ensures StrnCpySWrites(destMax, |src|, length).None? ==> status == BufferTooSmall && dest[..] == old(dest[..])
    ensures StrnCpySWrites(destMax, |src|, length).Some? ==>
      var n := StrnCpySWrites(destMax, |src|, length).value - 1;
      status == Success && dest[..n] == src[..n] && dest[n] == '\0' && dest[n + 1..] == old(dest[n + 1..])
  {
    var w := StrnCpySWrites(destMax, |src|, length);
    if w.None? {
      return BufferTooSmall;
    }
    var n := w.value - 1;
    var i := 0;
    while i < n
      invariant 0 <= i <= n
      invariant dest[..i] == src[..i] && dest[i..] == old(dest[i..])
    {
      dest[i] := src[i];
      i := i + 1;
      assert dest[..i] == dest[..i - 1] + [src[i - 1]];
      assert src[..i] == src[..i - 1] + [src[i - 1]];
    }
    dest[n] := '\0';
    status := Success;
  }

  /** The source's TempStr holds 4 CHAR16 but StrnCpyS is told sizeof(TempStr),
      8, so four remaining digits make it store 5 CHAR16. */
  lemma NameTempStrOverrun()
    ensures StrnCpySWrites(8, 4, 4) == Some(5) && 5 > 4
  {
  }

  /** With room for four digits and the NUL (and that capacity passed as the
      limit), the copy never stores more than the buffer holds. */
  lemma NameTempStrFits(srcLen: nat)
    ensures StrnCpySWrites(5, srcLen, 4).Some?
    ensures StrnCpySWrites(5, srcLen, 4).value <= 5
    ensures StrnCpySWrites(5, srcLen, 4).value - 1 == Min(srcLen, 4)
  {
  }

  lemma NameCharOf(s: string, k: nat, digits: string)
    requires 4 * k < |s| && digits == s[4 * k..if 4 * k + 4 <= |s| then 4 * k + 4 else |s|]
    ensures NameChar(s, k) == StrHexToUint64(digits) % 0x1_0000
  {
  }

  /** The NAME= text of a name as a <ConfigHdr> carries it: "%04x" of every
      CHAR16. */
  function NameText(name: seq<u16>): (r: string)
    ensures |r| == 4 * |name|
  {
    if name == [] then [] else HexFixed(name[0], 4) + NameText(name[1..])
  }

  lemma {:induction false} NameTextGroup(name: seq<u16>, k: nat)
    requires k < |name|
    ensures NameText(name)[4 * k..4 * k + 4] == HexFixed(name[k], 4)
  {
    if k > 0 {
      NameTextGroup(name[1..], k - 1);
      assert NameText(name)[4 * k..4 * k + 4] == NameText(name[1..])[4 * (k - 1)..4 * (k - 1) + 4];
    }
  }

  /** Decoding the NAME= text of a name gives the name back. */
  lemma NameRoundTrip(name: seq<u16>)
    ensures NameChars(NameText(name)) == name
  {
    forall k | 0 <= k < |name|
      ensures NameChars(NameText(name))[k] == name[k]
    {
      NameRoundTripAt(name, k);
    }
  }

  /** A group of digits worth less than 0x10000 converts to its value. */
  lemma GroupValue(t: string, x: u16)
    requires AllHexDigits(t) && HexNumber(t) == x
    ensures StrHexToUint64(t) % 0x1_0000 == x
  {
    StrHexOfDigits(t);
  }

  lemma NameRoundTripAt(name: seq<u16>, k: nat)
    requires k < |name|
    ensures NameChar(NameText(name), k) == name[k]
  {
    var s := NameText(name);
    NameTextGroup(name, k);
    var t := HexFixed(name[k], 4);
    assert Pow16(4) == 0x1_0000;
    HexFixedRoundTrip(name[k], 4);
    GroupValue(t, name[k]);
    assert 4 * k + 4 <= |s|;
    NameCharOf(s, k, t);
  }

  /** The name NameFromCfgString decodes, one CHAR16 per group of four digits. */
  function NameChars(s: string): (r: seq<u16>)
    ensures |r| == (|s| + 3) / 4
  {
    seq((|s| + 3) / 4, k requires 0 <= k < (|s| + 3) / 4 => NameChar(s, k))
  }

  /** The buffer NameFromCfgString fills: one CHAR16 per digit of the
      payload, the decoded characters first and zeros after them. */
  function NameBuffer(s: string): (r: seq<u16>)
    ensures |r| == |s| && r[..(|s| + 3) / 4] == NameChars(s)
    ensures forall k :: (|s| + 3) / 4 <= k < |s| ==> r[k] == 0
  {
    NameChars(s) + seq(|s| - (|s| + 3) / 4, _ => 0)
  }

  /** A payload of two digits or more leaves a zero at the end of the
      buffer, so the name printed with "%s" ends inside it; an empty payload
      leaves no buffer to end in. */
  lemma NameBufferTerminated(s: string)
    ensures |s| >= 2 ==> 0 in NameBuffer(s)
    ensures |s| == 0 ==> 0 !in NameBuffer(s)
  {
    if |s| >= 2 {
      assert NameBuffer(s)[|s| - 1] == 0;
    }
  }

  /** NameFromCfgString with a five-character temporary string. */
  method NameFromCfgString(s: CString) returns (name: array<u16>)
    ensures name[..] == NameBuffer(s)
  {
    name := new u16[|s|](_ => 0);
    var temp := new char[5](_ => '\0');
    var i := 0;
    ghost var k := 0;
    while i < |s|
      invariant i == 4 * k && k <= (|s| + 3) / 4
      invariant name[..k] == NameChars(s)[..k]
      invariant forall j :: k <= j < |s| ==> name[j] == 0
    {
      var c := NameDigits(temp, s, i, k);
      assert i / 4 == k;
      name[i / 4] := c;
      assert name[..k + 1] == name[..k] + [c];
      i, k := i + 4, k + 1;
    }
    assert k == (|s| + 3) / 4;
    assert name[..] == NameBuffer(s) by {
      forall j | 0 <= j < |s| ensures name[j] == NameBuffer(s)[j] {
        if j < k {
          assert name[j] == name[..k][j];
          assert NameBuffer(s)[j] == NameBuffer(s)[..k][j];
        }
      }
    }
  }

  /** One step of NameFromCfgString: copy up to four digits from `i` (the
      `k`-th group) into the temporary string and convert them. */
  method NameDigits(temp: array<char>, s: CString, i: nat, ghost k: nat) returns (c: u16)
    requires temp.Length == 5 && i < |s| && i == 4 * k
    modifies temp
    ensures c == NameChar(s, k)
  {
    var rest: CString := s[i..];
    NameTempStrFits(|rest|);
    var _ := StrnCpyS(temp, 5, rest, 4);
    var m := Min(|rest|, 4);
    assert temp[..m] == s[i..i + m];
    CStrOfTerminated(temp[..m], temp[m + 1..]);
    assert temp[..] == temp[..m] + ['\0'] + temp[m + 1..];
    var digits := CStr(temp[..]);
    assert digits == s[i..i + m];
    NameCharOf(s, k, digits);
    c := StrHexToUint64(digits) % 0x1_0000;
  }

  // ---------------------------------------------------------------------
  // DevicePathFromCfgString: walk the decoded nodes up to the end node.

  predicate IsEndNode(b: seq<byte>, p: nat)
    requires p + 2 <= |b|
  {
    b[p] == 0x7F && b[p + 1] == 0xFF
  }

  function NodeLength(b: seq<byte>, p: nat): u16
    requires p + 4 <= |b|
  {
    U16At(b, p + 2)
  }

  /** Every header field the walk from `p` looks at lies inside the buffer. */
  predicate PathReadable(b: seq<byte>, p: nat)
    decreases |b| - p
  {
    p + 2 <= |b| &&
    (IsEndNode(b, p) || b[p] == 0 || b[p + 1] == 0 ||
     (p + 4 <= |b| && (NodeLength(b, p) < 4 || PathReadable(b, p + NodeLength(b, p)))))
  }

  /** The walk's verdict: NOT_FOUND at the first node with Type 0, SubType 0
      or a length below the 4-byte header, SUCCESS at the end node. */
  function PathStatus(b: seq<byte>, p: nat): Status
    requires PathReadable(b, p)
    decreases |b| - p
  {
    if IsEndNode(b, p) then Success
    else if b[p] == 0 || b[p + 1] == 0 || NodeLength(b, p) < 4 then NotFound
    else PathStatus(b, p + NodeLength(b, p))
  }

  method DevicePathFromCfgString(s: string) returns (status: Status, path: array<byte>)
    requires PathReadable(HexBytes(s), 0)
    ensures path[..] == HexBytes(s)
    ensures status == PathStatus(HexBytes(s), 0)
  {
    path := ByteCfgStringToBuffer(s);
    status := WalkPath(path);
  }

  /** The node walk of DevicePathFromCfgString over the decoded buffer. */
  method WalkPath(path: array<byte>) returns (status: Status)
    requires PathReadable(path[..], 0)
    ensures status == PathStatus(path[..], 0)
  {
    ghost var b := path[..];
    var p := 0;
    PathTop(b, p);
    while !(path[p] == 0x7F && path[p + 1] == 0xFF)
      invariant PathReadable(b, p) && PathStatus(b, p) == PathStatus(b, 0)
      invariant path[..] == b
      decreases |b| - p
    {
      PathStep(b, p);
      if path[p] == 0 || path[p + 1] == 0 {
        return NotFound;
      }
      var length := path[p + 2] as int + 0x100 * path[p + 3] as int;
      if length < 4 {
        return NotFound;
      }
      p := p + length;
      PathTop(b, p);
    }
    PathTop(b, p);
    status := Success;
  }

  /** The walk can read a node's Type and SubType, and ends with SUCCESS at
      the end node. */
  lemma PathTop(b: seq<byte>, p: nat)
    requires PathReadable(b, p)
    ensures p + 2 <= |b| && (IsEndNode(b, p) ==> PathStatus(b, p) == Success)
  {
  }

  /** At any other node a zero Type or SubType ends the walk with NOT_FOUND;
      otherwise the Length field is readable, a Length below 4 ends it with
      NOT_FOUND too, and the walk goes on from the next node. */
  lemma PathStep(b: seq<byte>, p: nat)
    requires PathReadable(b, p) && !IsEndNode(b, p)
    ensures b[p] == 0 || b[p + 1] == 0 ==> PathStatus(b, p) == NotFound
    ensures b[p] != 0 && b[p + 1] != 0 ==>
      p + 4 <= |b| && NodeLength(b, p) as int == b[p + 2] as int + 0x100 * b[p + 3] as int
      && (NodeLength(b, p) < 4 ==> PathStatus(b, p) == NotFound)
      && (NodeLength(b, p) >= 4 ==>
            PathReadable(b, p + NodeLength(b, p)) && PathStatus(b, p + NodeLength(b, p)) == PathStatus(b, p))
  {
  }

  /** A device path node as firmware builds one: Type, SubType, data; the
      Length field is written from the data. */
  datatype PathNode = PathNode(kind: byte, subKind: byte, data: seq<byte>)

  predicate NodeFits(n: PathNode)
  {
    |n.data| + 4 < 0x1_0000
  }

  function EncodeNode(n: PathNode): (r: seq<byte>)
    requires NodeFits(n)
    ensures |r| == |n.data| + 4
  {
    [n.kind, n.subKind] + LE16(|n.data| + 4) + n.data
  }

  /** A device path: the nodes, then End Entire (7F FF 04 00). */
  function EncodePath(ns: seq<PathNode>): seq<byte>
    requires forall i :: 0 <= i < |ns| ==> NodeFits(ns[i])
  {
    if ns == [] then [0x7F, 0xFF, 4, 0] else EncodeNode(ns[0]) + EncodePath(ns[1..])
  }

  lemma {:induction false} PathShift(pre: seq<byte>, b: seq<byte>, p: nat)
    ensures PathReadable(pre + b, |pre| + p) == PathReadable(b, p)
    ensures PathReadable(b, p) ==> PathStatus(pre + b, |pre| + p) == PathStatus(b, p)
    decreases |b| - p
  {
    var c := pre + b;
    var q := |pre| + p;
    if p + 4 <= |b| {
      assert c[q..q + 4] == b[p..p + 4];
      assert NodeLength(c, q) == NodeLength(b, p);
      if !IsEndNode(b, p) && b[p] != 0 && b[p + 1] != 0 && NodeLength(b, p) >= 4 {
        PathShift(pre, b, p + NodeLength(b, p));
      }
    }
  }

  /** The walk accepts a well-built path exactly when none of its nodes has
      a zero Type or SubType. */
  lemma {:induction false} EncodedPathStatus(ns: seq<PathNode>)
    requires forall i :: 0 <= i < |ns| ==> NodeFits(ns[i]) && !(ns[i].kind == 0x7F && ns[i].subKind == 0xFF)
    ensures PathReadable(EncodePath(ns), 0)
    ensures PathStatus(EncodePath(ns), 0) == Success <==>
      forall i :: 0 <= i < |ns| ==> ns[i].kind != 0 && ns[i].subKind != 0
  {
    if ns != [] {
      var head := EncodeNode(ns[0]);
      var tail := EncodePath(ns[1..]);
      EncodedPathStatus(ns[1..]);
      PathShift(head, tail, 0);
      var b := head + tail;
      assert b[..4] == head[..4];
      assert b[2..4] == LE16(|ns[0].data| + 4);
      ReadLE16(b, 2, |ns[0].data| + 4);
      assert NodeLength(b, 0) == |head|;
      if ns[0].kind != 0 && ns[0].subKind != 0 {
        assert forall i :: 1 <= i < |ns| ==> ns[1..][i - 1] == ns[i];
      }
    }
  }
}
