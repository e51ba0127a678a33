/**
 * Byte buffers written in place: CopyMem and the field stores of the
 * serialisers, and how consecutive writes compose.
 */
module Buffers {
  import opened Efi

  /** `s` with the bytes from `at` replaced by `x`. */
  function Splice<T>(s: seq<T>, at: nat, x: seq<T>): (r: seq<T>)
    requires at + |x| <= |s|
    ensures |r| == |s|
  {
    s[..at] + x + s[at + |x|..]
  }

  /** Byte `j` of a spliced buffer: from `x` inside the written range, from
      `s` outside it. */
  lemma SpliceAt<T>(s: seq<T>, at: nat, x: seq<T>)
    requires at + |x| <= |s|
    ensures forall j :: 0 <= j < |s| ==>
      Splice(s, at, x)[j] == if at <= j < at + |x| then x[j - at] else s[j]
  {
  }

  /** Writing `x` and then `y` right after it is writing `x + y`. */
  lemma SpliceAppend<T>(s: seq<T>, at: nat, x: seq<T>, p: nat, y: seq<T>)
    requires p == at + |x| && p + |y| <= |s|
    ensures Splice(Splice(s, at, x), p, y) == Splice(s, at, x + y)
  {
    var t := Splice(s, at, x);
    assert t[..p] == s[..at] + x;
    assert t[p + |y|..] == s[p + |y|..];
    assert s[..at] + x + y == s[..at] + (x + y);
  }

  /** Writing `y` and then `x` right before it is writing `x + y`. */
  lemma SplicePrepend<T>(s: seq<T>, at: nat, x: seq<T>, p: nat, y: seq<T>)
    requires p == at + |x| && p + |y| <= |s|
    ensures Splice(Splice(s, p, y), at, x) == Splice(s, at, x + y)
  {
    var t := Splice(s, p, y);
    assert t[..at] == s[..at];
    assert t[at + |x|..] == y + s[p + |y|..];
    assert s[..at] + x + (y + s[p + |y|..]) == s[..at] + (x + y) + s[p + |y|..];
  }

  /** Writing the bytes a buffer already holds changes nothing. */
  lemma SpliceSame<T>(s: seq<T>, at: nat, x: seq<T>)
    requires at + |x| <= |s| && s[at..at + |x|] == x
    ensures Splice(s, at, x) == s
  {
    SpliceAt(s, at, x);
    forall j | at <= j < at + |x| ensures x[j - at] == s[j] {
      assert s[at..at + |x|][j - at] == s[j];
    }
  }

  /** A write inside a range written before is a change of what was written. */
  lemma SpliceInner<T>(s: seq<T>, at: nat, x: seq<T>, k: nat, y: seq<T>)
    requires at + |x| <= |s| && k + |y| <= |x|
    ensures Splice(Splice(s, at, x), at + k, y) == Splice(s, at, Splice(x, k, y))
  {
    SpliceAt(s, at, x);
    SpliceAt(Splice(s, at, x), at + k, y);
    SpliceAt(x, k, y);
    SpliceAt(s, at, Splice(x, k, y));
  }

  /** A spliced buffer read away from the written range gives what was there. */
  lemma SpliceOutside<T>(s: seq<T>, at: nat, x: seq<T>, a: nat, b: nat)
    requires at + |x| <= |s| && a <= b <= |s| && (b <= at || at + |x| <= a)
    ensures Splice(s, at, x)[a..b] == s[a..b]
  {
    SpliceAt(s, at, x);
  }

  /** Writing a buffer over itself in full is writing `x`. */
  lemma SpliceWhole<T>(s: seq<T>, x: seq<T>)
    requires |x| == |s|
    ensures Splice(s, 0, x) == x
  {
  }

  /** CopyMem (and a run of single-byte stores): `bytes` is copied into
      `buf` from `at` on, and nothing else in `buf` changes. */
  method Put(buf: array<byte>, at: nat, bytes: seq<byte>)
    requires at + |bytes| <= buf.Length
    modifies buf
    ensures buf[..] == Splice(old(buf[..]), at, bytes)
  {
    var k := 0;
    while k < |bytes|
      invariant 0 <= k <= |bytes|
      invariant forall j :: 0 <= j < buf.Length ==>
        buf[j] == if at <= j < at + k then bytes[j - at] else old(buf[j])
    {
      buf[at + k] := bytes[k];
      k := k + 1;
    }
    SpliceAt(old(buf[..]), at, bytes);
  }

  /** `n` zero bytes, the contents of AllocateZeroPool (n). */
  function ZeroBytes(n: nat): (r: seq<byte>)
    ensures |r| == n && forall j :: 0 <= j < n ==> r[j] == 0
  {
    seq(n, j => 0)
  }

  /** Writes from the start of a zeroed buffer leave it holding what was
      written, then zeros. */
  lemma SpliceZeros(n: nat, x: seq<byte>)
    requires |x| <= n
    ensures Splice(ZeroBytes(n), 0, x) == x + ZeroBytes(n - |x|)
  {
    SpliceAt(ZeroBytes(n), 0, x);
  }
}
