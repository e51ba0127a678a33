/**
 * ShowHII and ShowHIIext: the walk over the package lists that
 * EFI_HII_DATABASE_PROTOCOL.ExportPackageLists returns. A package list is
 * an EFI_HII_PACKAGE_LIST_HEADER (EFI_GUID PackageListGuid, UINT32
 * PackageLength) followed by packages, each starting with an
 * EFI_HII_PACKAGE_HEADER whose first three bytes are the 24-bit Length and
 * whose fourth byte is the Type. ShowHIIext adds the option to save the
 * lists to files instead of listing them.
 */
module HiiPackages {
  import opened Efi

  const LIST_HEADER_SIZE: nat := 20     // sizeof (EFI_HII_PACKAGE_LIST_HEADER)
  const PACKAGE_HEADER_SIZE: nat := 4   // sizeof (EFI_HII_PACKAGE_HEADER)

  // EFI_HII_PACKAGE_* type values
  const EFI_HII_PACKAGE_TYPE_ALL: byte := 0x00
  const EFI_HII_PACKAGE_TYPE_GUID: byte := 0x01
  const EFI_HII_PACKAGE_FORMS: byte := 0x02
  const EFI_HII_PACKAGE_STRINGS: byte := 0x04
  const EFI_HII_PACKAGE_FONTS: byte := 0x05
  const EFI_HII_PACKAGE_IMAGES: byte := 0x06
  const EFI_HII_PACKAGE_SIMPLE_FONTS: byte := 0x07
  const EFI_HII_PACKAGE_DEVICE_PATH: byte := 0x08
  const EFI_HII_PACKAGE_KEYBOARD_LAYOUT: byte := 0x09
  const EFI_HII_PACKAGE_ANIMATIONS: byte := 0x0A
  const EFI_HII_PACKAGE_END: byte := 0xDF
  const EFI_HII_PACKAGE_TYPE_SYSTEM_BEGIN: byte := 0xE0
  const EFI_HII_PACKAGE_TYPE_SYSTEM_END: byte := 0xFF

  predicate NamedType(t: nat)
  {
    t in {0x00, 0x01, 0x02, 0x04, 0x05, 0x06, 0x07, 0x08, 0x09, 0x0A, 0xDF, 0xE0, 0xFF}
  }

  function PackageType(t: nat): (r: string)
    ensures r == "UNKNOWN" <==> !NamedType(t)
  {
    if t == EFI_HII_PACKAGE_TYPE_ALL as nat then "ALL"
    else if t == EFI_HII_PACKAGE_TYPE_GUID as nat then "GUID"
    else if t == EFI_HII_PACKAGE_FORMS as nat then "FORMS"
    else if t == EFI_HII_PACKAGE_STRINGS as nat then "STRINGS"
    else if t == EFI_HII_PACKAGE_FONTS as nat then "FONTS"
    else if t == EFI_HII_PACKAGE_IMAGES as nat then "IMAGES"
    else if t == EFI_HII_PACKAGE_SIMPLE_FONTS as nat then "SIMPLE_FONTS"
    else if t == EFI_HII_PACKAGE_DEVICE_PATH as nat then "DEVICE_PATH"
    else if t == EFI_HII_PACKAGE_KEYBOARD_LAYOUT as nat then "KEYBOARD_LAYOUT"
    else if t == EFI_HII_PACKAGE_ANIMATIONS as nat then "ANIMATIONS"
    else if t == EFI_HII_PACKAGE_END as nat then "END"
    else if t == EFI_HII_PACKAGE_TYPE_SYSTEM_BEGIN as nat then "SYSTEM_BEGIN"
    else if t == EFI_HII_PACKAGE_TYPE_SYSTEM_END as nat then "SYSTEM_END"
    else "UNKNOWN"
  }

  /** The thirteen named types have thirteen different names. */
  lemma PackageTypeInjective(s: nat, t: nat)
    requires NamedType(s) && NamedType(t) && s != t
    ensures PackageType(s) != PackageType(t)
  {
  }

  // ---------------------------------------------------------------------
  // Header fields

  function ListGuid(db: seq<byte>, p: nat): Guid
    requires p + LIST_HEADER_SIZE <= |db|
  {
    db[p..p + 16]
  }

  function ListLength(db: seq<byte>, p: nat): u32
    requires p + LIST_HEADER_SIZE <= |db|
  {
    U32At(db, p + 16)
  }

  function PackageLength(db: seq<byte>, q: nat): u24
    requires q + PACKAGE_HEADER_SIZE <= |db|
  {
    U24At(db, q)
  }

  function PackageKind(db: seq<byte>, q: nat): byte
    requires q + PACKAGE_HEADER_SIZE <= |db|
  {
    db[q + 3]
  }

  // ---------------------------------------------------------------------
  // The walk, as the lists and packages it visits

  /** The inner walk from `q` to the list end `end` stays in the buffer and
      moves forward: every header it reads lies inside `db` and has a
      non-zero Length. The source checks neither. */
  predicate PackagesWalkable(db: seq<byte>, q: nat, end: nat)
    decreases end - q
  {
    q < end ==>
      q + PACKAGE_HEADER_SIZE <= |db| && PackageLength(db, q) > 0
      && PackagesWalkable(db, q + PackageLength(db, q), end)
  }

  /** The outer walk from `p` reads every list header inside `db`. */
  predicate ListsWalkable(db: seq<byte>, p: nat)
    decreases |db| - p
  {
    p < |db| ==>
      p + LIST_HEADER_SIZE <= |db|
      && (ListLength(db, p) != 0 ==> ListsWalkable(db, p + ListLength(db, p)))
  }

  /** The inner walk of every list the outer walk from `p` enters can be
      followed. */
  predicate InnerWalkable(db: seq<byte>, p: nat)
    requires ListsWalkable(db, p)
    decreases |db| - p
  {
    p < |db| && ListLength(db, p) != 0 ==>
      PackagesWalkable(db, p + LIST_HEADER_SIZE, p + ListLength(db, p))
      && InnerWalkable(db, p + ListLength(db, p))
  }

  /** Both walks of ParseHiiPackageLists stay in the buffer and move on. */
  predicate Walkable(db: seq<byte>)
  {
    ListsWalkable(db, 0) && InnerWalkable(db, 0)
  }

  datatype PackageInfo = PackageInfo(offset: nat, kind: byte, length: u24)
  datatype ListInfo = ListInfo(offset: nat, guid: Guid, length: u32)

  function Packages(db: seq<byte>, q: nat, end: nat): seq<PackageInfo>
    requires PackagesWalkable(db, q, end)
    decreases end - q
  {
    if q >= end then []
    else [PackageInfo(q, PackageKind(db, q), PackageLength(db, q))]
         + Packages(db, q + PackageLength(db, q), end)
  }

  /** The list whose header is at `p`. */
  function ListAt(db: seq<byte>, p: nat): ListInfo
    requires p + LIST_HEADER_SIZE <= |db|
  {
    ListInfo(p, ListGuid(db, p), ListLength(db, p))
  }

  function Lists(db: seq<byte>, p: nat): seq<ListInfo>
    requires ListsWalkable(db, p)
    decreases |db| - p
  {
    if p >= |db| || ListLength(db, p) == 0 then []
    else
      [ListAt(db, p)] + Lists(db, p + ListLength(db, p))
  }

  /** Packages follow each other from `q`: each starts where the previous
      one ends, lies before `end`, has a non-zero Length, and the last one
      reaches `end`. */
  lemma {:induction false} PackagesChain(db: seq<byte>, q: nat, end: nat)
    requires PackagesWalkable(db, q, end)
    ensures var ps := Packages(db, q, end);
      (ps == [] <==> q >= end)
      && (ps != [] ==> ps[0].offset == q && ps[|ps| - 1].offset + ps[|ps| - 1].length >= end)
      && (forall k :: 0 <= k < |ps| ==>
            ps[k].offset < end && ps[k].length > 0
            && ps[k].offset + PACKAGE_HEADER_SIZE <= |db|
            && ps[k].length == PackageLength(db, ps[k].offset)
            && ps[k].kind == PackageKind(db, ps[k].offset))
      && (forall k :: 0 <= k < |ps| - 1 ==> ps[k + 1].offset == ps[k].offset + ps[k].length)
    decreases end - q
  {
    if q < end {
      var next := q + PackageLength(db, q);
      PackagesChain(db, next, end);
      var ps := Packages(db, q, end);
      assert ps[1..] == Packages(db, next, end);
    }
  }

  /** One list of the walk: its header, its packages, and the lists after it. */
  lemma ListsUnfold(db: seq<byte>, p: nat)
    requires ListsWalkable(db, p) && p < |db| && ListLength(db, p) != 0
    ensures var n := ListLength(db, p);
      ListsWalkable(db, p + n) && Lists(db, p) == [ListAt(db, p)] + Lists(db, p + n)
  {
  }

  /** The walk from `p` starts at `p` and stops at the end of the buffer or
      at a list whose PackageLength is 0. */
  lemma {:induction false} ListsStop(db: seq<byte>, p: nat)
    requires ListsWalkable(db, p)
    ensures var ls := Lists(db, p);
      var stop := if ls == [] then p else ls[|ls| - 1].offset + ls[|ls| - 1].length;
      (ls != [] ==> ls[0].offset == p)
      && (stop >= |db| || (stop + LIST_HEADER_SIZE <= |db| && ListLength(db, stop) == 0))
    decreases |db| - p
  {
    if p < |db| && ListLength(db, p) != 0 {
      var next := p + ListLength(db, p);
      ListsUnfold(db, p);
      ListsStop(db, next);
      var ls := Lists(db, p);
      var rest := Lists(db, next);
      if rest != [] {
        assert ls[|ls| - 1] == rest[|rest| - 1];
      }
    }
  }

  /** A list the walk visits: a non-zero PackageLength, and its header
      inside the buffer and read from it. */
  predicate ListOk(db: seq<byte>, l: ListInfo)
  {
    l.length > 0 && l.offset + LIST_HEADER_SIZE <= |db| && l == ListAt(db, l.offset)
  }

  lemma {:induction false} ListsEach(db: seq<byte>, p: nat)
    requires ListsWalkable(db, p)
    ensures var ls := Lists(db, p);
      forall k :: 0 <= k < |ls| ==> ListOk(db, ls[k])
    decreases |db| - p
  {
    if p < |db| && ListLength(db, p) != 0 {
      var next := p + ListLength(db, p);
      ListsUnfold(db, p);
      ListsEach(db, next);
      var ls := Lists(db, p);
      var rest := Lists(db, next);
      forall k | 0 <= k < |ls|
        ensures ListOk(db, ls[k])
      {
        if k == 0 {
          assert ls[0] == ListAt(db, p);
        } else {
          assert ls[k] == rest[k - 1];
        }
      }
    }
  }

  /** The packages of every list the walk visits can be walked from just
      after its header to its end. */
  lemma {:induction false} InnerEach(db: seq<byte>, p: nat)
    requires ListsWalkable(db, p) && InnerWalkable(db, p)
    ensures var ls := Lists(db, p);
      forall k :: 0 <= k < |ls| ==> PackagesWalkable(db, ls[k].offset + LIST_HEADER_SIZE, ls[k].offset + ls[k].length)
    decreases |db| - p
  {
    if p < |db| && ListLength(db, p) != 0 {
      var n := ListLength(db, p);
      ListsUnfold(db, p);
      InnerEach(db, p + n);
      Cons(Lists(db, p), ListAt(db, p), Lists(db, p + n));
    }
  }

  /** Each list starts where the previous one ends. */
  lemma {:induction false} ListsAdjacent(db: seq<byte>, p: nat)
    requires ListsWalkable(db, p)
    ensures var ls := Lists(db, p);
      forall k :: 0 <= k < |ls| - 1 ==> ls[k + 1].offset == ls[k].offset + ls[k].length
    decreases |db| - p
  {
    if p < |db| && ListLength(db, p) != 0 {
      var next := p + ListLength(db, p);
      ListsUnfold(db, p);
      ListsAdjacent(db, next);
      ListsStop(db, next);
      var ls := Lists(db, p);
      var rest := Lists(db, next);
      forall k | 1 <= k < |ls|
        ensures ls[k] == rest[k - 1]
      {
      }
    }
  }

  // ---------------------------------------------------------------------
  // What ShowHII prints

  datatype Line =
    | ListLine(index: nat, guid: Guid, listSize: u32)          // "PackageList[%d]: GUID=%g; size=0x%X\n"
    | PackageLine(index: nat, kind: byte, packageSize: u24)    // "\tPackage[%d]: type=%s; size=0x%X\n"

  function LineText(l: Line): string
  {
    match l
    case ListLine(i, g, n) => "PackageList[" + DecText(i) + "]: GUID=" + GuidText(g) + "; size=0x" + HexUpper(n) + "\n"
    case PackageLine(j, t, n) => "\tPackage[" + DecText(j) + "]: type=" + PackageType(t) + "; size=0x" + HexUpper(n) + "\n"
  }

  /** The package lines of the walk from `q` to `end`, numbered from `j`. */
  function PackageLinesAt(db: seq<byte>, q: nat, end: nat, j: nat): seq<Line>
    requires PackagesWalkable(db, q, end)
    decreases end - q
  {
    if q >= end then []
    else [PackageLine(j, PackageKind(db, q), PackageLength(db, q))]
         + PackageLinesAt(db, q + PackageLength(db, q), end, j + 1)
  }

  /** The lines of the walk from `p`: each list's line numbered from `i`,
      then its packages numbered from 0. */
  function ListLinesAt(db: seq<byte>, p: nat, i: nat): seq<Line>
    requires ListsWalkable(db, p) && InnerWalkable(db, p)
    decreases |db| - p
  {
    if p >= |db| || ListLength(db, p) == 0 then []
    else
      var n := ListLength(db, p);
      [ListLine(i, ListGuid(db, p), n)] + PackageLinesAt(db, p + LIST_HEADER_SIZE, p + n, 0)
      + ListLinesAt(db, p + n, i + 1)
  }

  /** One line per package of the walk, in order, numbered from `j`. */
  lemma {:induction false} PackageNumbering(db: seq<byte>, q: nat, end: nat, j: nat)
    requires PackagesWalkable(db, q, end)
    ensures var r := PackageLinesAt(db, q, end, j);
      var ps := Packages(db, q, end);
      |r| == |ps|
      && forall k :: 0 <= k < |ps| ==> r[k] == PackageLine(j + k, ps[k].kind, ps[k].length)
    decreases end - q
  {
    if q < end {
      var next := q + PackageLength(db, q);
      PackageNumbering(db, next, end, j + 1);
      var r := PackageLinesAt(db, q, end, j);
      var ps := Packages(db, q, end);
      var r' := PackageLinesAt(db, next, end, j + 1);
      var ps' := Packages(db, next, end);
      assert r == [PackageLine(j, PackageKind(db, q), PackageLength(db, q))] + r';
      assert ps == [PackageInfo(q, PackageKind(db, q), PackageLength(db, q))] + ps';
      forall k | 1 <= k < |ps|
        ensures r[k] == r'[k - 1] && ps[k] == ps'[k - 1]
      {
      }
    }
  }

  /** The indices of the list lines, in order. */
  function ListIndices(lines: seq<Line>): seq<nat>
  {
    if lines == [] then []
    else (if lines[0].ListLine? then [lines[0].index] else []) + ListIndices(lines[1..])
  }

  lemma {:induction false} ListIndicesAppend(a: seq<Line>, b: seq<Line>)
    ensures ListIndices(a + b) == ListIndices(a) + ListIndices(b)
  {
    if a == [] {
      assert a + b == b;
    } else {
      assert (a + b)[0] == a[0] && (a + b)[1..] == a[1..] + b;
      ListIndicesAppend(a[1..], b);
    }
  }

  lemma {:induction false} NoListLines(db: seq<byte>, q: nat, end: nat, j: nat)
    requires PackagesWalkable(db, q, end)
    ensures ListIndices(PackageLinesAt(db, q, end, j)) == []
    decreases end - q
  {
    if q < end {
      var next := q + PackageLength(db, q);
      assert PackageLinesAt(db, q, end, j)[1..] == PackageLinesAt(db, next, end, j + 1);
      NoListLines(db, next, end, j + 1);
    }
  }

  /** The list counter runs i, i + 1, ... across the whole database, one
      value per list the walk visits; the package counter restarts at 0 in
      every list (PackageNumbering). */
  lemma {:induction false} ListNumbering(db: seq<byte>, p: nat, i: nat)
    requires ListsWalkable(db, p) && InnerWalkable(db, p)
    ensures ListIndices(ListLinesAt(db, p, i)) == Range(i, |Lists(db, p)|)
    decreases |db| - p
  {
    if p < |db| && ListLength(db, p) != 0 {
      var n := ListLength(db, p);
      ListsCount(db, p);
      EnterList(db, p);
      ListIndicesStep(db, p, i);
      ListNumbering(db, p + n, i + 1);
    }
  }

  /** The list line of the list at `p` is the only one before those of the
      lists after it. */
  lemma ListIndicesStep(db: seq<byte>, p: nat, i: nat)
    requires ListsWalkable(db, p) && InnerWalkable(db, p) && p < |db| && ListLength(db, p) != 0
    ensures ListsWalkable(db, p + ListLength(db, p)) && InnerWalkable(db, p + ListLength(db, p))
    ensures ListIndices(ListLinesAt(db, p, i)) == [i] + ListIndices(ListLinesAt(db, p + ListLength(db, p), i + 1))
  {
    var n := ListLength(db, p);
    var head := [ListLine(i, ListGuid(db, p), n)];
    var packages := PackageLinesAt(db, p + LIST_HEADER_SIZE, p + n, 0);
    ListLinesUnfold(db, p, i);
    ListIndicesAppend(head + packages, ListLinesAt(db, p + n, i + 1));
    ListIndicesAppend(head, packages);
    assert ListIndices(head) == [i] by {
      assert head[1..] == [];
    }
    NoListLines(db, p + LIST_HEADER_SIZE, p + n, 0);
  }

  lemma ListsCount(db: seq<byte>, p: nat)
    requires ListsWalkable(db, p) && p < |db| && ListLength(db, p) != 0
    ensures ListsWalkable(db, p + ListLength(db, p))
    ensures |Lists(db, p)| == 1 + |Lists(db, p + ListLength(db, p))|
  {
  }

  /** The numbers i, i + 1, ..., i + n - 1. */
  function Range(i: nat, n: nat): (r: seq<nat>)
    ensures |r| == n && forall k :: 0 <= k < n ==> r[k] == i + k
    decreases n
  {
    if n == 0 then [] else [i] + Range(i + 1, n - 1)
  }

  /** The packages of the list at `h` onwards, the inner loop of
      ParseHiiPackageLists. */
  method PrintPackages(db: seq<byte>, q: nat, end: nat) returns (lines: seq<Line>)
    requires PackagesWalkable(db, q, end)
    ensures lines == PackageLinesAt(db, q, end, 0)
  {
    lines := [];
    var h := q;   // HiiPackageHeader
    var j := 0;
    while h < end
      invariant PackagesWalkable(db, h, end)
      invariant lines + PackageLinesAt(db, h, end, j) == PackageLinesAt(db, q, end, 0)
      decreases end - h
    {
      var n := PackageLength(db, h);
      lines := lines + [PackageLine(j, PackageKind(db, h), n)];
      j := j + 1;
      h := h + n;
    }
  }

  /** The state of the outer loop at the list header `p`, numbered `i`:
      the lines printed so far followed by those of the rest of the walk
      are all the lines. */
  ghost predicate ShowState(db: seq<byte>, p: nat, i: nat, lines: seq<Line>, goal: seq<Line>)
  {
    ListsWalkable(db, p) && InnerWalkable(db, p) && lines + ListLinesAt(db, p, i) == goal
  }

  /** Entering the list at `p`: its packages can be walked, and so can the
      lists after it. */
  lemma EnterList(db: seq<byte>, p: nat)
    requires ListsWalkable(db, p) && InnerWalkable(db, p) && p < |db| && ListLength(db, p) != 0
    ensures PackagesWalkable(db, p + LIST_HEADER_SIZE, p + ListLength(db, p))
    ensures ListsWalkable(db, p + ListLength(db, p)) && InnerWalkable(db, p + ListLength(db, p))
  {
  }

  lemma ShowStep(db: seq<byte>, p: nat, i: nat, lines: seq<Line>, goal: seq<Line>, packages: seq<Line>)
    requires ShowState(db, p, i, lines, goal) && p < |db| && ListLength(db, p) != 0
    requires PackagesWalkable(db, p + LIST_HEADER_SIZE, p + ListLength(db, p))
    requires packages == PackageLinesAt(db, p + LIST_HEADER_SIZE, p + ListLength(db, p), 0)
    ensures ShowState(db, p + ListLength(db, p), i + 1, lines + [ListLine(i, ListGuid(db, p), ListLength(db, p))] + packages, goal)
  {
    var head := [ListLine(i, ListGuid(db, p), ListLength(db, p))];
    ListLinesUnfold(db, p, i);
    Assoc(lines, head + packages, ListLinesAt(db, p + ListLength(db, p), i + 1));
  }

  /** One list of the printed walk: its line, its packages' lines, then the
      rest. */
  lemma ListLinesUnfold(db: seq<byte>, p: nat, i: nat)
    requires ListsWalkable(db, p) && InnerWalkable(db, p) && p < |db| && ListLength(db, p) != 0
    ensures var n := ListLength(db, p);
      PackagesWalkable(db, p + LIST_HEADER_SIZE, p + n) && ListsWalkable(db, p + n) && InnerWalkable(db, p + n)
      && ListLinesAt(db, p, i)
         == ([ListLine(i, ListGuid(db, p), n)] + PackageLinesAt(db, p + LIST_HEADER_SIZE, p + n, 0))
            + ListLinesAt(db, p + n, i + 1)
  {
  }

  lemma Assoc<T>(a: seq<T>, b: seq<T>, c: seq<T>)
    ensures a + (b + c) == (a + b) + c
  {
  }

  lemma ShowEnd(db: seq<byte>, p: nat, i: nat, lines: seq<Line>, goal: seq<Line>)
    requires ShowState(db, p, i, lines, goal) && (p >= |db| || ListLength(db, p) == 0)
    ensures lines == goal
  {
  }

  /** ParseHiiPackageLists of ShowHII: every list the walk visits, with its
      packages. */
  method ShowPackageLists(db: seq<byte>) returns (lines: seq<Line>)
    requires Walkable(db)
    ensures lines == ListLinesAt(db, 0, 0)
  {
    lines := [];
    ghost var goal := ListLinesAt(db, 0, 0);
    var p := 0;     // HiiPackageListHeader
    var i := 0;
    while p < |db|
      invariant ShowState(db, p, i, lines, goal)
      decreases |db| - p
    {
      var size := ListLength(db, p);
      if size == 0 {
        break;
      }
      EnterList(db, p);
      var packages := PrintPackages(db, p + LIST_HEADER_SIZE, p + size);
      ShowStep(db, p, i, lines, goal, packages);
      lines := lines + [ListLine(i, ListGuid(db, p), size)] + packages;
      i := i + 1;
      p := p + size;
    }
    ShowEnd(db, p, i, lines, goal);
  }

  // ---------------------------------------------------------------------
  // UefiMain of ShowHII

  /** The two ExportPackageLists calls: the size probe with an empty buffer
      and the real export, with the allocation between them. */
  datatype Export = Export(locate: Status, probe: Status, alloc: Status, fetch: Status, db: seq<byte>)

  datatype Outcome = Outcome(status: Status, message: string, lines: seq<Line>)

  /** The four calls before the walk went as the program needs. */
  predicate ExportOk(e: Export)
  {
    !IsError(e.locate) && e.probe == BufferTooSmall && !IsError(e.alloc) && !IsError(e.fetch)
  }

  /** An exported database can be walked, and its lists lie inside it. */
  predicate ExportDefined(e: Export)
  {
    ExportOk(e) ==> Walkable(e.db) && ListsInside(e.db, 0)
  }

  function UefiMain(e: Export, statusText: Status -> string): Outcome
    requires ExportDefined(e)
  {
    if IsError(e.locate) then
      Outcome(e.locate, "ERROR: Could not find HII Database protocol: " + statusText(e.locate) + "\n", [])
    else if e.probe != BufferTooSmall then
      Outcome(e.probe, "ERROR: Could not obtain package list size\n", [])
    else if IsError(e.alloc) then
      Outcome(e.alloc, "ERROR: Could not allocate sufficient memory for package list: " + statusText(e.alloc) + "\n", [])
    else if IsError(e.fetch) then
      Outcome(e.fetch, "ERROR: Could not retrieve the package list: " + statusText(e.fetch) + "\n", [])
    else Outcome(Success, [], ListLinesAt(e.db, 0, 0))
  }

  /** The lists are shown only when the size probe reports
      EFI_BUFFER_TOO_SMALL and the other three calls succeed. A probe that
      reports success prints an error and still returns EFI_SUCCESS. */
  lemma UefiMainOutcome(e: Export, statusText: Status -> string)
    requires ExportDefined(e)
    ensures var o := UefiMain(e, statusText);
      (o.message == [] <==> ExportOk(e))
      && (o.message != [] ==> o.lines == [])
      && (!IsError(e.locate) && e.probe == Success ==> o.status == Success && o.message != [])
      && (o.message == [] ==> o.status == Success)
  {
  }

  // ---------------------------------------------------------------------
  // ShowHIIext

  const SAVE_ALL: nat := 0xFFFF_FFFF

  /** "%04d_%g" in a FileName[100] buffer, whose size UnicodeSPrint takes in
      bytes. */
  function FileName(i: nat, g: Guid): string
  {
    SPrintKeep(PadDec(i, 4) + "_" + GuidText(g), 100)
  }

  /** A file ParseHiiPackageLists of ShowHIIext writes: the list numbered
      `index`, and what WriteFile returned for it. */
  datatype Saved = Saved(index: nat, list: ListInfo, status: Status)

  /** write(i, l) is WriteFile of the PackageLength bytes of the list `l`,
      from its header on, to the file named FileName(i, l.guid). */
  type Writer = (nat, ListInfo) -> Status

  /** Every list the walk from `p` visits lies inside the buffer, so that
      saving it reads no byte beyond the database. */
  predicate ListsInside(db: seq<byte>, p: nat)
    requires ListsWalkable(db, p)
    decreases |db| - p
  {
    p < |db| && ListLength(db, p) != 0 ==>
      p + ListLength(db, p) <= |db| && ListsInside(db, p + ListLength(db, p))
  }

  lemma {:induction false} InsideEach(db: seq<byte>, p: nat)
    requires ListsWalkable(db, p) && ListsInside(db, p)
    ensures var ls := Lists(db, p);
      forall k :: 0 <= k < |ls| ==> ls[k].offset + ls[k].length <= |db|
    decreases |db| - p
  {
    if p < |db| && ListLength(db, p) != 0 {
      var n := ListLength(db, p);
      ListsUnfold(db, p);
      InsideEach(db, p + n);
      Cons(Lists(db, p), ListAt(db, p), Lists(db, p + n));
    }
  }

  /** The files written for the lists from `p` onwards, numbered from `i`,
      when savePackageIndex is `sel`. */
  function SavedAt(db: seq<byte>, p: nat, i: nat, sel: nat, write: Writer): seq<Saved>
    requires ListsWalkable(db, p)
    decreases |db| - p
  {
    if p >= |db| || ListLength(db, p) == 0 then []
    else
      (if sel == SAVE_ALL || sel == i then [Saved(i, ListAt(db, p), write(i, ListAt(db, p)))] else [])
      + SavedAt(db, p + ListLength(db, p), i + 1, sel, write)
  }

  /** One list of the walk in save mode. */
  lemma SavedUnfold(db: seq<byte>, p: nat, i: nat, sel: nat, write: Writer)
    requires ListsWalkable(db, p) && p < |db| && ListLength(db, p) != 0
    ensures var n := ListLength(db, p);
      ListsWalkable(db, p + n)
      && SavedAt(db, p, i, sel, write)
         == (if sel == SAVE_ALL || sel == i then [Saved(i, ListAt(db, p), write(i, ListAt(db, p)))] else [])
            + SavedAt(db, p + n, i + 1, sel, write)
  {
  }

  /** With no index every list is saved, in order, numbered from `i`. */
  lemma {:induction false} SaveAll(db: seq<byte>, p: nat, i: nat, write: Writer)
    requires ListsWalkable(db, p)
    ensures var s := SavedAt(db, p, i, SAVE_ALL, write);
      var ls := Lists(db, p);
      |s| == |ls|
      && forall k :: 0 <= k < |ls| ==> s[k] == Saved(i + k, ls[k], write(i + k, ls[k]))
    decreases |db| - p
  {
    if p < |db| && ListLength(db, p) != 0 {
      var n := ListLength(db, p);
      ListsUnfold(db, p);
      SavedUnfold(db, p, i, SAVE_ALL, write);
      SaveAll(db, p + n, i + 1, write);
      var s := SavedAt(db, p, i, SAVE_ALL, write);
      var rest := SavedAt(db, p + n, i + 1, SAVE_ALL, write);
      var ls := Lists(db, p);
      var ls' := Lists(db, p + n);
      Cons(s, Saved(i, ListAt(db, p), write(i, ListAt(db, p))), rest);
      Cons(ls, ListAt(db, p), ls');
    }
  }

  /** The elements of [x] + rest. */
  lemma Cons<T>(s: seq<T>, x: T, rest: seq<T>)
    requires s == [x] + rest
    ensures |s| == |rest| + 1 && s[0] == x
    ensures forall k :: 1 <= k < |s| ==> s[k] == rest[k - 1]
  {
  }

  /** With index `sel` only the list numbered `sel` is saved, and nothing
      when the walk visits fewer lists. */
  lemma {:induction false} SaveOne(db: seq<byte>, p: nat, i: nat, sel: nat, write: Writer)
    requires ListsWalkable(db, p) && sel != SAVE_ALL
    ensures var s := SavedAt(db, p, i, sel, write);
      var ls := Lists(db, p);
      if i <= sel < i + |ls| then s == [Saved(sel, ls[sel - i], write(sel, ls[sel - i]))]
      else s == []
    decreases |db| - p
  {
    if p < |db| && ListLength(db, p) != 0 {
      var n := ListLength(db, p);
      ListsUnfold(db, p);
      SavedUnfold(db, p, i, sel, write);
      SaveOne(db, p + n, i + 1, sel, write);
      var ls := Lists(db, p);
      var ls' := Lists(db, p + n);
      Cons(ls, ListAt(db, p), ls');
    }
  }

  /** A name of a list numbered below 10000 is kept whole: four digits, an
      underscore and the 36 characters of the GUID. */
  lemma FileNameWhole(i: nat, g: Guid)
    requires i < 10000
    ensures FileName(i, g) == PadDec(i, 4) + "_" + GuidText(g) && |FileName(i, g)| == 41
  {
    GuidTextFields(g, 8);
    assert |DecText(i)| <= 4 by {
      if |DecText(i)| > 4 {
        DecTextLength(i);
      }
    }
  }

  /** A number with more than four digits is at least 10000. */
  lemma {:induction false} DecTextLength(x: nat)
    ensures |DecText(x)| > 4 ==> x >= 10000
    decreases x
  {
    if x >= 10 {
      DecTextLength(x / 10);
      if |DecText(x)| > 4 {
        assert |DecText(x / 10)| >= 4;
        DecTextFour(x / 10);
      }
    }
  }

  lemma {:induction false} DecTextFour(x: nat)
    ensures |DecText(x)| >= 4 ==> x >= 1000
    decreases x
  {
    if x >= 10 {
      DecTextThree(x / 10);
    }
  }

  lemma DecTextThree(x: nat)
    ensures |DecText(x)| >= 3 ==> x >= 100
  {
    if x >= 10 && x / 10 < 10 {
      assert |DecText(x)| == 2;
    }
  }

  /** The state of the outer loop of ShowHIIext's ParseHiiPackageLists in
      save mode: the files written so far followed by those of the rest of
      the walk are all the files. */
  ghost predicate SaveState(db: seq<byte>, p: nat, i: nat, sel: nat, write: Writer, saved: seq<Saved>, goal: seq<Saved>)
  {
    ListsWalkable(db, p) && saved + SavedAt(db, p, i, sel, write) == goal
  }

  lemma SaveStep(db: seq<byte>, p: nat, i: nat, sel: nat, write: Writer, saved: seq<Saved>, goal: seq<Saved>)
    requires SaveState(db, p, i, sel, write, saved, goal) && p < |db| && ListLength(db, p) != 0
    ensures SaveState(db, p + ListLength(db, p), i + 1, sel, write,
                      if sel == SAVE_ALL || sel == i then saved + [Saved(i, ListAt(db, p), write(i, ListAt(db, p)))] else saved,
                      goal)
  {
    var n := ListLength(db, p);
    SavedUnfold(db, p, i, sel, write);
    var rest := SavedAt(db, p + n, i + 1, sel, write);
    if sel == SAVE_ALL || sel == i {
      Assoc(saved, [Saved(i, ListAt(db, p), write(i, ListAt(db, p)))], rest);
    }
  }

  lemma SaveEnd(db: seq<byte>, p: nat, i: nat, sel: nat, write: Writer, saved: seq<Saved>, goal: seq<Saved>)
    requires SaveState(db, p, i, sel, write, saved, goal) && (p >= |db| || ListLength(db, p) == 0)
    ensures saved == goal
  {
  }

  /** The save branch of ShowHIIext's ParseHiiPackageLists: the same walk
      as ShowHII's, writing the selected lists instead of printing. */
  method SaveLists(db: seq<byte>, sel: nat, write: Writer) returns (saved: seq<Saved>)
    requires Walkable(db) && ListsInside(db, 0)
    ensures saved == SavedAt(db, 0, 0, sel, write)
  {
    saved := [];
    ghost var goal := SavedAt(db, 0, 0, sel, write);
    var p := 0;     // HiiPackageListHeader
    var i := 0;
    while p < |db|
      invariant SaveState(db, p, i, sel, write, saved, goal) && InnerWalkable(db, p)
      decreases |db| - p
    {
      var size := ListLength(db, p);
      if size == 0 {
        break;
      }
      SaveStep(db, p, i, sel, write, saved, goal);
      if sel == SAVE_ALL || sel == i {
        saved := saved + [Saved(i, ListAt(db, p), write(i, ListAt(db, p)))];
      }
      EnterList(db, p);
      var _ := PrintPackages(db, p + LIST_HEADER_SIZE, p + size);   // walked, nothing printed
      i := i + 1;
      p := p + size;
    }
    SaveEnd(db, p, i, sel, write, saved, goal);
  }

  /** The globals savePackageLists and savePackageIndex of ShowHIIext, and
      the two functions that use them. */
  class ShowHiiExt {
    var savePackageLists: bool
    var savePackageIndex: nat

    constructor ()
      ensures !savePackageLists && savePackageIndex == SAVE_ALL
    {
      savePackageLists := false;
      savePackageIndex := SAVE_ALL;
    }

    /** ParseHiiPackageLists of ShowHIIext: in save mode the selected lists
        are written and nothing is listed; otherwise the lists are listed as
        ShowHII does and nothing is written. */
    method ParseHiiPackageLists(db: seq<byte>, write: Writer) returns (lines: seq<Line>, saved: seq<Saved>)
      requires Walkable(db)
      requires savePackageLists ==> ListsInside(db, 0)
      ensures savePackageLists ==> lines == [] && saved == SavedAt(db, 0, 0, savePackageIndex, write)
      ensures !savePackageLists ==> saved == [] && lines == ListLinesAt(db, 0, 0)
    {
      if savePackageLists {
        lines := [];
        saved := SaveLists(db, savePackageIndex, write);
      } else {
        lines := ShowPackageLists(db);
        saved := [];
      }
    }

    /** ShellAppMain of ShowHIIext: the arguments, then the same calls as
        ShowHII's UefiMain, then the listing or the saving. A refused
        argument ends it with EFI_INVALID_PARAMETER after the usage text. */
    method ShellAppMain(argv: seq<CString>, decimal: string -> Option<nat>, e: Export, statusText: Status -> string, write: Writer)
      returns (status: Status, message: string, lines: seq<Line>, saved: seq<Saved>)
      requires |argv| >= 1 && ExportDefined(e)
      modifies this
      ensures var b := LastAt(argv, "-b", |argv|);
        var h := LastAt(argv, "-?", |argv|);
        var scan := Scan(argv, b, h, decimal, 1, old(savePackageLists), old(savePackageIndex));
        match scan
        case None => status == InvalidParameter && message == [] && lines == [] && saved == []
        case Some(c) =>
          var o := UefiMain(e, statusText);
          status == o.status && message == o.message
          && (!ExportOk(e) ==> lines == [] && saved == [])
          && (ExportOk(e) && c.save ==> lines == [] && saved == SavedAt(e.db, 0, 0, c.index, write))
          && (ExportOk(e) && !c.save ==> saved == [] && lines == ListLinesAt(e.db, 0, 0))
    {
      var pageBreak;
      status, pageBreak := ParseArguments(argv, decimal);
      message, lines, saved := [], [], [];
      if status != Success {
        return;
      }
      if IsError(e.locate) {
        status, message := e.locate, "ERROR: Could not find HII Database protocol: " + statusText(e.locate) + "\n";
      } else if e.probe != BufferTooSmall {
        status, message := e.probe, "ERROR: Could not obtain package list size\n";
      } else if IsError(e.alloc) {
        status, message := e.alloc, "ERROR: Could not allocate sufficient memory for package list: " + statusText(e.alloc) + "\n";
      } else if IsError(e.fetch) {
        status, message := e.fetch, "ERROR: Could not retrieve the package list: " + statusText(e.fetch) + "\n";
      } else {
        lines, saved := ParseHiiPackageLists(e.db, write);
        status := Success;
      }
    }

    /** The two argument loops of ShellAppMain: the first records where the
        last "-b" and the last "-?" are, the second reads "save [N]" and
        refuses anything else. */
    method ParseArguments(argv: seq<CString>, decimal: string -> Option<nat>)
      returns (status: Status, pageBreak: bool)
      requires |argv| >= 1
      modifies this
      ensures var b := LastAt(argv, "-b", |argv|);
        var h := LastAt(argv, "-?", |argv|);
        pageBreak == (b < |argv|)
        && (status == Success <==> Scan(argv, b, h, decimal, 1, old(savePackageLists), old(savePackageIndex)).Some?)
        && (status == Success ==>
              Scan(argv, b, h, decimal, 1, old(savePackageLists), old(savePackageIndex)) == Some(Choice(savePackageLists, savePackageIndex)))
        && (status != Success ==> status == InvalidParameter)
    {
      var bOptionIndex, hOptionIndex;
      bOptionIndex, hOptionIndex, pageBreak := FindOptions(argv);
      ghost var goal := Scan(argv, bOptionIndex, hOptionIndex, decimal, 1, savePackageLists, savePackageIndex);
      var i := 1;
      while i < |argv|
        invariant 1 <= i
        invariant Scan(argv, bOptionIndex, hOptionIndex, decimal, i, savePackageLists, savePackageIndex) == goal
        decreases |argv| - i
      {
        ghost var index := savePackageIndex;
        if i == bOptionIndex || i == hOptionIndex {
          i := i + 1;
          continue;
        }
        if argv[i] == "save" {
          savePackageLists := true;
          if i + 1 < |argv| && i + 1 != bOptionIndex && i + 1 != hOptionIndex {
            var n := decimal(argv[i + 1]);
            if n.None? {
              return InvalidParameter, pageBreak;
            }
            savePackageIndex := n.value;
            i := i + 1;
          } else {
            assert goal == Scan(argv, bOptionIndex, hOptionIndex, decimal, i + 1, true, index);
          }
        } else {
          return InvalidParameter, pageBreak;
        }
        i := i + 1;
      }
      status := Success;
    }
  }

  /** The first argument loop of ShellAppMain: the positions of the last
      "-b" and the last "-?", |argv| when there is none; the page-break mode
      is switched on when there is a "-b". */
  method FindOptions(argv: seq<CString>) returns (bOptionIndex: nat, hOptionIndex: nat, pageBreak: bool)
    requires |argv| >= 1
    ensures bOptionIndex == LastAt(argv, "-b", |argv|) && hOptionIndex == LastAt(argv, "-?", |argv|)
    ensures pageBreak == (bOptionIndex < |argv|)
  {
    bOptionIndex := |argv|;
    hOptionIndex := |argv|;
    pageBreak := false;
    var i := 1;
    while i < |argv|
      invariant 1 <= i <= |argv|
      invariant bOptionIndex == LastAt(argv, "-b", i) && hOptionIndex == LastAt(argv, "-?", i)
      invariant pageBreak == (bOptionIndex < |argv|)
    {
      if argv[i] == "-b" {
        pageBreak := true;
        bOptionIndex := i;
      } else if argv[i] == "-?" {
        hOptionIndex := i;
      }
      i := i + 1;
    }
  }

  /** The last position k in 1 .. i-1 with argv[k] == w, or |argv| when there
      is none. */
  function LastAt(argv: seq<CString>, w: string, i: nat): (k: nat)
    requires i <= |argv|
    ensures k == |argv| || (1 <= k < i && argv[k] == w)
    ensures forall m :: k < m < i && 1 <= m ==> argv[m] != w
  {
    if i <= 1 then |argv| else if argv[i - 1] == w then i - 1 else LastAt(argv, w, i - 1)
  }

  datatype Choice = Choice(save: bool, index: nat)

  /** The second argument loop from position `i`, with the save flag and
      index it has set so far; None is the Usage exit with
      EFI_INVALID_PARAMETER. `decimal` is StrDecimalToUintnS, None when it
      fails or reads no digit. */
  function Scan(argv: seq<CString>, b: nat, h: nat, decimal: string -> Option<nat>, i: nat, save: bool, index: nat): Option<Choice>
    decreases |argv| - i
  {
    if i >= |argv| then Some(Choice(save, index))
    else if i == b || i == h then Scan(argv, b, h, decimal, i + 1, save, index)
    else if argv[i] == "save" then
      if i + 1 < |argv| && i + 1 != b && i + 1 != h then
        match decimal(argv[i + 1])
        case None => None
        case Some(n) => Scan(argv, b, h, decimal, i + 2, true, n)
      else Scan(argv, b, h, decimal, i + 1, true, index)
    else None
  }

  /** The option words in the order they are given: "-?" alone changes
      nothing; "save" alone saves every list; "save N" saves list N; a second
      "-b" or any other word is refused. */
  lemma ArgumentExamples(app: CString, n: CString, decimal: string -> Option<nat>)
    requires n != "-b" && n != "-?"
    ensures var a := [app, "-?"];
      Scan(a, LastAt(a, "-b", 2), LastAt(a, "-?", 2), decimal, 1, false, SAVE_ALL) == Some(Choice(false, SAVE_ALL))
    ensures var a := [app, "save"];
      Scan(a, LastAt(a, "-b", 2), LastAt(a, "-?", 2), decimal, 1, false, SAVE_ALL) == Some(Choice(true, SAVE_ALL))
    ensures var a := [app, "save", n];
      Scan(a, LastAt(a, "-b", 3), LastAt(a, "-?", 3), decimal, 1, false, SAVE_ALL)
        == (if decimal(n).Some? then Some(Choice(true, decimal(n).value)) else None)
    ensures var a := [app, "-b", "-b"];
      Scan(a, LastAt(a, "-b", 3), LastAt(a, "-?", 3), decimal, 1, false, SAVE_ALL) == None
  {
    var a := [app, "save", n];
    assert LastAt(a, "-b", 3) == 3 && LastAt(a, "-?", 3) == 3;
  }
}
