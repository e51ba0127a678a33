/**
 * replace_guids.py: turns the GUIDs of a firmware boot log into the names
 * the build's Guid.xref files give them. Each line "GUID Name\n" of the
 * xref file, and then of an optional extra xref file, becomes an entry of
 * a dictionary keyed by the upper-cased GUID; every key is then replaced
 * by its name throughout the log, one key after the other in the order
 * the dictionary holds them. The log is rewritten in place, or written to
 * the output file when one is named.
 *
 * Python's str methods are modelled on ASCII text: split(" "), upper(),
 * replace(), slicing and the lines a text-mode file yields.
 */
module ReplaceGuids {
  import opened Efi

  // ---------------------------------------------------------------------
  // The str operations the script uses.

  predicate IsLowerAscii(c: char) { 'a' <= c <= 'z' }
  predicate IsUpperAscii(c: char) { 'A' <= c <= 'Z' }

  /** str.upper() on ASCII letters. */
  function Upper(s: string): (r: string)
    ensures |r| == |s|
    ensures forall i :: 0 <= i < |s| ==> !IsLowerAscii(r[i])
    ensures forall i :: 0 <= i < |s| ==> (r[i] == s[i] <==> !IsLowerAscii(s[i]))
  {
    seq(|s|, i requires 0 <= i < |s| => if IsLowerAscii(s[i]) then (s[i] as int - 32) as char else s[i])
  }

  /** The number of spaces in `s`. */
  function Spaces(s: string): nat
  {
    if s == [] then 0 else (if s[0] == ' ' then 1 else 0) + Spaces(s[1..])
  }

  /** str.split(" "): the pieces between single spaces, empty ones kept. */
  function Split(s: string): (r: seq<string>)
    ensures |r| == Spaces(s) + 1
    ensures forall k :: 0 <= k < |r| ==> ' ' !in r[k]
  {
    if s == [] then [[]]
    else
      var rest := Split(s[1..]);
      if s[0] == ' ' then [[]] + rest else [[s[0]] + rest[0]] + rest[1..]
  }

  /** The pieces joined back with single spaces. */
  function JoinSpaces(pieces: seq<string>): string
  {
    if pieces == [] then [] else if |pieces| == 1 then pieces[0] else pieces[0] + " " + JoinSpaces(pieces[1..])
  }

  /** Splitting loses nothing: the pieces join back to the string. */
  lemma {:induction false} SplitJoin(s: string)
    ensures JoinSpaces(Split(s)) == s
  {
    if s != [] {
      SplitJoin(s[1..]);
      var rest := Split(s[1..]);
      var r := Split(s);
      if s[0] == ' ' {
        assert r == [[]] + rest;
        assert JoinSpaces(r) == [] + " " + JoinSpaces(rest);
        assert [s[0]] + s[1..] == s;
      } else if |rest| == 1 {
        assert r == [[s[0]] + rest[0]];
        assert [s[0]] + rest[0] == s;
      } else {
        assert r == [[s[0]] + rest[0]] + rest[1..];
        assert JoinSpaces(r) == ([s[0]] + rest[0]) + " " + JoinSpaces(rest[1..]);
        assert JoinSpaces(rest) == rest[0] + " " + JoinSpaces(rest[1..]);
        assert [s[0]] + s[1..] == s;
      }
    }
  }

  /** s[:-1]: all but the last character; "" stays "". */
  function DropLast(s: string): (r: string)
    ensures |s| > 0 ==> s == r + [s[|s| - 1]]
    ensures |s| == 0 ==> r == []
  {
    if s == [] then [] else s[..|s| - 1]
  }

  /** str.replace(key, val): the occurrences of `key`, found left to
      right without overlap, each replaced by `val`. An empty key matches
      before every character and at the end. */
  function ReplaceAll(s: string, key: string, val: string): string
    decreases |s|
  {
    if key == [] then Interleave(s, val)
    else if |s| < |key| then s
    else if s[..|key|] == key then val + ReplaceAll(s[|key|..], key, val)
    else [s[0]] + ReplaceAll(s[1..], key, val)
  }

  function Interleave(s: string, val: string): string
  {
    if s == [] then val else val + [s[0]] + Interleave(s[1..], val)
  }

  /** `key` occurs in `s` at `i`. */
  predicate OccursAt(s: string, key: string, i: nat)
  {
    i + |key| <= |s| && s[i..i + |key|] == key
  }

  /** A key that does not occur leaves the text alone. */
  lemma {:induction false} ReplaceAbsent(s: string, key: string, val: string)
    requires key != [] && forall i: nat :: !OccursAt(s, key, i)
    ensures ReplaceAll(s, key, val) == s
    decreases |s|
  {
    if |s| >= |key| {
      assert !OccursAt(s, key, 0);
      assert s[..|key|] == s[0..|key|];
      forall i: nat
        ensures !OccursAt(s[1..], key, i)
      {
        assert !OccursAt(s, key, i + 1);
        if i + |key| <= |s[1..]| {
          assert s[1..][i..i + |key|] == s[i + 1..i + 1 + |key|];
        }
      }
      ReplaceAbsent(s[1..], key, val);
      assert [s[0]] + s[1..] == s;
    }
  }

  /** Replacing a key by itself changes nothing. */
  lemma {:induction false} ReplaceSelf(s: string, key: string)
    requires key != []
    ensures ReplaceAll(s, key, key) == s
    decreases |s|
  {
    if |s| >= |key| {
      if s[..|key|] == key {
        ReplaceSelf(s[|key|..], key);
        assert s[..|key|] + s[|key|..] == s;
      } else {
        ReplaceSelf(s[1..], key);
        assert [s[0]] + s[1..] == s;
      }
    }
  }

  // ---------------------------------------------------------------------
  // Reading a Guid.xref file.

  /** The lines `for line in p` yields: each up to and including its
      newline, the last one without a newline when the text does not end
      with one. */
  function Lines(t: string): (r: seq<string>)
    ensures t == [] <==> r == []
  {
    if t == [] then []
    else
      var rest := Lines(t[1..]);
      if t[0] == '\n' then [['\n']] + rest
      else if rest == [] then [[t[0]]]
      else [[t[0]] + rest[0]] + rest[1..]
  }

  /** All the lines, joined. */
  function Concat(ls: seq<string>): string
  {
    if ls == [] then [] else ls[0] + Concat(ls[1..])
  }

  /** The lines put back together give the text; each is non-empty and
      holds a newline only as its last character, and only the last line
      may lack one. */
  lemma {:induction false} LinesRoundTrip(t: string)
    ensures Concat(Lines(t)) == t
    ensures forall k :: 0 <= k < |Lines(t)| ==> LineShaped(Lines(t)[k], k + 1 == |Lines(t)|)
  {
    if t != [] {
      LinesRoundTrip(t[1..]);
      var rest := Lines(t[1..]);
      if t[0] == '\n' {
        assert Lines(t) == [['\n']] + rest;
        assert [t[0]] + t[1..] == t;
      } else if rest == [] {
        assert t[1..] == [];
      } else {
        assert LineShaped(rest[0], |rest| == 1);
        assert Concat(rest) == rest[0] + Concat(rest[1..]);
        assert [t[0]] + t[1..] == t;
        assert Concat(Lines(t)) == ([t[0]] + rest[0]) + Concat(rest[1..]);
      }
    }
  }

  /** A line of a file: not empty, a newline only at its end, and one at
      its end unless it is the last line. */
  predicate LineShaped(line: string, last: bool)
  {
    && |line| > 0
    && (forall i :: 0 <= i < |line| - 1 ==> line[i] != '\n')
    && (!last ==> line[|line| - 1] == '\n')
  }

  /** An entry of the dictionary: an upper-cased GUID and its name. */
  datatype Entry = Entry(key: string, name: string)

  /** One line of an xref file: an entry when it holds exactly one space.
      The key is the part before it, upper-cased; the name is the part
      after it without its last character, the newline it is taken to be. */
  function ParseLine(line: string): (r: Option<Entry>)
    ensures r.Some? <==> Spaces(line) == 1
  {
    var l := Split(line);
    if |l| == 2 then Some(Entry(Upper(l[0]), DropLast(l[1]))) else None
  }

  /** The entry of a line "key name": the key is upper-cased, the name
      loses its last character, and nothing else is kept. */
  lemma LineEntry(key: string, name: string)
    requires ' ' !in key && ' ' !in name
    ensures ParseLine(key + " " + name) == Some(Entry(Upper(key), DropLast(name)))
  {
    SplitTwo(key, name);
  }

  /** A line with one space splits into the two pieces around it. */
  lemma SplitTwo(key: string, name: string)
    requires ' ' !in key && ' ' !in name
    ensures Split(key + " " + name) == [key, name]
  {
    var line := key + " " + name;
    SplitJoin(line);
    var l := Split(line);
    SpacesJoin(key, name);
    assert |l| == 2;
    assert l[0] + " " + l[1] == key + " " + name;
    SplitAtSpace(l[0], l[1], key, name);
  }

  /** Spaces counts the one space between two space-free strings. */
  lemma {:induction false} SpacesJoin(a: string, b: string)
    requires ' ' !in a && ' ' !in b
    ensures Spaces(a + " " + b) == 1
    decreases |a|
  {
    if a == [] {
      assert (a + " " + b)[1..] == b;
      NoSpaces(b);
    } else {
      assert (a + " " + b)[1..] == a[1..] + " " + b;
      SpacesJoin(a[1..], b);
    }
  }

  lemma {:induction false} NoSpaces(s: string)
    requires ' ' !in s
    ensures Spaces(s) == 0
  {
    if s != [] {
      NoSpaces(s[1..]);
    }
  }

  /** The index of the first space, or the length when there is none. */
  function SpaceIndex(s: string): nat
  {
    if s == [] || s[0] == ' ' then 0 else 1 + SpaceIndex(s[1..])
  }

  lemma {:induction false} SpaceIndexJoin(a: string, b: string)
    requires ' ' !in a
    ensures SpaceIndex(a + " " + b) == |a|
    decreases |a|
  {
    if a != [] {
      assert (a + " " + b)[1..] == a[1..] + " " + b;
      SpaceIndexJoin(a[1..], b);
    }
  }

  /** Two space-free pieces around one space are those pieces. */
  lemma SplitAtSpace(a: string, b: string, c: string, d: string)
    requires ' ' !in a && ' ' !in c
    requires a + " " + b == c + " " + d
    ensures a == c && b == d
  {
    SpaceIndexJoin(a, b);
    SpaceIndexJoin(c, d);
    assert a == (a + " " + b)[..|a|];
    assert c == (c + " " + d)[..|c|];
    assert b == (a + " " + b)[|a| + 1..];
    assert d == (c + " " + d)[|c| + 1..];
  }

  /** The name the evident intent keeps: the part after the space without
      a final newline, and whole when there is none. */
  function ParseLineIntended(line: string): (r: Option<Entry>)
    ensures r.Some? <==> Spaces(line) == 1
    ensures r.Some? && |Split(line)[1]| > 0 && Split(line)[1][|Split(line)[1]| - 1] == '\n' ==> r == ParseLine(line)
  {
    var l := Split(line);
    if |l| != 2 then None
    else if |l[1]| > 0 && l[1][|l[1]| - 1] == '\n' then Some(Entry(Upper(l[0]), DropLast(l[1])))
    else Some(Entry(Upper(l[0]), l[1]))
  }

  /** A last line without a newline, "GUID Name", loses the last letter
      of its name as written, and keeps it as intended. */
  lemma LastLineCut()
    ensures ParseLine("ab Name") == Some(Entry("AB", "Nam"))
    ensures ParseLineIntended("ab Name") == Some(Entry("AB", "Name"))
  {
    var key, name := "ab", "Name";
    assert key + " " + name == "ab Name";
    SplitTwo(key, name);
    assert Upper(key) == "AB";
    assert DropLast(name) == "Nam";
  }

  // ---------------------------------------------------------------------
  // The dictionary.

  /** A Python dict from GUID to name, in insertion order. */
  type Dict = seq<Entry>

  predicate DistinctKeys(d: Dict)
  {
    forall i, j :: 0 <= i < j < |d| ==> d[i].key != d[j].key
  }

  /** d[key]. */
  function Get(d: Dict, key: string): (r: Option<string>)
    ensures r.Some? <==> exists i :: 0 <= i < |d| && d[i].key == key
  {
    if d == [] then None else if d[0].key == key then Some(d[0].name) else Get(d[1..], key)
  }

  /** d[key] = name: an existing key keeps its place and takes the new
      name; a new key goes last. */
  function Put(d: Dict, key: string, name: string): (r: Dict)
    ensures Get(r, key) == Some(name)
    ensures forall k :: k != key ==> Get(r, k) == Get(d, k)
    ensures |r| == if Get(d, key).Some? then |d| else |d| + 1
    ensures forall i :: 0 <= i < |d| ==> r[i].key == d[i].key
  {
    if d == [] then [Entry(key, name)]
    else if d[0].key == key then [Entry(key, name)] + d[1..]
    else [d[0]] + Put(d[1..], key, name)
  }

  /** Putting never duplicates a key. */
  lemma {:induction false} PutDistinct(d: Dict, key: string, name: string)
    requires DistinctKeys(d)
    ensures DistinctKeys(Put(d, key, name))
  {
    if d != [] && d[0].key != key {
      PutDistinct(d[1..], key, name);
      assert Get(d[1..], d[0].key) == None;
    }
  }

  /** The dictionary after the lines of one file, in the order read. */
  function AddLines(d: Dict, lines: seq<string>): Dict
  {
    if lines == [] then d
    else
      var before := AddLines(d, lines[..|lines| - 1]);
      match ParseLine(lines[|lines| - 1])
      case Some(e) => Put(before, e.key, e.name)
      case None => before
  }

  /** The dictionary keeps each key once, however often the lines repeat it. */
  lemma {:induction false} LoadedDistinct(d: Dict, lines: seq<string>)
    requires DistinctKeys(d)
    ensures DistinctKeys(AddLines(d, lines))
  {
    if lines != [] {
      LoadedDistinct(d, lines[..|lines| - 1]);
      var before := AddLines(d, lines[..|lines| - 1]);
      match ParseLine(lines[|lines| - 1])
      case None =>
      case Some(e) => PutDistinct(before, e.key, e.name);
    }
  }

  /** A later file overrides an earlier one: a key the lines define takes
      the name they give it last, and any other key keeps its name. */
  lemma {:induction false} LaterWins(d: Dict, lines: seq<string>, key: string)
    ensures Get(AddLines(d, lines), key) == (match Get(AddLines([], lines), key) case Some(n) => Some(n) case None => Get(d, key))
  {
    if lines != [] {
      LaterWins(d, lines[..|lines| - 1], key);
    }
  }

  /** Reading more lines keeps the order of the keys already there. */
  lemma {:induction false} OrderKept(d: Dict, lines: seq<string>)
    ensures |AddLines(d, lines)| >= |d|
    ensures forall i :: 0 <= i < |d| ==> AddLines(d, lines)[i].key == d[i].key
  {
    if lines != [] {
      OrderKept(d, lines[..|lines| - 1]);
    }
  }

  /** Every key is upper-case. */
  predicate UpperKeys(d: Dict)
  {
    forall i, j :: 0 <= i < |d| && 0 <= j < |d[i].key| ==> !IsLowerAscii(d[i].key[j])
  }

  lemma {:induction false} KeysUpper(d: Dict, lines: seq<string>)
    requires UpperKeys(d)
    ensures UpperKeys(AddLines(d, lines))
  {
    if lines != [] {
      KeysUpper(d, lines[..|lines| - 1]);
      var before := AddLines(d, lines[..|lines| - 1]);
      match ParseLine(lines[|lines| - 1])
      case None =>
      case Some(e) => PutUpper(before, e.key, e.name);
    }
  }

  lemma {:induction false} PutUpper(d: Dict, key: string, name: string)
    requires UpperKeys(d) && forall j :: 0 <= j < |key| ==> !IsLowerAscii(key[j])
    ensures UpperKeys(Put(d, key, name))
  {
    if d != [] && d[0].key != key {
      PutUpper(d[1..], key, name);
    }
  }

  /** The lines loop over one xref file. */
  method LoadGuids(text: string, guids: Dict) returns (r: Dict)
    ensures r == AddLines(guids, Lines(text))
  {
    var lines := Lines(text);
    r := guids;
    var i := 0;
    while i < |lines|
      invariant 0 <= i <= |lines|
      invariant r == AddLines(guids, lines[..i])
    {
      assert lines[..i + 1][..i] == lines[..i];
      var l := ParseLine(lines[i]);
      if l.Some? {
        r := Put(r, l.value.key, l.value.name);
      }
      i := i + 1;
    }
    assert lines[..i] == lines;
  }

  // ---------------------------------------------------------------------
  // Replacing.

  /** The log after each entry's replace, in dictionary order. */
  function ApplyAll(data: string, d: Dict): string
  {
    if d == [] then data else ReplaceAll(ApplyAll(data, d[..|d| - 1]), d[|d| - 1].key, d[|d| - 1].name)
  }

  /** The replacement loop. */
  method ReplaceLoop(data: string, guids: Dict) returns (r: string)
    ensures r == ApplyAll(data, guids)
  {
    r := data;
    var i := 0;
    while i < |guids|
      invariant 0 <= i <= |guids|
      invariant r == ApplyAll(data, guids[..i])
    {
      assert guids[..i + 1][..i] == guids[..i];
      r := ReplaceAll(r, guids[i].key, guids[i].name);
      i := i + 1;
    }
    assert guids[..i] == guids;
  }

  /** Text without upper-case letters. */
  predicate NoUpper(s: string)
  {
    forall i :: 0 <= i < |s| ==> !IsUpperAscii(s[i])
  }

  /** A key holding an upper-case letter. */
  predicate HasUpper(key: string)
  {
    exists j :: 0 <= j < |key| && IsUpperAscii(key[j])
  }

  /** A log written in lower case is left as it is, as long as every key
      holds a letter: the keys are upper-case and match nothing in it. */
  lemma {:induction false} LowerCaseKept(data: string, d: Dict)
    requires NoUpper(data)
    requires forall i :: 0 <= i < |d| ==> HasUpper(d[i].key)
    ensures ApplyAll(data, d) == data
  {
    if d != [] {
      LowerCaseKept(data, d[..|d| - 1]);
      var key := d[|d| - 1].key;
      assert HasUpper(key);
      var j :| 0 <= j < |key| && IsUpperAscii(key[j]);
      forall i: nat
        ensures !OccursAt(data, key, i)
      {
        if i + |key| <= |data| {
          assert data[i..i + |key|][j] != key[j];
        }
      }
      ReplaceAbsent(data, key, d[|d| - 1].name);
    }
  }

  // ---------------------------------------------------------------------
  // The script.

  /** The command line: -g, -e, -i and -o. */
  datatype Args = Args(guids: string, guidsExtra: Option<string>, logInput: string, logOutput: Option<string>)

  /** An option counts when given and not empty, as `if args.x:` tests. */
  function Given(o: Option<string>): Option<string>
  {
    if o.Some? && o.value != "" then o else None
  }

  /** Where the log is written: the -o file, or the input itself. */
  function OutPath(a: Args): string
  {
    match Given(a.logOutput) case Some(p) => p case None => a.logInput
  }

  /** The files the script opens all exist. */
  predicate Readable(files: map<string, string>, a: Args)
  {
    a.guids in files && a.logInput in files && (Given(a.guidsExtra).Some? ==> Given(a.guidsExtra).value in files)
  }

  /** The dictionary the two xref files give. */
  function GuidMap(files: map<string, string>, a: Args): Dict
    requires Readable(files, a)
  {
    var base := AddLines([], Lines(files[a.guids]));
    match Given(a.guidsExtra)
    case Some(p) => AddLines(base, Lines(files[p]))
    case None => base
  }

  /** The file system the script works on. */
  class Files {
    var contents: map<string, string>

    constructor (contents: map<string, string>)
      ensures this.contents == contents
    {
      this.contents := contents;
    }

    /** open(path).read(), or None when there is no such file. */
    method Read(path: string) returns (r: Option<string>)
      ensures r == if path in contents then Some(contents[path]) else None
    {
      r := if path in contents then Some(contents[path]) else None;
    }

    /** shutil.copyfile. */
    method CopyFile(src: string, dst: string)
      requires src in contents
      modifies this
      ensures contents == old(contents)[dst := old(contents)[src]]
    {
      contents := contents[dst := contents[src]];
    }

    /** open(path, 'w').write(data). */
    method Write(path: string, data: string)
      modifies this
      ensures contents == old(contents)[path := data]
    {
      contents := contents[path := data];
    }
  }

  /** The script: it stops, having changed nothing, when a file it reads
      is missing; otherwise the output file (the input itself without -o)
      holds the log with every GUID replaced, and nothing else changes. */
  method RunScript(fs: Files, a: Args) returns (ok: bool)
    modifies fs
    ensures ok <==> Readable(old(fs.contents), a)
    ensures !ok ==> fs.contents == old(fs.contents)
    ensures ok ==> fs.contents == old(fs.contents)[OutPath(a) := ApplyAll(old(fs.contents)[a.logInput], GuidMap(old(fs.contents), a))]
  {
    var base := fs.Read(a.guids);
    if base.None? {
      return false;
    }
    var guids := LoadGuids(base.value, []);
    var extraPath := Given(a.guidsExtra);
    if extraPath.Some? {
      var extra := fs.Read(extraPath.value);
      if extra.None? {
        return false;
      }
      guids := LoadGuids(extra.value, guids);
    }
    var outPath := OutPath(a);
    if a.logInput !in fs.contents {
      return false;
    }
    if a.logInput != outPath {
      fs.CopyFile(a.logInput, outPath);
    }
    var data := fs.Read(outPath);
    var filedata := ReplaceLoop(data.value, guids);
    fs.Write(outPath, filedata);
    ok := true;
  }

  /** With -o naming another file the log is left as it was; without -o it
      is rewritten in place. */
  lemma OutputChoice(files: map<string, string>, a: Args)
    requires Readable(files, a)
    ensures var after := files[OutPath(a) := ApplyAll(files[a.logInput], GuidMap(files, a))];
      && (Given(a.logOutput).Some? && a.logOutput.value != a.logInput ==> after[a.logInput] == files[a.logInput])
      && (Given(a.logOutput).None? ==> after[a.logInput] == ApplyAll(files[a.logInput], GuidMap(files, a)))
  {
  }

  /** The extra file wins: a key it defines takes its name, any other key
      keeps the name of the base file, and the base file's keys come first
      in the order they were read. */
  lemma ExtraOverrides(files: map<string, string>, a: Args, key: string)
    requires Readable(files, a) && Given(a.guidsExtra).Some?
    ensures var extra := AddLines([], Lines(files[Given(a.guidsExtra).value]));
      var base := AddLines([], Lines(files[a.guids]));
      && Get(GuidMap(files, a), key) == (match Get(extra, key) case Some(n) => Some(n) case None => Get(base, key))
      && |GuidMap(files, a)| >= |base|
      && forall i :: 0 <= i < |base| ==> GuidMap(files, a)[i].key == base[i].key
  {
    var base := AddLines([], Lines(files[a.guids]));
    LaterWins(base, Lines(files[Given(a.guidsExtra).value]), key);
    OrderKept(base, Lines(files[Given(a.guidsExtra).value]));
  }
}
