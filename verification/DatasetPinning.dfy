/** The prepared training data a queued run is pinned to, and what a worker is
    served for it: `backend/app/dataset_artifacts.py` and
    `backend/app/dataset_pinning.py`. SHA-256 is an uninterpreted function. */
module DatasetPinning {
  import opened Common

  // ------------------------------------------------------------------ //
  // One digest for a set of files
  // ------------------------------------------------------------------ //

  datatype Item = Item(name: string, sha: string)

  function Line(i: Item): string { i.name + ":" + i.sha }

  function Lines(files: seq<Item>): seq<string> { seq(|files|, i requires 0 <= i < |files| => Line(files[i])) }

  predicate Ascending(s: seq<string>) { forall i, j :: 0 <= i < j < |s| ==> Leq(s[i], s[j]) }

  function Insert(x: string, s: seq<string>): seq<string> {
    if s == [] || Leq(x, s[0]) then [x] + s else [s[0]] + Insert(x, s[1..])
  }

  function Sorted(s: seq<string>): seq<string> {
    if s == [] then [] else Insert(s[0], Sorted(s[1..]))
  }

  function Join(s: seq<string>): string {
    if s == [] then "" else if |s| == 1 then s[0] else s[0] + "\n" + Join(s[1..])
  }

  type Hash = string -> string

  function DatasetDigest(hash: Hash, files: seq<Item>): string { hash(Join(Sorted(Lines(files)))) }

  lemma {:induction false} InsertIsIn(x: string, s: seq<string>)
    requires Ascending(s)
    ensures Ascending(Insert(x, s)) && multiset(Insert(x, s)) == multiset(s) + multiset{x}
  {
    if s != [] && !Leq(x, s[0]) {
      InsertIsIn(x, s[1..]);
      LeqTotal(x, s[0]);
      assert s == [s[0]] + s[1..];
      ConsAscends(s[0], x, s[1..], Insert(x, s[1..]));
    } else if s != [] {
      forall j | 0 <= j < |s| ensures Leq(x, s[j]) {
        if j > 0 { LeqTransitive(x, s[0], s[j]); }
      }
    }
  }

  lemma ConsAscends(head: string, x: string, s: seq<string>, inserted: seq<string>)
    requires Ascending([head] + s) && Leq(head, x)
    requires Ascending(inserted) && multiset(inserted) == multiset(s) + multiset{x}
    ensures Ascending([head] + inserted)
  {
    forall j | 0 <= j < |inserted| ensures Leq(head, inserted[j]) {
      assert inserted[j] in multiset(inserted);
      if inserted[j] != x {
        var k :| 0 <= k < |s| && s[k] == inserted[j];
        assert ([head] + s)[0] == head && ([head] + s)[k + 1] == s[k];
      }
    }
  }

  lemma {:induction false} SortedIsSorted(s: seq<string>)
    ensures Ascending(Sorted(s)) && multiset(Sorted(s)) == multiset(s)
  {
    if s != [] {
      SortedIsSorted(s[1..]);
      InsertIsIn(s[0], Sorted(s[1..]));
      assert s == [s[0]] + s[1..];
    }
  }

  // There is one ascending arrangement of a multiset of lines.
  lemma {:induction false} OneArrangement(a: seq<string>, b: seq<string>)
    requires Ascending(a) && Ascending(b) && multiset(a) == multiset(b)
    ensures a == b
    decreases |a|
  {
    assert |a| == |multiset(a)| == |multiset(b)| == |b|;
    if a != [] {
      SameHead(a, b);
      OneArrangement(a[1..], b[1..]);
      assert a == [a[0]] + a[1..] && b == [b[0]] + b[1..];
    }
  }

  lemma SameHead(a: seq<string>, b: seq<string>)
    requires Ascending(a) && Ascending(b) && multiset(a) == multiset(b) && a != [] && b != []
    ensures a[0] == b[0] && Ascending(a[1..]) && Ascending(b[1..]) && multiset(a[1..]) == multiset(b[1..])
  {
    assert a[0] in multiset(a) && b[0] in multiset(b);
    Head(a, b[0]);
    Head(b, a[0]);
    LeqAntisymmetric(a[0], b[0]);
    TailOf(a);
    TailOf(b);
  }

  lemma TailOf(a: seq<string>)
    requires Ascending(a) && a != []
    ensures Ascending(a[1..]) && multiset(a[1..]) == multiset(a) - multiset{a[0]}
  {
    assert a == [a[0]] + a[1..];
  }

  lemma Head(a: seq<string>, x: string)
    requires Ascending(a) && x in multiset(a)
    ensures a != [] && Leq(a[0], x)
  {
    var i :| 0 <= i < |a| && a[i] == x;
    LeqTotal(x, x);
  }

  lemma {:induction false} JoinIsInjective(a: seq<string>, b: seq<string>)
    requires forall i :: 0 <= i < |a| ==> a[i] != "" && '\n' !in a[i]
    requires forall i :: 0 <= i < |b| ==> b[i] != "" && '\n' !in b[i]
    requires Join(a) == Join(b)
    ensures a == b
    decreases |a|
  {
    if a != [] && b != [] {
      FirstLine(a);
      FirstLine(b);
      assert a[0] == b[0];
      assert a == [a[0]] + a[1..] && b == [b[0]] + b[1..];
      if |a| > 1 && |b| > 1 {
        assert Join(a) == a[0] + "\n" + Join(a[1..]) && Join(b) == b[0] + "\n" + Join(b[1..]);
        assert Join(a[1..]) == Join(a)[|a[0]| + 1..] && Join(b[1..]) == Join(b)[|b[0]| + 1..];
        JoinIsInjective(a[1..], b[1..]);
      }
    }
  }

  lemma FirstLine(a: seq<string>)
    requires a != [] && '\n' !in a[0]
    ensures UpTo(Join(a), '\n') == |a[0]| <= |Join(a)| && Join(a)[..|a[0]|] == a[0]
    ensures |Join(a)| == |a[0]| <==> |a| == 1
  {
    if |a| == 1 {
      UpToFinds(a[0], '\n', "");
    } else {
      UpToFinds(a[0], '\n', Join(a[1..]));
      assert Join(a) == a[0] + ['\n'] + Join(a[1..]);
    }
  }

  predicate Plain(i: Item) { ':' !in i.name && '\n' !in i.name && '\n' !in i.sha }

  lemma LineIsInjective(a: Item, b: Item)
    requires Plain(a) && Plain(b) && Line(a) == Line(b)
    ensures a == b
  {
    assert Line(a) == a.name + [':'] + a.sha && Line(b) == b.name + [':'] + b.sha;
    UpToFinds(a.name, ':', a.sha);
    UpToFinds(b.name, ':', b.sha);
    assert a.name == Line(a)[..|a.name|] && b.name == Line(b)[..|b.name|];
    assert a.sha == Line(a)[|a.name| + 1..] && b.sha == Line(b)[|b.name| + 1..];
  }

  lemma LinesArePlain(files: seq<Item>)
    requires forall i :: 0 <= i < |files| ==> Plain(files[i])
    ensures forall line :: line in multiset(Lines(files)) ==> line != "" && '\n' !in line
  {
    forall line | line in multiset(Lines(files)) ensures line != "" && '\n' !in line {
      var i :| 0 <= i < |files| && Lines(files)[i] == line;
      assert Plain(files[i]);
      assert line == files[i].name + ":" + files[i].sha;
    }
  }

  ghost predicate CollisionFree(hash: Hash) { forall a, b :: hash(a) == hash(b) ==> a == b }

  lemma {:induction false} LinesCountItems(files: seq<Item>, x: Item)
    requires Plain(x) && forall i :: 0 <= i < |files| ==> Plain(files[i])
    ensures multiset(Lines(files))[Line(x)] == multiset(files)[x]
  {
    if files == [] {
      assert Lines(files) == [];
    } else {
      var rest, last := files[..|files| - 1], files[|files| - 1];
      LinesCountItems(rest, x);
      assert files == rest + [last];
      assert Lines(files) == Lines(rest) + [Line(last)];
      if Line(last) == Line(x) { LineIsInjective(last, x); }
    }
  }

  // Main result: the digest stands for the files exactly. The order they were
  // listed in never matters, and with a collision-free hash nothing else that
  // differs in a name or a file digest shares it.
  lemma DigestIdentifiesFiles(hash: Hash, a: seq<Item>, b: seq<Item>)
    requires forall i :: 0 <= i < |a| ==> Plain(a[i])
    requires forall i :: 0 <= i < |b| ==> Plain(b[i])
    ensures multiset(a) == multiset(b) ==> DatasetDigest(hash, a) == DatasetDigest(hash, b)
    ensures CollisionFree(hash) ==> (DatasetDigest(hash, a) == DatasetDigest(hash, b) <==> multiset(a) == multiset(b))
  {
    SortedIsSorted(Lines(a));
    SortedIsSorted(Lines(b));
    if multiset(a) == multiset(b) {
      SameLines(a, b);
      OneArrangement(Sorted(Lines(a)), Sorted(Lines(b)));
    }
    if CollisionFree(hash) && DatasetDigest(hash, a) == DatasetDigest(hash, b) {
      SortedPlain(a);
      SortedPlain(b);
      JoinIsInjective(Sorted(Lines(a)), Sorted(Lines(b)));
      SameItems(a, b);
    }
  }

  lemma SortedPlain(a: seq<Item>)
    requires forall i :: 0 <= i < |a| ==> Plain(a[i])
    ensures forall i :: 0 <= i < |Sorted(Lines(a))| ==> Sorted(Lines(a))[i] != "" && '\n' !in Sorted(Lines(a))[i]
  {
    SortedIsSorted(Lines(a));
    LinesArePlain(a);
    forall i | 0 <= i < |Sorted(Lines(a))| ensures Sorted(Lines(a))[i] in multiset(Lines(a)) {
      assert Sorted(Lines(a))[i] in multiset(Sorted(Lines(a)));
    }
  }

  lemma SameLines(a: seq<Item>, b: seq<Item>)
    requires multiset(a) == multiset(b)
    requires forall i :: 0 <= i < |a| ==> Plain(a[i])
    requires forall i :: 0 <= i < |b| ==> Plain(b[i])
    ensures multiset(Lines(a)) == multiset(Lines(b))
  {
    forall line ensures multiset(Lines(a))[line] == multiset(Lines(b))[line] {
      if i :| 0 <= i < |a| && Line(a[i]) == line {
        LinesCountItems(a, a[i]);
        LinesCountItems(b, a[i]);
      } else {
        forall j | 0 <= j < |b| ensures Line(b[j]) != line { assert b[j] in multiset(b) && b[j] in a; }
        assert line !in Lines(a) && line !in Lines(b);
      }
    }
  }

  lemma SameItems(a: seq<Item>, b: seq<Item>)
    requires multiset(Lines(a)) == multiset(Lines(b))
    requires forall i :: 0 <= i < |a| ==> Plain(a[i])
    requires forall i :: 0 <= i < |b| ==> Plain(b[i])
    ensures multiset(a) == multiset(b)
  {
    forall x ensures multiset(a)[x] == multiset(b)[x] {
      if x in a || x in b {
        LinesCountItems(a, x);
        LinesCountItems(b, x);
      }
    }
  }

  // ------------------------------------------------------------------ //
  // Describing what is on disk
  // ------------------------------------------------------------------ //

  datatype File = File(lines: seq<string>, bytes: nat)

  type Directory = map<string, File>

  // How files are hashed, and which manifests parse.
  datatype Reader = Reader(digest: File -> string, hash: Hash, manifestOk: File -> bool)

  const TRAIN := "train.jsonl"
  const VALIDATION := "validation.jsonl"
  const MANIFEST := "manifest.json"
  const SUMMARY := "approved-export-summary.json"
  const DATASET_FILES: seq<string> := [TRAIN, VALIDATION, MANIFEST, SUMMARY]
  const MAX_BYTES: nat := 64 * 1024 * 1024

  predicate Blank(line: string) { forall i :: 0 <= i < |line| ==> line[i] in {' ', '\t', '\n', '\r'} }

  function Records(lines: seq<string>): nat {
    if lines == [] then 0 else Records(lines[..|lines| - 1]) + if Blank(lines[|lines| - 1]) then 0 else 1
  }

  // The lines that hold something, by number.
  function RecordLines(lines: seq<string>): set<nat> {
    set i: nat | i < |lines|
                 && exists c :: c in lines[i] && c != ' ' && c != '\t' && c != '\n' && c != '\r'
  }

  lemma {:induction false} RecordsAreLines(lines: seq<string>)
    ensures Records(lines) == |RecordLines(lines)|
  {
    if lines == [] {
      assert RecordLines(lines) == {};
    } else {
      var n := |lines| - 1;
      var init := lines[..n];
      RecordsAreLines(init);
      if Blank(lines[n]) {
        assert RecordLines(lines) == RecordLines(init);
      } else {
        var i :| 0 <= i < |lines[n]| && lines[n][i] !in {' ', '\t', '\n', '\r'};
        assert lines[n][i] in lines[n];
        assert RecordLines(lines) == RecordLines(init) + {n};
      }
    }
  }

  method CountJsonlRecords(lines: seq<string>) returns (count: nat)
    ensures count == Records(lines) == |RecordLines(lines)|
  {
    count := 0;
    for i := 0 to |lines|
      invariant count == Records(lines[..i])
    {
      assert lines[..i + 1][..i] == lines[..i];
      if !Blank(lines[i]) { count := count + 1; }
    }
    assert lines[..|lines|] == lines;
    RecordsAreLines(lines);
  }

  datatype Description = Description(ref: string, files: seq<Item>, train: nat, validation: nat, digest: string)

  predicate Complete(d: Directory) { TRAIN in d && VALIDATION in d && MANIFEST in d }

  predicate Describable(r: Reader, d: Option<Directory>) {
    d.Some? && Complete(d.value)
    && (forall name :: name in DATASET_FILES && name in d.value ==> d.value[name].bytes <= MAX_BYTES)
    && r.manifestOk(d.value[MANIFEST])
  }

  // The files of a dataset that are there, in the fixed order.
  function Listed(r: Reader, d: Directory, names: seq<string>): seq<Item> {
    if names == [] then []
    else
      var last := names[|names| - 1];
      Listed(r, d, names[..|names| - 1]) + if last in d then [Item(last, r.digest(d[last]))] else []
  }

  function RefFor(course: string): string { "exports/" + course }

  const NAMES: set<string> := {"train.jsonl", "validation.jsonl", "manifest.json", "approved-export-summary.json"}

  // What can be described: three files must be there, none of the four known
  // ones may pass 64 MiB, and the manifest must parse.
  lemma DescribableIff(r: Reader, d: Directory)
    ensures Describable(r, Some(d)) <==>
              "train.jsonl" in d && "validation.jsonl" in d && "manifest.json" in d
              && (forall name :: name in NAMES && name in d ==> d[name].bytes <= 67_108_864)
              && r.manifestOk(d["manifest.json"])
    ensures !Describable(r, None)
  {
    forall name ensures name in NAMES <==> name in DATASET_FILES {}
  }

  // The files described are the known ones that are there, with their digests.
  lemma DescribedFiles(r: Reader, d: Directory, x: Item)
    requires HexDigests(r)
    ensures x in Listed(r, d, DATASET_FILES) <==> x.name in NAMES && x.name in d && x.sha == r.digest(d[x.name])
  {
    DatasetNamesArePlain();
    ListedAre(r, d, DATASET_FILES);
  }

  // None is the DatasetArtifactError.
  method DescribeDataset(r: Reader, course: string, d: Option<Directory>) returns (described: Option<Description>)
    ensures described.Some? <==> Describable(r, d)
    ensures described.Some? ==>
              var files := Listed(r, d.value, DATASET_FILES);
              described.value
              == Description("exports/" + course, files, |RecordLines(d.value["train.jsonl"].lines)|,
                             |RecordLines(d.value["validation.jsonl"].lines)|, DatasetDigest(r.hash, files))
  {
    if d.None? || !Complete(d.value) { return None; }
    var files: seq<Item> := [];
    for i := 0 to |DATASET_FILES|
      invariant files == Listed(r, d.value, DATASET_FILES[..i])
      invariant forall k :: 0 <= k < i && DATASET_FILES[k] in d.value ==> d.value[DATASET_FILES[k]].bytes <= MAX_BYTES
    {
      var name := DATASET_FILES[i];
      assert DATASET_FILES[..i + 1][..i] == DATASET_FILES[..i];
      if name in d.value {
        if d.value[name].bytes > MAX_BYTES { return None; }
        files := files + [Item(name, r.digest(d.value[name]))];
      }
    }
    assert DATASET_FILES[..|DATASET_FILES|] == DATASET_FILES;
    if !r.manifestOk(d.value[MANIFEST]) { return None; }
    var train := CountJsonlRecords(d.value[TRAIN].lines);
    var validation := CountJsonlRecords(d.value[VALIDATION].lines);
    described := Some(Description(RefFor(course), files, train, validation, DatasetDigest(r.hash, files)));
  }

  // ------------------------------------------------------------------ //
  // Pinning and serving
  // ------------------------------------------------------------------ //

  datatype Pinned = Pinned(digest: string) | NotPrepared | WrongReference | CountsChanged

  method PinDatasetForEnqueue(r: Reader, course: string, d: Option<Directory>, ref: string, train: int, validation: int)
      returns (p: Pinned)
    ensures p.NotPrepared? <==> !Describable(r, d)
    ensures p.WrongReference? <==> Describable(r, d) && ref != "exports/" + course
    ensures p.Pinned? <==>
              Describable(r, d) && ref == "exports/" + course
              && train == |RecordLines(d.value["train.jsonl"].lines)|
              && validation == |RecordLines(d.value["validation.jsonl"].lines)|
    ensures p.Pinned? ==> p.digest == DatasetDigest(r.hash, Listed(r, d.value, DATASET_FILES))
  {
    var described := DescribeDataset(r, course, d);
    if described.None? { return NotPrepared; }
    if ref != described.value.ref { return WrongReference; }
    if train != described.value.train || validation != described.value.validation { return CountsChanged; }
    p := Pinned.Pinned(described.value.digest);
  }

  datatype Served = Served(described: Description) | Unusable | Mismatched

  // What a run row says about its data; an empty pin is a run queued before
  // runs were pinned.
  method ResolveRunDataset(r: Reader, course: string, storedRef: string, pin: string, d: Option<Directory>)
      returns (s: Served)
    ensures s.Served? <==>
              (storedRef == "" || storedRef == "exports/" + course) && Describable(r, d)
              && (pin == "" || pin == DatasetDigest(r.hash, Listed(r, d.value, DATASET_FILES)))
    ensures s.Served? ==> s.described.files == Listed(r, d.value, DATASET_FILES)
    ensures s.Mismatched? ==> Describable(r, d) && pin != ""
  {
    if storedRef != "" && storedRef != RefFor(course) { return Unusable; }
    var described := DescribeDataset(r, course, d);
    if described.None? { return Unusable; }
    if pin != "" && pin != described.value.digest { return Mismatched; }
    s := Served.Served(described.value);
  }

  // File digests are hexadecimal.
  ghost predicate HexDigests(r: Reader) { forall f :: '\n' !in r.digest(f) }

  predicate PlainName(name: string) { ':' !in name && '\n' !in name }

  lemma {:induction false} ListedAre(r: Reader, d: Directory, names: seq<string>)
    requires HexDigests(r) && forall i :: 0 <= i < |names| ==> PlainName(names[i])
    ensures forall x :: x in Listed(r, d, names) ==> Plain(x)
    ensures forall x: Item :: x in Listed(r, d, names) <==>
              x.name in names && x.name in d && x.sha == r.digest(d[x.name])
  {
    if names != [] {
      var rest, last := names[..|names| - 1], names[|names| - 1];
      ListedAre(r, d, rest);
      assert names == rest + [last];
    }
  }

  lemma DatasetNamesArePlain()
    ensures forall i :: 0 <= i < |DATASET_FILES| ==> PlainName(DATASET_FILES[i])
  {
    assert PlainName(TRAIN) && PlainName(VALIDATION) && PlainName(MANIFEST) && PlainName(SUMMARY);
  }

  predicate SameNamed(r: Reader, a: Directory, b: Directory, name: string) {
    (name in a <==> name in b) && (name in a && name in b ==> r.digest(a[name]) == r.digest(b[name]))
  }

  predicate SameNamedDigests(r: Reader, a: Directory, b: Directory) {
    forall name :: name in DATASET_FILES ==> SameNamed(r, a, b, name)
  }

  lemma SameItem(r: Reader, a: Directory, b: Directory, name: string, x: seq<Item>, y: seq<Item>)
    requires multiset(x) == multiset(y) && name in DATASET_FILES
    requires forall i: Item :: i in x <==> i.name in DATASET_FILES && i.name in a && i.sha == r.digest(a[i.name])
    requires forall i: Item :: i in y <==> i.name in DATASET_FILES && i.name in b && i.sha == r.digest(b[i.name])
    ensures SameNamed(r, a, b, name)
  {
    if name in a {
      var i := Item(name, r.digest(a[name]));
      assert i in multiset(x);
      assert i in y;
    }
    if name in b {
      var i := Item(name, r.digest(b[name]));
      assert i in multiset(y);
      assert i in x;
    }
  }

  // Main result: a run pinned to the files in `queued` is served the files in
  // `now` exactly when they are, name for name and digest for digest, the
  // same files.
  lemma PinnedRunGetsItsOwnData(r: Reader, queued: Directory, now: Directory)
    requires HexDigests(r) && CollisionFree(r.hash)
    ensures DatasetDigest(r.hash, Listed(r, now, DATASET_FILES))
            == DatasetDigest(r.hash, Listed(r, queued, DATASET_FILES))
            <==> forall name :: name in NAMES ==>
                   (name in queued <==> name in now)
                   && (name in queued && name in now ==> r.digest(queued[name]) == r.digest(now[name]))
  {
    assert SameNamedDigests(r, queued, now) <==> forall name :: name in NAMES ==> SameNamed(r, queued, now, name);
    var a, b := Listed(r, queued, DATASET_FILES), Listed(r, now, DATASET_FILES);
    DatasetNamesArePlain();
    ListedAre(r, queued, DATASET_FILES);
    ListedAre(r, now, DATASET_FILES);
    assert (forall i :: 0 <= i < |a| ==> Plain(a[i])) && (forall i :: 0 <= i < |b| ==> Plain(b[i]));
    DigestIdentifiesFiles(r.hash, b, a);
    if multiset(a) == multiset(b) {
      forall name | name in DATASET_FILES ensures SameNamed(r, queued, now, name) {
        SameItem(r, queued, now, name, a, b);
      }
    }
    if SameNamedDigests(r, queued, now) { SameListing(r, queued, now, DATASET_FILES); }
  }

  lemma {:induction false} SameListing(r: Reader, a: Directory, b: Directory, names: seq<string>)
    requires forall name :: name in names ==> SameNamed(r, a, b, name)
    ensures Listed(r, a, names) == Listed(r, b, names)
  {
    if names != [] {
      assert SameNamed(r, a, b, names[|names| - 1]);
      SameListing(r, a, b, names[..|names| - 1]);
    }
  }
}
