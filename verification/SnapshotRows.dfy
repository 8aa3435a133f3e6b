/** The rows of an import, read off the export by path: what
    `backend/app/firebase_snapshot.py:600-660` makes of `courses/{id}/...`. */
module SnapshotRows {
  import opened Common
  import opened Snapshot

  // ------------------------------------------------------------------ //
  // The export by path
  // ------------------------------------------------------------------ //

  // A parsed JSON object has each key once.
  ghost predicate Parsed(j: Json) {
    j.Object? ==> DistinctKeys(j.fields) && forall i :: 0 <= i < |j.fields| ==> Parsed(j.fields[i].1)
  }

  ghost predicate Has(j: Json, key: string) { j.Object? && exists i :: 0 <= i < |j.fields| && j.fields[i].0 == key }

  // What is under the key, null if nothing is.
  ghost function At(j: Json, key: string): Json {
    if j.Object? && exists i :: 0 <= i < |j.fields| && j.fields[i].0 == key then
      var i :| 0 <= i < |j.fields| && j.fields[i].0 == key;
      j.fields[i].1
    else Null
  }

  lemma AtIs(j: Json, i: nat)
    requires j.Object? && DistinctKeys(j.fields) && i < |j.fields|
    ensures Has(j, j.fields[i].0) && At(j, j.fields[i].0) == j.fields[i].1
  {
  }

  lemma {:induction false} GetIsAt(fields: Fields, key: string)
    requires DistinctKeys(fields)
    ensures Get(fields, key) == At(Object(fields), key)
  {
    if fields != [] {
      var rest := fields[1..];
      GetIsAt(rest, key);
      if fields[0].0 == key {
        AtIs(Object(fields), 0);
      } else if Has(Object(rest), key) {
        var i :| 0 <= i < |rest| && rest[i].0 == key;
        AtIs(Object(rest), i);
        assert fields[i + 1] == rest[i];
        AtIs(Object(fields), i + 1);
      } else {
        forall i | 0 <= i < |fields| ensures fields[i].0 != key {
          if i > 0 { assert fields[i] == rest[i - 1]; }
        }
      }
    }
  }

  lemma PartIsParsed(j: Json, key: string)
    requires Parsed(j)
    ensures Parsed(At(j, key)) && Get(FieldsOf(j), key) == At(j, key)
  {
    if j.Object? { GetIsAt(j.fields, key); } else { assert FieldsOf(j) == []; }
  }

  // ------------------------------------------------------------------ //
  // Which courses can be imported
  // ------------------------------------------------------------------ //

  ghost predicate RecordRead(reader: Readable, table: Table, record: Json) {
    record.Object? && reader(table, record.fields)
  }

  // A node of records: none, or an object of records that can all be read.
  ghost predicate RecordsRead(reader: Readable, table: Table, node: Json) {
    node.Null? || (node.Object? && forall i :: 0 <= i < |node.fields| ==> RecordRead(reader, table, node.fields[i].1))
  }

  ghost predicate Current(model: Json, v: string) { At(model, "currentVersion") == Text(v) && |v| > 0 }

  // The registry's pointer names one of its versions, or there are neither.
  ghost predicate RegistryRead(reader: Readable, model: Json) {
    model.Null?
    || (model.Object? && RecordsRead(reader, Versions, At(model, "versions"))
        && if exists v :: Current(model, v) then exists v :: Current(model, v) && Has(At(model, "versions"), v)
           else forall v :: !Has(At(model, "versions"), v))
  }

  // Exactly when a course can be imported.
  lemma CourseMapsIff(reader: Readable, id: string, raw: Json)
    requires Parsed(raw)
    ensures var metadata := At(raw, "metadata");
            var starter, request := At(metadata, "starterSeedGeneration"), At(raw, "modelRequest");
            CourseMaps(reader, id, raw) <==>
              ValidCourseId(id) && raw.Object? && RecordRead(reader, Courses, metadata)
              && (starter.Null? || RecordRead(reader, Starters, starter))
              && RecordsRead(reader, Seeds, At(raw, "seedExamples"))
              && RecordsRead(reader, Evaluations, At(raw, "evaluations"))
              && RegistryRead(reader, At(raw, "model"))
              && (request.Null? || RecordRead(reader, Requests, request))
              && RecordsRead(reader, Runs, At(raw, "trainingRuns"))
  {
    PartIsParsed(raw, "metadata");
    PartIsParsed(At(raw, "metadata"), "starterSeedGeneration");
    PartIsParsed(raw, "model");
    PartIsParsed(raw, "modelRequest");
    ModelMapsIff(reader, At(raw, "model"));
    ChildrenIff(reader, Seeds, raw, "seedExamples");
    ChildrenIff(reader, Evaluations, raw, "evaluations");
    ChildrenIff(reader, Runs, raw, "trainingRuns");
  }

  lemma ChildrenIff(reader: Readable, table: Table, j: Json, key: string)
    requires Parsed(j)
    ensures ChildrenMap(reader, table, FieldsOf(j), key) <==> RecordsRead(reader, table, At(j, key))
    ensures Records(FieldsOf(j), key) == if At(j, key).Object? then At(j, key).fields else []
  {
    PartIsParsed(j, key);
    var node := At(j, key);
    if node.Object? {
      assert Records(FieldsOf(j), key) == node.fields;
      if RecordsRead(reader, table, node) {
        forall i | 0 <= i < |node.fields| ensures Maps(reader, table, node.fields[i].1) {
          assert RecordRead(reader, table, node.fields[i].1);
        }
      }
      if AllMap(reader, table, node.fields) {
        forall i | 0 <= i < |node.fields| ensures RecordRead(reader, table, node.fields[i].1) {
          assert Maps(reader, table, node.fields[i].1);
        }
      }
    }
  }

  lemma CurrentIs(model: Json, v: string)
    requires Parsed(model)
    ensures CurrentVersion(model) == Some(v) <==> Current(model, v)
  {
    PartIsParsed(model, "currentVersion");
  }

  lemma KeysAre(fields: Fields, key: string)
    ensures key in Keys(fields) <==> Has(Object(fields), key)
  {
    if i :| 0 <= i < |fields| && fields[i].0 == key { assert Keys(fields)[i] == key; }
  }

  lemma ModelMapsIff(reader: Readable, model: Json)
    requires Parsed(model)
    ensures ModelMaps(reader, model) <==> RegistryRead(reader, model)
  {
    if model.Object? {
      ChildrenIff(reader, Versions, model, "versions");
      var versions := Records(model.fields, "versions");
      forall v ensures CurrentVersion(model) == Some(v) <==> Current(model, v) { CurrentIs(model, v); }
      forall v ensures v in Keys(versions) <==> Has(At(model, "versions"), v) { KeysAre(versions, v); }
      if versions != [] { assert Keys(versions)[0] in Keys(versions); } else { assert Keys(versions) == []; }
      if CurrentVersion(model).Some? { assert Current(model, CurrentVersion(model).value); }
    }
  }

  // ------------------------------------------------------------------ //
  // Which rows they become
  // ------------------------------------------------------------------ //

  lemma KeyedAre(course: string, records: Fields, c: string, k: string)
    ensures (c, k) in Keyed(course, records) <==> c == course && Has(Object(records), k)
  {
    if i :| 0 <= i < |records| && records[i].0 == k {
      assert Keyed(course, records)[i] == (course, k);
    }
  }

  lemma ChildRows(course: string, j: Json, key: string, c: string, k: string)
    requires Parsed(j)
    ensures (c, k) in Keyed(course, Records(FieldsOf(j), key)) <==> c == course && Has(At(j, key), k)
  {
    ChildrenIff((t, f) => true, Seeds, j, key);
    KeyedAre(course, Records(FieldsOf(j), key), c, k);
  }

  // The rows of one course, table by table.
  ghost predicate Reads(p: Plan, course: string, raw: Json, c: string, k: string) {
    (c in p.courses <==> c == course)
    && (c in p.starters <==> c == course && At(At(raw, "metadata"), "starterSeedGeneration") != Null)
    && (c in p.requests <==> c == course && At(raw, "modelRequest") != Null)
    && ((c, k) in p.seeds <==> c == course && Has(At(raw, "seedExamples"), k))
    && ((c, k) in p.evaluations <==> c == course && Has(At(raw, "evaluations"), k))
    && ((c, k) in p.runs <==> c == course && Has(At(raw, "trainingRuns"), k))
    && ((c, k) in p.versions <==> c == course && Has(At(At(raw, "model"), "versions"), k))
    && ((c, k) in p.models <==> c == course && Current(At(raw, "model"), k))
  }

  lemma OneCourse(course: string, raw: Json, c: string, k: string)
    requires Parsed(raw)
    ensures Reads(RowsOf(course, raw), course, raw, c, k)
  {
    PartIsParsed(raw, "metadata");
    PartIsParsed(At(raw, "metadata"), "starterSeedGeneration");
    PartIsParsed(raw, "model");
    PartIsParsed(raw, "modelRequest");
    CurrentIs(At(raw, "model"), k);
    ChildRows(course, raw, "seedExamples", c, k);
    ChildRows(course, raw, "evaluations", c, k);
    ChildRows(course, raw, "trainingRuns", c, k);
    ChildRows(course, At(raw, "model"), "versions", c, k);
  }

  lemma SumReads(a: Plan, b: Plan, c: string, k: string)
    ensures var p := Added(a, b);
            (c in p.courses <==> c in a.courses || c in b.courses)
            && (c in p.starters <==> c in a.starters || c in b.starters)
            && (c in p.requests <==> c in a.requests || c in b.requests)
            && ((c, k) in p.seeds <==> (c, k) in a.seeds || (c, k) in b.seeds)
            && ((c, k) in p.evaluations <==> (c, k) in a.evaluations || (c, k) in b.evaluations)
            && ((c, k) in p.runs <==> (c, k) in a.runs || (c, k) in b.runs)
            && ((c, k) in p.versions <==> (c, k) in a.versions || (c, k) in b.versions)
            && ((c, k) in p.models <==> (c, k) in a.models || (c, k) in b.models)
  {
  }

  // No rows of a course that is not in the node; the course's own otherwise.
  ghost predicate ReadsNode(p: Plan, node: Fields, c: string, k: string) {
    if Has(Object(node), c) then Reads(p, c, At(Object(node), c), c, k)
    else c !in p.courses && c !in p.starters && c !in p.requests && (c, k) !in p.seeds && (c, k) !in p.evaluations
         && (c, k) !in p.runs && (c, k) !in p.versions && (c, k) !in p.models
  }

  // Main result: a row is in the plan exactly when its record is at its path
  // in the export.
  lemma {:induction false} RowsAreRecords(node: Fields, c: string, k: string)
    requires Parsed(Object(node))
    ensures ReadsNode(AllRows(node), node, c, k)
    decreases |node|
  {
    if node != [] {
      var n := |node| - 1;
      var init, last := node[..n], node[n];
      assert Parsed(Object(init)) by {
        forall i | 0 <= i < n ensures Parsed(init[i].1) { assert init[i] == node[i] && Parsed(node[i].1); }
      }
      assert Parsed(last.1);
      RowsAreRecords(init, c, k);
      OneCourse(last.0, last.1, c, k);
      SumReads(AllRows(init), RowsOf(last.0, last.1), c, k);
      LastCourse(node, c);
    }
  }

  lemma LastCourse(node: Fields, c: string)
    requires node != [] && DistinctKeys(node)
    ensures var n := |node| - 1;
            (Has(Object(node), c) <==> c == node[n].0 || Has(Object(node[..n]), c))
            && (c == node[n].0 ==> At(Object(node), c) == node[n].1 && !Has(Object(node[..n]), c))
            && (c != node[n].0 ==> At(Object(node), c) == At(Object(node[..n]), c))
  {
    var n := |node| - 1;
    var init := node[..n];
    AtIs(Object(node), n);
    if i :| 0 <= i < |node| && node[i].0 == c && i < n {
      assert init[i] == node[i];
      AtIs(Object(init), i);
      AtIs(Object(node), i);
    }
  }

  // The node the courses are read from: the object under `courses`, or the
  // root itself.
  lemma CoursesNodeIs(payload: Json)
    requires Parsed(payload)
    ensures CoursesNode(payload)
            == (if !payload.Object? then None
                else if At(payload, "courses").Object? then Some(At(payload, "courses").fields)
                else Some(payload.fields))
  {
    PartIsParsed(payload, "courses");
  }

  // ------------------------------------------------------------------ //
  // Course identifiers
  // ------------------------------------------------------------------ //

  // A word of lower-case letters and digits.
  predicate Word(w: string) {
    |w| > 0 && forall c :: c in w ==> 'a' <= c <= 'z' || '0' <= c <= '9'
  }

  function Hyphened(words: seq<string>): string
    requires words != []
  {
    if |words| == 1 then words[0] else words[0] + "-" + Hyphened(words[1..])
  }

  ghost predicate Slug(id: string) {
    exists words: seq<string> :: words != [] && (forall w :: w in words ==> Word(w)) && id == Hyphened(words)
  }

  // Exactly the words joined by single hyphens.
  lemma ValidCourseIdIff(id: string)
    ensures ValidCourseId(id) <==> Slug(id)
  {
    if ValidCourseId(id) { var words := WordsOf(id); }
    if Slug(id) {
      var words: seq<string> :| words != [] && (forall w :: w in words ==> Word(w)) && id == Hyphened(words);
      HyphenedIsValid(words);
    }
  }

  lemma {:induction false} WordsOf(id: string) returns (words: seq<string>)
    requires ValidCourseId(id)
    ensures words != [] && (forall w :: w in words ==> Word(w)) && id == Hyphened(words)
    decreases |id|
  {
    if '-' in id {
      UpToSplits(id, '-');
      var n := UpTo(id, '-');
      PartsAreValid(id, n);
      var rest := WordsOf(id[n + 1..]);
      words := [id[..n]] + rest;
      assert words[1..] == rest;
      assert id == id[..n] + "-" + id[n + 1..];
    } else {
      words := [id];
      forall c | c in id ensures 'a' <= c <= 'z' || '0' <= c <= '9' { var i :| 0 <= i < |id| && id[i] == c; }
    }
  }

  lemma PartsAreValid(id: string, n: nat)
    requires ValidCourseId(id) && n < |id| && id[n] == '-' && '-' !in id[..n]
    ensures Word(id[..n]) && n + 1 < |id| && ValidCourseId(id[n + 1..])
  {
    var head, tail := id[..n], id[n + 1..];
    forall c | c in head ensures 'a' <= c <= 'z' || '0' <= c <= '9' {
      var i :| 0 <= i < n && head[i] == c;
      assert id[i] == c;
    }
    assert tail[0] == id[n + 1] && id[n] == '-';
    assert tail[|tail| - 1] == id[|id| - 1];
    assert forall i :: 0 <= i < |tail| ==> tail[i] == id[i + n + 1];
    forall i | 0 < i < |tail| ensures tail[i - 1] != '-' || tail[i] != '-' {
      assert tail[i - 1] == id[i + n] && tail[i] == id[i + n + 1];
    }
  }

  lemma WordIsValid(w: string)
    requires Word(w)
    ensures ValidCourseId(w) && '-' !in w
  {
    assert forall i :: 0 <= i < |w| ==> w[i] in w;
  }

  lemma {:induction false} HyphenedIsValid(words: seq<string>)
    requires words != [] && forall w :: w in words ==> Word(w)
    ensures ValidCourseId(Hyphened(words))
  {
    WordIsValid(words[0]);
    if |words| > 1 {
      HyphenedIsValid(words[1..]);
      JoinedIsValid(words[0], Hyphened(words[1..]));
    }
  }

  lemma JoinedIsValid(w: string, rest: string)
    requires Word(w) && ValidCourseId(rest)
    ensures ValidCourseId(w + "-" + rest)
  {
    WordIsValid(w);
    var id := w + "-" + rest;
    forall i | 0 <= i < |id| ensures 'a' <= id[i] <= 'z' || '0' <= id[i] <= '9' || id[i] == '-' {
      if i < |w| { assert id[i] == w[i]; } else if i > |w| { assert id[i] == rest[i - |w| - 1]; }
    }
    forall i | 0 < i < |id| ensures id[i - 1] != '-' || id[i] != '-' {
      if i <= |w| { assert id[i - 1] == w[i - 1] && w[i - 1] in w; }
      else if i > |w| + 1 { assert id[i] == rest[i - |w| - 1] && id[i - 1] == rest[i - |w| - 2]; }
      else { assert id[i] == rest[0]; }
    }
  }
}
