/** Turning a Firebase export into the rows of an import, all of them or none:
    `backend/app/firebase_snapshot.py:158-165,378-458,608-660`. Rows are
    identified by their primary keys; what the scalar readers make of a
    record's own fields is a parameter. */
module Snapshot {
  import opened Common

  // `Other` is a number, a boolean or an array. Fields have distinct keys.
  datatype Json = Null | Text(text: string) | Other | Object(fields: seq<(string, Json)>)

  type Fields = seq<(string, Json)>

  // `.get(key)`: absent and null are the same.
  function Get(fields: Fields, key: string): Json {
    if fields == [] then Null else if fields[0].0 == key then fields[0].1 else Get(fields[1..], key)
  }

  ghost predicate DistinctKeys(fields: Fields) {
    forall i, j :: 0 <= i < j < |fields| ==> fields[i].0 != fields[j].0
  }

  datatype Table = Courses | Starters | Seeds | Evaluations | Versions | Requests | Runs

  // Which records of a table map without an error, by their own fields.
  type Readable = (Table, Fields) -> bool

  predicate Maps(reader: Readable, table: Table, record: Json) {
    record.Object? && reader(table, record.fields)
  }

  // `_child_dict`: the records of a child node, or the error.
  function Children(parent: Fields, key: string): Option<Fields> {
    match Get(parent, key)
    case Null => Some([])
    case Object(fields) => Some(fields)
    case _ => None
  }

  function Records(parent: Fields, key: string): Fields {
    if Children(parent, key).Some? then Children(parent, key).value else []
  }

  function FieldsOf(record: Json): Fields { if record.Object? then record.fields else [] }

  function CurrentVersion(model: Json): Option<string> {
    match Get(FieldsOf(model), "currentVersion")
    case Text(text) => if text != "" then Some(text) else None
    case _ => None
  }

  function Keys(fields: Fields): seq<string> { seq(|fields|, i requires 0 <= i < |fields| => fields[i].0) }

  // ------------------------------------------------------------------ //
  // When a snapshot can be imported at all
  // ------------------------------------------------------------------ //

  ghost predicate AllMap(reader: Readable, table: Table, records: Fields) {
    forall i :: 0 <= i < |records| ==> Maps(reader, table, records[i].1)
  }

  ghost predicate ChildrenMap(reader: Readable, table: Table, parent: Fields, key: string) {
    Children(parent, key).Some? && AllMap(reader, table, Records(parent, key))
  }

  ghost predicate ModelMaps(reader: Readable, model: Json) {
    model.Null?
    || (model.Object? && ChildrenMap(reader, Versions, model.fields, "versions")
        && match CurrentVersion(model)
           case None => Records(model.fields, "versions") == []
           case Some(v) => v in Keys(Records(model.fields, "versions")))
  }

  predicate OptionalMaps(reader: Readable, table: Table, record: Json) { record.Null? || Maps(reader, table, record) }

  ghost predicate CourseMaps(reader: Readable, id: string, raw: Json) {
    ValidCourseId(id) && raw.Object?
    && Maps(reader, Courses, Get(raw.fields, "metadata"))
    && OptionalMaps(reader, Starters, Get(FieldsOf(Get(raw.fields, "metadata")), "starterSeedGeneration"))
    && ChildrenMap(reader, Seeds, raw.fields, "seedExamples")
    && ChildrenMap(reader, Evaluations, raw.fields, "evaluations")
    && ModelMaps(reader, Get(raw.fields, "model"))
    && OptionalMaps(reader, Requests, Get(raw.fields, "modelRequest"))
    && ChildrenMap(reader, Runs, raw.fields, "trainingRuns")
  }

  // Lower-case words of letters and digits joined by single hyphens.
  predicate ValidCourseId(id: string) {
    id != "" && id[0] != '-' && id[|id| - 1] != '-'
    && (forall i :: 0 <= i < |id| ==> 'a' <= id[i] <= 'z' || '0' <= id[i] <= '9' || id[i] == '-')
    && forall i :: 0 < i < |id| ==> id[i - 1] != '-' || id[i] != '-'
  }

  // ------------------------------------------------------------------ //
  // What it stands for
  // ------------------------------------------------------------------ //

  type RowKey = (string, string)   // course, child

  function Keyed(course: string, records: Fields): seq<RowKey> {
    seq(|records|, i requires 0 <= i < |records| => (course, records[i].0))
  }

  datatype Plan = Plan(
    courses: seq<string>,
    starters: seq<string>,
    seeds: seq<RowKey>,
    evaluations: seq<RowKey>,
    models: seq<RowKey>,             // course, current version
    versions: seq<RowKey>,
    requests: seq<string>,
    runs: seq<RowKey>)

  const NoRows := Plan([], [], [], [], [], [], [], [])

  function OneIf(present: bool, course: string): seq<string> { if present then [course] else [] }

  // The rows one course stands for.
  function RowsOf(course: string, raw: Json): Plan {
    var fields := FieldsOf(raw);
    var model := Get(fields, "model");
    var current := CurrentVersion(model);
    Plan([course],
         OneIf(!Get(FieldsOf(Get(fields, "metadata")), "starterSeedGeneration").Null?, course),
         Keyed(course, Records(fields, "seedExamples")),
         Keyed(course, Records(fields, "evaluations")),
         if current.Some? then [(course, current.value)] else [],
         Keyed(course, Records(FieldsOf(model), "versions")),
         OneIf(!Get(fields, "modelRequest").Null?, course),
         Keyed(course, Records(fields, "trainingRuns")))
  }

  function Added(a: Plan, b: Plan): Plan {
    Plan(a.courses + b.courses, a.starters + b.starters, a.seeds + b.seeds, a.evaluations + b.evaluations,
         a.models + b.models, a.versions + b.versions, a.requests + b.requests, a.runs + b.runs)
  }

  function AllRows(node: Fields): Plan {
    if node == [] then NoRows
    else
      var last := node[|node| - 1];
      Added(AllRows(node[..|node| - 1]), RowsOf(last.0, last.1))
  }

  // ------------------------------------------------------------------ //
  // The parser
  // ------------------------------------------------------------------ //

  // None is the SnapshotError, here and below.
  method MapRecords(reader: Readable, table: Table, course: string, parent: Fields, key: string)
      returns (rows: Option<seq<RowKey>>)
    ensures rows.Some? <==> ChildrenMap(reader, table, parent, key)
    ensures rows.Some? ==> rows.value == Keyed(course, Records(parent, key))
  {
    var children := Children(parent, key);
    if children.None? { return None; }
    var out: seq<RowKey> := [];
    for i := 0 to |children.value|
      invariant out == Keyed(course, children.value[..i])
      invariant AllMap(reader, table, children.value[..i])
    {
      assert children.value[..i + 1] == children.value[..i] + [children.value[i]];
      if !Maps(reader, table, children.value[i].1) {
        assert !AllMap(reader, table, children.value);
        return None;
      }
      out := out + [(course, children.value[i].0)];
    }
    assert children.value[..|children.value|] == children.value;
    rows := Some(out);
  }

  method MapModelRegistry(reader: Readable, course: string, raw: Json)
      returns (rows: Option<(Option<RowKey>, seq<RowKey>)>)
    ensures rows.Some? <==> ModelMaps(reader, raw)
    ensures rows.Some? ==>
              rows.value.0 == (if CurrentVersion(raw).Some? then Some((course, CurrentVersion(raw).value)) else None)
              && rows.value.1 == Keyed(course, Records(FieldsOf(raw), "versions"))
  {
    if raw.Null? { return Some((None, [])); }
    if !raw.Object? { return None; }
    var versions := MapRecords(reader, Versions, course, raw.fields, "versions");
    if versions.None? { return None; }
    var current := CurrentVersion(raw);
    if current.None? {
      if versions.value != [] { return None; }
      return Some((None, []));
    }
    var known := Keys(Records(raw.fields, "versions"));
    if current.value !in known { return None; }
    rows := Some((Some((course, current.value)), versions.value));
  }

  method MapCourse(reader: Readable, course: string, raw: Json) returns (rows: Option<Plan>)
    ensures rows.Some? <==> CourseMaps(reader, course, raw)
    ensures rows.Some? ==> rows.value == RowsOf(course, raw)
  {
    if !ValidCourseId(course) || !raw.Object? { return None; }
    var metadata := Get(raw.fields, "metadata");
    if !Maps(reader, Courses, metadata) { return None; }
    var starter := Get(metadata.fields, "starterSeedGeneration");
    if !OptionalMaps(reader, Starters, starter) { return None; }
    var seeds := MapRecords(reader, Seeds, course, raw.fields, "seedExamples");
    if seeds.None? { return None; }
    var evaluations := MapRecords(reader, Evaluations, course, raw.fields, "evaluations");
    if evaluations.None? { return None; }
    var model := MapModelRegistry(reader, course, Get(raw.fields, "model"));
    if model.None? { return None; }
    var request := Get(raw.fields, "modelRequest");
    if !OptionalMaps(reader, Requests, request) { return None; }
    var runs := MapRecords(reader, Runs, course, raw.fields, "trainingRuns");
    if runs.None? { return None; }
    rows := Some(Plan([course], OneIf(!starter.Null?, course), seeds.value, evaluations.value,
                      if model.value.0.Some? then [model.value.0.value] else [], model.value.1,
                      OneIf(!request.Null?, course), runs.value));
  }

  function CoursesNode(payload: Json): Option<Fields> {
    if !payload.Object? then None
    else if Get(payload.fields, "courses").Object? then Some(Get(payload.fields, "courses").fields)
    else Some(payload.fields)
  }

  lemma AllRowsStep(node: Fields, i: nat)
    requires i < |node|
    ensures AllRows(node[..i + 1]) == Added(AllRows(node[..i]), RowsOf(node[i].0, node[i].1))
  {
    assert node[..i + 1][..i] == node[..i];
  }

  ghost predicate AllCoursesMap(reader: Readable, node: Fields) {
    node == []
    || (AllCoursesMap(reader, node[..|node| - 1]) && CourseMaps(reader, node[|node| - 1].0, node[|node| - 1].1))
  }

  lemma {:induction false} AllCoursesMapIff(reader: Readable, node: Fields)
    ensures AllCoursesMap(reader, node) <==> forall i :: 0 <= i < |node| ==> CourseMaps(reader, node[i].0, node[i].1)
  {
    if node != [] {
      var init := node[..|node| - 1];
      AllCoursesMapIff(reader, init);
      forall i | 0 <= i < |init| ensures node[i] == init[i] {}
      if AllCoursesMap(reader, init) && CourseMaps(reader, node[|node| - 1].0, node[|node| - 1].1) {
        forall i | 0 <= i < |node| ensures CourseMaps(reader, node[i].0, node[i].1) {
          if i < |init| { assert CourseMaps(reader, init[i].0, init[i].1); }
        }
      }
    }
  }

  lemma {:induction false} PrefixMaps(reader: Readable, node: Fields, n: nat)
    requires n <= |node| && AllCoursesMap(reader, node)
    ensures AllCoursesMap(reader, node[..n])
  {
    if n < |node| {
      PrefixMaps(reader, node[..|node| - 1], n);
      assert node[..|node| - 1][..n] == node[..n];
    } else {
      assert node[..n] == node;
    }
  }

  lemma CoursesMapStep(reader: Readable, node: Fields, i: nat)
    requires i < |node|
    ensures AllCoursesMap(reader, node[..i + 1])
            <==> AllCoursesMap(reader, node[..i]) && CourseMaps(reader, node[i].0, node[i].1)
  {
    assert node[..i + 1][..i] == node[..i] && node[..i + 1][i] == node[i];
  }

  // One course's turn.
  method AddCourse(reader: Readable, node: Fields, i: nat, rows: Plan) returns (more: Option<Plan>)
    requires i < |node| && rows == AllRows(node[..i]) && AllCoursesMap(reader, node[..i])
    ensures more.Some? <==> AllCoursesMap(reader, node[..i + 1])
    ensures more.Some? ==> more.value == AllRows(node[..i + 1])
  {
    var course := MapCourse(reader, node[i].0, node[i].1);
    CoursesMapStep(reader, node, i);
    AllRowsStep(node, i);
    more := if course.None? then None else Some(Added(rows, course.value));
  }

  method ParseCourses(reader: Readable, node: Fields) returns (plan: Option<Plan>)
    ensures plan.Some? <==> AllCoursesMap(reader, node)
    ensures plan.Some? ==> plan.value == AllRows(node)
  {
    var rows := NoRows;
    for i := 0 to |node|
      invariant rows == AllRows(node[..i])
      invariant AllCoursesMap(reader, node[..i])
    {
      var more := AddCourse(reader, node, i, rows);
      if more.None? {
        if AllCoursesMap(reader, node) { PrefixMaps(reader, node, i + 1); }
        return None;
      }
      rows := more.value;
    }
    assert node[..|node|] == node;
    plan := Some(rows);
  }

  // Either every row of every course, or nothing: the plan exists exactly
  // when every course maps.
  method ParseSnapshot(reader: Readable, payload: Json) returns (plan: Option<Plan>)
    ensures plan.Some? <==>
              CoursesNode(payload).Some?
              && forall i :: 0 <= i < |CoursesNode(payload).value| ==>
                   CourseMaps(reader, CoursesNode(payload).value[i].0, CoursesNode(payload).value[i].1)
    ensures plan.Some? ==> plan.value == AllRows(CoursesNode(payload).value)
  {
    var node := CoursesNode(payload);
    if node.None? { return None; }
    plan := ParseCourses(reader, node.value);
    AllCoursesMapIff(reader, node.value);
  }

  // ------------------------------------------------------------------ //
  // Nothing dropped, nothing dangling, nothing twice
  // ------------------------------------------------------------------ //

  function Total(node: Fields, size: Json -> nat): nat {
    if node == [] then 0 else Total(node[..|node| - 1], size) + size(node[|node| - 1].1)
  }

  function SeedCount(raw: Json): nat { |Records(FieldsOf(raw), "seedExamples")| }
  function EvaluationCount(raw: Json): nat { |Records(FieldsOf(raw), "evaluations")| }
  function VersionCount(raw: Json): nat { |Records(FieldsOf(Get(FieldsOf(raw), "model")), "versions")| }
  function RunCount(raw: Json): nat { |Records(FieldsOf(raw), "trainingRuns")| }
  function StarterCount(raw: Json): nat {
    if Get(FieldsOf(Get(FieldsOf(raw), "metadata")), "starterSeedGeneration").Null? then 0 else 1
  }
  function RequestCount(raw: Json): nat { if Get(FieldsOf(raw), "modelRequest").Null? then 0 else 1 }
  function ModelCount(raw: Json): nat { if CurrentVersion(Get(FieldsOf(raw), "model")).None? then 0 else 1 }

  // The row counts of one course, table by table, are its record counts.
  ghost predicate CountsOfCourse(p: Plan, raw: Json) {
    |p.courses| == 1 && |p.starters| == StarterCount(raw) && |p.requests| == RequestCount(raw)
    && |p.models| == ModelCount(raw) && |p.versions| == VersionCount(raw) && |p.runs| == RunCount(raw)
    && |p.seeds| == SeedCount(raw) && |p.evaluations| == EvaluationCount(raw)
  }

  lemma CourseCounts(course: string, raw: Json)
    ensures CountsOfCourse(RowsOf(course, raw), raw)
  {
  }

  ghost predicate CountsOf(p: Plan, node: Fields) {
    |p.courses| == |node| && |p.starters| == Total(node, StarterCount) && |p.requests| == Total(node, RequestCount)
    && |p.models| == Total(node, ModelCount) && |p.versions| == Total(node, VersionCount)
    && |p.runs| == Total(node, RunCount) && |p.seeds| == Total(node, SeedCount)
    && |p.evaluations| == Total(node, EvaluationCount)
  }

  lemma CountsAdd(a: Plan, b: Plan, node: Fields)
    requires node != [] && CountsOf(a, node[..|node| - 1]) && CountsOfCourse(b, node[|node| - 1].1)
    ensures CountsOf(Added(a, b), node)
  {
  }

  lemma {:induction false} CountsMatch(node: Fields)
    ensures CountsOf(AllRows(node), node)
  {
    if node != [] {
      var init, last := node[..|node| - 1], node[|node| - 1];
      CountsMatch(init);
      CourseCounts(last.0, last.1);
      CountsAdd(AllRows(init), RowsOf(last.0, last.1), node);
    }
  }

  ghost predicate Unique<T>(s: seq<T>) { forall i, j :: 0 <= i < j < |s| ==> s[i] != s[j] }

  // Records under one node of the export have distinct keys.
  ghost predicate KeysDistinct(raw: Json) {
    DistinctKeys(Records(FieldsOf(raw), "seedExamples")) && DistinctKeys(Records(FieldsOf(raw), "evaluations"))
    && DistinctKeys(Records(FieldsOf(Get(FieldsOf(raw), "model")), "versions"))
        && DistinctKeys(Records(FieldsOf(raw), "trainingRuns"))
  }

  ghost predicate UniqueKeys(p: Plan) {
    Unique(p.courses) && Unique(p.starters) && Unique(p.seeds) && Unique(p.evaluations) && Unique(p.models)
        && Unique(p.versions)
    && Unique(p.requests) && Unique(p.runs)
  }

  ghost predicate OfCourses(keys: seq<RowKey>, courses: seq<string>) { forall i :: 0 <= i < |keys| ==>
      keys[i].0 in courses }

  ghost predicate Closed(p: Plan) {
    OfCourses(p.seeds, p.courses) && OfCourses(p.evaluations, p.courses) && OfCourses(p.models, p.courses)
    && OfCourses(p.versions, p.courses) && OfCourses(p.runs, p.courses)
    && (forall c :: c in p.starters ==> c in p.courses) && (forall c :: c in p.requests ==> c in p.courses)
  }

  // Every `current_version` has its version row.
  ghost predicate PointersResolve(p: Plan) { forall m :: m in p.models ==> m in p.versions }

  lemma CourseRows(reader: Readable, course: string, raw: Json)
    requires CourseMaps(reader, course, raw)
    ensures PointersResolve(RowsOf(course, raw)) && Closed(RowsOf(course, raw))
  {
    var model := Get(raw.fields, "model");
    var current := CurrentVersion(model);
    if current.Some? {
      var versions := Records(FieldsOf(model), "versions");
      var i :| 0 <= i < |versions| && Keys(versions)[i] == current.value;
      assert Keyed(course, versions)[i] == (course, current.value);
    }
  }

  lemma {:induction false} CoursesAreKeys(node: Fields)
    ensures AllRows(node).courses == Keys(node)
  {
    if node != [] {
      CoursesAreKeys(node[..|node| - 1]);
      assert Keys(node) == Keys(node[..|node| - 1]) + [node[|node| - 1].0];
    }
  }

  lemma {:induction false} PlanIsClosed(reader: Readable, node: Fields)
    requires forall i :: 0 <= i < |node| ==> CourseMaps(reader, node[i].0, node[i].1)
    ensures Closed(AllRows(node)) && PointersResolve(AllRows(node))
  {
    if node != [] {
      var init, last := node[..|node| - 1], node[|node| - 1];
      PlanIsClosed(reader, init);
      CourseRows(reader, last.0, last.1);
      ClosedSum(AllRows(init), RowsOf(last.0, last.1));
    }
  }

  lemma ClosedSum(a: Plan, b: Plan)
    requires Closed(a) && Closed(b) && PointersResolve(a) && PointersResolve(b)
    ensures Closed(Added(a, b)) && PointersResolve(Added(a, b))
  {
  }

  // Rows of one course have distinct keys; rows of different courses differ
  // in the course.
  lemma {:induction false} PlanIsUnique(node: Fields)
    requires DistinctKeys(node) && forall i :: 0 <= i < |node| ==> KeysDistinct(node[i].1)
    ensures UniqueKeys(AllRows(node)) && RowsFrom(AllRows(node), Keys(node))
  {
    if node != [] {
      var init, last := node[..|node| - 1], node[|node| - 1];
      PlanIsUnique(init);
      assert KeysDistinct(last.1);
      assert Keys(node) == Keys(init) + [last.0];
      assert last.0 !in Keys(init);
      OneCourseIsUnique(last.0, last.1);
      UniqueSum(AllRows(init), RowsOf(last.0, last.1), Keys(init), last.0);
    }
  }

  ghost predicate RowsFrom(p: Plan, courses: seq<string>) {
    OfCourses(p.seeds, courses) && OfCourses(p.evaluations, courses) && OfCourses(p.models, courses)
    && OfCourses(p.versions, courses) && OfCourses(p.runs, courses)
    && (forall c :: c in p.courses ==> c in courses) && (forall c :: c in p.starters ==> c in courses)
        && (forall c :: c in p.requests ==> c in courses)
  }

  lemma OneCourseIsUnique(course: string, raw: Json)
    requires KeysDistinct(raw)
    ensures UniqueKeys(RowsOf(course, raw)) && RowsFrom(RowsOf(course, raw), [course])
  {
  }

  lemma UniqueAppend<T>(a: seq<T>, b: seq<T>)
    requires Unique(a) && Unique(b) && forall x :: x in a ==> x !in b
    ensures Unique(a + b)
  {
    forall i, j | 0 <= i < j < |a + b| ensures (a + b)[i] != (a + b)[j] {
      if i < |a| <= j { assert (a + b)[i] in a && (a + b)[j] in b; }
    }
  }

  lemma KeysApart(a: seq<RowKey>, b: seq<RowKey>, courses: seq<string>, course: string)
    requires OfCourses(a, courses) && OfCourses(b, [course]) && course !in courses && Unique(a) && Unique(b)
    ensures Unique(a + b) && OfCourses(a + b, courses + [course])
  {
    forall x | x in a ensures x !in b {
      var i :| 0 <= i < |a| && a[i] == x;
    }
    UniqueAppend(a, b);
  }

  lemma NamesApart(a: seq<string>, b: seq<string>, courses: seq<string>, course: string)
    requires (forall c :: c in a ==> c in courses) && (forall c :: c in b ==> c in [course]) && course !in courses
        && Unique(a) && Unique(b)
    ensures Unique(a + b) && forall c :: c in a + b ==> c in courses + [course]
  {
    UniqueAppend(a, b);
  }

  lemma UniqueSum(a: Plan, b: Plan, courses: seq<string>, course: string)
    requires UniqueKeys(a) && UniqueKeys(b) && RowsFrom(a, courses) && RowsFrom(b, [course]) && course !in courses
    ensures UniqueKeys(Added(a, b)) && RowsFrom(Added(a, b), courses + [course])
  {
    KeysApart(a.seeds, b.seeds, courses, course);
    KeysApart(a.evaluations, b.evaluations, courses, course);
    KeysApart(a.models, b.models, courses, course);
    KeysApart(a.versions, b.versions, courses, course);
    KeysApart(a.runs, b.runs, courses, course);
    NamesApart(a.courses, b.courses, courses, course);
    NamesApart(a.starters, b.starters, courses, course);
    NamesApart(a.requests, b.requests, courses, course);
  }

  // Main result: a snapshot that parses yields rows that can all be inserted
  // in order: none is lost, every key is new, every row's course is a row of
  // the plan and every current version exists.
  lemma ImportablePlan(reader: Readable, payload: Json)
    requires CoursesNode(payload).Some?
    requires forall i :: 0 <= i < |CoursesNode(payload).value| ==>
        CourseMaps(reader, CoursesNode(payload).value[i].0, CoursesNode(payload).value[i].1)
    requires DistinctKeys(CoursesNode(payload).value) && forall i :: 0 <= i < |CoursesNode(payload).value| ==>
        KeysDistinct(CoursesNode(payload).value[i].1)
    ensures var node := CoursesNode(payload).value;
            var p := AllRows(node);
            p.courses == Keys(node) && CountsOf(p, node) && UniqueKeys(p) && Closed(p) && PointersResolve(p)
  {
    var node := CoursesNode(payload).value;
    CoursesAreKeys(node);
    CountsMatch(node);
    PlanIsClosed(reader, node);
    PlanIsUnique(node);
  }
}
