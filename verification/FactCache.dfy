/** One course's fact inventory, cached beside its index and built at most once
    at a time: `backend/app/fact_inventory_cache.py:64-264` and
    `backend/app/storage.py:252-292`. The event loop runs one thing at a time;
    a build gives way while the model works. */
module FactCache {
  import opened Common

  // ------------------------------------------------------------------ //
  // The module's dictionaries, written in place
  // ------------------------------------------------------------------ //

  datatype Ending = Success | Failure(error: string) | Cancelled

  const CANCELLED := "The build was cancelled before it finished."

  function ErrorOf(e: Ending): Option<string> {
    match e case Success => None case Failure(error) => Some(error) case Cancelled => Some(CANCELLED)
  }

  class Builds {
    var inflight: map<string, nat>
    var startedAt: map<string, int>
    var lastErrors: map<string, string>
    var over: map<nat, Ending>          // tasks the loop has finished
    var tasks: nat                      // tasks ever created

    predicate Valid() reads this {
      inflight.Keys == startedAt.Keys
      && (forall c :: c in inflight ==> inflight[c] < tasks)
      && (forall c, d :: c in inflight && d in inflight && inflight[c] == inflight[d] ==> c == d)
      && forall t :: t in over ==> t < tasks
    }

    constructor ()
      ensures Valid() && inflight == map[] && tasks == 0
    {
      inflight, startedAt, lastErrors, over, tasks := map[], map[], map[], map[], 0;
    }

    predicate Running(course: string) reads this { course in inflight && inflight[course] !in over }

    // `start_fact_inventory_build`: the running build, or a new one.
    method Start(course: string, now: int) returns (task: nat)
      requires Valid()
      modifies this
      ensures Valid() && course in inflight && inflight[course] == task
      ensures old(Running(course)) ==>
                task == old(inflight)[course] && inflight == old(inflight)
                && tasks == old(tasks) && lastErrors == old(lastErrors)
      ensures !old(Running(course)) ==>
                task == old(tasks) && tasks == task + 1 && inflight == old(inflight)[course := task]
                && startedAt == old(startedAt)[course := now] && lastErrors == old(lastErrors) - {course}
      ensures over == old(over)
    {
      if course in inflight && inflight[course] !in over { return inflight[course]; }
      task := tasks;
      tasks := tasks + 1;
      inflight := inflight[course := task];
      startedAt := startedAt[course := now];
      lastErrors := lastErrors - {course};
    }

    // The done callback of one task; it forgets that task and no other.
    method Finished(course: string, task: nat)
      requires Valid() && task in over
      modifies this
      ensures Valid()
      ensures inflight == if course in old(inflight) && old(inflight)[course] == task then old(inflight) - {course}
          else old(inflight)
      ensures over == old(over) && tasks == old(tasks)
      ensures lastErrors == if ErrorOf(over[task]).Some? then old(lastErrors)[course := ErrorOf(over[task]).value]
          else old(lastErrors)
    {
      if course in inflight && inflight[course] == task {
        inflight := inflight - {course};
        startedAt := startedAt - {course};
      }
      if ErrorOf(over[task]).Some? {
        lastErrors := lastErrors[course := ErrorOf(over[task]).value];
      }
    }

    method TakeError(course: string) returns (error: Option<string>)
      requires Valid()
      modifies this`lastErrors
      ensures Valid()
      ensures error == if course in old(lastErrors) then Some(old(lastErrors)[course]) else None
      ensures lastErrors == old(lastErrors) - {course}
    {
      error := if course in lastErrors then Some(lastErrors[course]) else None;
      lastErrors := lastErrors - {course};
    }
  }

  // ------------------------------------------------------------------ //
  // Everything that can happen to one course
  // ------------------------------------------------------------------ //

  // `source` is the fingerprint of the chunks an inventory was really
  // extracted from; `tag` the one stored or returned with it.
  datatype Inventory = Inventory(source: string, facts: string)
  datatype Payload = Payload(tag: string, inventory: Inventory)

  datatype Build = Build(fingerprint: string, ending: Option<Ending>, result: Option<Payload>, collected: bool)

  datatype Caller =
    | Waiting(asked: string, task: nat)
    | Served(asked: string, answer: Payload, cached: bool)
    | Errored(asked: string)

  datatype World = World(
    stored: Option<Payload>,
    builds: seq<Build>,
    inflight: Option<nat>,
    lastError: Option<string>,
    callers: map<nat, Caller>)

  const Empty := World(None, [], None, None, map[])

  predicate Valid(stored: Option<Payload>, fingerprint: string) { stored.Some? && stored.value.tag == fingerprint }

  predicate Running(s: World, t: nat) { t < |s.builds| && s.builds[t].ending.None? }

  datatype Event =
    | Load(c: nat, fingerprint: string, force: bool)
    | Begin(fingerprint: string)                 // the admin page: start and do not wait
    | Succeed(t: nat, facts: string)
    | End(t: nat, ending: Ending)
    | Collect(t: nat)                            // the done callback
    | Wake(c: nat)
    | ReplaceIndex                               // `save_index` and `remove_index`

  // The build running for the course, starting one if there is none.
  function Started(s: World, fingerprint: string): (World, nat) {
    if s.inflight.Some? && Running(s, s.inflight.value) then (s, s.inflight.value)
    else
      var build := Build(fingerprint, None, None, false);
      (s.(builds := s.builds + [build], inflight := Some(|s.builds|), lastError := None), |s.builds|)
  }

  function Next(s: World, e: Event): World {
    match e
    case Load(c, fingerprint, force) =>
      if c in s.callers then s
      else if !force && Valid(s.stored, fingerprint) then
        s.(callers := s.callers[c := Served(fingerprint, s.stored.value, true)])
      else
        var (started, t) := Started(s, fingerprint);
        started.(callers := started.callers[c := Waiting(fingerprint, t)])
    case Begin(fingerprint) => Started(s, fingerprint).0
    case Succeed(t, facts) =>
      if !Running(s, t) then s
      else
        var b := s.builds[t];
        var payload := Payload(b.fingerprint, Inventory(b.fingerprint, facts));
        s.(builds := s.builds[t := b.(ending := Some(Success), result := Some(payload))], stored := Some(payload))
    case End(t, ending) =>
      if !Running(s, t) || ending.Success? then s else s.(builds := s.builds[t := s.builds[t].(ending := Some(ending))])
    case Collect(t) =>
      if t >= |s.builds| || s.builds[t].ending.None? || s.builds[t].collected then s
      else
        var error := ErrorOf(s.builds[t].ending.value);
        s.(builds := s.builds[t := s.builds[t].(collected := true)],
           inflight := if s.inflight == Some(t) then None else s.inflight,
           lastError := if error.Some? then error else s.lastError)
    case Wake(c) =>
      if c !in s.callers || !s.callers[c].Waiting? || s.callers[c].task >= |s.builds|
          || s.builds[s.callers[c].task].ending.None? then s
      else
        var b := s.builds[s.callers[c].task];
        var asked := s.callers[c].asked;
        s.(callers := s.callers[c := if b.result.Some? then Served(asked, b.result.value, false) else Errored(asked)])
    case ReplaceIndex => s.(stored := None)
  }

  function Run(s: World, es: seq<Event>): World
    decreases |es|
  {
    if es == [] then s else Run(Next(s, es[0]), es[1..])
  }

  // ------------------------------------------------------------------ //
  // The dictionaries are this state, course by course
  // ------------------------------------------------------------------ //

  // What the dictionaries hold of one course, whose builds are the tasks `ids`.
  ghost predicate Holds(inflight: map<string, nat>, errors: map<string, string>, over: map<nat, Ending>, tasks: nat,
        course: string, ids: seq<nat>, s: World)
  {
    |ids| == |s.builds| && (forall i, j :: 0 <= i < j < |ids| ==> ids[i] != ids[j])
    && (forall i :: 0 <= i < |ids| ==>
          ids[i] < tasks && s.builds[i].ending == if ids[i] in over then Some(over[ids[i]]) else None)
    && (match s.inflight
        case None => course !in inflight
        case Some(i) => i < |ids| && course in inflight && inflight[course] == ids[i])
    && s.lastError == if course in errors then Some(errors[course]) else None
  }

  ghost predicate Shows(b: Builds, course: string, ids: seq<nat>, s: World) reads b {
    Holds(b.inflight, b.lastErrors, b.over, b.tasks, course, ids, s)
  }

  lemma NewBuildShows(inflight: map<string, nat>, errors: map<string, string>, over: map<nat, Ending>, tasks: nat,
        course: string, ids: seq<nat>, s: World, fingerprint: string)
    requires Holds(inflight, errors, over, tasks, course, ids, s) && tasks !in over
    requires course in inflight ==> inflight[course] in over
    ensures Holds(inflight[course := tasks], errors - {course}, over, tasks + 1, course, ids + [tasks],
                  Started(s, fingerprint).0)
    ensures Started(s, fingerprint).1 == |ids|
  {
  }

  // Nothing done for another course changes it.
  method StartIsBegin(b: Builds, course: string, now: int, ghost ids: seq<nat>, ghost s: World,
        ghost fingerprint: string)
      returns (task: nat, ghost more: seq<nat>)
    requires b.Valid() && Shows(b, course, ids, s)
    modifies b
    ensures b.Valid() && Shows(b, course, more, Next(s, Begin(fingerprint)))
    ensures Started(s, fingerprint).1 < |more| && task == more[Started(s, fingerprint).1]
    ensures forall c, i, w :: c != course && old(Shows(b, c, i, w)) ==> Shows(b, c, i, w)
  {
    if b.Running(course) {
      more := ids;
    } else {
      more := ids + [b.tasks];
      NewBuildShows(b.inflight, b.lastErrors, b.over, b.tasks, course, ids, s, fingerprint);
    }
    task := b.Start(course, now);
  }

  method FinishedIsCollect(b: Builds, course: string, task: nat, ghost t: nat, ghost ids: seq<nat>, ghost s: World)
    requires b.Valid() && Shows(b, course, ids, s)
    requires t < |ids| && ids[t] == task && task in b.over && !s.builds[t].collected
    modifies b
    ensures b.Valid() && Shows(b, course, ids, Next(s, Collect(t)))
    ensures forall c, i, w :: c != course && old(Shows(b, c, i, w)) ==> Shows(b, c, i, w)
  {
    b.Finished(course, task);
  }

  predicate Honest(p: Payload) { p.inventory.source == p.tag }

  predicate OneBuild(s: World) {
    (s.inflight.Some? ==> s.inflight.value < |s.builds|)
    && forall t :: 0 <= t < |s.builds| && s.builds[t].ending.None? ==> s.inflight == Some(t)
  }

  predicate HonestResults(s: World) {
    (s.stored.Some? ==> Honest(s.stored.value))
    && forall t :: 0 <= t < |s.builds| && s.builds[t].result.Some? ==>
         s.builds[t].ending == Some(Success) && s.builds[t].result.value.tag == s.builds[t].fingerprint
             && Honest(s.builds[t].result.value)
  }

  predicate HonestAnswers(s: World) {
    forall c :: c in s.callers ==>
      match s.callers[c]
      case Waiting(_, task) => task < |s.builds|
      case Served(asked, answer, cached) => Honest(answer) && (cached ==> answer.tag == asked)
      case Errored(_) => true
  }

  predicate Inv(s: World) { OneBuild(s) && HonestResults(s) && HonestAnswers(s) }

  lemma OneBuildStep(s: World, e: Event)
    requires OneBuild(s)
    ensures OneBuild(Next(s, e))
  {
  }

  lemma HonestResultsStep(s: World, e: Event)
    requires HonestResults(s)
    ensures HonestResults(Next(s, e))
  {
  }

  lemma HonestAnswersStep(s: World, e: Event)
    requires Inv(s)
    ensures HonestAnswers(Next(s, e))
  {
  }

  lemma {:induction false} InvAlways(s: World, es: seq<Event>)
    requires Inv(s)
    ensures Inv(Run(s, es))
    decreases |es|
  {
    if es != [] {
      OneBuildStep(s, es[0]);
      HonestResultsStep(s, es[0]);
      HonestAnswersStep(s, es[0]);
      InvAlways(Next(s, es[0]), es[1..]);
    }
  }

  // Main result: over every interleaving of loads, forced refreshes, builds
  // that succeed, fail or are cancelled, late callbacks and index
  // replacements, at most one build runs at a time, and an inventory served
  // from the cache was extracted from chunks with the fingerprint the caller
  // asked about, even when a build for older chunks finished after they were
  // replaced.
  lemma OneBuildAndAnHonestCache(es: seq<Event>, t: nat, u: nat, c: nat)
    ensures var s := Run(Empty, es);
            (Running(s, t) && Running(s, u) ==> t == u)
            && (c in s.callers && s.callers[c].Served? && s.callers[c].cached ==>
                  s.callers[c].answer.tag == s.callers[c].asked == s.callers[c].answer.inventory.source)
  {
    InvAlways(Empty, es);
  }

  // A caller that waits is promised less: the inventory of the build it
  // joined, which is the one it asked for exactly when that build was for the
  // same chunks.
  lemma JoinersGetTheBuild(s: World, c: nat)
    requires Inv(s) && c in s.callers && s.callers[c].Waiting?
    ensures var t := s.callers[c].task;
            var after := Next(s, Wake(c)).callers[c];
            (s.builds[t].ending.None? ==> after == s.callers[c])
            && (s.builds[t].ending.Some? && s.builds[t].result.Some? ==>
                  after.Served? && !after.cached
                  && after.answer.tag == s.builds[t].fingerprint == after.answer.inventory.source
                  && (after.answer.tag == after.asked <==> s.builds[t].fingerprint == s.callers[c].asked))
            && (s.builds[t].ending.Some? && s.builds[t].result.None? ==> after == Errored(s.callers[c].asked))
  {
  }

  lemma {:induction false} RunAppend(s: World, es: seq<Event>, e: Event)
    ensures Run(s, es + [e]) == Next(Run(s, es), e)
    decreases |es|
  {
    if es == [] {
      assert Run(s, [e]) == Run(Next(s, e), [e][1..]);
      assert es + [e] == [e];
    } else {
      assert (es + [e])[1..] == es[1..] + [e];
      RunAppend(Next(s, es[0]), es[1..], e);
    }
  }

  lemma Then(es: seq<Event>, e: Event) returns (longer: seq<Event>)
    ensures longer == es + [e] && Run(Empty, longer) == Next(Run(Empty, es), e)
  {
    longer := es + [e];
    RunAppend(Empty, es, e);
  }

  // A joiner can be handed another syllabus's facts.
  lemma JoinerCanGetOlderFacts(older: string, newer: string, facts: string) returns (es: seq<Event>)
    requires older != newer
    ensures Run(Empty, es).callers == map[0 := Served(newer, Payload(older, Inventory(older, facts)), false)]
  {
    es := Then([], Begin(older));
    es := Then(es, ReplaceIndex);
    es := Then(es, Load(0, newer, false));
    es := Then(es, Succeed(0, facts));
    es := Then(es, Wake(0));
  }

  // What a load is answered with: the stored inventory exactly when it is for
  // these chunks and no refresh is forced; otherwise the running build, or a
  // new one, to wait for.
  lemma LoadAnswers(s: World, c: nat, fingerprint: string, force: bool)
    requires OneBuild(s) && c !in s.callers
    ensures var t := Next(s, Load(c, fingerprint, force));
            c in t.callers && t.stored == s.stored
            && (t.callers[c].Served? <==> !force && s.stored.Some? && s.stored.value.tag == fingerprint)
            && (t.callers[c].Served? ==>
                  t.callers[c] == Served(fingerprint, s.stored.value, true) && t.builds == s.builds
                  && t.inflight == s.inflight && t.lastError == s.lastError)
            && (!t.callers[c].Served? ==>
                  t.callers[c].Waiting? && t.callers[c].asked == fingerprint && t.inflight == Some(t.callers[c].task)
                  && Running(t, t.callers[c].task)
                  && if exists u: nat :: Running(s, u) then t.builds == s.builds && t.lastError == s.lastError
                     else t.builds == s.builds + [Build(fingerprint, None, None, false)] && t.lastError.None?)
  {
    if u: nat :| Running(s, u) { assert s.inflight == Some(u); }
  }

  // How a build ends: a success stores what it extracted, under the fingerprint
  // it was started for; any other end stores nothing; it ends once.
  lemma BuildEnds(s: World, t: nat, facts: string, ending: Ending)
    requires t < |s.builds|
    ensures var done := Next(s, Succeed(t, facts));
            if s.builds[t].ending.Some? then done == s
            else
              var payload := Payload(s.builds[t].fingerprint, Inventory(s.builds[t].fingerprint, facts));
              var build := Build(payload.tag, Some(Success), Some(payload), s.builds[t].collected);
              done == s.(stored := Some(payload), builds := s.builds[t := build])
    ensures var done := Next(s, End(t, ending));
            done.stored == s.stored
            && if s.builds[t].ending.Some? || ending == Success then done == s
               else |done.builds| == |s.builds| && done.builds[t].ending == Some(ending)
                    && done.builds[t].result == s.builds[t].result
  {
  }

  // What its callback leaves: nothing in flight under its number, and the
  // reason it failed for; it is called once.
  lemma CallbackLeaves(s: World, t: nat)
    requires t < |s.builds| && s.builds[t].ending.Some? && !s.builds[t].collected
    ensures var done := Next(s, Collect(t));
            done.builds[t].collected && done.stored == s.stored && done.callers == s.callers
            && done.inflight == (if s.inflight == Some(t) then None else s.inflight)
            && done.lastError == (match s.builds[t].ending.value
                                  case Success => s.lastError
                                  case Failure(error) => Some(error)
                                  case Cancelled => Some("The build was cancelled before it finished."))
            && Next(done, Collect(t)) == done
  {
  }

  // Replacing the index drops what was stored for the old one, and ends no
  // build.
  lemma ReplacementDropsTheInventory(s: World, c: nat, fingerprint: string)
    requires OneBuild(s) && c !in s.callers
    ensures var t := Next(s, ReplaceIndex);
            t == s.(stored := None) && Next(t, Load(c, fingerprint, false)).callers[c].Waiting?
  {
    LoadAnswers(Next(s, ReplaceIndex), c, fingerprint, false);
  }

  // The running build stands accused of a failure.
  predicate Blamed(s: World) {
    s.inflight.Some? && Running(s, s.inflight.value) && s.lastError.Some?
  }

  // The callback of another build that failed or was cancelled, still to come
  // when this one was started.
  predicate Blames(s: World, e: Event) {
    s.inflight.Some? && Running(s, s.inflight.value)
    && e.Collect? && e.t < |s.builds| && e.t != s.inflight.value
    && s.builds[e.t].ending.Some? && !s.builds[e.t].collected && ErrorOf(s.builds[e.t].ending.value).Some?
  }

  lemma BlamedIff(s: World, e: Event)
    requires OneBuild(s) && !Blamed(s)
    ensures Blamed(Next(s, e)) <==> Blames(s, e)
  {
  }

  predicate NeverBlamed(s: World, es: seq<Event>)
    decreases |es|
  {
    !Blamed(s) && (es == [] || NeverBlamed(Next(s, es[0]), es[1..]))
  }

  predicate NoLateCallback(s: World, es: seq<Event>)
    decreases |es|
  {
    es == [] || (!Blames(s, es[0]) && NoLateCallback(Next(s, es[0]), es[1..]))
  }

  // Over any history, no running build is ever blamed exactly when no such
  // callback comes late.
  lemma {:induction false} NeverBlamedIff(s: World, es: seq<Event>)
    requires OneBuild(s) && !Blamed(s)
    ensures NeverBlamed(s, es) <==> NoLateCallback(s, es)
    decreases |es|
  {
    if es != [] {
      BlamedIff(s, es[0]);
      OneBuildStep(s, es[0]);
      if !Blames(s, es[0]) { NeverBlamedIff(Next(s, es[0]), es[1..]); }
      else { assert !NeverBlamed(Next(s, es[0]), es[1..]); }
    }
  }

  // A failure can be reported against the build that replaced the failed one:
  // its callback may run after a new build has cleared the error.
  lemma LateCallbackBlamesTheNewBuild(first: string, second: string, error: string) returns (es: seq<Event>)
    ensures var s := Run(Empty, es);
            s.inflight == Some(1) && Running(s, 1) && s.lastError == Some(error)
  {
    es := Then([], Begin(first));
    es := Then(es, End(0, Failure(error)));
    es := Then(es, Begin(second));
    es := Then(es, Collect(0));
  }
}
