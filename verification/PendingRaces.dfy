/** The same reports with every process that touches the store in view: jobs
    persisting and sending, flushes that read the directory once and send from
    memory, crashes between any two steps. Sends are
    `training/report_training_result.py:289-399,420-530` and
    `scripts/report_model_published.py:122-198`. */
module PendingRaces {
  import opened PendingReports

  // What a process still has to send; `clearing` between an answer that
  // settles the first of them and the removal of its file.
  datatype Process = Process(todo: seq<(Key, Entry)>, clearing: bool)

  datatype Store = Store(
    pending: map<Key, Entry>,
    latest: map<Key, Entry>,            // what was last reported under each key
    settled: set<(Key, Entry)>,         // acknowledged, or finally refused
    processes: map<nat, Process>)

  const Empty := Store(map[], map[], {}, map[])

  function At(s: Store, p: nat): Process { if p in s.processes then s.processes[p] else Process([], false) }

  function Moved(s: Store, p: nat, q: Process): Store { s.(processes := s.processes[p := q]) }

  datatype Event =
    | Persist(p: nat, key: Key, entry: Entry)
    | List(p: nat, keys: seq<Key>)
    | Send(p: nat, reply: Reply)
    | Clear(p: nat)
    | Crash(p: nat)

  function Copies(pending: map<Key, Entry>, keys: seq<Key>): seq<(Key, Entry)>
    requires forall k :: k in keys ==> k in pending
  {
    if keys == [] then [] else [(keys[0], pending[keys[0]])] + Copies(pending, keys[1..])
  }

  function Next(s: Store, e: Event): Store {
    match e
    case Persist(p, key, entry) =>
      if At(s, p).todo != [] then s
      else
        var filed := s.(pending := s.pending[key := entry], latest := s.latest[key := entry]);
        Moved(filed, p, Process([(key, entry)], false))
    case List(p, keys) =>
      if At(s, p).todo != [] || exists k :: k in keys && k !in s.pending then s
      else Moved(s, p, Process(Copies(s.pending, keys), false))
    case Send(p, reply) =>
      var q := At(s, p);
      if q.todo == [] || q.clearing then s
      else if Settled(reply) then Moved(s.(settled := s.settled + {q.todo[0]}), p, q.(clearing := true))
      else Moved(s, p, q.(todo := q.todo[1..]))
    case Clear(p) =>
      var q := At(s, p);
      if q.todo == [] || !q.clearing then s
      else Moved(s.(pending := s.pending - {q.todo[0].0}), p, Process(q.todo[1..], false))
    case Crash(p) => Moved(s, p, Process([], false))
  }

  function Run(s: Store, es: seq<Event>): Store
    decreases |es|
  {
    if es == [] then s else Run(Next(s, es[0]), es[1..])
  }

  // A process with something to send takes up nothing else, and nothing is
  // listed that is not there.
  lemma BusyProcessGoesOn(s: Store, p: nat, key: Key, entry: Entry, keys: seq<Key>)
    ensures At(s, p).todo != [] ==> Next(s, Persist(p, key, entry)) == s && Next(s, List(p, keys)) == s
    ensures key in keys && key !in s.pending ==> Next(s, List(p, keys)) == s
  {
  }

  // ------------------------------------------------------------------ //
  // Nothing is lost
  // ------------------------------------------------------------------ //

  predicate Safe(s: Store, key: Key) {
    key in s.latest ==> (key in s.pending && s.pending[key] == s.latest[key]) || (key, s.latest[key]) in s.settled
  }

  predicate Ordered(s: Store) {
    (forall k :: k in s.pending ==> k in s.latest && s.pending[k] == s.latest[k])
    && (forall p :: p in s.processes && s.processes[p].todo != [] && s.processes[p].clearing ==>
        s.processes[p].todo[0] in s.settled)
  }

  // The removal takes away a report written since the one that was sent.
  predicate Clobbers(s: Store, e: Event, key: Key) {
    e.Clear? && At(s, e.p).todo != [] && At(s, e.p).clearing && At(s, e.p).todo[0].0 == key
    && key in s.pending && s.pending[key] != At(s, e.p).todo[0].1 && (key, s.pending[key]) !in s.settled
  }

  // One step loses a report exactly when it is such a removal.
  lemma LosesIffClobbers(s: Store, e: Event, key: Key)
    requires Ordered(s) && Safe(s, key)
    ensures Ordered(Next(s, e))
    ensures Safe(Next(s, e), key) <==> !Clobbers(s, e, key)
  {
    if e.Clear? && At(s, e.p).todo != [] && At(s, e.p).clearing {
      assert At(s, e.p).todo[0] == (At(s, e.p).todo[0].0, At(s, e.p).todo[0].1);
    }
  }

  predicate NeverClobbers(s: Store, es: seq<Event>, key: Key)
    decreases |es|
  {
    es == [] || (!Clobbers(s, es[0], key) && NeverClobbers(Next(s, es[0]), es[1..], key))
  }

  // Main result: with any number of reporters and flushes, any answers, and a
  // crash at any point, the latest report under a key is on disk until it has
  // been acknowledged or finally refused.
  lemma {:induction false} NothingIsLost(s: Store, es: seq<Event>, key: Key)
    requires Ordered(s) && Safe(s, key) && NeverClobbers(s, es, key)
    ensures Ordered(Run(s, es)) && Safe(Run(s, es), key)
    decreases |es|
  {
    if es != [] {
      LosesIffClobbers(s, es[0], key);
      NothingIsLost(Next(s, es[0]), es[1..], key);
    }
  }

  predicate SafeThroughout(s: Store, es: seq<Event>, key: Key)
    decreases |es|
  {
    Safe(s, key) && (es == [] || SafeThroughout(Next(s, es[0]), es[1..], key))
  }

  // And it is so all along exactly when there is no such removal.
  lemma {:induction false} SafeThroughoutIff(s: Store, es: seq<Event>, key: Key)
    requires Ordered(s) && Safe(s, key)
    ensures SafeThroughout(s, es, key) <==> NeverClobbers(s, es, key)
    decreases |es|
  {
    if es != [] {
      LosesIffClobbers(s, es[0], key);
      if Clobbers(s, es[0], key) {
        assert !SafeThroughout(Next(s, es[0]), es[1..], key);
      } else {
        SafeThroughoutIff(Next(s, es[0]), es[1..], key);
      }
    }
  }

  // The condition is free for the keys that matter most: a run that is
  // reported with one payload, however often.
  predicate OnlyEver(s: Store, key: Key, entry: Entry) {
    (key in s.pending ==> s.pending[key] == entry)
    && forall p :: p in s.processes ==> forall item :: item in s.processes[p].todo && item.0 == key ==> item.1 == entry
  }

  lemma {:induction false} CopiesAreOfPending(pending: map<Key, Entry>, keys: seq<Key>, item: (Key, Entry))
    requires (forall k :: k in keys ==> k in pending) && item in Copies(pending, keys)
    ensures item.0 in pending && pending[item.0] == item.1
  {
    if item != Copies(pending, keys)[0] { CopiesAreOfPending(pending, keys[1..], item); }
  }

  lemma OnlyEverStep(s: Store, e: Event, key: Key, entry: Entry)
    requires OnlyEver(s, key, entry) && (e.Persist? && e.key == key ==> e.entry == entry)
    ensures OnlyEver(Next(s, e), key, entry) && !Clobbers(s, e, key)
  {
    var next := Next(s, e);
    forall p, item | p in next.processes && item in next.processes[p].todo && item.0 == key ensures item.1 == entry {
      if p in s.processes && item in s.processes[p].todo {
      } else if e.List? {
        CopiesAreOfPending(s.pending, e.keys, item);
      }
    }
    if e.Clear? && At(s, e.p).todo != [] { assert At(s, e.p).todo[0] in s.processes[e.p].todo; }
  }

  lemma {:induction false} OneReportPerRunIsNeverLost(s: Store, es: seq<Event>, key: Key, entry: Entry)
    requires Ordered(s) && Safe(s, key) && OnlyEver(s, key, entry)
    requires forall i :: 0 <= i < |es| && es[i].Persist? && es[i].key == key ==> es[i].entry == entry
    ensures Safe(Run(s, es), key)
    decreases |es|
  {
    if es != [] {
      OnlyEverStep(s, es[0], key, entry);
      LosesIffClobbers(s, es[0], key);
      OneReportPerRunIsNeverLost(Next(s, es[0]), es[1..], key, entry);
    }
  }

  // Without it a report can be lost: the job reports again while a flush is
  // between the answer to the first report and the removal of its file.
  lemma LaterReportCanBeLost(key: Key, first: Entry, second: Entry) returns (es: seq<Event>)
    requires first != second
    ensures var s := Run(Empty, es);
            key in s.latest && s.latest[key] == second && key !in s.pending && (key, second) !in s.settled
  {
    es := [];
    var s := Empty;
    es, s := Extend(es, s, Persist(0, key, first));
    es, s := Extend(es, s, Send(0, Unheard));
    assert Copies(s.pending, [key]) == [(key, first)] by { assert Copies(s.pending, [key][1..]) == []; }
    es, s := Extend(es, s, List(1, [key]));
    es, s := Extend(es, s, Send(1, Accepted));
    es, s := Extend(es, s, Persist(0, key, second));
    es, s := Extend(es, s, Clear(1));
  }

  lemma Extend(es: seq<Event>, s: Store, e: Event) returns (longer: seq<Event>, t: Store)
    requires s == Run(Empty, es)
    ensures longer == es + [e] && t == Next(s, e) && t == Run(Empty, longer)
  {
    longer, t := es + [e], Next(s, e);
    RunAppend(Empty, es, e);
  }

  lemma {:induction false} RunAppend(s: Store, es: seq<Event>, e: Event)
    ensures Run(s, es + [e]) == Next(Run(s, es), e)
    decreases |es|
  {
    if es == [] {
      assert Run(s, [e]) == Run(Next(s, e), [e][1..]);
      assert es + [e] == [e];
    } else {
      assert (es + [e])[1..] == es[1..] + [e];
      RunAppend(Next(s, es[0]), es[1..], e);
    }
  }

  // And whatever has happened, an undelivered report can be settled by the
  // next process that is free to flush it.
  lemma StillDeliverable(s: Store, key: Key, p: nat, reply: Reply)
    requires Ordered(s) && key in s.pending && At(s, p).todo == [] && Settled(reply)
    ensures var t := Next(Next(Next(s, List(p, [key])), Send(p, reply)), Clear(p));
            (key, s.latest[key]) in t.settled && key !in t.pending && t.latest == s.latest
            && forall k :: k != key ==> (k in t.pending <==> k in s.pending)
  {
    assert Copies(s.pending, [key]) == [(key, s.pending[key])] by { assert Copies(s.pending, [key][1..]) == []; }
  }

  // ------------------------------------------------------------------ //
  // One process alone
  // ------------------------------------------------------------------ //

  // A reporter nobody gets in the way of does what the store's methods do:
  // persist, send, clear; or persist only, when it is not configured.
  lemma ReportIsARun(s: Store, p: nat, key: Key, entry: Entry, reply: Reply)
    requires At(s, p).todo == []
    ensures var t := Run(s, [Persist(p, key, entry), Send(p, reply), Clear(p)]);
            t.pending == AfterReport(s.pending, key, entry, Settled(reply)) && At(t, p).todo == []
            && t.settled == s.settled + if Settled(reply) then {(key, entry)} else {}
    ensures Run(s, [Persist(p, key, entry), Crash(p)]).pending == AfterReport(s.pending, key, entry, false)
  {
    var a := Next(s, Persist(p, key, entry));
    RunPast(s, Persist(p, key, entry), [Send(p, reply), Clear(p)]);
    RunPast(a, Send(p, reply), [Clear(p)]);
    RunPast(Next(a, Send(p, reply)), Clear(p), []);
    RunPast(s, Persist(p, key, entry), [Crash(p)]);
    RunPast(a, Crash(p), []);
    assert [Persist(p, key, entry)] + [Send(p, reply), Clear(p)] == [Persist(p, key, entry), Send(p, reply), Clear(p)];
    assert [Send(p, reply)] + [Clear(p)] == [Send(p, reply), Clear(p)] && [Clear(p)] + [] == [Clear(p)];
    assert [Persist(p, key, entry)] + [Crash(p)] == [Persist(p, key, entry), Crash(p)] && [Crash(p)] + [] == [Crash(p)];
    assert s.pending[key := entry] - {key} == s.pending - {key};
  }

  lemma RunPast(s: Store, e: Event, es: seq<Event>)
    ensures Run(s, [e] + es) == Run(Next(s, e), es)
  {
    assert ([e] + es)[1..] == es;
  }

  // A flush from memory: each copy sent once, and cleared if that settled it.
  function Sends(p: nat, todo: seq<(Key, Entry)>, backend: Backend): seq<Event> {
    if todo == [] then []
    else [Send(p, backend(todo[0].0, todo[0].1))] + ([Clear(p)] + Sends(p, todo[1..], backend))
  }

  function Answered(todo: seq<(Key, Entry)>, backend: Backend): set<Key> {
    if todo == [] then {}
    else Answered(todo[1..], backend) + if Settled(backend(todo[0].0, todo[0].1)) then {todo[0].0} else {}
  }

  lemma {:induction false} SendsClearTheAnswered(s: Store, p: nat, todo: seq<(Key, Entry)>, backend: Backend)
    requires At(s, p) == Process(todo, false)
    ensures Run(s, Sends(p, todo, backend)).pending == s.pending - Answered(todo, backend)
    decreases |todo|
  {
    if todo != [] {
      var send := Send(p, backend(todo[0].0, todo[0].1));
      var rest := Sends(p, todo[1..], backend);
      RunPast(s, send, [Clear(p)] + rest);
      RunPast(Next(s, send), Clear(p), rest);
      SendsClearTheAnswered(Next(Next(s, send), Clear(p)), p, todo[1..], backend);
    }
  }

  lemma {:induction false} AnsweredCopies(pending: map<Key, Entry>, keys: seq<Key>, backend: Backend, k: Key)
    requires forall x :: x in keys ==> x in pending
    ensures k in Answered(Copies(pending, keys), backend) <==> k in keys && Settled(backend(k, pending[k]))
  {
    if keys != [] {
      assert Copies(pending, keys)[1..] == Copies(pending, keys[1..]);
      AnsweredCopies(pending, keys[1..], backend, k);
    }
  }

  // So a flush of everything but the submissions leaves what the store's
  // flush leaves.
  lemma FlushIsARun(s: Store, p: nat, listing: seq<Key>, backend: Backend)
    requires At(s, p).todo == [] && forall k :: k in listing <==> k in s.pending && k.kind != Submission
    ensures Run(s, [List(p, listing)] + Sends(p, Copies(s.pending, listing), backend)).pending
            == Kept(s.pending, backend)
  {
    var todo := Copies(s.pending, listing);
    RunPast(s, List(p, listing), Sends(p, todo, backend));
    SendsClearTheAnswered(Next(s, List(p, listing)), p, todo, backend);
    forall k | k in s.pending ensures k in Answered(todo, backend) <==> k !in Kept(s.pending, backend) {
      AnsweredCopies(s.pending, listing, backend, k);
    }
  }
}
