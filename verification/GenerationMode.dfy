/** The backend's stat-keyed cache of the generation mode file, read by many
    request threads at once: `backend/app/generation_mode.py:120-173`. */
module GenerationMode {
  import opened Common

  // The effective mode; what a mode says about its own errors is left out.
  datatype Mode = Vm(details: string) | Gpu(url: string, details: string)

  const DefaultMode := Vm("")

  // The file as it can be found: its stat key (time and size) and what its
  // text parses to, if it does.
  datatype Content = Absent | Present(stat: nat, parsed: Option<Mode>)

  datatype Key = NoFile | Stat(stat: nat) | StatError

  function KeyOf(c: Content): Key { if c.Absent? then NoFile else Stat(c.stat) }

  // Missing and invalid both mean the VM.
  function ModeOf(c: Content): Mode {
    if c.Present? && c.parsed.Some? then c.parsed.value else DefaultMode
  }

  // ------------------------------------------------------------------ //
  // One thread at a time
  // ------------------------------------------------------------------ //

  // What one undisturbed call leaves in the cache.
  function AfterCall(key: Key, mode: Mode, file: Content, statFails: bool, readFails: bool): (Key, Mode) {
    if statFails then (StatError, DefaultMode)
    else if key == KeyOf(file) then (key, mode)
    else (KeyOf(file), if readFails then DefaultMode else ModeOf(file))
  }

  class ModeCache {
    var key: Key
    var mode: Mode
    ghost var notified: seq<(Mode, Mode)>

    constructor ()
      ensures key == NoFile && mode == DefaultMode && notified == []
    {
      key, mode := NoFile, DefaultMode;
      notified := [];
    }

    // A cached mode is never older than the file it would be used for.
    predicate InSync(file: Content) reads this {
      key == KeyOf(file) ==> mode == ModeOf(file)
    }

    method Remember(k: Key, m: Mode)
      modifies this
      ensures key == k && mode == m
      ensures notified == old(notified) + if m.Gpu? != old(mode).Gpu? then [(old(mode), m)] else []
    {
      if m.Gpu? != mode.Gpu? { notified := notified + [(mode, m)]; }
      key, mode := k, m;
    }

    method CurrentMode(file: Content, statFails: bool, readFails: bool) returns (m: Mode)
      requires InSync(file)
      modifies this
      ensures m == mode && (key, mode) == AfterCall(old(key), old(mode), file, statFails, readFails)
      ensures !statFails && (!readFails || old(key) == KeyOf(file) || file.Absent?) ==>
                m == ModeOf(file) && InSync(file)
      ensures statFails ==> m == DefaultMode && InSync(file)
      ensures notified == old(notified) + if m.Gpu? != old(mode).Gpu? then [(old(mode), m)] else []
    {
      if statFails {
        Remember(StatError, DefaultMode);
        return DefaultMode;
      }
      if key == KeyOf(file) { return mode; }
      m := if readFails then DefaultMode else ModeOf(file);
      Remember(KeyOf(file), m);
    }
  }

  // ------------------------------------------------------------------ //
  // Many threads, and the file changing under them
  // ------------------------------------------------------------------ //

  // A call in progress, with the number of file versions there were when it
  // looked at the file's stat.
  datatype Thread =
    | Idle
    | Statted(key: Key, since: nat)
    | Missed(key: Key, since: nat)         // the cache holds another key
    | HasRead(key: Key, mode: Mode, since: nat)
    | Decided(mode: Mode, since: nat)
    | DecidedOnError

  // A change of kind made by a thread under the lock.
  datatype Swap = Swap(thread: nat, was: Mode, now: Mode)

  datatype World = World(
    versions: seq<Content>,                // every content the file has had; the last is current
    key: Key,
    mode: Mode,
    threads: map<nat, Thread>,
    swaps: seq<Swap>,                      // every change of kind, in the order of the lock
    owed: map<nat, nat>,                   // threads that have not called the listeners about their swap yet
    heard: seq<nat>)                       // what the listeners were called about, in the order they were

  predicate Formed(s: World) { s.versions != [] }

  function File(s: World): Content requires Formed(s) { s.versions[|s.versions| - 1] }

  function At(s: World, t: nat): Thread { if t in s.threads then s.threads[t] else Idle }

  function To(s: World, t: nat, thread: Thread): World { s.(threads := s.threads[t := thread]) }

  // `_remember` while it holds the lock.
  function Remembered(s: World, t: nat, key: Key, mode: Mode): World {
    var held := s.(key := key, mode := mode);
    if mode.Gpu? == s.mode.Gpu? then held
    else held.(swaps := s.swaps + [Swap(t, s.mode, mode)], owed := s.owed[t := |s.swaps|])
  }

  datatype Event =
    | Write(content: Content)              // a replacement or a removal
    | LookStat(t: nat)
    | StatFails(t: nat)
    | LookUp(t: nat)                       // the comparison with the cache, under its lock
    | Read(t: nat)
    | ReadFails(t: nat)
    | Store(t: nat)                        // `_remember`, under the lock
    | Deliver(t: nat)                      // the rest of it: the listeners, without the lock
    | Finish(t: nat)

  function Next(s: World, e: Event): (r: World)
    requires Formed(s)
    ensures Formed(r)
  {
    match e
    case Write(content) => s.(versions := s.versions + [content])
    case LookStat(t) => if At(s, t) != Idle then s else To(s, t, Statted(KeyOf(File(s)), |s.versions|))
    case StatFails(t) => if At(s, t) != Idle then s else To(Remembered(s, t, StatError, DefaultMode), t, DecidedOnError)
    case LookUp(t) =>
      if !At(s, t).Statted? then s
      else if s.key == At(s, t).key then To(s, t, Decided(s.mode, At(s, t).since))
      else if At(s, t).key == NoFile then To(s, t, HasRead(NoFile, DefaultMode, At(s, t).since))
      else To(s, t, Missed(At(s, t).key, At(s, t).since))
    case Read(t) =>
      if !At(s, t).Missed? then s
      else To(s, t, HasRead(At(s, t).key, ModeOf(File(s)), At(s, t).since))
    case ReadFails(t) =>
      if !At(s, t).Missed? then s
      else To(s, t, HasRead(At(s, t).key, DefaultMode, At(s, t).since))
    case Store(t) =>
      if !At(s, t).HasRead? then s
      else To(Remembered(s, t, At(s, t).key, At(s, t).mode), t, Decided(At(s, t).mode, At(s, t).since))
    case Deliver(t) => if t !in s.owed then s else s.(heard := s.heard + [s.owed[t]], owed := s.owed - {t})
    case Finish(t) =>
      if t !in s.owed && (At(s, t).Decided? || At(s, t).DecidedOnError?) then To(s, t, Idle) else s
  }

  function Run(s: World, es: seq<Event>): (r: World)
    requires Formed(s)
    ensures Formed(r)
    decreases |es|
  {
    if es == [] then s else Run(Next(s, es[0]), es[1..])
  }

  function Boot(file: Content): World { World([file], NoFile, DefaultMode, map[], [], map[], []) }

  // ------------------------------------------------------------------ //
  // Agreement
  // ------------------------------------------------------------------ //

  // The file had this mode at some time from version number `since` on.
  predicate Seen(versions: seq<Content>, mode: Mode, since: nat) {
    exists j :: since - 1 <= j < |versions| && 0 <= j && ModeOf(versions[j]) == mode
  }

  // A replaced file's stat key is never seen again.
  predicate NeverReused(versions: seq<Content>) {
    forall i, j :: 0 <= i < j < |versions| && versions[i].Present? && versions[j].Present? ==>
        versions[i].stat != versions[j].stat
  }

  // What is held under a key was the file's mode no earlier than that key.
  predicate Dated(versions: seq<Content>, key: Key, mode: Mode) {
    (key == NoFile ==> mode == DefaultMode)
    && (key.Stat? ==> exists i :: 0 <= i < |versions| && KeyOf(versions[i]) == key && Seen(versions, mode, i + 1))
  }

  predicate ThreadInv(s: World, t: Thread) {
    match t
    case Idle => true
    case DecidedOnError => true
    case Statted(key, since) => 0 < since <= |s.versions| && key == KeyOf(s.versions[since - 1])
    case Missed(key, since) => 0 < since <= |s.versions| && key == KeyOf(s.versions[since - 1]) && key != NoFile
    case HasRead(key, mode, since) =>
      0 < since <= |s.versions| && key == KeyOf(s.versions[since - 1]) && Seen(s.versions, mode, since)
          && (key == NoFile ==> mode == DefaultMode)
    case Decided(mode, since) => 0 < since <= |s.versions| && Seen(s.versions, mode, since)
  }

  predicate Inv(s: World) {
    Formed(s) && NeverReused(s.versions) && Dated(s.versions, s.key, s.mode)
    && forall t :: t in s.threads ==> ThreadInv(s, s.threads[t])
  }

  lemma SeenLater(versions: seq<Content>, content: Content, mode: Mode, since: nat)
    requires Seen(versions, mode, since)
    ensures Seen(versions + [content], mode, since)
  {
    var j :| since - 1 <= j < |versions| && 0 <= j && ModeOf(versions[j]) == mode;
    assert (versions + [content])[j] == versions[j];
  }

  lemma WriteKeeps(s: World, content: Content)
    requires Inv(s) && NeverReused(s.versions + [content])
    ensures Inv(Next(s, Write(content)))
  {
    var longer := s.versions + [content];
    if s.key.Stat? {
      var i :| 0 <= i < |s.versions| && KeyOf(s.versions[i]) == s.key && Seen(s.versions, s.mode, i + 1);
      SeenLater(s.versions, content, s.mode, i + 1);
      assert KeyOf(longer[i]) == s.key;
    }
    forall t | t in s.threads ensures ThreadInv(Next(s, Write(content)), s.threads[t]) {
      var thread := s.threads[t];
      assert ThreadInv(s, thread);
      if thread.HasRead? || thread.Decided? { SeenLater(s.versions, content, thread.mode, thread.since); }
    }
  }

  // A hit answers with a mode the file had after this call looked at it.
  lemma HitIsSeen(s: World, t: nat)
    requires Inv(s) && At(s, t).Statted? && s.key == At(s, t).key
    ensures Seen(s.versions, s.mode, At(s, t).since)
  {
    var thread := At(s, t);
    assert ThreadInv(s, s.threads[t]);
    if thread.key == NoFile {
      assert ModeOf(s.versions[thread.since - 1]) == DefaultMode;
    } else {
      var i :| 0 <= i < |s.versions| && KeyOf(s.versions[i]) == s.key && Seen(s.versions, s.mode, i + 1);
      assert i == thread.since - 1;
    }
  }

  lemma StoreKeeps(s: World, t: nat)
    requires Inv(s)
    ensures Inv(Next(s, Store(t)))
  {
    if At(s, t).HasRead? {
      var thread := s.threads[t];
      assert ThreadInv(s, thread);
      var i := thread.since - 1;
      assert thread.key.Stat? ==> KeyOf(s.versions[i]) == thread.key && Seen(s.versions, thread.mode, i + 1);
    }
  }

  lemma NextKeeps(s: World, e: Event)
    requires Inv(s) && !e.ReadFails? && (e.Write? ==> NeverReused(s.versions + [e.content]))
    ensures Inv(Next(s, e))
  {
    match e
    case Write(content) => WriteKeeps(s, content);
    case LookUp(t) =>
      if At(s, t).Statted? {
        if s.key == At(s, t).key { HitIsSeen(s, t); }
        assert ThreadInv(s, s.threads[t]);
        assert At(s, t).key == NoFile ==> ModeOf(s.versions[At(s, t).since - 1]) == DefaultMode;
      }
    case Read(t) =>
      if At(s, t).Missed? {
        assert ThreadInv(s, s.threads[t]);
        assert ModeOf(s.versions[|s.versions| - 1]) == ModeOf(File(s));
      }
    case Store(t) => StoreKeeps(s, t);
    case _ =>
  }

  lemma {:induction false} InvAlways(s: World, es: seq<Event>)
    requires Inv(s) && (forall i :: 0 <= i < |es| ==> !es[i].ReadFails?) && NeverReused(Run(s, es).versions)
    ensures Inv(Run(s, es))
    decreases |es|
  {
    if es != [] {
      VersionsGrow(Next(s, es[0]), es[1..]);
      assert Next(s, es[0]).versions <= Run(s, es).versions;
      NextKeeps(s, es[0]);
      InvAlways(Next(s, es[0]), es[1..]);
    }
  }

  lemma {:induction false} VersionsGrow(s: World, es: seq<Event>)
    requires Formed(s)
    ensures s.versions <= Run(s, es).versions
    decreases |es|
  {
    if es != [] { VersionsGrow(Next(s, es[0]), es[1..]); }
  }

  // Main result: over any writes, removals and overlapping calls, a call
  // returns a mode the file really had while the call was running, and a
  // cached mode that would be used for the file as it is now is the mode of
  // the file as it is now.
  lemma CallsAgreeWithTheFile(file: Content, es: seq<Event>, t: nat)
    requires (forall i :: 0 <= i < |es| ==> !es[i].ReadFails?) && NeverReused(Run(Boot(file), es).versions)
    ensures var s := Run(Boot(file), es);
            (At(s, t).Decided? ==> At(s, t).since > 0 && Seen(s.versions, At(s, t).mode, At(s, t).since))
            && Agrees(s)
  {
    InvAlways(Boot(file), es);
    var s := Run(Boot(file), es);
    if t in s.threads { assert ThreadInv(s, s.threads[t]); }
    if s.key == KeyOf(File(s)) { InSyncNow(s); }
  }

  // One whole call with nobody in between.
  function Call(s: World, t: nat): (r: World)
    requires Formed(s)
    ensures Formed(r)
  {
    Next(Next(Next(Next(s, LookStat(t)), LookUp(t)), Read(t)), Store(t))
  }

  // A whole call of one thread, its listeners and all, as the cache's method
  // does it.
  function WholeCall(t: nat, statFails: bool, readFails: bool): seq<Event> {
    if statFails then [StatFails(t), Deliver(t), Finish(t)]
    else [LookStat(t), LookUp(t), if readFails then ReadFails(t) else Read(t), Store(t), Deliver(t), Finish(t)]
  }

  // The cache as a call leaves it, and what it told the listeners.
  ghost predicate Called(s: World, r: World, t: nat, after: (Key, Mode)) {
    (r.key, r.mode) == after && r.versions == s.versions && At(r, t) == Idle && r.owed == s.owed
    && r.swaps == s.swaps + (if r.mode.Gpu? != s.mode.Gpu? then [Swap(t, s.mode, r.mode)] else [])
    && r.heard == s.heard + (if r.mode.Gpu? != s.mode.Gpu? then [|s.swaps|] else [])
  }

  lemma CallIsARun(s: World, t: nat, statFails: bool, readFails: bool)
    requires Formed(s) && At(s, t) == Idle && t !in s.owed
    ensures Called(s, Run(s, WholeCall(t, statFails, readFails)), t,
                   AfterCall(s.key, s.mode, File(s), statFails, readFails))
  {
    var es := WholeCall(t, statFails, readFails);
    if statFails {
      RunThree(s, StatFails(t), Deliver(t), Finish(t));
      Telling(s, To(s, t, DecidedOnError), t, StatError, DefaultMode);
      assert Next(s, StatFails(t)) == Remembered(To(s, t, DecidedOnError), t, StatError, DefaultMode);
    } else {
      var read := if readFails then ReadFails(t) else Read(t);
      var a := Looking(s, t, readFails);
      assert es == [LookStat(t), LookUp(t), read] + [Store(t), Deliver(t), Finish(t)];
      RunThreeAnd(s, LookStat(t), LookUp(t), read, [Store(t), Deliver(t), Finish(t)]);
      RunThree(a, Store(t), Deliver(t), Finish(t));
      StoringAndTelling(s, a, t);
    }
  }

  lemma Looking(s: World, t: nat, readFails: bool) returns (a: World)
    requires Formed(s) && At(s, t) == Idle
    ensures a == Next(Next(Next(s, LookStat(t)), LookUp(t)), if readFails then ReadFails(t) else Read(t))
    ensures a == To(s, t, At(a, t))
    ensures var (key, mode) := AfterCall(s.key, s.mode, File(s), false, readFails);
            At(a, t) == if s.key == KeyOf(File(s)) then Decided(s.mode, |s.versions|)
                        else HasRead(key, mode, |s.versions|)
  {
    var b := Next(s, LookStat(t));
    assert b == To(s, t, Statted(KeyOf(File(s)), |s.versions|));
    var c := Next(b, LookUp(t));
    assert c == To(s, t, At(c, t));
    a := Next(c, if readFails then ReadFails(t) else Read(t));
    assert a == To(s, t, At(a, t));
  }

  lemma StoringAndTelling(s: World, a: World, t: nat)
    requires Formed(s) && t !in s.owed && a == To(s, t, At(a, t)) && (At(a, t).HasRead? || At(a, t).Decided?)
    ensures var r := Next(Next(Next(a, Store(t)), Deliver(t)), Finish(t));
            Called(s, r, t, if At(a, t).HasRead? then (At(a, t).key, At(a, t).mode) else (s.key, s.mode))
  {
    if At(a, t).HasRead? {
      var thread := At(a, t);
      Telling(s, To(s, t, Decided(thread.mode, thread.since)), t, thread.key, thread.mode);
      assert Next(a, Store(t)) == Remembered(To(s, t, Decided(thread.mode, thread.since)), t, thread.key, thread.mode);
    }
  }

  lemma Telling(s: World, b: World, t: nat, key: Key, mode: Mode)
    requires Formed(s) && t !in s.owed && b == To(s, t, At(b, t)) && (At(b, t).Decided? || At(b, t).DecidedOnError?)
    ensures Called(s, Next(Next(Remembered(b, t, key, mode), Deliver(t)), Finish(t)), t, (key, mode))
  {
    assert s.owed[t := |s.swaps|] - {t} == s.owed;
  }

  lemma RunThreeAnd(s: World, a: Event, b: Event, c: Event, es: seq<Event>)
    requires Formed(s)
    ensures Run(s, [a, b, c] + es) == Run(Next(Next(Next(s, a), b), c), es)
  {
    assert ([a, b, c] + es)[1..] == [b, c] + es && ([b, c] + es)[1..] == [c] + es && ([c] + es)[1..] == es;
    assert Run(Next(Next(s, a), b), [c] + es) == Run(Next(Next(Next(s, a), b), c), es);
  }

  lemma RunThree(s: World, a: Event, b: Event, c: Event)
    requires Formed(s)
    ensures Run(s, [a, b, c]) == Next(Next(Next(s, a), b), c)
  {
    assert [a, b, c] + [] == [a, b, c];
    RunThreeAnd(s, a, b, c, []);
  }

  // So whatever writes fell between other calls' stats and reads, the next
  // undisturbed call returns the mode of the file as it is, and leaves the
  // cache holding it.
  lemma NextCallIsRight(s: World, t: nat)
    requires Inv(s) && At(s, t) == Idle
    ensures At(Call(s, t), t) == Decided(ModeOf(File(s)), |s.versions|)
    ensures Call(s, t).key == KeyOf(File(s)) && Call(s, t).mode == ModeOf(File(s)) && File(Call(s, t)) == File(s)
  {
    var a := Next(s, LookStat(t));
    assert At(a, t) == Statted(KeyOf(File(s)), |s.versions|) && a.key == s.key && a.mode == s.mode;
    if s.key == KeyOf(File(s)) {
      InSyncNow(s);
      var b := Next(a, LookUp(t));
      assert At(b, t) == Decided(s.mode, |s.versions|);
    } else {
      var b := Next(a, LookUp(t));
      var c := Next(b, Read(t));
      assert At(c, t) == HasRead(KeyOf(File(s)), ModeOf(File(s)), |s.versions|);
    }
  }

  lemma InSyncNow(s: World)
    requires Inv(s) && s.key == KeyOf(File(s))
    ensures s.mode == ModeOf(File(s))
  {
    if s.key.Stat? {
      var i :| 0 <= i < |s.versions| && KeyOf(s.versions[i]) == s.key && Seen(s.versions, s.mode, i + 1);
      assert KeyOf(s.versions[|s.versions| - 1]) == KeyOf(s.versions[i]);
      assert i == |s.versions| - 1;
    }
  }

  // ------------------------------------------------------------------ //
  // What the agreement rests on
  // ------------------------------------------------------------------ //

  lemma {:induction false} RunAppend(s: World, es: seq<Event>, e: Event)
    requires Formed(s)
    ensures Run(s, es + [e]) == Next(Run(s, es), e)
    decreases |es|
  {
    if es == [] {
      assert Run(s, [e]) == Run(Next(s, e), [e][1..]);
      assert es + [e] == [e];
    } else {
      assert (es + [e])[1..] == es[1..] + [e];
      RunAppend(Next(s, es[0]), es[1..], e);
    }
  }

  lemma Then(s: World, es: seq<Event>, e: Event) returns (longer: seq<Event>)
    requires Formed(s)
    ensures longer == es + [e] && Run(s, longer) == Next(Run(s, es), e)
  {
    longer := es + [e];
    RunAppend(s, es, e);
  }

  // A cached mode that would be used for the file as it is now is its mode.
  predicate Agrees(s: World)
    requires Formed(s)
  {
    s.key == KeyOf(File(s)) ==> s.mode == ModeOf(File(s))
  }

  // A thread stores, under the key the file has, a mode it does not have; or
  // a file comes back under the cached key with another mode.
  predicate Breaks(s: World, e: Event)
    requires Formed(s)
  {
    match e
    case Store(t) => At(s, t).HasRead? && At(s, t).key == KeyOf(File(s)) && At(s, t).mode != ModeOf(File(s))
    case Write(content) => s.key == KeyOf(content) && s.mode != ModeOf(content)
    case _ => false
  }

  // From agreement, those are exactly the steps that end it.
  lemma DisagreesIffBroken(s: World, e: Event)
    requires Formed(s) && Agrees(s)
    ensures !Agrees(Next(s, e)) <==> Breaks(s, e)
  {
  }

  predicate AgreesThroughout(s: World, es: seq<Event>)
    requires Formed(s)
    decreases |es|
  {
    Agrees(s) && (es == [] || AgreesThroughout(Next(s, es[0]), es[1..]))
  }

  predicate NeverBroken(s: World, es: seq<Event>)
    requires Formed(s)
    decreases |es|
  {
    es == [] || (!Breaks(s, es[0]) && NeverBroken(Next(s, es[0]), es[1..]))
  }

  // So over any run, failed reads and returning files included, the cache
  // agrees with the file all along exactly when no step is one of those.
  lemma {:induction false} AgreesThroughoutIff(s: World, es: seq<Event>)
    requires Formed(s) && Agrees(s)
    ensures AgreesThroughout(s, es) <==> NeverBroken(s, es)
    decreases |es|
  {
    if es != [] {
      DisagreesIffBroken(s, es[0]);
      if !Breaks(s, es[0]) { AgreesThroughoutIff(Next(s, es[0]), es[1..]); }
      else { assert !AgreesThroughout(Next(s, es[0]), es[1..]); }
    }
  }

  // Once broken it stays so until the file is replaced, or a thread swaps
  // another key or the right mode in.
  lemma StaysWrongUntil(s: World, e: Event)
    requires Formed(s) && !Agrees(s)
    ensures Agrees(Next(s, e)) ==>
              e.Write? || e.StatFails?
              || (e.Store? && At(s, e.t).HasRead?
                  && (At(s, e.t).key != KeyOf(File(s)) || At(s, e.t).mode == ModeOf(File(s))))
  {
  }

  // It is not enough that different contents have different keys: if an old
  // file comes back with its old key while a call is between its stat and its
  // read, the cache stays wrong for as long as that file stays.
  lemma ReturningFileCanStayWrong(gpu: Mode, vm: Mode) returns (es: seq<Event>)
    requires gpu.Gpu? && vm.Vm?
    ensures var s := Run(Boot(Present(1, Some(gpu))), es);
            File(s) == Present(1, Some(gpu)) && s.key == KeyOf(File(s)) && s.mode == vm
            && forall i, j | 0 <= i < |s.versions| && 0 <= j < |s.versions| ::
                 KeyOf(s.versions[i]) == KeyOf(s.versions[j]) ==> s.versions[i] == s.versions[j]
  {
    var s := Boot(Present(1, Some(gpu)));
    es := Then(s, [], LookStat(0));
    es := Then(s, es, LookUp(0));
    es := Then(s, es, Write(Present(2, Some(vm))));
    es := Then(s, es, Read(0));
    es := Then(s, es, Write(Present(1, Some(gpu))));
    es := Then(s, es, Store(0));
  }

  // And one failed read is remembered like an answer: until the file is
  // replaced, generation stays on the VM.
  lemma FailedReadSticks(gpu: Mode) returns (es: seq<Event>)
    requires gpu.Gpu?
    ensures var s := Run(Boot(Present(1, Some(gpu))), es);
            File(s) == Present(1, Some(gpu)) && s.key == KeyOf(File(s)) && s.mode == DefaultMode
            && At(s, 1) == Decided(DefaultMode, 1)
  {
    var s := Boot(Present(1, Some(gpu)));
    es := Then(s, [], LookStat(0));
    es := Then(s, es, LookUp(0));
    es := Then(s, es, ReadFails(0));
    es := Then(s, es, Store(0));
    es := Then(s, es, LookStat(1));
    es := Then(s, es, LookUp(1));
  }
}
