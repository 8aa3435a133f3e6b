/** The watchdog that takes generation back to the VM when the classroom GPU
    goes away: `scripts/gpu_failback_watchdog.py`.

    Any state write may fail, a run may be killed between any two of its
    writes, the state file may be unreadable on the next run, and people start
    and stop GPU mode while a run is in progress. One run at a time, as the run
    lock has it. */
module FailbackWatchdog {
  import opened Common
  import opened ModeFile

  // ------------------------------------------------------------------ //
  // What is persisted
  // ------------------------------------------------------------------ //

  datatype Streak = Streak(fingerprint: string, failures: nat, lastFailureAt: int)
  datatype Warmup = Pending | Succeeded | WarmupFailed

  // `serial` stands for everything that tells one failback from another.
  datatype Failback =
    Failback(serial: nat, modeFingerprint: string, warmup: Warmup, attempts: nat, warmupAt: Option<int>)

  datatype State = State(streak: Option<Streak>, last: Option<Failback>)

  const NoState := State(None, None)
  const MAX_WARMUP_ATTEMPTS: nat := 3
  const FAILED_WARMUP_RETRY: int := 60 * SECOND

  datatype Settings = Settings(failures: nat, expiryMargin: int, streakWindow: int)

  // Times are stored to the second.
  function Trunc(t: int): int { t - t % SECOND }

  function CurrentStreak(state: State, fingerprint: string, now: int, window: int): nat {
    match state.streak
    case None => 0
    case Some(s) => if s.fingerprint != fingerprint || now - s.lastFailureAt > window then 0 else s.failures
  }

  // How a finished warm-up attempt is recorded.
  function WarmedUp(state: State, warm: bool, at: int): State
    requires state.last.Some?
  {
    var last := state.last.value;
    state.(last := Some(last.(warmup := if warm then Succeeded else WarmupFailed, warmupAt := Some(Trunc(at)))))
  }

  // ------------------------------------------------------------------ //
  // The checks that were recorded, and what a streak stands for
  // ------------------------------------------------------------------ //

  datatype Outcome = CheckFailed | Healthy | VmMode | Replaced
  datatype Check = Check(at: int, text: Option<Text>, outcome: Outcome)

  // The last n recorded checks all failed, against files with this
  // fingerprint, none more than the window after the one before.
  ghost predicate Backed(checks: seq<Check>, fp: Text -> string, fingerprint: string, n: nat, window: int) {
    n <= |checks|
    && forall i :: |checks| - n <= i < |checks| ==>
         checks[i].outcome == CheckFailed && checks[i].text.Some? && fp(checks[i].text.value) == fingerprint
         && (i > |checks| - n ==> checks[i].at - checks[i - 1].at <= window)
  }

  ghost predicate StreakBacked(state: State, checks: seq<Check>, fp: Text -> string, window: int) {
    state.streak.Some? ==>
      var s := state.streak.value;
      s.failures > 0 && Backed(checks, fp, s.fingerprint, s.failures, window)
          && s.lastFailureAt == Trunc(checks[|checks| - 1].at)
  }

  // Counting one more failure on top of what the state says is justified.
  lemma OneMoreFailure(state: State, checks: seq<Check>, fp: Text -> string, text: Text, now: int, window: int)
    requires StreakBacked(state, checks, fp, window)
    ensures var longer := checks + [Check(now, Some(text), CheckFailed)];
            Backed(longer, fp, fp(text), CurrentStreak(state, fp(text), now, window) + 1, window)
  {
    var n := CurrentStreak(state, fp(text), now, window);
    var longer := checks + [Check(now, Some(text), CheckFailed)];
    if n > 0 { assert now - checks[|checks| - 1].at <= now - Trunc(checks[|checks| - 1].at); }
  }

  lemma FewerAreBacked(checks: seq<Check>, fp: Text -> string, fingerprint: string, n: nat, m: nat, window: int)
    requires Backed(checks, fp, fingerprint, n, window) && m <= n
    ensures Backed(checks, fp, fingerprint, m, window)
  {
  }

  ghost predicate CollisionFree(fp: Text -> string) { forall a, b :: fp(a) == fp(b) ==> a == b }

  // With a collision-free fingerprint they were checks of this very file.
  lemma BackedBySameText(checks: seq<Check>, fp: Text -> string, text: Text, n: nat, window: int)
    requires CollisionFree(fp) && Backed(checks, fp, fp(text), n, window)
    ensures forall i :: |checks| - n <= i < |checks| ==> checks[i].text == Some(text)
  {
    forall i | |checks| - n <= i < |checks| ensures checks[i].text == Some(text) {
      assert fp(checks[i].text.value) == fp(text);
    }
  }

  // ------------------------------------------------------------------ //
  // One run
  // ------------------------------------------------------------------ //

  // What asking the GPU service came to.
  datatype Probe = Probe(answered: bool, secondsRemaining: Option<int>, problems: bool)

  predicate Unwell(p: Probe) { !p.answered || p.problems }

  // The allocation is within the margin of its end, by the mode file or by
  // the service itself.
  predicate Ending(text: Text, p: Probe, now: int, margin: int)
    requires text.Gpu?
  {
    (text.expiresAt.Some? && text.expiresAt.value - now <= margin)
    || (p.answered && p.secondsRemaining.Some? && p.secondsRemaining.value <= margin)
  }

  // The allocation is known, from the file or from the service, to have this
  // much time left.
  predicate HasLeft(text: Text, p: Probe, now: int, left: int)
    requires text.Gpu?
  {
    text.expiresAt == Some(now + left) || (p.answered && p.secondsRemaining == Some(left))
  }

  // It is ending when it has no more than the margin left by either.
  lemma EndingIff(text: Text, p: Probe, now: int, margin: int)
    requires text.Gpu?
    ensures Ending(text, p, now, margin) <==>
              exists left :: HasLeft(text, p, now, left) && left <= margin
  {
    if text.expiresAt.Some? { assert HasLeft(text, p, now, text.expiresAt.value - now); }
    if p.answered && p.secondsRemaining.Some? { assert HasLeft(text, p, now, p.secondsRemaining.value); }
  }

  // A check is passed by an answer without problems, and by nothing else.
  lemma WellIff(p: Probe)
    ensures !Unwell(p) <==> p.answered && !p.problems
  {
  }

  datatype Ended =
    | NothingToDo                               // VM mode
    | GaveUpWarmup                              // an interrupted warm-up written off
    | WarmedAgain                               // an earlier failback's warm-up resumed or retried
    | CheckedHealthy
    | CountedFailure(failures: nat)
    | WouldSwitch(ending: bool, failures: nat)  // dry run
    | Deferred(ending: bool, failures: nat)     // the mode file is locked by a manual command
    | Superseded(ending: bool, failures: nat)   // somebody changed the mode meanwhile
    | Switched(ending: bool, failures: nat)

  // A failback that was made: when, over and to what, and what it went by.
  datatype Cause = Cause(at: int, judged: Text, written: Text, ending: bool, probe: Probe, before: seq<Check>)

  ghost predicate Justified(c: Cause, fp: Text -> string, settings: Settings) {
    c.judged.Gpu? && c.written.Vm?
    && if c.ending then Ending(c.judged, c.probe, c.at, settings.expiryMargin)
       else
         var checks := c.before + [Check(c.at, Some(c.judged), CheckFailed)];
         Unwell(c.probe) && Backed(checks, fp, fp(c.judged), settings.failures, settings.streakWindow)
  }

  function AsSwitches(causes: seq<Cause>): seq<Switch> {
    seq(|causes|, i requires 0 <= i < |causes| => Switch(Some(causes[i].judged), causes[i].judged, causes[i].written))
  }

  // What a run does to the world, in order.
  datatype Effect =
    | Replacing(judged: Text, written: Text)    // the mode file
    | Writing(state: State)                     // the state file, whether or not it lands
    | Warming(serial: nat)                      // the VM's models

  function Begun(state: State): State
    requires state.last.Some?
  {
    state.(last := Some(state.last.value.(attempts := state.last.value.attempts + 1)))
  }

  // How an attempt goes: whether its count is written, whether the run is
  // killed while warming, whether the outcome is written, and that outcome.
  datatype Luck = Luck(counted: bool, killed: bool, recorded: bool, warm: bool, at: int)

  // What an attempt leaves on disk.
  function AfterAttempt(disk: State, state: State, luck: Luck): State
    requires state.last.Some?
  {
    var counted := if luck.counted then Begun(state) else disk;
    if luck.killed || !luck.recorded then counted else WarmedUp(Begun(state), luck.warm, luck.at)
  }

  // A warm-up: the attempt is counted before it is made, its outcome written
  // after it, unless the run is killed in between.
  ghost predicate WarmupEffects(state: State, es: seq<Effect>)
    requires state.last.Some?
  {
    2 <= |es| <= 3 && es[0] == Writing(Begun(state)) && es[1] == Warming(state.last.value.serial)
    && (|es| == 3 ==> es[2].Writing? && exists warm, at :: es[2].state == WarmedUp(Begun(state), warm, at))
  }

  // A failback: the switch first, then its record, then the warm-up.
  ghost predicate FailbackEffects(judged: Text, fp: Text -> string, es: seq<Effect>) {
    |es| >= 1 && es[0].Replacing? && es[0].judged == judged && es[0].written.Vm?
    && (|es| > 1 ==>
          es[1].Writing? && es[1].state.streak.None? && es[1].state.last.Some?
          && var r := es[1].state.last.value;
             r.modeFingerprint == fp(es[0].written) && r.warmup == Pending && r.attempts == 0
             && (|es| > 2 ==> WarmupEffects(es[1].state, es[2..])))
  }

  // When a run in VM mode takes up a failback's warm-up: on the file that
  // failback wrote, below the limit, if it was interrupted or if it failed and
  // the delay has passed.
  predicate TakesUp(fp: Text -> string, state: State, text: Option<Text>, now: int) {
    text.Some? && state.last.Some?
    && var r := state.last.value;
       r.modeFingerprint == fp(text.value) && r.attempts < MAX_WARMUP_ATTEMPTS
       && (r.warmup == Pending
           || (r.warmup == WarmupFailed && (r.warmupAt.None? || now - r.warmupAt.value >= FAILED_WARMUP_RETRY)))
  }

  // A warm-up is taken up again only on the file its failback wrote, below the
  // limit, and after one that failed not before the delay has passed.
  ghost predicate MayWarmAgain(fp: Text -> string, state: State, text: Option<Text>, now: int,
        finished: map<nat, int>)
  {
    text.Some? && state.last.Some?
    && var r := state.last.value;
       r.modeFingerprint == fp(text.value) && r.attempts < MAX_WARMUP_ATTEMPTS && r.warmup != Succeeded
       && (r.warmup == WarmupFailed && r.warmupAt.Some? ==>
             r.serial in finished && now - finished[r.serial] > FAILED_WARMUP_RETRY - SECOND)
  }

  predicate Due(e: Ended) { e.WouldSwitch? || e.Deferred? || e.Superseded? || e.Switched? }

  class Watchdog {
    const settings: Settings
    const fp: Text -> string
    const file: Store
    var disk: State
    var serials: nat

    ghost var checks: seq<Check>           // recorded by a state write that succeeded
    ghost var started: map<nat, nat>       // warm-ups begun, per failback
    ghost var unsaved: map<nat, nat>       // attempts whose state write failed
    ghost var finished: map<nat, int>      // when the last recorded attempt finished
    ghost var causes: seq<Cause>           // every failback made
    ghost var log: seq<Effect>             // everything done, in order

    ghost function Started(serial: nat): nat reads this { if serial in started then started[serial] else 0 }
    ghost function Unsaved(serial: nat): nat reads this { if serial in unsaved then unsaved[serial] else 0 }

    // Every attempt is in the count the record carries, or its write failed.
    ghost predicate Budgeted(r: Failback) reads this {
      r.serial < serials && r.attempts <= MAX_WARMUP_ATTEMPTS && Started(r.serial) <= r.attempts + Unsaved(r.serial)
      && (r.warmupAt.Some? ==> r.serial in finished && r.warmupAt.value == Trunc(finished[r.serial]))
    }

    ghost predicate Known(state: State) reads this {
      StreakBacked(state, checks, fp, settings.streakWindow) && (state.last.Some? ==> Budgeted(state.last.value))
    }

    ghost predicate Valid() reads this {
      settings.failures >= 1 && Known(disk)
      && (forall n :: n in started ==> n < serials && started[n] <= MAX_WARMUP_ATTEMPTS + Unsaved(n))
      && (forall i :: 0 <= i < |causes| ==> Justified(causes[i], fp, settings) && causes[i].before <= checks)
    }

    constructor (settings: Settings, fp: Text -> string, file: Store)
      requires settings.failures >= 1
      ensures Valid() && disk == NoState && checks == [] && started == map[] && causes == [] && log == []
      ensures this.settings == settings && this.fp == fp && this.file == file
    {
      this.settings, this.fp, this.file := settings, fp, file;
      disk, serials := NoState, 0;
      checks, started, unsaved, finished, causes, log := [], map[], map[], map[], [], [];
    }

    // People running `start` and `stop`, any number of times.
    method People()
      modifies file`text, file`edits
      ensures file.edits >= old(file.edits) && (file.edits == old(file.edits) ==> file.text == old(file.text))
    {
      if * {
        var text: Option<Text> := *;
        file.text := text;
        file.edits := file.edits + 1;
      }
    }

    // Empty when the file is absent or unreadable.
    method ReadState(readable: bool) returns (state: State)
      requires Valid()
      ensures Known(state) && state == if readable then disk else NoState
    {
      state := if readable then disk else NoState;
    }

    // `save`, and with it the record of the check it is about.
    method Save(state: State, lands: bool, ghost check: seq<Check>)
      requires Valid() && |check| <= 1
      requires StreakBacked(state, checks + check, fp, settings.streakWindow)
      requires state.last.Some? ==> Budgeted(state.last.value)
      requires check == [] ==> state.streak.None? || state.streak == disk.streak
      modifies this`disk, this`checks, this`log
      ensures Valid() && Known(disk) && log == old(log) + [Writing(state)]
      ensures disk == if lands then state else old(disk)
      ensures checks == if lands then old(checks) + check else old(checks)
    {
      log := log + [Writing(state)];
      if lands {
        disk := state;
        checks := checks + check;
      }
    }

    // How a run ends in GPU mode. A switch is due only for cause, and always
    // when the allocation is ending or the failed checks are enough; it is then
    // held back only by a dry run, a busy lock, or somebody else's change of
    // the file.
    ghost predicate Rightly(end: Ended, loaded: State, text: Text, now: int, probe: Probe, before: seq<Check>,
        dryRun: bool, lockBusy: bool)
      requires text.Gpu?
    {
      (Due(end) ==>
         Justified(Cause(now, text, PlainVm, end.ending, probe, before), fp, settings)
         && (end.WouldSwitch? <==> dryRun) && (end.Deferred? <==> !dryRun && lockBusy))
      && if Ending(text, probe, now, settings.expiryMargin) then Due(end) && end.ending
         else if !Unwell(probe) then end.CheckedHealthy?
         else
           var counts := loaded.streak.Some? && loaded.streak.value.fingerprint == fp(text)
                         && now - loaded.streak.value.lastFailureAt <= settings.streakWindow;
           var failures := if counts then loaded.streak.value.failures + 1 else 1;
           if failures < settings.failures then end == CountedFailure(failures)
           else Due(end) && !end.ending && end.failures == failures
    }

    // The streak a run in GPU mode leaves on disk when its write lands.
    ghost predicate Noted(end: Ended, text: Text, now: int) reads this {
      (end.CheckedHealthy? ==> disk.streak.None?)
      && (end.CountedFailure? ==> disk.streak == Some(Streak(fp(text), end.failures, Trunc(now))))
    }

    // One run: how it ended, the text it judged, the state it read, the
    // failback it made, if any, and everything it did. The state may be
    // unreadable, the write of a check may be lost, and a warm-up has its luck.
    method RunOnce(now: int, probe: Probe, dryRun: bool, lockBusy: bool, readable: bool, lands: bool, luck: Luck)
      returns (end: Ended, judged: Option<Text>, loaded: State, ghost made: seq<Cause>, ghost done: seq<Effect>)
      requires Valid()
      modifies this, file
      ensures Valid() && judged == old(file.text) && loaded == if readable then old(disk) else NoState
      ensures if IsGpu(judged) then Rightly(end, loaded, judged.value, now, probe, old(checks), dryRun, lockBusy)
              else end.NothingToDo? || end.GaveUpWarmup? || end.WarmedAgain?
      ensures IsGpu(judged) && !dryRun && lands ==> Noted(end, judged.value, now)
      ensures end.WarmedAgain? <==> !IsGpu(judged) && !dryRun && TakesUp(fp, loaded, judged, now)
      ensures end.WarmedAgain? ==>
                MayWarmAgain(fp, loaded, judged, now, old(finished))
                && WarmupEffects(loaded.(streak := None), done)
      ensures end.Superseded? ==> file.edits > old(file.edits)
      ensures dryRun ==> disk == old(disk) && checks == old(checks) && started == old(started) && done == []
      ensures causes == old(causes) + made && log == old(log) + done
      // The watchdog changes the mode file by a switch and in no other way.
      ensures file.switches == old(file.switches) + AsSwitches(made)
      ensures if end.Switched? then MadeFor(end, judged, now, probe, old(checks), made, done) else made == []
      ensures file.edits >= old(file.edits)
      ensures file.edits == old(file.edits) ==> file.text == if made != [] then Some(made[0].written) else judged
    {
      judged := file.text;
      loaded := ReadState(readable);
      People();
      if IsGpu(judged) {
        end, made, done := InGpuMode(loaded, judged.value, now, probe, dryRun, lockBusy, lands);
      } else {
        made := [];
        end, done := InVmMode(loaded, judged, now, dryRun, lands, luck);
      }
    }

    // GPU mode: one check, which may be the last one.
    method InGpuMode(loaded: State, text: Text, now: int, probe: Probe, dryRun: bool, lockBusy: bool, lands: bool)
      returns (end: Ended, ghost made: seq<Cause>, ghost done: seq<Effect>)
      requires Valid() && Known(loaded) && text.Gpu? && (loaded == disk || loaded == NoState)
      modifies this, file
      ensures Valid() && Rightly(end, loaded, text, now, probe, old(checks), dryRun, lockBusy)
      ensures !dryRun && lands ==> Noted(end, text, now)
      ensures end.Superseded? ==> old(file.text) != Some(text)
      ensures dryRun ==> disk == old(disk) && checks == old(checks) && started == old(started) && done == []
      ensures causes == old(causes) + made && log == old(log) + done
      ensures file.switches == old(file.switches) + AsSwitches(made)
      ensures if end.Switched? then MadeFor(end, Some(text), now, probe, old(checks), made, done) else made == []
      ensures file.edits >= old(file.edits)
      ensures file.edits == old(file.edits) ==>
                file.text == if made != [] then Some(made[0].written) else old(file.text)
    {
      made, done := [], [];
      if Ending(text, probe, now, settings.expiryMargin) {
        end, made, done := FailBack(loaded, text, true, 0, now, probe, dryRun, lockBusy);
        return;
      }
      if !Unwell(probe) {
        end := CheckedHealthy;
        if !dryRun {
          Save(loaded.(streak := None), lands, [Check(now, Some(text), Healthy)]);
          done := [Writing(loaded.(streak := None))];
        }
        return;
      }
      var failures := CurrentStreak(loaded, fp(text), now, settings.streakWindow) + 1;
      OneMoreFailure(loaded, checks, fp, text, now, settings.streakWindow);
      var counted := loaded.(streak := Some(Streak(fp(text), failures, Trunc(now))));
      if failures < settings.failures {
        end := CountedFailure(failures);
        if !dryRun {
          Save(counted, lands, [Check(now, Some(text), CheckFailed)]);
          done := [Writing(counted)];
        }
        return;
      }
      ghost var longer := checks + [Check(now, Some(text), CheckFailed)];
      FewerAreBacked(longer, fp, fp(text), failures, settings.failures, settings.streakWindow);
      end, made, done := FailBack(counted, text, false, failures, now, probe, dryRun, lockBusy);
    }

    // VM mode: nothing to protect, perhaps a warm-up to finish.
    method InVmMode(loaded: State, text: Option<Text>, now: int, dryRun: bool, lands: bool, luck: Luck)
      returns (end: Ended, ghost done: seq<Effect>)
      requires Valid() && Known(loaded) && !IsGpu(text)
      modifies this
      ensures Valid() && (end.NothingToDo? || end.GaveUpWarmup? || end.WarmedAgain?)
      ensures causes == old(causes) && log == old(log) + done
      ensures end.WarmedAgain? ==> loaded.last.Some? && WarmupEffects(loaded.(streak := None), done)
      ensures !end.WarmedAgain? ==> done == [] || (|done| == 1 && done[0].Writing?)
      ensures dryRun ==> disk == old(disk) && checks == old(checks) && started == old(started)
      ensures dryRun ==> end.NothingToDo? && done == []
      ensures end.WarmedAgain? <==> !dryRun && TakesUp(fp, loaded, text, now)
      ensures end.WarmedAgain? ==>
                MayWarmAgain(fp, loaded, text, now, old(finished))
                && disk == AfterAttempt(old(disk), loaded.(streak := None), luck)
                && var n := loaded.last.value.serial;
                   started == old(started)[n := old(Started(n)) + 1]
    {
      var state := loaded.(streak := None);
      ghost var check := [Check(now, text, VmMode)];
      end, done := NothingToDo, [];
      if dryRun { return; }
      if state.last.Some? {
        var last := state.last.value;
        var ours := text.Some? && fp(text.value) == last.modeFingerprint;
        if ours && last.warmup == WarmupFailed && last.attempts < MAX_WARMUP_ATTEMPTS
           && (last.warmupAt.None? || now - last.warmupAt.value >= FAILED_WARMUP_RETRY) {
          end := WarmedAgain;
          done := WarmUp(state, luck, check);
          return;
        }
        if last.warmup == Pending {
          if ours && last.attempts < MAX_WARMUP_ATTEMPTS {
            end := WarmedAgain;
            done := WarmUp(state, luck, check);
            return;
          }
          state := state.(last := Some(last.(warmup := WarmupFailed)));
          end := GaveUpWarmup;
        }
      }
      Save(state, lands, check);
      done := [Writing(state)];
    }

    // The failback a switch stands for: one, of the text that was judged, to
    // the VM, followed by its record and the warm-up.
    ghost predicate MadeFor(end: Ended, judged: Option<Text>, now: int, probe: Probe, before: seq<Check>,
        made: seq<Cause>, done: seq<Effect>)
      requires end.Switched?
    {
      |made| == 1 && judged.Some? && made[0].written.Vm?
      && made[0] == Cause(now, judged.value, made[0].written, end.ending, probe, before)
      && FailbackEffects(judged.value, fp, done) && done[0].written == made[0].written
    }

    // The switch, before anything slow and only over the text that was
    // judged; then the record; then the VM's models.
    method FailBack(state: State, text: Text, ending: bool, failures: nat, now: int, probe: Probe, dryRun: bool,
        lockBusy: bool)
      returns (end: Ended, ghost made: seq<Cause>, ghost done: seq<Effect>)
      requires Valid() && (state.last.Some? ==> Budgeted(state.last.value))
      requires if ending then Known(state)
               else StreakBacked(state, checks + [Check(now, Some(text), CheckFailed)], fp, settings.streakWindow)
      requires ending ==> state.streak.None? || state.streak == disk.streak
      requires Justified(Cause(now, text, PlainVm, ending, probe, checks), fp, settings)
      modifies this, file
      ensures Valid() && Due(end) && end.ending == ending && end.failures == failures
      ensures dryRun <==> end.WouldSwitch?
      ensures dryRun ==> disk == old(disk) && checks == old(checks) && started == old(started) && done == []
      ensures end.Deferred? <==> !dryRun && lockBusy
      ensures end.Deferred? ==> done == [Writing(state)]
      ensures end.Superseded? ==> old(file.text) != Some(text) && done == [Writing(state.(streak := None))]
      ensures causes == old(causes) + made && log == old(log) + done
      ensures file.switches == old(file.switches) + AsSwitches(made)
      ensures if end.Switched? then MadeFor(end, Some(text), now, probe, old(checks), made, done) else made == []
      ensures file.edits >= old(file.edits)
      ensures file.edits == old(file.edits) ==>
                file.text == if made != [] then Some(made[0].written) else old(file.text)
    {
      made, done := [], [];
      if dryRun { return WouldSwitch(ending, failures), made, done; }
      var body: string, lands: bool := *, *;
      var replaced := file.ReplaceIfUnchanged(text, Vm(body), lockBusy);
      if replaced == Busy {
        Save(state, lands, if ending then [] else [Check(now, Some(text), CheckFailed)]);
        return Deferred(ending, failures), made, [Writing(state)];
      }
      var cleared := state.(streak := None);
      if replaced == Changed {
        Save(cleared, lands, [Check(now, Some(text), Replaced)]);
        return Superseded(ending, failures), made, [Writing(cleared)];
      }
      end := Ended.Switched(ending, failures);
      ghost var cause := Cause(now, text, Vm(body), ending, probe, checks);
      made, done := FollowUp(cleared, Vm(body), cause);
    }

    // The switch was made: note it, then record it and warm the VM up.
    method FollowUp(cleared: State, written: Text, ghost cause: Cause)
      returns (ghost made: seq<Cause>, ghost done: seq<Effect>)
      requires Valid() && cleared.streak.None? && cause.written == written
      requires Justified(cause, fp, settings) && cause.before == checks
      modifies this, file`text, file`edits
      ensures Valid() && made == [cause] && causes == old(causes) + made && log == old(log) + done
      ensures FailbackEffects(cause.judged, fp, done) && done[0].written == written
      ensures file.edits >= old(file.edits) && (file.edits == old(file.edits) ==> file.text == old(file.text))
    {
      made := [cause];
      log := log + [Replacing(cause.judged, written)];
      causes := causes + made;
      done := RecordAndWarm(cleared, cause.judged, written, cause.at);
      done := [Replacing(cause.judged, written)] + done;
    }

    // After the switch: the record of it, then the VM's models.
    method RecordAndWarm(cleared: State, ghost judged: Text, written: Text, ghost now: int)
      returns (ghost done: seq<Effect>)
      requires Valid() && cleared.streak.None? && written.Vm?
      modifies this, file`text, file`edits
      ensures Valid() && causes == old(causes) && log == old(log) + done
      ensures FailbackEffects(judged, fp, [Replacing(judged, written)] + done)
      ensures file.edits >= old(file.edits) && (file.edits == old(file.edits) ==> file.text == old(file.text))
    {
      done := [];
      if * { return; }                                  // killed before the record
      var recorded := cleared.(last := Some(Failback(serials, fp(written), Pending, 0, None)));
      serials := serials + 1;
      var lands: bool, luck: Luck := *, *;
      Save(recorded, lands, [Check(now, Some(judged), Replaced)]);
      done := [Writing(recorded)];
      People();
      if * { return; }                                  // killed before the warm-up
      done := WarmUp(recorded, luck, []);
      assert ([Replacing(judged, written)] + ([Writing(recorded)] + done))[2..] == done;
      done := [Writing(recorded)] + done;
    }

    method WarmUp(state: State, luck: Luck, ghost check: seq<Check>) returns (ghost done: seq<Effect>)
      requires Valid() && state.streak.None? && state.last.Some? && |check| <= 1
      requires Budgeted(state.last.value) && state.last.value.attempts < MAX_WARMUP_ATTEMPTS
      modifies this
      ensures Valid() && causes == old(causes)
      ensures log == old(log) + done && WarmupEffects(state, done)
      ensures disk == AfterAttempt(old(disk), state, luck)
      ensures var n := state.last.value.serial; started == old(started)[n := old(Started(n)) + 1]
    {
      var begun := BeginAttempt(state, luck.counted, check);
      done := [Writing(begun), Warming(state.last.value.serial)];
      log := log + [Warming(state.last.value.serial)];
      if luck.killed { return; }
      FinishAttempt(begun, luck.recorded, luck.warm, luck.at);
      done := done + [Writing(WarmedUp(begun, luck.warm, luck.at))];
    }

    // Count the attempt before it is made.
    method BeginAttempt(state: State, counted: bool, ghost check: seq<Check>) returns (begun: State)
      requires Valid() && state.streak.None? && state.last.Some? && |check| <= 1
      requires Budgeted(state.last.value) && state.last.value.attempts < MAX_WARMUP_ATTEMPTS
      modifies this
      ensures Valid() && begun == Begun(state) && Budgeted(begun.last.value)
      ensures begun.streak == state.streak
              && begun.last == Some(state.last.value.(attempts := 1 + state.last.value.attempts))
      ensures causes == old(causes) && log == old(log) + [Writing(begun)]
      ensures var n := state.last.value.serial;
              begun.last.value.serial == n && started == old(started)[n := old(Started(n)) + 1]
              && Unsaved(n) == old(Unsaved(n)) + (if counted then 0 else 1)
              && disk == if counted then begun else old(disk)
    {
      var n := state.last.value.serial;
      begun := Begun(state);
      ghost var before := unsaved;
      started := started[n := Started(n) + 1];
      unsaved := unsaved[n := Unsaved(n) + 1];          // until the write below lands
      Save(begun, counted, check);
      if counted { unsaved := before; }
    }

    method FinishAttempt(begun: State, recorded: bool, warm: bool, at: int)
      requires Valid() && begun.streak.None? && begun.last.Some? && Budgeted(begun.last.value)
      modifies this`disk, this`finished, this`log
      ensures Valid() && log == old(log) + [Writing(WarmedUp(begun, warm, at))]
      ensures disk == if recorded then WarmedUp(begun, warm, at) else old(disk)
      ensures recorded ==>
                disk.last.Some? && disk.last.value.warmup == (if warm then Succeeded else WarmupFailed)
                && disk.last.value.warmupAt == Some(Trunc(at)) && disk.last.value.attempts == begun.last.value.attempts
      ensures finished == if recorded then old(finished)[begun.last.value.serial := at] else old(finished)
    {
      log := log + [Writing(WarmedUp(begun, warm, at))];
      if recorded {
        finished := finished[begun.last.value.serial := at];
        disk := WarmedUp(begun, warm, at);
      }
    }
  }

  // Main result: from a fresh installation, after any number of runs with any
  // answers, failed writes and kills, while people start and stop GPU mode:
  // the mode file's failbacks are those of the runs, each over the text it
  // judged, to VM mode, and for cause; and each failback has had at most three
  // warm-ups, plus one for every attempt whose count could not be written.
  method AnyNumberOfRuns(settings: Settings, fp: Text -> string, file: Store) returns (w: Watchdog)
    requires settings.failures >= 1
    modifies file
    ensures fresh(w) && w.file == file && w.fp == fp && w.settings == settings
    ensures file.switches == old(file.switches) + AsSwitches(w.causes)
    ensures forall i :: |old(file.switches)| <= i < |file.switches| ==>
              file.switches[i].judged.Gpu? && file.switches[i].over == Some(file.switches[i].judged)
              && file.switches[i].written.Vm?
    ensures forall i :: 0 <= i < |w.causes| ==> Justified(w.causes[i], fp, settings) && w.causes[i].before <= w.checks
    ensures forall n :: w.Started(n) <= 3 + w.Unsaved(n)
  {
    w := new Watchdog(settings, fp, file);
    var runs :| 0 <= runs;
    for i := 0 to runs
      invariant fresh(w) && w.Valid() && w.file == file && w.fp == fp && w.settings == settings
      invariant file.switches == old(file.switches) + AsSwitches(w.causes)
    {
      w.People();
      var now: int, probe: Probe, dryRun: bool, lockBusy: bool := *, *, *, *;
      var readable: bool, lands: bool, luck: Luck := *, *, *;
      var end, judged, loaded, made, done := w.RunOnce(now, probe, dryRun, lockBusy, readable, lands, luck);
    }
  }

  datatype Reading = Reading(at: int, probe: Probe)

  // Main result: a GPU that has gone stays gone for only so many checks. While
  // nobody else touches the mode file and the state is read and written, the
  // unwell checks of one text, each within the window of the one before, are
  // counted one by one, and the last that is needed makes the failback due.
  method DeadGpuFailsBack(w: Watchdog, text: Text, readings: seq<Reading>, lockBusy: bool) returns (ends: seq<Ended>)
    requires w.Valid() && w.file.text == Some(text) && text.Gpu? && w.disk.streak.None?
    requires |readings| == w.settings.failures
    requires forall i :: 0 <= i < |readings| ==>
               Unwell(readings[i].probe) && !Ending(text, readings[i].probe, readings[i].at, w.settings.expiryMargin)
    requires forall i :: 0 < i < |readings| ==>
               readings[i].at - Trunc(readings[i - 1].at) <= w.settings.streakWindow
    modifies w, w.file
    ensures w.file.edits == old(w.file.edits) ==>
              |ends| == |readings|
              && (forall i :: 0 <= i < |ends| - 1 ==> ends[i] == CountedFailure(i + 1))
              && var last := ends[|ends| - 1];
                 if lockBusy then last == Deferred(false, |readings|) else last == Ended.Switched(false, |readings|)
  {
    ends := [];
    for i := 0 to |readings| - 1
      invariant w.Valid() && w.file.edits >= old(w.file.edits) && |ends| == i
      invariant w.file.edits == old(w.file.edits) ==>
                  w.file.text == Some(text) && Counted(w.disk, w.fp, text, readings, i)
                  && forall k :: 0 <= k < i ==> ends[k] == CountedFailure(k + 1)
    {
      var luck: Luck := *;
      var end, judged, loaded, made, done :=
        w.RunOnce(readings[i].at, readings[i].probe, false, lockBusy, true, true, luck);
      ends := ends + [end];
    }
    var last, luck: Luck := readings[|readings| - 1], *;
    var end, judged, loaded, made, done := w.RunOnce(last.at, last.probe, false, lockBusy, true, true, luck);
    ends := ends + [end];
  }

  // The streak on disk after so many of the readings.
  ghost predicate Counted(disk: State, fp: Text -> string, text: Text, readings: seq<Reading>, n: nat)
    requires n <= |readings|
  {
    if n == 0 then disk.streak.None?
    else disk.streak == Some(Streak(fp(text), n, Trunc(readings[n - 1].at)))
  }

  // The bound is met by failed writes: as long as neither the count nor the
  // outcome can be written, every run in VM mode takes the same warm-up up
  // again, the fourth time like the first.
  method UncountedWarmups(w: Watchdog, text: Text, now: int, runs: nat)
    requires w.Valid() && !text.Gpu? && w.disk.streak.None? && TakesUp(w.fp, w.disk, Some(text), now)
    modifies w
    ensures w.Valid() && w.disk == old(w.disk)
    ensures var n := w.disk.last.value.serial;
            w.Started(n) == old(w.Started(n)) + runs && w.Unsaved(n) >= old(w.Started(n)) + runs - MAX_WARMUP_ATTEMPTS
  {
    for i := 0 to runs
      invariant w.Valid() && w.disk == old(w.disk)
      invariant var n := w.disk.last.value.serial; w.Started(n) == old(w.Started(n)) + i
    {
      var end, done := w.InVmMode(w.disk, Some(text), now, false, false, Luck(false, false, false, false, now));
    }
  }

  // When a warm-up is taken up, in numbers: it was interrupted, or it failed and
  // a minute has passed; it has been tried twice at most.
  lemma TakesUpIff(fp: Text -> string, r: Failback, streak: Option<Streak>, text: Text, now: int)
    ensures TakesUp(fp, State(streak, Some(r)), Some(text), now) <==>
              fp(text) == r.modeFingerprint && r.attempts <= 2
              && match r.warmup
                 case Pending => true
                 case WarmupFailed => r.warmupAt.None? || r.warmupAt.value + 60_000_000 <= now
                 case Succeeded => false
    ensures !TakesUp(fp, State(streak, None), Some(text), now) && !TakesUp(fp, State(streak, Some(r)), None, now)
  {
  }

  // What an attempt leaves: nothing that was not written, one more attempt on
  // record if its count or its outcome was, and the outcome only from a run
  // that lived to write it. A warm-up on record as done is never taken up again.
  lemma AttemptLeaves(disk: State, streak: Option<Streak>, r: Failback, luck: Luck, fp: Text -> string,
        text: Option<Text>, now: int)
    ensures var after := AfterAttempt(disk, State(streak, Some(r)), luck);
            if !luck.killed && luck.recorded then
              after == State(streak, Some(Failback(r.serial, r.modeFingerprint,
                                                   if luck.warm then Succeeded else WarmupFailed, r.attempts + 1,
                                                   Some(luck.at - luck.at % 1_000_000))))
              && (luck.warm ==> !TakesUp(fp, after, text, now))
            else if luck.counted then
              after == State(streak, Some(Failback(r.serial, r.modeFingerprint, r.warmup, r.attempts + 1, r.warmupAt)))
            else after == disk
  {
  }

  // Times are cut to the second, so the window closes up to a second early, by
  // exactly the part that was cut off.
  lemma WindowCloses(last: int, now: int, window: int)
    ensures now - Trunc(last) <= window <==> now - last <= window - last % SECOND
    ensures now - last <= window - SECOND ==> now - Trunc(last) <= window
  {
  }

  // Times are cut to the second, so a retry comes up to a second early, by
  // exactly the part that was cut off.
  lemma RetryDelay(finished: int, now: int)
    ensures now - Trunc(finished) >= FAILED_WARMUP_RETRY <==> now - finished >= 60_000_000 - finished % 1_000_000
    ensures now - Trunc(finished) >= FAILED_WARMUP_RETRY ==> now - finished > 59_000_000
  {
  }
}
