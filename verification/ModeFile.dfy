/** The generation mode file and everyone who replaces it:
    `scripts/classroom_gpu_mode.py:130-211,618-728` and the lock of
    `scripts/lib/gpu_failback_helpers.py:70-110`. */
module ModeFile {
  import opened Common

  // A mode file's text, by what the backend makes of it.
  datatype Text =
    | Gpu(body: string, expiresAt: Option<int>)
    | Vm(body: string)
    | Unusable(body: string)

  const PlainVm := Vm("{\"mode\": \"vm\"}")

  predicate IsGpu(file: Option<Text>) { file.Some? && file.value.Gpu? }

  // ------------------------------------------------------------------ //
  // The file, written in place
  // ------------------------------------------------------------------ //

  datatype Replaced = Switched | Changed | Busy

  // What one writer leaves of the file: a switch to the VM goes through
  // without the lock, any other text does not.
  function AfterWrite(file: Option<Text>, content: Text, lockBusy: bool): Option<Text> {
    if lockBusy && content.Gpu? then file else Some(content)
  }

  // And what a failback does.
  function Replacing(file: Option<Text>, expected: Text, lockBusy: bool): Replaced {
    if lockBusy then Busy else if file == Some(expected) then Switched else Changed
  }

  class Store {
    var text: Option<Text>
    ghost var switches: seq<Switch>   // what failbacks replaced, in order
    ghost var edits: nat              // everybody else's changes

    constructor (text: Option<Text>)
      ensures this.text == text && switches == [] && edits == 0
    {
      this.text := text;
      switches, edits := [], 0;
    }

    // `write_mode_file`: false is the Abort. A switch to the VM is never
    // refused for want of the lock.
    method Write(content: Text, lockBusy: bool) returns (written: bool)
      modifies this`text
      ensures written <==> !lockBusy || !content.Gpu?
      ensures text == AfterWrite(old(text), content, lockBusy)
    {
      if lockBusy && content.Gpu? { return false; }
      text := Some(content);
      written := true;
    }

    // `replace_mode_file_if_unchanged`
    method ReplaceIfUnchanged(expected: Text, content: Text, lockBusy: bool) returns (r: Replaced)
      modifies this`text, this`switches
      ensures r == Replacing(old(text), expected, lockBusy)
      ensures text == if r == Switched then Some(content) else old(text)
      ensures switches == old(switches) + if r == Switched then [Switch(old(text), expected, content)] else []
    {
      if lockBusy { return Busy; }
      if text != Some(expected) { return Changed; }
      switches := switches + [Switch(text, expected, content)];
      text := Some(content);
      r := Switched;
    }

    // `start`: check everything, switch, check the classroom's four
    // conditions on the GPU, and put back what was there if anything fails.
    method Start(content: Text, ready: bool, confirmed: bool, busyAtSwitch: bool, busyAtRollback: bool)
        returns (started: bool)
      requires content.Gpu?
      modifies this`text
      ensures started <==> ready && !busyAtSwitch && confirmed
      ensures started ==> text == Some(content)
      ensures !started && (!ready || busyAtSwitch) ==> text == old(text)
      ensures !started && ready && !busyAtSwitch ==>
                text == (if old(text).None? then Some(Vm("{\"mode\": \"vm\"}"))
                         else if busyAtRollback && IsGpu(old(text)) then Some(content) else old(text))
    {
      if !ready { return false; }
      var previous := text;
      var switched := Write(content, busyAtSwitch);
      if !switched { return false; }
      if !confirmed {
        var restored := Write(if previous.Some? then previous.value else PlainVm, busyAtRollback);
        return false;
      }
      started := true;
    }

    // The first thing `stop` does, whatever else is stuck.
    method Stop(body: string, lockBusy: bool)
      modifies this`text
      ensures text == Some(Vm(body))
    {
      var written := Write(Vm(body), lockBusy);
    }
  }

  // ------------------------------------------------------------------ //
  // All of them at once
  // ------------------------------------------------------------------ //

  datatype Pc =
    | Idle
    | Waiting(content: Text)          // a manual command, about to take the lock
    | Locked(content: Text)           // holding it
    | Forced(content: Text)           // could not get it, writing the VM regardless
    | Judged(judged: Text)            // the watchdog decided to fail back from this text
    | Comparing(judged: Text)         // holding the lock
    | Matched(judged: Text)           // read the file: still the judged text

  datatype Switch = Switch(over: Option<Text>, judged: Text, written: Text)

  datatype World =
    World(lockable: bool, file: Option<Text>, lock: Option<nat>, pcs: map<nat, Pc>, switches: seq<Switch>)

  function PcOf(s: World, p: nat): Pc { if p in s.pcs then s.pcs[p] else Idle }

  function Now(s: World, p: nat, pc: Pc): World { s.(pcs := s.pcs[p := pc]) }

  datatype Event =
    | BeginWrite(p: nat, content: Text)
    | TakeLock(p: nat)
    | GiveUp(p: nat)                  // the lock stayed busy past its timeout
    | Replace(p: nat, body: string)   // and release
    | Judge(p: nat)
    | Compare(p: nat)
    | Die(p: nat)                     // the kernel drops the lock

  function Release(s: World, p: nat): World {
    Now(if s.lock == Some(p) then s.(lock := None) else s, p, Idle)
  }

  function Next(s: World, e: Event): World {
    match e
    case BeginWrite(p, content) => if PcOf(s, p) != Idle then s else Now(s, p, Waiting(content))
    case Judge(p) =>
      if PcOf(s, p) != Idle || !IsGpu(s.file) then s else Now(s, p, Judged(s.file.value))
    case TakeLock(p) =>
      if s.lockable && s.lock.Some? then s
      else if PcOf(s, p).Waiting? then Now(Held(s, p), p, Locked(PcOf(s, p).content))
      else if PcOf(s, p).Judged? then Now(Held(s, p), p, Comparing(PcOf(s, p).judged))
      else s
    case GiveUp(p) =>
      if s.lock.None? then s
      else if PcOf(s, p).Waiting? then Now(s, p, if PcOf(s, p).content.Gpu? then Idle else Forced(PcOf(s, p).content))
      else if PcOf(s, p).Judged? then Now(s, p, Idle)
      else s
    case Compare(p) =>
      if !PcOf(s, p).Comparing? then s
      else if s.file == Some(PcOf(s, p).judged) then Now(s, p, Matched(PcOf(s, p).judged))
      else Release(s, p)
    case Replace(p, body) =>
      (match PcOf(s, p)
      case Locked(content) => Release(s.(file := Some(content)), p)
      case Forced(content) => Now(s.(file := Some(content)), p, Idle)
      case Matched(judged) =>
        Release(s.(file := Some(Vm(body)), switches := s.switches + [Switch(s.file, judged, Vm(body))]), p)
      case _ => s)
    case Die(p) => Release(s, p)
  }

  // On a filesystem without locks the lock is taken in name only.
  function Held(s: World, p: nat): World { if s.lockable then s.(lock := Some(p)) else s }

  function Run(s: World, es: seq<Event>): World
    decreases |es|
  {
    if es == [] then s else Run(Next(s, es[0]), es[1..])
  }

  function Begin(lockable: bool, file: Option<Text>): World { World(lockable, file, None, map[], []) }

  predicate Holds(pc: Pc) { pc.Locked? || pc.Comparing? || pc.Matched? }

  // One whole write, and one whole replacement, of a process nobody gets in the
  // way of: what the store's methods do.
  lemma WriteIsARun(s: World, p: nat, content: Text)
    requires s.lockable && PcOf(s, p) == Idle
    ensures var take := if s.lock.Some? then GiveUp(p) else TakeLock(p);
            var t := Run(s, [BeginWrite(p, content), take, Replace(p, "")]);
            t.file == AfterWrite(s.file, content, s.lock.Some?) && t.switches == s.switches && t.lock == s.lock
            && PcOf(t, p) == Idle
  {
    var take := if s.lock.Some? then GiveUp(p) else TakeLock(p);
    RunThree(s, BeginWrite(p, content), take, Replace(p, ""));
  }

  lemma ReplacementIsARun(s: World, p: nat, expected: Text, body: string)
    requires s.lockable && PcOf(s, p) == Judged(expected)
    ensures var take := if s.lock.Some? then GiveUp(p) else TakeLock(p);
            var t := Run(s, [take, Compare(p), Replace(p, body)]);
            var r := Replacing(s.file, expected, s.lock.Some?);
            t.file == (if r == Switched then Some(Vm(body)) else s.file) && t.lock == s.lock && PcOf(t, p) == Idle
            && t.switches == s.switches + if r == Switched then [Switch(s.file, expected, Vm(body))] else []
  {
    var take := if s.lock.Some? then GiveUp(p) else TakeLock(p);
    RunThree(s, take, Compare(p), Replace(p, body));
  }

  // A process does one thing at a time, and gives up only a lock somebody has.
  lemma OneThingAtATime(s: World, p: nat, content: Text)
    ensures PcOf(s, p) != Idle ==> Next(s, BeginWrite(p, content)) == s && Next(s, Judge(p)) == s
    ensures s.lock.None? ==> Next(s, GiveUp(p)) == s
    ensures s.lockable && s.lock.Some? ==> Next(s, TakeLock(p)) == s
  {
  }

  lemma RunThree(s: World, a: Event, b: Event, c: Event)
    ensures Run(s, [a, b, c]) == Next(Next(Next(s, a), b), c)
  {
    assert [a, b, c][1..] == [b, c] && [b, c][1..] == [c] && [c][1..] == [];
    assert Run(Next(Next(s, a), b), [c]) == Run(Next(Next(Next(s, a), b), c), []);
  }

  ghost predicate Inv(s: World) {
    (forall p :: p in s.pcs && Holds(s.pcs[p]) ==> s.lock == Some(p))
    && (forall p :: p in s.pcs && s.pcs[p].Forced? ==> !s.pcs[p].content.Gpu?)
    && (forall p :: p in s.pcs && s.pcs[p].Matched? ==> s.file == Some(s.pcs[p].judged) || !IsGpu(s.file))
    && (forall w :: w in s.switches ==> Proper(w))
  }

  // A failback writes VM mode, over the text it judged or over a file that is
  // not GPU mode in the first place.
  predicate Proper(w: Switch) { w.written.Vm? && (w.over == Some(w.judged) || !IsGpu(w.over)) }

  lemma NextKeeps(s: World, e: Event)
    requires s.lockable && Inv(s)
    ensures Next(s, e).lockable && Inv(Next(s, e))
  {
  }

  lemma {:induction false} RunKeeps(s: World, es: seq<Event>)
    requires s.lockable && Inv(s)
    ensures Inv(Run(s, es))
    decreases |es|
  {
    if es != [] {
      NextKeeps(s, es[0]);
      RunKeeps(Next(s, es[0]), es[1..]);
    }
  }

  // Main result: with any number of watchdogs, starts, rollbacks and stops,
  // including stops that write without the lock, and with deaths at any
  // point, no GPU session is ever ended but the one that was judged.
  lemma OnlyTheJudgedSessionEnds(file: Option<Text>, es: seq<Event>)
    ensures forall w :: w in Run(Begin(true, file), es).switches ==> Proper(w)
  {
    RunKeeps(Begin(true, file), es);
  }

  lemma {:induction false} RunAppend(s: World, es: seq<Event>, e: Event)
    ensures Run(s, es + [e]) == Next(Run(s, es), e)
    decreases |es|
  {
    if es == [] {
      assert Run(s, [e]) == Run(Next(s, e), [e][1..]);
      assert es + [e] == [e];
    } else {
      assert (es + [e])[1..] == es[1..] + [e];
      RunAppend(Next(s, es[0]), es[1..], e);
    }
  }

  lemma Then(s: World, es: seq<Event>, e: Event) returns (longer: seq<Event>)
    ensures longer == es + [e] && Run(s, longer) == Next(Run(s, es), e)
  {
    longer := es + [e];
    RunAppend(s, es, e);
  }

  // There no lock is ever held.
  lemma {:induction false} NothingIsHeld(s: World, es: seq<Event>)
    requires !s.lockable && s.lock.None?
    ensures Run(s, es).lock.None?
    decreases |es|
  {
    if es != [] { NothingIsHeld(Next(s, es[0]), es[1..]); }
  }

  // Without locks the new session can be lost.
  lemma WithoutLocksASessionCanEnd(ended: Text, later: Text, body: string) returns (es: seq<Event>)
    requires ended.Gpu? && later.Gpu? && ended != later
    ensures var s := Run(Begin(false, Some(ended)), es);
            s.file == Some(Vm(body)) && s.switches == [Switch(Some(later), ended, Vm(body))]
  {
    var s := Begin(false, Some(ended));
    es := Then(s, [], Judge(0));
    es := Then(s, es, TakeLock(0));
    es := Then(s, es, Compare(0));
    es := Then(s, es, BeginWrite(1, later));
    es := Then(s, es, TakeLock(1));
    es := Then(s, es, Replace(1, ""));
    es := Then(s, es, Replace(0, body));
  }

  // No run ever ends another session than the judged one exactly when the
  // filesystem has locks.
  lemma SessionsAreSafeIff(lockable: bool)
    ensures (forall file, es, w :: w in Run(Begin(lockable, file), es).switches ==> Proper(w)) <==> lockable
  {
    if lockable {
      forall file, es, w | w in Run(Begin(lockable, file), es).switches ensures Proper(w) {
        OnlyTheJudgedSessionEnds(file, es);
      }
    } else {
      var ended, later := Gpu("", None), Gpu(" ", None);
      var es := WithoutLocksASessionCanEnd(ended, later, "");
      var w := Switch(Some(later), ended, Vm(""));
      assert w in Run(Begin(lockable, Some(ended)), es).switches && !Proper(w);
    }
  }
}
