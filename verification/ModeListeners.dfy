/** Who hears of a change of mode, and in which order. `_remember` swaps the
    cached mode under its lock and calls the listeners after letting go of it
    (`backend/app/generation_mode.py:154-173`), so another thread's swap and
    calls can come in between. */
module ModeListeners {
  import opened Common
  import opened GenerationMode

  // ------------------------------------------------------------------ //
  // Under the lock
  // ------------------------------------------------------------------ //

  // The swaps chain through every change of kind, from the VM to the mode
  // that is cached.
  predicate Linked(swaps: seq<Swap>, mode: Mode) {
    (forall i :: 0 <= i < |swaps| ==> swaps[i].was.Gpu? == (i % 2 == 1) && swaps[i].now.Gpu? == (i % 2 == 0))
    && mode.Gpu? == (|swaps| % 2 == 1)
  }

  // The mode an event remembers, if it is one that does.
  function Remembers(s: World, e: Event): Option<Mode>
    requires Formed(s)
  {
    match e
    case StatFails(t) => if At(s, t) == Idle then Some(DefaultMode) else None
    case Store(t) => if At(s, t).HasRead? then Some(At(s, t).mode) else None
    case _ => None
  }

  predicate Swaps(s: World, e: Event)
    requires Formed(s)
  {
    Remembers(s, e).Some? && Remembers(s, e).value.Gpu? != s.mode.Gpu?
  }

  lemma OnlySwapsAreLogged(s: World, e: Event)
    requires Formed(s)
    ensures Next(s, e).mode == (if Remembers(s, e).Some? then Remembers(s, e).value else s.mode)
    ensures Next(s, e).swaps == s.swaps + (if Swaps(s, e) then [Swap(e.t, s.mode, Next(s, e).mode)] else [])
    ensures Swaps(s, e) ==> Next(s, e).owed == s.owed[e.t := |s.swaps|]
    ensures !Swaps(s, e) && !e.Deliver? ==> Next(s, e).owed == s.owed
    ensures !e.Deliver? ==> Next(s, e).heard == s.heard
  {
  }

  lemma {:induction false} SwapsChain(s: World, es: seq<Event>)
    requires Formed(s) && Linked(s.swaps, s.mode)
    ensures Linked(Run(s, es).swaps, Run(s, es).mode)
    decreases |es|
  {
    if es != [] {
      OnlySwapsAreLogged(s, es[0]);
      assert Linked(Next(s, es[0]).swaps, Next(s, es[0]).mode);
      SwapsChain(Next(s, es[0]), es[1..]);
    }
  }

  // ------------------------------------------------------------------ //
  // Exactly once, by its own thread
  // ------------------------------------------------------------------ //

  predicate Owes(s: World, t: nat, i: nat) { t in s.owed && s.owed[t] == i }

  // Every swap has either been told to the listeners or is still owed, by
  // the thread that made it; none is told twice.
  ghost predicate Accounted(s: World) {
    (forall t :: t in s.owed ==> s.owed[t] < |s.swaps| && s.swaps[s.owed[t]].thread == t && s.owed[t] !in s.heard)
    && (forall t :: t in s.owed ==> At(s, t).Decided? || At(s, t).DecidedOnError?)
    && (forall k :: 0 <= k < |s.heard| ==> s.heard[k] < |s.swaps|)
    && (forall j, k :: 0 <= j < k < |s.heard| ==> s.heard[j] != s.heard[k])
    && (forall i :: 0 <= i < |s.swaps| ==> i in s.heard || Owes(s, s.swaps[i].thread, i))
  }

  lemma SwapIsOwed(s: World, e: Event)
    requires Formed(s) && Accounted(s) && Swaps(s, e)
    ensures Accounted(Next(s, e))
  {
    OnlySwapsAreLogged(s, e);
    var next := Next(s, e);
    assert e.t !in s.owed;
    forall i | 0 <= i < |next.swaps| ensures i in next.heard || Owes(next, next.swaps[i].thread, i) {
      if i < |s.swaps| { assert i in s.heard || Owes(s, s.swaps[i].thread, i); }
    }
  }

  lemma DeliveryIsOwed(s: World, t: nat)
    requires Formed(s) && Accounted(s)
    ensures Accounted(Next(s, Deliver(t)))
  {
    var next := Next(s, Deliver(t));
    if t in s.owed {
      forall i | 0 <= i < |next.swaps| ensures i in next.heard || Owes(next, next.swaps[i].thread, i) {
        assert i in s.heard || Owes(s, s.swaps[i].thread, i);
        assert next.heard[|s.heard|] == s.owed[t];
        if i in s.heard { var k :| 0 <= k < |s.heard| && s.heard[k] == i; assert next.heard[k] == i; }
      }
    }
  }

  lemma OthersOweTheSame(s: World, e: Event)
    requires Formed(s) && Accounted(s) && !Swaps(s, e) && !e.Deliver?
    ensures Accounted(Next(s, e))
  {
    OnlySwapsAreLogged(s, e);
    DecidedUntilFinished(s, e);
    var next := Next(s, e);
    forall i | 0 <= i < |next.swaps| ensures i in next.heard || Owes(next, next.swaps[i].thread, i) {
      assert i in s.heard || Owes(s, s.swaps[i].thread, i);
    }
  }

  lemma DecidedUntilFinished(s: World, e: Event)
    requires Formed(s) && !e.Deliver?
    requires forall t :: t in s.owed ==> At(s, t).Decided? || At(s, t).DecidedOnError?
    ensures forall t :: t in s.owed ==> At(Next(s, e), t).Decided? || At(Next(s, e), t).DecidedOnError?
  {
  }

  lemma AccountedStep(s: World, e: Event)
    requires Formed(s) && Accounted(s)
    ensures Accounted(Next(s, e))
  {
    if Swaps(s, e) { SwapIsOwed(s, e); } else if e.Deliver? { DeliveryIsOwed(s, e.t); } else { OthersOweTheSame(s, e); }
  }

  // Main result: in every interleaving each change of kind is told to the
  // listeners once, by the thread that made it, and before that thread's call
  // returns.
  lemma {:induction false} EachSwapIsHeardOnce(s: World, es: seq<Event>)
    requires Formed(s) && Accounted(s)
    ensures Accounted(Run(s, es))
    decreases |es|
  {
    if es != [] {
      AccountedStep(s, es[0]);
      EachSwapIsHeardOnce(Next(s, es[0]), es[1..]);
    }
  }

  // So when every call has returned, every change has been told: they have
  // been told as often as there are changes.
  lemma NothingOwedMeansAllHeard(file: Content, es: seq<Event>)
    requires Run(Boot(file), es).owed == map[]
    ensures var s := Run(Boot(file), es);
            multiset(s.heard) == multiset(seq(|s.swaps|, i requires 0 <= i < |s.swaps| => i))
  {
    EachSwapIsHeardOnce(Boot(file), es);
    var s := Run(Boot(file), es);
    var all := seq(|s.swaps|, i requires 0 <= i < |s.swaps| => i);
    forall i: nat ensures multiset(s.heard)[i] == multiset(all)[i] {
      OnceEach(s.heard, i);
      OnceEach(all, i);
      if i < |s.swaps| { assert i in s.heard || Owes(s, s.swaps[i].thread, i); assert all[i] == i; }
    }
  }

  lemma {:induction false} OnceEach(s: seq<nat>, x: nat)
    requires forall j, k :: 0 <= j < k < |s| ==> s[j] != s[k]
    ensures multiset(s)[x] == if x in s then 1 else 0
  {
    if s != [] {
      var init := s[..|s| - 1];
      OnceEach(init, x);
      assert s == init + [s[|s| - 1]];
    }
  }

  // ------------------------------------------------------------------ //
  // In which order
  // ------------------------------------------------------------------ //

  // What a listener is told makes sense in a row: each old kind is the new
  // kind it was told before, the first one the VM.
  predicate DeliveriesChain(s: World)
    requires forall k :: 0 <= k < |s.heard| ==> s.heard[k] < |s.swaps|
  {
    forall k :: 0 <= k < |s.heard| ==>
      s.swaps[s.heard[k]].was.Gpu? == if k == 0 then false else s.swaps[s.heard[k - 1]].now.Gpu?
  }

  // Exactly when they chain. Swaps alternate in kind, so what counts is that
  // an even number of other swaps got ahead or fell behind.
  lemma {:induction false} DeliveriesChainIff(s: World)
    requires Linked(s.swaps, s.mode) && forall k :: 0 <= k < |s.heard| ==> s.heard[k] < |s.swaps|
    ensures DeliveriesChain(s) <==> forall k :: 0 <= k < |s.heard| ==> s.heard[k] % 2 == k % 2
  {
    if DeliveriesChain(s) {
      var k := 0;
      while k < |s.heard|
        invariant k <= |s.heard|
        invariant forall j :: 0 <= j < k ==> s.heard[j] % 2 == j % 2
      {
        assert s.swaps[s.heard[k]].was.Gpu? == (s.heard[k] % 2 == 1);
        if k > 0 { assert s.swaps[s.heard[k - 1]].now.Gpu? == (s.heard[k - 1] % 2 == 0); }
        k := k + 1;
      }
    } else {
      var k :| 0 <= k < |s.heard|
        && s.swaps[s.heard[k]].was.Gpu? != if k == 0 then false else s.swaps[s.heard[k - 1]].now.Gpu?;
      assert s.heard[k] % 2 != k % 2 || (k > 0 && s.heard[k - 1] % 2 != (k - 1) % 2);
    }
  }

  predicate InSwapOrder(heard: seq<nat>) { forall k :: 0 <= k < |heard| ==> heard[k] == k }

  // The listeners are called for the oldest swap they have not heard of.
  predicate OldestFirst(s: World, e: Event) { e.Deliver? && e.t in s.owed ==> s.owed[e.t] == |s.heard| }

  predicate AllOldestFirst(s: World, es: seq<Event>)
    requires Formed(s)
    decreases |es|
  {
    es == [] || (OldestFirst(s, es[0]) && AllOldestFirst(Next(s, es[0]), es[1..]))
  }

  lemma HeardGrows(s: World, e: Event)
    requires Formed(s)
    ensures s.heard <= Next(s, e).heard
    ensures InSwapOrder(Next(s, e).heard) <==> InSwapOrder(s.heard) && OldestFirst(s, e)
  {
    if e.Deliver? && e.t in s.owed {
      var next := Next(s, e);
      assert next.heard[|s.heard|] == s.owed[e.t];
      if InSwapOrder(next.heard) {
        forall k | 0 <= k < |s.heard| ensures s.heard[k] == k { assert next.heard[k] == s.heard[k]; }
      }
    }
  }

  // Listeners hear the changes in the order they were made exactly when every
  // call of them is for the oldest change not yet told.
  lemma {:induction false} HeardInOrderIff(s: World, es: seq<Event>)
    requires Formed(s) && InSwapOrder(s.heard)
    ensures InSwapOrder(Run(s, es).heard) <==> AllOldestFirst(s, es)
    decreases |es|
  {
    if es != [] {
      HeardGrows(s, es[0]);
      if OldestFirst(s, es[0]) {
        HeardInOrderIff(Next(s, es[0]), es[1..]);
      } else {
        OrderIsNotRestored(Next(s, es[0]), es[1..]);
      }
    }
  }

  lemma {:induction false} OrderIsNotRestored(s: World, es: seq<Event>)
    requires Formed(s) && !InSwapOrder(s.heard)
    ensures !InSwapOrder(Run(s, es).heard)
    decreases |es|
  {
    if es != [] {
      HeardGrows(s, es[0]);
      OrderIsNotRestored(Next(s, es[0]), es[1..]);
    }
  }

  // No change of kind is made while a thread still owes the one before.
  predicate NoneInBetween(s: World, es: seq<Event>)
    requires Formed(s)
    decreases |es|
  {
    es == [] || ((Swaps(s, es[0]) ==> s.owed == map[]) && NoneInBetween(Next(s, es[0]), es[1..]))
  }

  // Then at most the last swap is owed, so it is the oldest.
  predicate OneBehind(s: World) {
    forall t :: t in s.owed ==> s.owed[t] == |s.swaps| - 1 == |s.heard|
  }

  predicate CaughtUp(s: World) { s.owed == map[] ==> |s.heard| == |s.swaps| }

  predicate OneOwer(s: World) { forall t, u :: t in s.owed && u in s.owed ==> t == u }

  lemma OneBehindStep(s: World, e: Event)
    requires Formed(s) && OneBehind(s) && CaughtUp(s) && OneOwer(s) && (Swaps(s, e) ==> s.owed == map[])
    ensures OneBehind(Next(s, e)) && CaughtUp(Next(s, e)) && OneOwer(Next(s, e)) && OldestFirst(s, e)
  {
    OnlySwapsAreLogged(s, e);
    if e.Deliver? && e.t in s.owed {
      assert forall t :: t in s.owed ==> t == e.t;
      assert Next(s, e).owed == map[];
    }
  }

  // It is enough that no other thread changes the kind between a thread's
  // change and its calls.
  lemma {:induction false} PromptCallsAreInOrder(s: World, es: seq<Event>)
    requires Formed(s) && OneBehind(s) && CaughtUp(s) && OneOwer(s) && NoneInBetween(s, es)
    ensures AllOldestFirst(s, es)
    decreases |es|
  {
    if es != [] {
      OneBehindStep(s, es[0]);
      PromptCallsAreInOrder(Next(s, es[0]), es[1..]);
    }
  }

  // A listener that goes by what it was told last is right about the mode,
  // once nothing is owed, exactly when that was a swap like the last one.
  lemma LastWordIsRightIff(s: World)
    requires Linked(s.swaps, s.mode) && s.heard != [] && s.heard[|s.heard| - 1] < |s.swaps|
    ensures var last := s.heard[|s.heard| - 1];
            s.swaps[last].now.Gpu? == s.mode.Gpu? <==> last % 2 == (|s.swaps| - 1) % 2
  {
  }

  // ------------------------------------------------------------------ //
  // Both can happen
  // ------------------------------------------------------------------ //

  // One thread's call of `_remember` up to its calls of the listeners.
  lemma Changing(s: World, es: seq<Event>, t: nat, stat: nat, to: Mode) returns (longer: seq<Event>)
    requires Formed(s)
    requires var r := Run(s, es);
             At(r, t) == Idle && t !in r.owed && File(r) == Present(stat, Some(to))
             && r.key != Stat(stat) && to.Gpu? != r.mode.Gpu?
    ensures var r, next := Run(s, es), Run(s, longer);
            next == r.(key := Stat(stat), mode := to, threads := r.threads[t := Decided(to, |r.versions|)],
                       swaps := r.swaps + [Swap(t, r.mode, to)], owed := r.owed[t := |r.swaps|])
  {
    var r := Run(s, es);
    longer := Then(s, es, LookStat(t));
    longer := Then(s, longer, LookUp(t));
    longer := Then(s, longer, Read(t));
    longer := Then(s, longer, Store(t));
    assert Run(s, longer).threads == r.threads[t := Decided(to, |r.versions|)];
  }

  // Two changes, GPU and back, by two threads.
  lemma TwoChanges(gpu: Mode, vm: Mode) returns (es: seq<Event>)
    requires gpu.Gpu? && vm.Vm?
    ensures var s := Run(Boot(Present(1, Some(gpu))), es);
            s.swaps == [Swap(0, DefaultMode, gpu), Swap(1, gpu, vm)] && s.owed == map[0 := 0, 1 := 1]
            && s.heard == [] && s.mode == vm
  {
    var s := Boot(Present(1, Some(gpu)));
    es := Changing(s, [], 0, 1, gpu);
    es := Then(s, es, Write(Present(2, Some(vm))));
    es := Changing(s, es, 1, 2, vm);
  }

  // The second thread's calls overtake the first's: the listeners are told
  // GPU to VM before they ever heard of the GPU, and are left believing GPU
  // while the mode is VM.
  lemma LaterChangeCanBeHeardFirst(gpu: Mode, vm: Mode) returns (es: seq<Event>)
    requires gpu.Gpu? && vm.Vm?
    ensures var s := Run(Boot(Present(1, Some(gpu))), es);
            s.heard == [1, 0] && |s.swaps| == 2 && s.owed == map[] && !DeliveriesChain(s)
            && s.swaps[s.heard[1]].now.Gpu? && !s.mode.Gpu?
  {
    var s := Boot(Present(1, Some(gpu)));
    es := TwoChanges(gpu, vm);
    es := Then(s, es, Deliver(1));
    es := Then(s, es, Deliver(0));
    var r := Run(s, es);
    assert r.heard == [1, 0] && r.swaps == [Swap(0, DefaultMode, gpu), Swap(1, gpu, vm)];
    DeliveriesChainIff(r);
    assert r.heard[0] % 2 != 0;
  }

  // Falling in between does not have to disturb anything: here the second
  // change is made between the first and its calls, and all is in order.
  lemma OvertakenCanStillChain(gpu: Mode, vm: Mode) returns (es: seq<Event>)
    requires gpu.Gpu? && vm.Vm?
    ensures var s := Run(Boot(Present(1, Some(gpu))), es);
            !NoneInBetween(Boot(Present(1, Some(gpu))), es) && s.heard == [0, 1] && |s.swaps| == 2 && DeliveriesChain(s)
  {
    var s := Boot(Present(1, Some(gpu)));
    var before := TwoChanges(gpu, vm);
    assert 0 in Run(s, before).owed && 1 in Run(s, before).owed;
    es := Then(s, before, Deliver(0));
    es := Then(s, es, Deliver(1));
    assert es == before + [Deliver(0), Deliver(1)];
    assert Run(s, es).heard == [0, 1];
    if NoneInBetween(s, es) {
      PrefixHasNoneInBetween(s, before, [Deliver(0), Deliver(1)]);
      PromptStaysOneBehind(s, before);
      assert false;
    }
  }

  lemma {:induction false} PromptStaysOneBehind(s: World, es: seq<Event>)
    requires Formed(s) && OneBehind(s) && CaughtUp(s) && OneOwer(s) && NoneInBetween(s, es)
    ensures OneOwer(Run(s, es))
    decreases |es|
  {
    if es != [] {
      OneBehindStep(s, es[0]);
      PromptStaysOneBehind(Next(s, es[0]), es[1..]);
    }
  }

  lemma {:induction false} PrefixHasNoneInBetween(s: World, es: seq<Event>, more: seq<Event>)
    requires Formed(s) && NoneInBetween(s, es + more)
    ensures NoneInBetween(s, es)
    decreases |es|
  {
    if es != [] {
      assert (es + more)[1..] == es[1..] + more;
      PrefixHasNoneInBetween(Next(s, es[0]), es[1..], more);
    }
  }
}
