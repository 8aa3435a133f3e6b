/** The claim with its row lock in view: `FOR UPDATE SKIP LOCKED` chooses and
    locks a row, the UPDATE stamps it later, and other workers' claims and
    every other transaction run in between
    (`claim_next_training_run` in `backend/app/db_training_runs.py`). */
module ClaimLocking {
  import opened Common
  import opened TrainingDatabase
  import Laws = TrainingDatabaseLaws

  // One claim between its SELECT and its UPDATE. `now` was read before the
  // SELECT and is the instant both statements use.
  datatype Hold = Hold(key: RunKey, now: int, owner: string, lease: int, courses: Option<set<string>>)

  // A claim handed to a worker.
  datatype Grant = Grant(key: RunKey, attempt: nat, expires: int)

  datatype Queue = Queue(db: Db, holds: map<nat, Hold>, grants: seq<Grant>)

  datatype Event =
    | Choose(worker: nat, hold: Hold)
    | Stamp(worker: nat)
    | Abort(worker: nat)                 // the transaction dies; its lock goes with it
    | Other(now: int, event: TrainingDatabase.Event)

  ghost function LockedKeys(q: Queue): set<RunKey> { set p | p in q.holds :: q.holds[p].key }

  // A transaction that would write a locked row waits for the lock.
  ghost predicate Blocked(q: Queue, now: int, e: TrainingDatabase.Event) {
    exists p :: p in q.holds && q.holds[p].key in q.db.runs
      && (q.holds[p].key in Step(q.db, now, e).runs ==>
            Step(q.db, now, e).runs[q.holds[p].key] != q.db.runs[q.holds[p].key])
  }

  ghost function Next(q: Queue, e: Event): Queue {
    match e
    case Choose(p, hold) =>
      if p !in q.holds && hold.owner != "" && hold.lease > 0
         && IsNext(q.db.runs, hold.now, hold.courses, LockedKeys(q), hold.key)
      then q.(holds := q.holds[p := hold]) else q
    case Stamp(p) =>
      if p !in q.holds || q.holds[p].key !in q.db.runs then q
      else
        var h := q.holds[p];
        var row := ClaimedRun(q.db.runs[h.key], h.now, h.owner, h.lease);
        Queue(WithRun(q.db, h.key, row), q.holds - {p}, q.grants + [Grant(h.key, row.attempt, h.now + h.lease)])
    case Abort(p) => q.(holds := q.holds - {p})
    case Other(now, event) =>
      if event.Claim? || Blocked(q, now, event) then q else q.(db := Step(q.db, now, event))
  }

  ghost function Run(q: Queue, es: seq<Event>): Queue
    decreases |es|
  {
    if es == [] then q else Run(Next(q, es[0]), es[1..])
  }

  ghost predicate Inv(q: Queue) {
    (forall p, r | p in q.holds && r in q.holds :: q.holds[p].key == q.holds[r].key ==> p == r)
    && (forall p | p in q.holds :: var h := q.holds[p];
          h.key in q.db.runs && Claimable(q.db.runs[h.key], h.now) && Wanted(h.key, h.courses)
          && h.owner != "" && h.lease > 0)
    && (forall i | 0 <= i < |q.grants| ::
          q.grants[i].key in q.db.runs && q.grants[i].attempt <= q.db.runs[q.grants[i].key].attempt)
    && (forall i, j | 0 <= i < j < |q.grants| :: q.grants[i].key == q.grants[j].key ==>
        q.grants[i].attempt < q.grants[j].attempt)
    && (forall i | 0 <= i < |q.grants| :: Current(q.db, q.grants[i]) ==>
        q.db.runs[q.grants[i].key].claimExpiresAt == Some(q.grants[i].expires))
  }

  // The row still carries this very claim.
  predicate Current(db: Db, g: Grant) {
    g.key in db.runs && db.runs[g.key].state == Claimed && db.runs[g.key].attempt == g.attempt
  }

  lemma OtherKeeps(q: Queue, now: int, e: TrainingDatabase.Event)
    requires Inv(q) && Laws.Sound(q.db.runs) && !e.Claim? && !Blocked(q, now, e)
    ensures Inv(q.(db := Step(q.db, now, e)))
  {
    Laws.StepKeeps(q.db, now, e);
    var next := Step(q.db, now, e);
    forall p | p in q.holds
      ensures q.holds[p].key in next.runs && next.runs[q.holds[p].key] == q.db.runs[q.holds[p].key]
    {
      assert Laws.Forward(q.db.runs[q.holds[p].key], next.runs[q.holds[p].key]);
    }
    forall i | 0 <= i < |q.grants|
      ensures q.grants[i].key in next.runs && q.grants[i].attempt <= next.runs[q.grants[i].key].attempt {
      assert Laws.Forward(q.db.runs[q.grants[i].key], next.runs[q.grants[i].key]);
    }
    forall i | 0 <= i < |q.grants| && Current(next, q.grants[i])
      ensures next.runs[q.grants[i].key].claimExpiresAt == Some(q.grants[i].expires) {
      Laws.OnlyAClaimMovesALease(q.db, now, e, q.grants[i].key);
    }
  }

  lemma StampKeeps(q: Queue, p: nat)
    requires Inv(q)
    ensures Inv(Next(q, Stamp(p)))
  {
  }

  // The stamp is one claim transaction of the queue, with every other row
  // skipped as locked.
  ghost function AsClaim(q: Queue, p: nat): Timed
    requires p in q.holds
  {
    var h := q.holds[p];
    At(h.now, Claim(h.key, h.owner, h.lease, h.courses, q.db.runs.Keys - {h.key}))
  }

  lemma StampIsAClaim(q: Queue, p: nat)
    requires Inv(q) && p in q.holds
    ensures Next(q, Stamp(p)).db == Step(q.db, AsClaim(q, p).now, AsClaim(q, p).event)
  {
    var h := q.holds[p];
    LeqTotal(h.key.id, h.key.id);
    assert IsNext(q.db.runs, h.now, h.courses, q.db.runs.Keys - {h.key}, h.key);
  }

  ghost function Serial(q: Queue, e: Event): seq<Timed> {
    match e
    case Stamp(p) => if p in q.holds && q.holds[p].key in q.db.runs then [AsClaim(q, p)] else []
    case Other(now, event) => if event.Claim? || Blocked(q, now, event) then [] else [At(now, event)]
    case _ => []
  }

  ghost function SerialRun(q: Queue, es: seq<Event>): seq<Timed>
    decreases |es|
  {
    if es == [] then [] else Serial(q, es[0]) + SerialRun(Next(q, es[0]), es[1..])
  }

  lemma NextKeeps(q: Queue, e: Event)
    requires Inv(q) && Laws.Sound(q.db.runs)
    ensures Inv(Next(q, e)) && Laws.Sound(Next(q, e).db.runs)
    ensures Next(q, e).db == Execute(q.db, Serial(q, e))
  {
    match e
    case Choose(p, hold) => ChooseKeeps(q, p, hold);
    case Stamp(p) =>
      StampKeeps(q, p);
      if p in q.holds {
        StampIsAClaim(q, p);
        OneStep(q.db, AsClaim(q, p));
        Laws.StepKeeps(q.db, AsClaim(q, p).now, AsClaim(q, p).event);
      }
    case Abort(_) =>
    case Other(now, event) =>
      if !event.Claim? && !Blocked(q, now, event) {
        OtherKeeps(q, now, event);
        OneStep(q.db, At(now, event));
        Laws.StepKeeps(q.db, now, event);
      }
  }

  lemma ChooseKeeps(q: Queue, p: nat, hold: Hold)
    requires Inv(q)
    ensures Inv(Next(q, Choose(p, hold))) && Next(q, Choose(p, hold)).db == q.db
  {
    assert forall r :: r in q.holds ==> q.holds[r].key in LockedKeys(q);
  }

  lemma OneStep(db: Db, t: Timed)
    ensures Execute(db, [t]) == Step(db, t.now, t.event)
  {
    assert Execute(db, [t]) == Execute(Step(db, t.now, t.event), [t][1..]);
  }

  lemma {:induction false} ExecuteAppend(db: Db, a: seq<Timed>, b: seq<Timed>)
    ensures Execute(db, a + b) == Execute(Execute(db, a), b)
    decreases |a|
  {
    if a == [] { assert a + b == b; } else {
      assert (a + b)[1..] == a[1..] + b;
      ExecuteAppend(Step(db, a[0].now, a[0].event), a[1..], b);
    }
  }

  // Main result. However claims overlap each other and everything else: the
  // table is what some one-at-a-time history of the queue produces; rows held
  // by two claims at once are different rows, still claimable when stamped;
  // and no two claims ever return the same attempt of the same run.
  lemma {:induction false} OverlappingClaimsAreSerial(q: Queue, es: seq<Event>)
    requires Inv(q) && Laws.Sound(q.db.runs)
    ensures Run(q, es).db == Execute(q.db, SerialRun(q, es))
    ensures Inv(Run(q, es)) && Laws.Sound(Run(q, es).db.runs)
    decreases |es|
  {
    if es != [] {
      var next := Next(q, es[0]);
      NextKeeps(q, es[0]);
      OverlappingClaimsAreSerial(next, es[1..]);
      ExecuteAppend(q.db, Serial(q, es[0]), SerialRun(next, es[1..]));
    }
  }

  lemma TwoClaimsNeverReturnTheSameRun(courses: set<string>, es: seq<Event>, i: nat, j: nat)
    requires i < j < |Run(Queue(NewDatabase(courses), map[], []), es).grants|
    ensures var grants := Run(Queue(NewDatabase(courses), map[], []), es).grants;
            grants[i].key == grants[j].key ==> grants[i].attempt < grants[j].attempt
  {
    OverlappingClaimsAreSerial(Queue(NewDatabase(courses), map[], []), es);
  }

  // While a claim's lease runs, no other claim can choose its row: a row still
  // carrying the claim is chosen again only at or after the claim's expiry.
  lemma LeasesExclude(courses: set<string>, es: seq<Event>, i: nat, worker: nat, hold: Hold)
    requires var q := Run(Queue(NewDatabase(courses), map[], []), es);
             i < |q.grants| && Current(q.db, q.grants[i]) && q.grants[i].key == hold.key
             && Next(q, Choose(worker, hold)) != q
    ensures hold.now >= Run(Queue(NewDatabase(courses), map[], []), es).grants[i].expires
  {
    OverlappingClaimsAreSerial(Queue(NewDatabase(courses), map[], []), es);
  }
}
