/** Invitations and the accounts they open: `backend/app/db_invitations.py` and
    the accept transaction of `backend/app/auth_routes.py:497-565`. */
module Invitations {
  import opened Common

  datatype Kind = Student | Professor | Admin | Reset
  datatype Status = Active | Revoked | Expired | Used

  datatype Invitation = Invitation(
    kind: Kind,
    course: Option<string>,
    expiresAt: Option<int>,
    maxUses: Option<nat>,
    useCount: nat,
    revokedAt: Option<int>,
    revokedBy: Option<string>,
    acceptedAt: Option<int>,
    acceptedBy: Option<nat>)

  // Classroom codes have no limit, every other kind is for one use.
  function Issued(kind: Kind, course: Option<string>, expiresAt: Option<int>): Invitation {
    Invitation(kind, course, expiresAt, if kind == Student then None else Some(1), 0, None, None, None, None)
  }

  // `status_of`
  function StatusOf(i: Invitation, now: int): Status {
    if i.revokedAt.Some? then Revoked
    else if i.expiresAt.Some? && i.expiresAt.value <= now then Expired
    else if i.maxUses.Some? && i.useCount >= i.maxUses.value then Used
    else Active
  }

  // The WHERE clause of `consume`.
  predicate Consumable(i: Invitation, now: int) {
    i.revokedAt == None
    && (i.expiresAt == None || i.expiresAt.value > now)
    && (i.maxUses == None || i.useCount < i.maxUses.value)
  }

  function Consumed(i: Invitation, now: int, who: Option<nat>): Invitation {
    i.(useCount := i.useCount + 1,
       acceptedAt := if who.None? then i.acceptedAt else Some(now),
       acceptedBy := if who.None? then i.acceptedBy else who)
  }

  function RevokedRow(i: Invitation, now: int, who: Option<string>): Invitation {
    if i.revokedAt.Some? then i else i.(revokedAt := Some(now), revokedBy := who)
  }

  predicate Live(i: Invitation, course: string) {
    i.course == Some(course) && i.kind == Student && i.revokedAt.None?
  }

  function Retired(rows: map<string, Invitation>, course: string, now: int, who: Option<string>)
    : map<string, Invitation>
  {
    map id | id in rows :: if Live(rows[id], course) then RevokedRow(rows[id], now, who) else rows[id]
  }

  // ------------------------------------------------------------------ //
  // The table
  // ------------------------------------------------------------------ //

  class Table {
    var rows: map<string, Invitation>

    constructor ()
      ensures rows == map[]
    {
      rows := map[];
    }

    method Create(id: string, kind: Kind, course: Option<string>, expiresAt: Option<int>) returns (created: bool)
      modifies this
      ensures created == (id !in old(rows))
      ensures rows == if created then old(rows)[id := Issued(kind, course, expiresAt)] else old(rows)
      ensures created ==>
                forall now :: StatusOf(rows[id], now) == Active <==> expiresAt.None? || now < expiresAt.value
      ensures created ==>
                rows[id].kind == kind && rows[id].course == course && rows[id].useCount == 0
                && (if kind == Student then rows[id].maxUses.None? else rows[id].maxUses == Some(1))
    {
      created := id !in rows;
      if created {
        rows := rows[id := Issued(kind, course, expiresAt)];
      }
    }

    method Consume(id: string, now: int, who: Option<nat>) returns (consumed: bool)
      modifies this
      ensures consumed <==> id in old(rows) && StatusOf(old(rows)[id], now) == Active
      ensures rows == if consumed then old(rows)[id := Consumed(old(rows)[id], now, who)] else old(rows)
      // One more use, and who it was for; a use by nobody keeps the last one.
      ensures consumed ==>
                rows[id].useCount == old(rows)[id].useCount + 1 && rows[id].maxUses == old(rows)[id].maxUses
                && rows[id].revokedAt.None? && rows[id].expiresAt == old(rows)[id].expiresAt
                && (who.Some? ==> rows[id].acceptedBy == who && rows[id].acceptedAt == Some(now))
                && (who.None? ==>
                      rows[id].acceptedBy == old(rows)[id].acceptedBy
                      && rows[id].acceptedAt == old(rows)[id].acceptedAt)
    {
      consumed := id in rows && Consumable(rows[id], now);
      if consumed {
        rows := rows[id := Consumed(rows[id], now, who)];
      }
    }

    // Already revoked rows are left as they were.
    method Revoke(id: string, now: int, who: Option<string>) returns (found: bool)
      modifies this
      ensures found == (id in old(rows))
      ensures found ==> rows == old(rows)[id := RevokedRow(old(rows)[id], now, who)] && rows[id].revokedAt.Some?
      ensures found && old(rows)[id].revokedAt.Some? ==> rows == old(rows)
      ensures found && old(rows)[id].revokedAt.None? ==> rows[id].revokedAt == Some(now) && rows[id].revokedBy == who
      ensures !found ==> rows == old(rows)
    {
      found := id in rows;
      if found && rows[id].revokedAt.None? {
        rows := rows[id := rows[id].(revokedAt := Some(now), revokedBy := who)];
      }
    }

    method RevokeActiveStudentInvitations(course: string, now: int, who: Option<string>) returns (retired: nat)
      modifies this
      ensures rows == Retired(old(rows), course, now, who)
      ensures retired == |set id | id in old(rows) && Live(old(rows)[id], course)|
      ensures forall id :: id in rows ==> !Live(rows[id], course)
      // Exactly the classroom codes of this course that were not revoked yet.
      ensures rows.Keys == old(rows).Keys
      ensures forall id :: id in rows ==>
                if rows[id].kind == Student && rows[id].course == Some(course) && old(rows)[id].revokedAt.None?
                then rows[id].revokedAt == Some(now) && rows[id].revokedBy == who
                else rows[id] == old(rows)[id]
    {
      retired := |set id | id in rows && Live(rows[id], course)|;
      rows := Retired(rows, course, now, who);
    }
  }

  // ------------------------------------------------------------------ //
  // Redemptions in flight
  // ------------------------------------------------------------------ //

  // A redemption between its first read and its commit. `now` was read when
  // the request arrived; `user` is the account its own transaction created
  // (for a reset, the password it set).
  datatype Redemption = Redemption(id: string, now: int, user: nat, consumed: bool)

  datatype World = World(
    rows: map<string, Invitation>,          // committed
    accounts: map<nat, string>,             // committed accounts, by the invitation they came from
    open: map<nat, Redemption>,
    users: nat)                             // account ids handed out so far

  const Empty := World(map[], map[], map[], 0)

  datatype Event =
    | Issue(id: string, invitation: Invitation)
    | Begin(p: nat, id: string, now: int)
    | Consume(p: nat)
    | Commit(p: nat)
    | RollBack(p: nat)
    | Revoke(id: string, now: int, who: Option<string>)
    | Retire(course: string, now: int, who: Option<string>)

  // A consumed row is locked by its transaction until that ends.
  predicate Locked(s: World, id: string) { exists p :: p in s.open && s.open[p].id == id && s.open[p].consumed }

  function Next(s: World, e: Event): World {
    match e
    case Issue(id, invitation) =>
      if id in s.rows || invitation.useCount != 0 || invitation.revokedAt.Some? then s
      else s.(rows := s.rows[id := invitation])
    case Begin(p, id, now) =>
      if p in s.open || id !in s.rows || StatusOf(s.rows[id], now) != Active then s
      else s.(open := s.open[p := Redemption(id, now, s.users, false)], users := s.users + 1)
    case Consume(p) =>
      if p !in s.open || s.open[p].consumed || Locked(s, s.open[p].id) then s
      else if s.open[p].id in s.rows && Consumable(s.rows[s.open[p].id], s.open[p].now)
      then s.(open := s.open[p := s.open[p].(consumed := true)])
      else s.(open := s.open - {p})
    case Commit(p) =>
      if p !in s.open || !s.open[p].consumed || s.open[p].id !in s.rows then s
      else
        var r := s.open[p];
        s.(rows := s.rows[r.id := Consumed(s.rows[r.id], r.now, Some(r.user))],
           accounts := s.accounts[r.user := r.id],
           open := s.open - {p})
    case RollBack(p) => s.(open := s.open - {p})
    case Revoke(id, now, who) =>
      if id !in s.rows || Locked(s, id) then s else s.(rows := s.rows[id := RevokedRow(s.rows[id], now, who)])
    case Retire(course, now, who) =>
      if exists id :: id in s.rows && Live(s.rows[id], course) && Locked(s, id) then s
      else s.(rows := Retired(s.rows, course, now, who))
  }

  function Run(s: World, es: seq<Event>): World
    decreases |es|
  {
    if es == [] then s else Run(Next(s, es[0]), es[1..])
  }

  function AccountsOf(s: World, id: string): set<nat> { set u | u in s.accounts && s.accounts[u] == id }

  predicate WithinLimit(i: Invitation) { i.maxUses.Some? ==> i.useCount <= i.maxUses.value }

  // Account ids are handed out once.
  predicate Fresh(s: World) {
    (forall p :: p in s.open ==> s.open[p].user < s.users && s.open[p].user !in s.accounts && s.open[p].id in s.rows)
    && (forall p, q :: p in s.open && q in s.open && s.open[p].user == s.open[q].user ==> p == q)
    && (forall u :: u in s.accounts ==> u < s.users && s.accounts[u] in s.rows)
  }

  // A row is consumed by one open transaction at most, and stays consumable
  // until that transaction ends.
  predicate Exclusive(s: World) {
    (forall p, q | p in s.open && q in s.open && s.open[p].consumed && s.open[q].consumed ::
       s.open[p].id == s.open[q].id ==> p == q)
    && (forall p | p in s.open && s.open[p].consumed ::
          s.open[p].id in s.rows && Consumable(s.rows[s.open[p].id], s.open[p].now))
  }

  predicate Counted(s: World) {
    forall id :: id in s.rows ==> |AccountsOf(s, id)| == s.rows[id].useCount && WithinLimit(s.rows[id])
  }

  predicate Inv(s: World) { Fresh(s) && Exclusive(s) && Counted(s) }

  lemma FreshStep(s: World, e: Event)
    requires Fresh(s)
    ensures Fresh(Next(s, e))
  {
  }

  // Nobody else writes a consumed row.
  lemma ConsumedRowStays(s: World, e: Event, p: nat)
    requires Exclusive(s) && p in s.open && s.open[p].consumed && p in Next(s, e).open
    ensures Next(s, e).open[p] == s.open[p]
    ensures s.open[p].id in Next(s, e).rows && Next(s, e).rows[s.open[p].id] == s.rows[s.open[p].id]
  {
    assert Locked(s, s.open[p].id);
  }

  lemma ConsumingTakesAFreeRow(s: World, e: Event, p: nat)
    requires p in Next(s, e).open && Next(s, e).open[p].consumed && !(p in s.open && s.open[p].consumed)
    ensures e == Consume(p) && p in s.open && Next(s, e).open[p].id == s.open[p].id && !Locked(s, s.open[p].id)
    ensures Next(s, e).rows == s.rows && s.open[p].id in s.rows
    ensures Consumable(s.rows[s.open[p].id], Next(s, e).open[p].now)
  {
  }

  lemma ExclusiveStep(s: World, e: Event)
    requires Exclusive(s)
    ensures Exclusive(Next(s, e))
  {
    var next := Next(s, e);
    forall p | p in next.open && next.open[p].consumed
      ensures next.open[p].id in next.rows && Consumable(next.rows[next.open[p].id], next.open[p].now) {
      if p in s.open && s.open[p].consumed { ConsumedRowStays(s, e, p); } else { ConsumingTakesAFreeRow(s, e, p); }
    }
    forall p, q | p in next.open && q in next.open && next.open[p].consumed && next.open[q].consumed
        && next.open[p].id == next.open[q].id
      ensures p == q {
      if p in s.open && s.open[p].consumed { ConsumedRowStays(s, e, p); } else { ConsumingTakesAFreeRow(s, e, p); }
      if q in s.open && s.open[q].consumed { ConsumedRowStays(s, e, q); } else { ConsumingTakesAFreeRow(s, e, q); }
    }
  }

  lemma CountedAfterCommit(s: World, p: nat)
    requires Inv(s) && p in s.open && s.open[p].consumed
    ensures Counted(Next(s, Commit(p)))
  {
    var next := Next(s, Commit(p));
    var r := s.open[p];
    forall id | id in next.rows ensures |AccountsOf(next, id)| == next.rows[id].useCount && WithinLimit(next.rows[id]) {
      if id == r.id {
        assert AccountsOf(next, id) == AccountsOf(s, id) + {r.user};
        assert r.user !in AccountsOf(s, id);
      } else {
        assert AccountsOf(next, id) == AccountsOf(s, id);
      }
    }
  }

  lemma CountedStep(s: World, e: Event)
    requires Inv(s) && !e.Commit?
    ensures Counted(Next(s, e))
  {
    var next := Next(s, e);
    assert next.accounts == s.accounts;
    forall id | id in next.rows ensures |AccountsOf(next, id)| == next.rows[id].useCount && WithinLimit(next.rows[id]) {
      assert AccountsOf(next, id) == AccountsOf(s, id);
      if id !in s.rows { assert AccountsOf(s, id) == {}; }
    }
  }

  lemma NextKeeps(s: World, e: Event)
    requires Inv(s)
    ensures Inv(Next(s, e))
  {
    FreshStep(s, e);
    ExclusiveStep(s, e);
    if !e.Commit? {
      CountedStep(s, e);
    } else if e.p in s.open && s.open[e.p].consumed {
      CountedAfterCommit(s, e.p);
    }
  }

  lemma {:induction false} RunKeeps(s: World, es: seq<Event>)
    requires Inv(s)
    ensures Inv(Run(s, es))
    decreases |es|
  {
    if es != [] {
      NextKeeps(s, es[0]);
      RunKeeps(Next(s, es[0]), es[1..]);
    }
  }

  // Main result: in every interleaving of redemptions, revocations, failures
  // and time, an invitation has opened exactly as many accounts as its use
  // count says, and never more than it allows; a single-use one, at most one.
  lemma AccountsMatchUses(es: seq<Event>, id: string)
    ensures var s := Run(Empty, es);
            id in s.rows ==>
              |AccountsOf(s, id)| == s.rows[id].useCount
              && (s.rows[id].maxUses.Some? ==> |AccountsOf(s, id)| <= s.rows[id].maxUses.value)
  {
    RunKeeps(Empty, es);
  }

  // ------------------------------------------------------------------ //
  // Once over, over
  // ------------------------------------------------------------------ //

  // No request, whatever its time, can redeem it any more.
  predicate Spent(i: Invitation) { i.revokedAt.Some? || (i.maxUses.Some? && i.useCount >= i.maxUses.value) }

  lemma SpentMeansNever(i: Invitation)
    ensures Spent(i) <==> forall now: int :: StatusOf(i, now) != Active
  {
    if !Spent(i) {
      var early := if i.expiresAt.Some? then i.expiresAt.value - 1 else 0;
      assert StatusOf(i, early) == Active;
    }
  }

  predicate Aged(was: Invitation, now: Invitation) {
    now.expiresAt == was.expiresAt && now.maxUses == was.maxUses && now.useCount >= was.useCount
    && (was.revokedAt.Some? ==> now.revokedAt == was.revokedAt)
  }

  lemma RowsOnlyAge(s: World, e: Event, id: string)
    requires Inv(s) && id in s.rows
    ensures id in Next(s, e).rows && Aged(s.rows[id], Next(s, e).rows[id])
  {
  }

  lemma {:induction false} AgeOverRuns(s: World, es: seq<Event>, id: string)
    requires Inv(s) && id in s.rows
    ensures id in Run(s, es).rows && Aged(s.rows[id], Run(s, es).rows[id])
    decreases |es|
  {
    if es != [] {
      RowsOnlyAge(s, es[0], id);
      NextKeeps(s, es[0]);
      AgeOverRuns(Next(s, es[0]), es[1..], id);
    }
  }

  // Revoked, expired and used are final: what is not active at one time is
  // not active at any later one, whatever happens in between.
  lemma NeverActiveAgain(s: World, es: seq<Event>, id: string, now: int, later: int)
    requires Inv(s) && id in s.rows && StatusOf(s.rows[id], now) != Active && now <= later
    ensures id in Run(s, es).rows && StatusOf(Run(s, es).rows[id], later) != Active
    ensures Spent(s.rows[id]) ==> Spent(Run(s, es).rows[id])
  {
    AgeOverRuns(s, es, id);
  }

  // ------------------------------------------------------------------ //
  // Requests that arrived in time
  // ------------------------------------------------------------------ //

  // An open request that has consumed the invitation, or still may at the
  // time it arrived.
  predicate StillRedeems(s: World, p: nat, id: string) {
    p in s.open && s.open[p].id == id && id in s.rows
    && (s.open[p].consumed || Consumable(s.rows[id], s.open[p].now))
  }

  predicate CanStillOpen(s: World, id: string) { exists p :: p in s.open && StillRedeems(s, p, id) }

  // What one open request comes to, left to itself.
  lemma ConsumeThenCommit(s: World, p: nat)
    requires Inv(s) && p in s.open && !s.open[p].consumed && !Locked(s, s.open[p].id)
    ensures var r := s.open[p];
            AccountsOf(Next(Next(s, Consume(p)), Commit(p)), r.id)
            == AccountsOf(s, r.id) + if Consumable(s.rows[r.id], r.now) then {r.user} else {}
  {
    var r := s.open[p];
    var t := Next(s, Consume(p));
    if Consumable(s.rows[r.id], r.now) {
      assert Next(t, Commit(p)).accounts == s.accounts[r.user := r.id];
    } else {
      assert Next(t, Commit(p)) == t && t.accounts == s.accounts;
    }
  }

  lemma CommitOpens(s: World, p: nat)
    requires Inv(s) && p in s.open && s.open[p].consumed
    ensures var r := s.open[p];
            r.user !in AccountsOf(s, r.id) && r.user in AccountsOf(Next(s, Commit(p)), r.id)
  {
    assert Next(s, Commit(p)).accounts == s.accounts[s.open[p].user := s.open[p].id];
  }

  // An invitation that is over at `now`, with no request left that could
  // redeem it.
  predicate Over(s: World, id: string, now: int) {
    id in s.rows && StatusOf(s.rows[id], now) != Active && !CanStillOpen(s, id)
  }

  predicate ArriveFrom(es: seq<Event>, now: int) { forall i :: 0 <= i < |es| && es[i].Begin? ==> es[i].now >= now }

  lemma RedeemersWereThere(s: World, e: Event, id: string, now: int, p: nat)
    requires Inv(s) && id in s.rows && StatusOf(s.rows[id], now) != Active && (e.Begin? ==> e.now >= now)
    requires StillRedeems(Next(s, e), p, id)
    ensures StillRedeems(s, p, id)
  {
    RowsOnlyAge(s, e, id);
  }

  lemma OverStep(s: World, e: Event, id: string, now: int)
    requires Inv(s) && Over(s, id, now) && (e.Begin? ==> e.now >= now)
    ensures Over(Next(s, e), id, now) && AccountsOf(Next(s, e), id) == AccountsOf(s, id)
  {
    RowsOnlyAge(s, e, id);
    if p :| p in Next(s, e).open && StillRedeems(Next(s, e), p, id) {
      RedeemersWereThere(s, e, id, now, p);
    }
    OnlyCommitsOpen(s, e, id);
  }

  lemma OnlyCommitsOpen(s: World, e: Event, id: string)
    requires Inv(s) && !(e.Commit? && StillRedeems(s, e.p, id))
    ensures AccountsOf(Next(s, e), id) == AccountsOf(s, id)
  {
  }

  lemma {:induction false} NoAccountAfterTheEnd(s: World, es: seq<Event>, id: string, now: int)
    requires Inv(s) && Over(s, id, now) && ArriveFrom(es, now)
    ensures AccountsOf(Run(s, es), id) == AccountsOf(s, id)
    decreases |es|
  {
    if es != [] {
      OverStep(s, es[0], id, now);
      NextKeeps(s, es[0]);
      assert ArriveFrom(es[1..], now);
      NoAccountAfterTheEnd(Next(s, es[0]), es[1..], id, now);
    }
  }

  ghost predicate OpensAnother(s: World, id: string, now: int) {
    exists es :: ArriveFrom(es, now) && AccountsOf(Run(s, es), id) != AccountsOf(s, id)
  }

  // Main result: once an invitation is revoked, expired or used, another
  // account can be opened with it, by whatever happens from then on, exactly
  // when a request is still open that consumed it already or arrived while it
  // was redeemable.
  lemma OpensAnotherIff(s: World, id: string, now: int)
    requires Inv(s) && id in s.rows && StatusOf(s.rows[id], now) != Active
    ensures OpensAnother(s, id, now) <==> CanStillOpen(s, id)
  {
    if p :| p in s.open && StillRedeems(s, p, id) {
      var q := if x :| x in s.open && s.open[x].consumed && s.open[x].id == id then x else p;
      LeftToItself(s, q, id, now);
    } else {
      forall es | ArriveFrom(es, now) ensures AccountsOf(Run(s, es), id) == AccountsOf(s, id) {
        NoAccountAfterTheEnd(s, es, id, now);
      }
    }
  }

  // A revocation that gets the row ends it: whatever is under way or comes
  // later, the invitation opens no further account. It waits for a redemption
  // that holds the row.
  lemma RevocationEndsIt(s: World, id: string, at: int, who: Option<string>, es: seq<Event>)
    requires Inv(s) && id in s.rows
    ensures var t := Next(s, Revoke(id, at, who));
            if exists p :: p in s.open && s.open[p].consumed && s.open[p].id == id then t == s
            else AccountsOf(Run(t, es), id) == AccountsOf(s, id) && id in t.rows && t.rows[id].revokedAt.Some?
                 && (s.rows[id].revokedAt.None? ==> t.rows[id].revokedAt == Some(at) && t.rows[id].revokedBy == who)
  {
    var t := Next(s, Revoke(id, at, who));
    NextKeeps(s, Revoke(id, at, who));
    if !Locked(s, id) {
      var now := LeastTime(es);
      assert StatusOf(t.rows[id], now) == Revoked;
      assert !CanStillOpen(t, id);
      NoAccountAfterTheEnd(t, es, id, now);
    }
  }

  lemma {:induction false} LeastTime(es: seq<Event>) returns (now: int)
    ensures ArriveFrom(es, now)
  {
    if es == [] {
      now := 0;
    } else {
      var rest := LeastTime(es[1..]);
      now := if es[0].Begin? && es[0].now < rest then es[0].now else rest;
      forall i | 0 <= i < |es| && es[i].Begin? ensures es[i].now >= now {
        if i > 0 { assert es[i] == es[1..][i - 1]; }
      }
    }
  }

  predicate CodeOf(i: Invitation, course: string) {
    i.kind == Student && i.course.Some? && i.course.value == course && i.revokedAt.None?
  }

  // Retiring a course's codes does so to all of them at once, and to nothing
  // else; it too waits for a redemption that holds one of them.
  lemma RetirementEndsThem(s: World, course: string, at: int, who: Option<string>, id: string)
    requires id in s.rows
    ensures var t := Next(s, Retire(course, at, who));
            var code := CodeOf(s.rows[id], course);
            (code && Locked(s, id) ==> t == s)
            && (t.rows != s.rows ==>
                  id in t.rows && t.open == s.open && t.accounts == s.accounts
                  && if code then t.rows[id].revokedAt == Some(at) && t.rows[id].revokedBy == who
                     else t.rows[id] == s.rows[id])
            && (code && !(exists x :: x in s.rows && CodeOf(s.rows[x], course) && Locked(s, x)) ==>
                  id in t.rows && t.rows[id].revokedAt == Some(at))
  {
  }

  // What the steps of one request do: it is let in exactly while the
  // invitation is active, turned away at the row exactly when that is not
  // redeemable for it any more, and ended by its commit or roll back, which
  // gives the row to the next one.
  lemma RequestSteps(s: World, p: nat, id: string, now: int)
    requires Inv(s) && p !in s.open
    ensures p in Next(s, Begin(p, id, now)).open <==> id in s.rows && StatusOf(s.rows[id], now) == Active
  {
  }

  lemma ConsumeSteps(s: World, p: nat)
    requires Inv(s) && p in s.open && !Locked(s, s.open[p].id)
    ensures var r, t := s.open[p], Next(s, Consume(p));
            t.rows == s.rows && t.accounts == s.accounts
            && (p in t.open <==> StatusOf(s.rows[r.id], r.now) == Active)
            && (p in t.open ==> t.open[p] == Redemption(r.id, r.now, r.user, true))
  {
  }

  lemma EndingSteps(s: World, p: nat)
    requires Inv(s) && p in s.open
    ensures var t := Next(s, RollBack(p));
            p !in t.open && t.rows == s.rows && t.accounts == s.accounts
            && (s.open[p].consumed ==> !Locked(t, s.open[p].id))
    ensures s.open[p].consumed ==>
              var r, t := s.open[p], Next(s, Commit(p));
              p !in t.open && !Locked(t, r.id) && r.user in t.accounts && t.accounts[r.user] == r.id
              && t.rows[r.id].useCount == s.rows[r.id].useCount + 1
              && t.rows[r.id].acceptedBy == Some(r.user) && t.rows[r.id].acceptedAt == Some(r.now)
              && t.rows[r.id].revokedAt == s.rows[r.id].revokedAt
              && forall id :: id in s.rows && id != r.id ==> t.rows[id] == s.rows[id]
    ensures s.open[p].consumed ==> Next(s, Consume(p)) == s
  {
  }

  // A privileged invitation opens one account at most, however many requests
  // carry it.
  lemma SingleUseOpensOne(id: string, kind: Kind, course: Option<string>, expiresAt: Option<int>, es: seq<Event>)
    requires kind != Student
    ensures var s := Run(Empty, [Issue(id, Issued(kind, course, expiresAt))] + es);
            id in s.rows && |AccountsOf(s, id)| <= 1
  {
    var first := Issue(id, Issued(kind, course, expiresAt));
    var t := Next(Empty, first);
    assert ([first] + es)[1..] == es;
    assert Run(Empty, [first] + es) == Run(t, es);
    NextKeeps(Empty, first);
    AgeOverRuns(t, es, id);
    AccountsMatchUses([first] + es, id);
  }

  lemma LeftToItself(s: World, p: nat, id: string, now: int)
    requires Inv(s) && StillRedeems(s, p, id) && (s.open[p].consumed || !Locked(s, id))
    ensures OpensAnother(s, id, now)
  {
    var es := if s.open[p].consumed then [Commit(p)] else [Consume(p), Commit(p)];
    if s.open[p].consumed {
      CommitOpens(s, p);
      assert Run(s, es) == Run(Next(s, es[0]), es[1..]);
    } else {
      NextKeeps(s, Consume(p));
      CommitOpens(Next(s, Consume(p)), p);
      assert es[1..][1..] == [];
      assert Run(s, es) == Run(Next(Next(s, es[0]), es[1..][0]), es[1..][1..]);
    }
    assert ArriveFrom(es, now);
  }

  // The request's own time is what counts: one that arrived before the
  // deadline is let through after it.
  lemma ArrivedInTimeIsRedeemedLate(id: string, deadline: int) returns (s: World)
    ensures Inv(s) && id in s.rows && StatusOf(s.rows[id], deadline) == Expired
    ensures AccountsOf(s, id) == {} && AccountsOf(Next(Next(s, Consume(0)), Commit(0)), id) == {0}
  {
    var i := Invitation(Professor, None, Some(deadline), Some(1), 0, None, None, None, None);
    var issued := Next(Empty, Issue(id, i));
    assert issued == World(map[id := i], map[], map[], 0);
    NextKeeps(Empty, Issue(id, i));
    NextKeeps(issued, Begin(0, id, deadline - 1));
    s := Next(issued, Begin(0, id, deadline - 1));
    assert s == World(map[id := i], map[], map[0 := Redemption(id, deadline - 1, 0, false)], 1);
    var t := Next(s, Consume(0));
    assert t.open == map[0 := Redemption(id, deadline - 1, 0, true)] && t.rows == s.rows && t.accounts == map[];
    assert Next(t, Commit(0)).accounts == map[0 := id];
  }
}
