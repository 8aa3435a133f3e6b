/** One course's model versions and the rule that says which of them students
    are answered from: `backend/app/db_models.py` and
    `backend/app/course_model_resolution.py`. */
module ModelRegistry {
  import opened Common

  datatype Status = Ready | Training | Failed
  datatype Deployment = Online | Offline | Unknown

  datatype Version = Version(
    baseModel: string,
    examples: nat,
    status: Status,
    deployment: Deployment,
    artifactRef: string,
    updatedAt: int,
    runId: Option<string>)

  // `current` is the course's `course_models` row, `versions` its rows of
  // `course_model_versions`.
  datatype Registry = Registry(current: Option<string>, versions: map<string, Version>)

  const NoModels := Registry(None, map[])

  // ------------------------------------------------------------------ //
  // Ordering version names: v10 after v9
  // ------------------------------------------------------------------ //

  predicate AllDigits(s: string) {
    s != "" && forall i :: 0 <= i < |s| ==> '0' <= s[i] <= '9'
  }

  function ParseNat(s: string): nat
    requires forall i :: 0 <= i < |s| ==> '0' <= s[i] <= '9'
  {
    if s == "" then 0 else 10 * ParseNat(s[..|s| - 1]) + (s[|s| - 1] as int - '0' as int)
  }

  const UNRECOGNISED: nat := 1_000_000_000

  function VersionNumber(name: string): nat {
    if IsVersionName(name) then ParseNat(name[1..]) else UNRECOGNISED
  }

  predicate IsVersionName(name: string) { name != "" && name[0] == 'v' && AllDigits(name[1..]) }

  function Decimal(n: nat): (s: string)
    ensures AllDigits(s) && ParseNat(s) == n
  {
    if n < 10 then [('0' as int + n) as char] else Decimal(n / 10) + [('0' as int + n % 10) as char]
  }

  lemma {:induction false} GreatestExists(numbers: set<nat>)
    requires numbers != {}
    ensures exists m :: m in numbers && forall k :: k in numbers ==> k <= m
  {
    var n :| n in numbers;
    if numbers != {n} {
      GreatestExists(numbers - {n});
      var m :| m in numbers - {n} && forall k :: k in numbers - {n} ==> k <= m;
      var greatest := if m < n then n else m;
      assert forall k :: k in numbers ==> k in numbers - {n} || k == n;
      assert greatest in numbers && forall k :: k in numbers ==> k <= greatest;
    }
  }

  function Highest(names: set<string>): (h: nat)
    ensures forall name :: name in names && IsVersionName(name) ==> VersionNumber(name) <= h
    ensures h == 0 || exists name :: name in names && IsVersionName(name) && VersionNumber(name) == h
  {
    var numbers := set name | name in names && IsVersionName(name) :: VersionNumber(name);
    if numbers == {} then
      assert forall name :: name in names && IsVersionName(name) ==> VersionNumber(name) in numbers;
      0
    else
      GreatestExists(numbers);
      var m :| m in numbers && forall k :: k in numbers ==> k <= m;
      assert forall name :: name in names && IsVersionName(name) ==> VersionNumber(name) in numbers;
      m
  }

  // `next_model_version`: one past the highest number in use, which no
  // registered version can already have.
  function NextVersion(names: set<string>): (name: string)
    ensures IsVersionName(name) && name !in names
  {
    var digits := Decimal(Highest(names) + 1);
    var name := "v" + digits;
    assert name[1..] == digits;
    name
  }

  // One past the highest in use, and the first is v1.
  lemma NextVersionIsNext(names: set<string>)
    ensures (forall name :: name in names ==> !IsVersionName(name)) ==> NextVersion(names) == "v1"
    ensures forall name :: name in names && IsVersionName(name) ==>
              VersionNumber(name) < VersionNumber(NextVersion(names))
    ensures VersionNumber(NextVersion(names)) > 1 ==>
              exists name :: name in names && IsVersionName(name)
                             && VersionNumber(name) + 1 == VersionNumber(NextVersion(names))
  {
    var next := NextVersion(names);
    assert next[1..] == Decimal(Highest(names) + 1);
    assert VersionNumber(next) == Highest(names) + 1;
  }

  // Names that are not a `v` and digits come after those that are, up to a
  // thousand million of them.
  lemma UnrecognisedComeLast(name: string, other: string)
    requires IsVersionName(name) && VersionNumber(name) < 1_000_000_000 && !IsVersionName(other)
    ensures VersionNumber(other) == 1_000_000_000 && Before(name, other) && !Before(other, name)
  {
  }

  lemma VersionNameIff(name: string)
    ensures IsVersionName(name) <==>
              |name| > 1 && name[0] == 'v' && forall i :: 0 < i < |name| ==> '0' <= name[i] <= '9'
  {
    if |name| > 1 {
      assert forall i :: 0 <= i < |name| - 1 ==> name[1..][i] == name[i + 1];
      assert forall i :: 0 < i < |name| ==> name[i] == name[1..][i - 1];
    }
  }

  // v10 after v9, unlike their texts.
  lemma TenAfterNine()
    ensures VersionNumber("v9") == 9 && VersionNumber("v10") == 10 && Before("v9", "v10") && !Before("v10", "v9")
  {
    assert "v9"[1..] == "9" && "v10"[1..] == "10" && "9"[..0] == "" && "10"[..1] == "1" && "1"[..0] == "";
    assert ParseNat("9") == 9 && ParseNat("1") == 1;
  }

  // The sort key is (number, text).
  predicate Before(a: string, b: string) {
    VersionNumber(a) < VersionNumber(b) || (VersionNumber(a) == VersionNumber(b) && Leq(a, b))
  }

  lemma BeforeIsTotalOrder(a: string, b: string, c: string)
    ensures Before(a, b) || Before(b, a)
    ensures Before(a, b) && Before(b, a) ==> a == b
    ensures Before(a, b) && Before(b, c) ==> Before(a, c)
  {
    LeqTotal(a, b);
    if Before(a, b) && Before(b, a) { LeqAntisymmetric(a, b); }
    if Leq(a, b) && Leq(b, c) { LeqTransitive(a, b, c); }
  }

  // ------------------------------------------------------------------ //
  // Resolution
  // ------------------------------------------------------------------ //

  predicate Servable(versions: map<string, Version>, name: string) {
    name in versions && versions[name].deployment == Online && versions[name].status == Ready
  }

  predicate IsNewestServable(versions: map<string, Version>, name: string) {
    Servable(versions, name)
    && forall other :: other in versions && Servable(versions, other) ==> Before(other, name)
  }

  // The version a course's questions are answered from, if any. A course
  // without a `course_models` row has no registry at all.
  predicate Resolves(r: Registry, answer: Option<string>) {
    match answer
    case Some(name) => r.current.Some? && IsNewestServable(r.versions, name)
    case None => r.current.None? || forall name :: name in r.versions ==> !Servable(r.versions, name)
  }

  lemma {:induction false} NewestServableExists(versions: map<string, Version>, among: set<string>, name: string)
      returns (newest: string)
    requires among <= versions.Keys && name in among && Servable(versions, name)
    ensures newest in among && Servable(versions, newest)
    ensures forall other :: other in among && Servable(versions, other) ==> Before(other, newest)
    decreases among
  {
    var rest := among - {name};
    if other :| other in rest && Servable(versions, other) {
      var best := NewestServableExists(versions, rest, other);
      BeforeIsTotalOrder(name, best, name);
      newest := if Before(name, best) then best else name;
      forall o | o in among && Servable(versions, o) ensures Before(o, newest) {
        BeforeIsTotalOrder(o, best, newest);
        BeforeIsTotalOrder(o, o, o);
      }
    } else {
      newest := name;
      BeforeIsTotalOrder(name, name, name);
    }
  }

  // Resolution always has one answer, and only one.
  lemma ResolutionIsAFunction(r: Registry, a: Option<string>, b: Option<string>)
    requires Resolves(r, a) && Resolves(r, b)
    ensures a == b
  {
    if a.Some? && b.Some? { BeforeIsTotalOrder(a.value, b.value, a.value); }
  }

  lemma ResolutionExists(r: Registry) returns (answer: Option<string>)
    ensures Resolves(r, answer)
  {
    if name :| name in r.versions && Servable(r.versions, name) {
      var newest := NewestServableExists(r.versions, r.versions.Keys, name);
      answer := if r.current.Some? then Some(newest) else None;
    } else {
      answer := None;
    }
  }

  ghost function Resolved(r: Registry): (answer: Option<string>)
    ensures Resolves(r, answer)
  {
    ResolutionIsTotal(r);
    var a :| Resolves(r, a);
    a
  }

  lemma ResolutionIsTotal(r: Registry)
    ensures exists a :: Resolves(r, a)
  {
    var a := ResolutionExists(r);
  }

  // `select_servable_version` walks the registry record by record; here the
  // record list is any enumeration of the version rows.
  method SelectServableVersion(versions: map<string, Version>, names: seq<string>) returns (best: Option<string>)
    requires forall name :: name in versions <==> name in names
    ensures best.Some? ==> IsNewestServable(versions, best.value)
    ensures best.None? ==> forall name :: name in versions ==> !Servable(versions, name)
  {
    best := None;
    for i := 0 to |names|
      invariant best.Some? ==> best.value in names[..i] && Servable(versions, best.value)
      invariant best.Some? ==> forall k :: 0 <= k < i && Servable(versions, names[k]) ==> Before(names[k], best.value)
      invariant best.None? ==> forall k :: 0 <= k < i ==> !Servable(versions, names[k])
    {
      var name := names[i];
      if Servable(versions, name) {
        BeforeIsTotalOrder(name, name, name);
        if best.None? || !Before(name, best.value) {
          if best.Some? {
            forall k | 0 <= k < i && Servable(versions, names[k]) ensures Before(names[k], name) {
              BeforeIsTotalOrder(name, best.value, name);
              BeforeIsTotalOrder(names[k], best.value, name);
            }
          }
          best := Some(name);
        }
      }
    }
  }

  // ------------------------------------------------------------------ //
  // Writes
  // ------------------------------------------------------------------ //

  function Upserted(r: Registry, name: string, v: Version, setCurrent: bool): Registry {
    Registry(if setCurrent then Some(name) else r.current, r.versions[name := v])
  }

  function Deployed(v: Version, d: Deployment, now: int): Version {
    v.(deployment := d, updatedAt := now)
  }

  function Demoted(versions: map<string, Version>, keep: string, now: int): map<string, Version> {
    map n | n in versions ::
      if n != keep && versions[n].deployment == Online then Deployed(versions[n], Offline, now) else versions[n]
  }

  function Published(r: Registry, name: string, now: int): Registry {
    if name !in r.versions then r
    else r.(versions := Demoted(r.versions, name, now)[name := Deployed(r.versions[name], Online, now)])
  }

  function Unpublished(r: Registry, name: string, now: int): Registry {
    if name !in r.versions then r
    else r.(versions := r.versions[name := Deployed(r.versions[name], Offline, now)])
  }

  // The tables for one course, written in place.
  class ModelTables {
    var current: Option<string>
    var versions: map<string, Version>

    ghost function Contents(): Registry reads this { Registry(current, versions) }

    constructor ()
      ensures Contents() == NoModels
    {
      current, versions := None, map[];
    }

    method UpsertModelVersion(name: string, v: Version, setCurrent: bool)
      modifies this
      ensures Contents() == Upserted(old(Contents()), name, v, setCurrent)
    {
      versions := versions[name := v];
      if setCurrent { current := Some(name); }
    }

    // Demote the others, then promote this one; false when the course has no
    // such version.
    method MarkVersionPublished(name: string, now: int) returns (found: bool)
      modifies this
      ensures found == (name in old(versions))
      ensures Contents() == Published(old(Contents()), name, now)
      ensures found ==> forall n :: n in versions && versions[n].deployment == Online ==> n == name
    {
      found := name in versions;
      if !found { return; }
      versions := Demoted(versions, name, now);
      versions := versions[name := Deployed(versions[name], Online, now)];
    }

    method MarkVersionUnpublished(name: string, now: int) returns (found: bool)
      modifies this
      ensures found == (name in old(versions))
      ensures Contents() == Unpublished(old(Contents()), name, now)
    {
      found := name in versions;
      if found { versions := versions[name := Deployed(versions[name], Offline, now)]; }
    }
  }

  // ------------------------------------------------------------------ //
  // What holds over every history
  // ------------------------------------------------------------------ //

  datatype Write =
    | Register(name: string, version: Version, setCurrent: bool)
    | Publish(name: string)
    | Unpublish(name: string)

  // The routes refuse to register a version as online and to publish one that
  // is not ready.
  predicate Allowed(r: Registry, w: Write) {
    match w
    case Register(_, v, _) => v.deployment != Online
    case Publish(name) => name in r.versions && r.versions[name].status == Ready
    case Unpublish(_) => true
  }

  function Apply(r: Registry, now: int, w: Write): Registry {
    if !Allowed(r, w) then r else
    match w
    case Register(name, v, setCurrent) => Upserted(r, name, v, setCurrent)
    case Publish(name) => Published(r, name, now)
    case Unpublish(name) => Unpublished(r, name, now)
  }

  function History(r: Registry, ws: seq<(int, Write)>): Registry
    decreases |ws|
  {
    if ws == [] then r else History(Apply(r, ws[0].0, ws[0].1), ws[1..])
  }

  // A version is never registered as online, and published only when it is
  // there and ready; nothing else is refused.
  lemma WriteLandsIff(r: Registry, now: int, w: Write)
    ensures Apply(r, now, w) ==
              match w
              case Register(name, v, setCurrent) =>
                if v.deployment in {Offline, Unknown}
                then Registry(if setCurrent then Some(name) else r.current, r.versions[name := v]) else r
              case Publish(name) =>
                if name in r.versions && r.versions[name].status !in {Training, Failed} then Published(r, name, now)
                else r
              case Unpublish(name) => Unpublished(r, name, now)
  {
  }

  // A history is its writes one after the other.
  lemma {:induction false} HistoryGoesOn(r: Registry, ws: seq<(int, Write)>, now: int, w: Write)
    ensures History(r, []) == r && History(r, ws + [(now, w)]) == Apply(History(r, ws), now, w)
    decreases |ws|
  {
    if ws == [] {
      assert [(now, w)][1..] == [];
    } else {
      HistoryGoesOn(Apply(r, ws[0].0, ws[0].1), ws[1..], now, w);
      assert (ws + [(now, w)])[1..] == ws[1..] + [(now, w)];
    }
  }

  ghost predicate OneOnline(r: Registry) {
    forall a, b | a in r.versions && b in r.versions ::
      r.versions[a].deployment == Online && r.versions[b].deployment == Online ==> a == b
  }

  lemma {:induction false} AtMostOneOnline(r: Registry, ws: seq<(int, Write)>)
    requires OneOnline(r)
    ensures OneOnline(History(r, ws))
    decreases |ws|
  {
    if ws != [] { AtMostOneOnline(Apply(r, ws[0].0, ws[0].1), ws[1..]); }
  }

  // Students are served exactly the one version that is online and ready.
  lemma ServedIsTheOnlineReadyVersion(ws: seq<(int, Write)>, name: string)
    ensures var r := History(NoModels, ws);
            Resolved(r) == Some(name) <==> r.current.Some? && Servable(r.versions, name)
  {
    var r := History(NoModels, ws);
    AtMostOneOnline(NoModels, ws);
    if r.current.Some? && Servable(r.versions, name) {
      BeforeIsTotalOrder(name, name, name);
      assert Resolves(r, Some(name));
      ResolutionIsAFunction(r, Some(name), Resolved(r));
    }
  }

  // A version that is not online, or not ready, answers nobody; and without a
  // `course_models` row nothing does.
  lemma OnlyOnlineAndReadyIsServed(r: Registry, name: string)
    requires Resolved(r) == Some(name)
    ensures r.current.Some? && name in r.versions
    ensures r.versions[name].deployment == Online && r.versions[name].status == Ready
  {
  }

  // Even with several online rows, an older write's doing, the answer is the
  // highest numbered.
  lemma HighestOnlineNumberWins(r: Registry, a: string, b: string)
    requires Servable(r.versions, a) && Servable(r.versions, b) && VersionNumber(a) < VersionNumber(b)
    ensures Resolved(r) != Some(a)
  {
    if Resolved(r) == Some(a) { BeforeIsTotalOrder(a, b, a); }
  }

  // Publishing decides what is served, whatever was online before, and a
  // repeated report changes nothing but the stamp of the last one.
  lemma PublishingDecides(r: Registry, name: string, t0: int, t1: int)
    requires r.current.Some? && name in r.versions && r.versions[name].status == Ready
    ensures Resolved(Published(r, name, t0)) == Some(name)
    ensures Resolved(Published(Published(r, name, t0), name, t1)) == Some(name)
    ensures forall n :: n in r.versions && n != name ==>
              Published(Published(r, name, t0), name, t1).versions[n] == Published(r, name, t0).versions[n]
  {
    BeforeIsTotalOrder(name, name, name);
    var once := Published(r, name, t0);
    var twice := Published(once, name, t1);
    assert Resolves(once, Some(name));
    assert Resolves(twice, Some(name));
    ResolutionIsAFunction(once, Some(name), Resolved(once));
    ResolutionIsAFunction(twice, Some(name), Resolved(twice));
  }

  // Publishing touches no other row but to take it offline, and nothing of any
  // row but its deployment and stamp.
  lemma PublishingLeavesTheRest(r: Registry, name: string, now: int, n: string)
    requires n in r.versions
    ensures var after := Published(r, name, now);
            after.current == r.current && after.versions.Keys == r.versions.Keys
            && after.versions[n] == r.versions[n].(deployment := after.versions[n].deployment,
                                                   updatedAt := after.versions[n].updatedAt)
            && (after.versions[n].deployment == Online <==>
                  if name in r.versions then n == name else r.versions[n].deployment == Online)
            && (name in r.versions && (n == name || r.versions[n].deployment == Online) ==>
                  after.versions[n].updatedAt == now)
            && (n != name && r.versions[n].deployment != Online ==> after.versions[n] == r.versions[n])
  {
  }

  // A withdrawn version answers nobody. What is served changes exactly when
  // it was the one served, to the newest that is left; every other row, the
  // pointer, and all but the deployment and stamp of its own row stay.
  lemma WithdrawnIsNotServed(r: Registry, name: string, now: int)
    ensures var after := Unpublished(r, name, now);
            Resolved(after) != Some(name)
            && (Resolved(after) != Resolved(r) <==> Resolved(r) == Some(name))
            && (OneOnline(r) && Resolved(r) == Some(name) ==> Resolved(after) == None)
    ensures var after := Unpublished(r, name, now);
            after.current == r.current && after.versions.Keys == r.versions.Keys
            && (forall n :: n in r.versions && n != name ==> after.versions[n] == r.versions[n])
            && (name in r.versions ==> after.versions[name].status == r.versions[name].status
                                       && after.versions[name].runId == r.versions[name].runId
                                       && after.versions[name].deployment == Offline
                                       && after.versions[name].updatedAt == now)
  {
    var before, after := Resolved(r), Unpublished(r, name, now);
    if before != Some(name) {
      assert Resolves(after, before) by {
        forall n | n in after.versions && Servable(after.versions, n) ensures Servable(r.versions, n) {}
      }
      ResolutionIsAFunction(after, before, Resolved(after));
    }
  }

  // Registration moves what students are served in exactly two cases: it
  // re-registers the version being served, which takes it offline, or it
  // creates the missing `course_models` row of a course that already has
  // another version online.
  lemma RegistrationChangesServing(r: Registry, name: string, v: Version, setCurrent: bool)
    requires v.deployment != Online
    ensures Resolved(Upserted(r, name, v, setCurrent)) != Resolved(r) <==>
              (Resolved(r) == Some(name)
               || (r.current.None? && setCurrent
                   && exists n :: n in r.versions && n != name && Servable(r.versions, n)))
  {
    var after := Upserted(r, name, v, setCurrent);
    var before := Resolved(r);
    if r.current.None? {
      assert before == None;
      if setCurrent {
        if n :| n in r.versions && n != name && Servable(r.versions, n) {
          assert Servable(after.versions, n) && n in after.versions;
        } else {
          assert Resolves(after, None);
          ResolutionIsAFunction(after, None, Resolved(after));
        }
      } else {
        assert Resolves(after, None);
        ResolutionIsAFunction(after, None, Resolved(after));
      }
    } else if before == Some(name) {
      assert !Servable(after.versions, name);
    } else {
      assert Resolves(after, before) by {
        forall n | n in after.versions && Servable(after.versions, n)
          ensures n in r.versions && Servable(r.versions, n) {}
      }
      ResolutionIsAFunction(after, before, Resolved(after));
    }
  }

  // Consequence for the ordinary case: registering a version the course does
  // not have yet never changes the answer of a course that has a current one.
  lemma FreshRegistrationIsInvisible(r: Registry, name: string, v: Version, setCurrent: bool)
    requires v.deployment != Online && name !in r.versions && r.current.Some?
    ensures Resolved(Upserted(r, name, v, setCurrent)) == Resolved(r)
  {
    RegistrationChangesServing(r, name, v, setCurrent);
  }
}
