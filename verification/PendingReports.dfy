/** Reports the application has not acknowledged yet, kept on disk so that none
    is lost: `training/report_training_result.py`,
    `scripts/report_model_published.py` and the pending half of
    `scripts/lib/training_state.py`. */
module PendingReports {
  import opened Common
  import Models = ModelRegistry

  datatype Kind = Submission | Completion | Publication

  // One file per (run, kind); a publication is filed under a synthetic run.
  datatype Key = Key(run: string, kind: Kind)

  datatype Entry = Entry(course: string, version: string, body: string)

  // What a send comes back with. `Unheard` is everything else that raises: no
  // connection, a timeout, a bad token, any other status.
  datatype Reply = Accepted | Refused(status: nat) | Unheard

  predicate Final(reply: Reply) { reply.Refused? && (reply.status == 404 || reply.status == 409) }

  predicate Settled(reply: Reply) { reply.Accepted? || Final(reply) }

  // ------------------------------------------------------------------ //
  // Where a publication is filed
  // ------------------------------------------------------------------ //

  function PendingKey(course: string, version: string): Key {
    Key("publish-" + course + "-" + version, Publication)
  }

  // Two publications share a file only when they are of the same version of
  // the same course, although course identifiers may contain hyphens.
  lemma PendingKeyIsInjective(c1: string, v1: string, c2: string, v2: string)
    requires Models.IsVersionName(v1) && Models.IsVersionName(v2)
    requires PendingKey(c1, v1) == PendingKey(c2, v2)
    ensures c1 == c2 && v1 == v2
  {
    if |v1| < |v2| {
      HyphenBeforeVersion(c1, v1, c2, v2);
    } else if |v2| < |v1| {
      HyphenBeforeVersion(c2, v2, c1, v1);
    } else {
      var a, b := "publish-" + c1 + "-" + v1, "publish-" + c2 + "-" + v2;
      assert |c1| == |c2|;
      assert v1 == a[|a| - |v1|..] && v2 == b[|b| - |v2|..];
      assert c1 == a[8..8 + |c1|] && c2 == b[8..8 + |c2|];
    }
  }

  lemma HyphenBeforeVersion(c1: string, v1: string, c2: string, v2: string)
    requires Models.IsVersionName(v2) && |v1| < |v2|
    ensures PendingKey(c1, v1) != PendingKey(c2, v2)
  {
    var a, b := "publish-" + c1 + "-" + v1, "publish-" + c2 + "-" + v2;
    var at := |v2| - |v1| - 1;
    assert a[|a| - |v1| - 1] == '-';
    assert b[|b| - |v2| + at] == v2[at];
    assert v2[at] == if at == 0 then 'v' else v2[1..][at - 1];
    assert |a| == |b| ==> a[|a| - |v1| - 1] != b[|a| - |v1| - 1];
  }

  // ------------------------------------------------------------------ //
  // What a finished job reports
  // ------------------------------------------------------------------ //

  datatype Outcome = Succeeded | Failed
  datatype Verdict =
    Verdict(outcome: Outcome, stage: Option<string>, error: Option<string>, artifactRef: Option<string>)

  const DEFAULT_ERROR := "Training did not finish successfully."

  // The decision inside `build_completion_payload`.
  function Decide(outcome: Outcome, adapterPresent: bool, outputRef: string, stage: Option<string>,
        error: Option<string>): Verdict
  {
    if outcome == Succeeded then
      if adapterPresent then Verdict(Succeeded, None, None, Some(outputRef + "/adapter"))
      else
        var missing := "Training reported success but wrote no loadable adapter to " + outputRef + "/adapter.";
        Verdict(Failed, Some("artifact"), Some(missing), None)
    else
      var text := if error.Some? && error.value != "" then error.value else DEFAULT_ERROR;
      Verdict(Failed, if stage.Some? && stage.value != "" then stage else Some("training"),
              Some(if |text| <= 2000 then text else text[..2000]), None)
  }

  function Smaller(a: nat, b: nat): nat { if a < b then a else b }

  // A success is reported exactly for a job that says it succeeded and left an
  // adapter; an artifact is named exactly with it; and a failure always
  // carries a stage and a reason, the job's own cut to 2000 characters.
  lemma SuccessMeansAnAdapter(outcome: Outcome, adapterPresent: bool, outputRef: string, stage: Option<string>,
      error: Option<string>)
    ensures var v := Decide(outcome, adapterPresent, outputRef, stage, error);
            (v.outcome == Succeeded <==> outcome == Succeeded && adapterPresent)
            && (v.artifactRef.Some? <==> v.outcome == Succeeded)
            && (v.outcome == Failed <==> v.stage.Some? && v.error.Some?)
            && (v.outcome == Failed ==> v.stage.value != "" && v.error.value != "")
            && (v.outcome == Failed && outcome == Failed ==> |v.error.value| <= 2000)
            && (v.stage == Some("artifact") && stage != Some("artifact") ==> outcome == Succeeded)
    // What is named, and why: the adapter's directory, or the job's own words.
    ensures var v := Decide(outcome, adapterPresent, outputRef, stage, error);
            (v.outcome == Succeeded ==> v.artifactRef == Some(outputRef + "/adapter"))
            && (outcome == Succeeded && !adapterPresent ==>
                  v.stage == Some("artifact")
                  && v.error == Some("Training reported success but wrote no loadable adapter to " + outputRef
                                     + "/adapter."))
            && (outcome == Failed ==>
                  (if stage.Some? && |stage.value| > 0 then v.stage == stage else v.stage == Some("training"))
                  && (if error.Some? && |error.value| > 0
                      then v.error.value <= error.value && |v.error.value| == Smaller(|error.value|, 2000)
                      else v.error == Some("Training did not finish successfully.")))
  {
  }

  // ------------------------------------------------------------------ //
  // The store
  // ------------------------------------------------------------------ //

  // What one flush does with an entry, given the answer to its one send.
  datatype Fate = Delivered | Undelivered | Superseded | Rejected | Skipped

  function FateOf(kind: Kind, reply: Reply): Fate {
    match kind
    case Submission => Skipped
    case Completion => if reply.Accepted? then Delivered else if Final(reply) then Superseded else Undelivered
    case Publication => if reply.Accepted? then Delivered else if Final(reply) then Rejected else Undelivered
  }

  type Backend = (Key, Entry) -> Reply

  function Tally(listing: seq<Key>, entries: map<Key, Entry>, backend: Backend, fate: Fate): nat
    requires forall k :: k in listing ==> k in entries
  {
    if listing == [] then 0
    else
      var last := listing[|listing| - 1];
      Tally(listing[..|listing| - 1], entries, backend, fate)
      + (if FateOf(last.kind, backend(last, entries[last])) == fate then 1 else 0)
  }

  // The replies that end a report's life on disk.
  predicate Answers(reply: Reply) { reply == Accepted || reply == Refused(404) || reply == Refused(409) }

  function Keys(listing: seq<Key>): set<Key> { set k | k in listing }

  function Fated(keys: set<Key>, entries: map<Key, Entry>, backend: Backend, fate: Fate): set<Key>
    requires keys <= entries.Keys
  {
    set k | k in keys && FateOf(k.kind, backend(k, entries[k])) == fate
  }

  // The summary's numbers are those of the entries themselves.
  lemma {:induction false} TallyIsACount(listing: seq<Key>, entries: map<Key, Entry>, backend: Backend, fate: Fate)
    requires forall k :: k in listing ==> k in entries
    requires forall i, j :: 0 <= i < j < |listing| ==> listing[i] != listing[j]
    ensures Tally(listing, entries, backend, fate)
            == |Fated(Keys(listing), entries, backend, fate)|
  {
    if listing == [] {
      assert Fated(Keys(listing), entries, backend, fate) == {};
    } else {
      var init, last := listing[..|listing| - 1], listing[|listing| - 1];
      TallyIsACount(init, entries, backend, fate);
      assert last !in init;
      assert Keys(listing) == Keys(init) + {last};
      OneMoreFated(Keys(init), last, entries, backend, fate);
    }
  }

  lemma TalliesAreCounts(listing: seq<Key>, entries: map<Key, Entry>, backend: Backend)
    requires Listing(listing, entries)
    ensures forall fate :: Tally(listing, entries, backend, fate) == |Fated(entries.Keys, entries, backend, fate)|
  {
    assert Keys(listing) == entries.Keys;
    forall fate ensures Tally(listing, entries, backend, fate) == |Fated(entries.Keys, entries, backend, fate)| {
      TallyIsACount(listing, entries, backend, fate);
    }
  }

  lemma OneMoreFated(keys: set<Key>, last: Key, entries: map<Key, Entry>, backend: Backend, fate: Fate)
    requires keys <= entries.Keys && last in entries && last !in keys
    ensures |Fated(keys + {last}, entries, backend, fate)|
            == |Fated(keys, entries, backend, fate)|
               + if FateOf(last.kind, backend(last, entries[last])) == fate then 1 else 0
  {
    var before, after := Fated(keys, entries, backend, fate), Fated(keys + {last}, entries, backend, fate);
    assert after == if FateOf(last.kind, backend(last, entries[last])) == fate then before + {last} else before;
  }

  // With the replies written out.
  lemma FatesByReply(entries: map<Key, Entry>, backend: Backend, k: Key)
    requires k in entries
    ensures k in Fated(entries.Keys, entries, backend, Skipped) <==> k.kind == Submission
    ensures k in Fated(entries.Keys, entries, backend, Delivered) <==>
              k.kind != Submission && backend(k, entries[k]) == Accepted
    ensures k in Fated(entries.Keys, entries, backend, Superseded) <==>
              k.kind == Completion && backend(k, entries[k]) in {Refused(404), Refused(409)}
    ensures k in Fated(entries.Keys, entries, backend, Rejected) <==>
              k.kind == Publication && backend(k, entries[k]) in {Refused(404), Refused(409)}
    ensures k in Fated(entries.Keys, entries, backend, Undelivered) <==>
              k.kind != Submission && backend(k, entries[k]) !in {Accepted, Refused(404), Refused(409)}
  {
  }

  datatype Summary = Summary(pending: nat, delivered: nat, failed: nat, superseded: nat, refused: nat)

  function Tallies(total: nat, listing: seq<Key>, entries: map<Key, Entry>, backend: Backend): Summary
    requires forall k :: k in listing ==> k in entries
  {
    Summary(total, Tally(listing, entries, backend, Delivered), Tally(listing, entries, backend, Undelivered),
            Tally(listing, entries, backend, Superseded), Tally(listing, entries, backend, Rejected))
  }

  function Counted(s: Summary, fate: Fate): Summary {
    match fate
    case Delivered => s.(delivered := s.delivered + 1)
    case Undelivered => s.(failed := s.failed + 1)
    case Superseded => s.(superseded := s.superseded + 1)
    case Rejected => s.(refused := s.refused + 1)
    case Skipped => s
  }

  lemma TalliesStep(total: nat, listing: seq<Key>, i: nat, entries: map<Key, Entry>, backend: Backend)
    requires i < |listing| && forall k :: k in listing ==> k in entries
    ensures var fate := FateOf(listing[i].kind, backend(listing[i], entries[listing[i]]));
            Tallies(total, listing[..i + 1], entries, backend)
            == Counted(Tallies(total, listing[..i], entries, backend), fate)
  {
    assert listing[..i + 1][..i] == listing[..i];
  }

  // The entries nobody answered for, and the submissions.
  function Kept(entries: map<Key, Entry>, backend: Backend): map<Key, Entry> {
    map k | k in entries && FateOf(k.kind, backend(k, entries[k])) in {Undelivered, Skipped} :: entries[k]
  }

  lemma RemainingStep(entries: map<Key, Entry>, listing: seq<Key>, i: nat, backend: Backend)
    requires Listing(listing, entries) && i < |listing|
    ensures listing[i] in Remaining(entries, listing[..i], backend)
    ensures Remaining(entries, listing[..i], backend)[listing[i]] == entries[listing[i]]
    ensures var before := Remaining(entries, listing[..i], backend);
            Remaining(entries, listing[..i + 1], backend)
            == if FateOf(listing[i].kind, backend(listing[i], entries[listing[i]])) in {Undelivered, Skipped}
               then before else before - {listing[i]}
  {
    assert listing[..i + 1] == listing[..i] + [listing[i]] && listing[i] !in listing[..i];
  }

  lemma RemainingAfterAll(entries: map<Key, Entry>, listing: seq<Key>, backend: Backend)
    requires Listing(listing, entries)
    ensures Remaining(entries, listing[..0], backend) == entries
    ensures Remaining(entries, listing[..|listing|], backend) == Kept(entries, backend)
  {
    assert listing[..|listing|] == listing;
  }

  // What a flush leaves of the store once the entries in `done` were sent.
  function Remaining(entries: map<Key, Entry>, done: seq<Key>, backend: Backend): map<Key, Entry> {
    map k | k in entries && (k !in done || FateOf(k.kind, backend(k, entries[k])) in {Undelivered, Skipped})
      :: entries[k]
  }

  // Every listed entry has exactly one fate.
  lemma {:induction false} EveryEntryIsCounted(listing: seq<Key>, entries: map<Key, Entry>, backend: Backend)
    requires forall k :: k in listing ==> k in entries
    ensures Tally(listing, entries, backend, Delivered) + Tally(listing, entries, backend, Undelivered)
            + Tally(listing, entries, backend, Superseded) + Tally(listing, entries, backend, Rejected)
            + Tally(listing, entries, backend, Skipped) == |listing|
    decreases |listing|
  {
    if listing != [] { EveryEntryIsCounted(listing[..|listing| - 1], entries, backend); }
  }

  ghost predicate Listing(listing: seq<Key>, entries: map<Key, Entry>) {
    (forall k :: k in listing <==> k in entries)
    && (forall i, j :: 0 <= i < j < |listing| ==> listing[i] != listing[j])
  }

  // A publication is filed where its own contents say.
  predicate FiledRight(entries: map<Key, Entry>) {
    forall k :: k in entries && k.kind == Publication ==> k == PendingKey(entries[k].course, entries[k].version)
  }

  // What one report leaves of the store: persisted, unless its send settled it.
  function AfterReport(entries: map<Key, Entry>, key: Key, entry: Entry, settled: bool): map<Key, Entry> {
    if settled then entries - {key} else entries[key := entry]
  }

  class PendingStore {
    var entries: map<Key, Entry>
    var reported: map<string, bool>     // run records, by whether their submission is settled

    predicate Valid() reads this { FiledRight(entries) }

    constructor (records: map<string, bool>)
      ensures Valid() && entries == map[] && reported == records
    {
      entries, reported := map[], records;
    }

    method MarkRunReported(run: string)
      modifies this`reported
      ensures reported == if run in old(reported) then old(reported)[run := true] else old(reported)
    {
      if run in reported { reported := reported[run := true]; }
    }

    // Send once, then clear once the backend has decided.
    method SendCompletion(key: Key, entry: Entry, backend: Backend) returns (fate: Fate)
      requires Valid() && key.kind == Completion
      modifies this
      ensures Valid() && fate == FateOf(Completion, backend(key, entry))
      ensures var reply := backend(key, entry);
              fate == if reply == Accepted then Delivered
                      else if reply == Refused(404) || reply == Refused(409) then Superseded else Undelivered
      ensures entries == if fate == Undelivered then old(entries) else old(entries) - {key}
      ensures reported == if fate != Undelivered && key.run in old(reported) then old(reported)[key.run := true]
          else old(reported)
    {
      var reply := backend(key, entry);
      if Final(reply) {
        entries := entries - {key};
        MarkRunReported(key.run);
        return Superseded;
      }
      if !reply.Accepted? { return Undelivered; }
      entries := entries - {key};
      MarkRunReported(key.run);
      return Delivered;
    }

    // Persist, then try to deliver. The exit status is zero either way.
    method ReportCompletion(run: string, entry: Entry, configured: bool, backend: Backend) returns (exit: int)
      requires Valid()
      modifies this
      ensures Valid() && exit == 0
      ensures var key := Key(run, Completion);
              entries == AfterReport(old(entries), key, entry, configured && Settled(backend(key, entry)))
      ensures reported == if configured && Settled(backend(Key(run, Completion), entry)) && run in old(reported)
                          then old(reported)[run := true] else old(reported)
    {
      var key := Key(run, Completion);
      entries := entries[key := entry];
      if configured {
        var fate := SendCompletion(key, entry, backend);
        assert old(entries)[key := entry] - {key} == old(entries) - {key};
      }
      exit := 0;
    }

    method SendPublication(entry: Entry, backend: Backend) returns (fate: Fate)
      requires Valid()
      modifies this`entries
      ensures Valid() && fate == FateOf(Publication, backend(PendingKey(entry.course, entry.version), entry))
      ensures var reply := backend(PendingKey(entry.course, entry.version), entry);
              fate == if reply == Accepted then Delivered
                      else if reply == Refused(404) || reply == Refused(409) then Rejected else Undelivered
      ensures entries == if fate == Undelivered then old(entries)
          else old(entries) - {PendingKey(entry.course, entry.version)}
    {
      var key := PendingKey(entry.course, entry.version);
      var reply := backend(key, entry);
      if !Settled(reply) { return Undelivered; }
      entries := entries - {key};
      fate := if reply.Accepted? then Delivered else Rejected;
    }

    method ReportPublication(entry: Entry, configured: bool, backend: Backend) returns (delivered: bool)
      requires Valid()
      modifies this`entries
      ensures Valid()
      ensures var key := PendingKey(entry.course, entry.version);
              delivered == (configured && backend(key, entry).Accepted?)
              && entries == AfterReport(old(entries), key, entry, configured && Settled(backend(key, entry)))
    {
      var key := PendingKey(entry.course, entry.version);
      entries := entries[key := entry];
      delivered := false;
      if configured {
        var fate := SendPublication(entry, backend);
        delivered := fate == Delivered;
        assert old(entries)[key := entry] - {key} == old(entries) - {key};
      }
    }

    // Deliver everything still queued; what stays is exactly what nobody
    // answered for, and the submissions, which the worker repairs itself.
    method FlushPending(listing: seq<Key>, configured: bool, backend: Backend) returns (summary: Summary)
      requires Valid() && Listing(listing, entries)
      modifies this
      ensures Valid() && summary.pending == |listing|
      ensures configured ==> entries == Kept(old(entries), backend)
      ensures configured ==> forall k :: k in old(entries) ==>
                (k in entries <==> k.kind == Submission || !Answers(backend(k, old(entries)[k])))
      ensures configured ==>
                summary == Tallies(|listing|, listing, old(entries), backend)
      // The numbers are how many entries were answered how.
      ensures configured ==>
                summary.delivered == |Fated(old(entries).Keys, old(entries), backend, Delivered)|
                && summary.failed == |Fated(old(entries).Keys, old(entries), backend, Undelivered)|
                && summary.superseded == |Fated(old(entries).Keys, old(entries), backend, Superseded)|
                && summary.refused == |Fated(old(entries).Keys, old(entries), backend, Rejected)|
      ensures !configured ==> entries == old(entries) && summary == Summary(|listing|, 0, |listing|, 0, 0)
    {
      summary := Summary(|listing|, 0, 0, 0, 0);
      RemainingAfterAll(entries, listing, backend);
      TalliesAreCounts(listing, entries, backend);
      if listing == [] { return; }
      if !configured { return summary.(failed := |listing|); }
      ghost var pending := entries;
      for i := 0 to |listing|
        invariant Valid() && entries == Remaining(pending, listing[..i], backend)
        invariant summary == Tallies(|listing|, listing[..i], pending, backend)
      {
        RemainingStep(pending, listing, i, backend);
        TalliesStep(|listing|, listing, i, pending, backend);
        var fate := SendOne(listing[i], backend);
        summary := Counted(summary, fate);
      }
      assert listing[..|listing|] == listing;
    }

    method SendOne(key: Key, backend: Backend) returns (fate: Fate)
      requires Valid() && key in entries
      modifies this
      ensures Valid() && fate == FateOf(key.kind, backend(key, old(entries)[key]))
      ensures entries == if fate in {Undelivered, Skipped} then old(entries) else old(entries) - {key}
    {
      match key.kind
      case Publication => fate := SendPublication(entries[key], backend);
      case Completion => fate := SendCompletion(key, entries[key], backend);
      case Submission => fate := Skipped;
    }
  }
}
