/** Whether a course's held-out questions overlap its training data:
    `evaluation/check_overlap.py:80-190` and the scan of
    `evaluation/check_training_overlap.py:73-108`, in exact arithmetic. */
module HeldOutOverlap {

  // Lower-casing, the content words of a lower-cased question, and the
  // character similarity of two of them: whatever they are.
  datatype Similarity =
    Similarity(lower: string -> string, words: string -> set<string>, ratio: (string, string) -> real)

  datatype Scores = Scores(jaccard: real, containment: real, ratio: real)

  const Zero := Scores(0.0, 0.0, 0.0)

  function Smaller(a: nat, b: nat): nat { if a <= b then a else b }

  function JaccardOf(a: set<string>, b: set<string>): real {
    if a == {} || b == {} then 0.0 else |a * b| as real / |a + b| as real
  }

  function ContainmentOf(a: set<string>, b: set<string>): real {
    if a == {} || b == {} then 0.0 else |a * b| as real / Smaller(|a|, |b|) as real
  }

  function ScoresOf(s: Similarity, a: string, b: string): Scores {
    var ta, tb := s.words(s.lower(a)), s.words(s.lower(b));
    Scores(JaccardOf(ta, tb), ContainmentOf(ta, tb), s.ratio(s.lower(a), s.lower(b)))
  }

  // ------------------------------------------------------------------ //
  // Verdicts
  // ------------------------------------------------------------------ //

  datatype Verdict = HeldOut | Review | Reject

  datatype Limits = Limits(jaccard: real, containment: real, ratio: real)

  const REJECT := Limits(0.60, 0.75, 0.75)
  const REVIEW := Limits(0.45, 0.60, 0.60)

  predicate Exceeds(x: Scores, l: Limits) {
    x.jaccard >= l.jaccard || x.containment >= l.containment || x.ratio >= l.ratio
  }

  function VerdictFor(x: Scores): Verdict {
    if Exceeds(x, REJECT) then Reject else if Exceeds(x, REVIEW) then Review else HeldOut
  }

  function Max(x: real, y: real): real { if x >= y then x else y }

  // The one number items are ranked by.
  function Top(x: Scores): real { Max(x.jaccard, Max(x.containment, x.ratio)) }

  // ------------------------------------------------------------------ //
  // Why the nearest item is enough
  // ------------------------------------------------------------------ //

  // Products by name, so that bounds are chained without opening them.
  function Times(x: real, y: real): real { x * y }

  lemma TimesCancel(c: real, d: real, k: real)
    requires k > 0.0 && Times(c, k) >= Times(d, k)
    ensures c >= d
  {
    assert (c - d) * k >= 0.0;
  }

  lemma TimesGrow(c: real, y: real, z: real)
    requires c >= 0.0 && y <= z
    ensures Times(c, y) <= Times(c, z)
  {
    assert c * (z - y) >= 0.0;
  }

  lemma TimesDouble(c: real, p: real)
    ensures Times(c, 2.0 * p) == 2.0 * Times(c, p)
  {
  }

  lemma Quotient(x: real, p: real)
    requires x >= 0.0 && p > 0.0
    ensures x / p >= 0.0 && Times(x / p, p) == x
  {
  }

  lemma QuotientLeq(x: real, p: real, q: real)
    requires x >= 0.0 && p > 0.0 && 2.0 * p <= q
    ensures x / p >= 2.0 * x / q
  {
    var c, d := x / p, 2.0 * x / q;
    Quotient(x, p);
    Quotient(2.0 * x, q);
    TimesGrow(c, 2.0 * p, q);
    TimesDouble(c, p);
    TimesCancel(c, d, q);
  }

  // containment >= 2j / (1 + j) for jaccard j.
  lemma ContainmentFollowsJaccard(a: set<string>, b: set<string>)
    ensures JaccardOf(a, b) >= 0.0
    ensures ContainmentOf(a, b) >= 2.0 * JaccardOf(a, b) / (1.0 + JaccardOf(a, b))
  {
    if a != {} && b != {} {
      var i, u, m := |a * b|, |a + b|, Smaller(|a|, |b|);
      assert u + i == |a| + |b|;
      assert m > 0 && u > 0 by { NonEmpty(a); NonEmpty(b); NonEmpty(a + b); }
      QuotientLeq(i as real, m as real, (u + i) as real);
      Quotient(i as real, u as real);
      Rearranged(i as real, u as real);
      assert (u + i) as real == u as real + i as real;
    }
  }

  lemma NonEmpty(a: set<string>)
    requires a != {}
    ensures |a| > 0
  {
  }

  lemma Rearranged(i: real, u: real)
    requires i >= 0.0 && u > 0.0
    ensures 2.0 * (i / u) / (1.0 + i / u) == 2.0 * i / (u + i)
  {
    var j := i / u;
    assert j * u == i && j >= 0.0;
    var left, right := 2.0 * j / (1.0 + j), 2.0 * i / (u + i);
    assert left * (1.0 + j) == 2.0 * j;
    assert right * (u + i) == 2.0 * i;
    Associate(left, 1.0 + j, u);
    Distribute(1.0, j, u);
    Associate(2.0, j, u);
    assert (1.0 + j) * u == u + i;
    assert left * (u + i) == 2.0 * i;
    Cancel(left, right, u + i);
  }

  lemma Associate(x: real, y: real, z: real)
    ensures x * (y * z) == x * y * z
  {
  }

  lemma Distribute(x: real, y: real, k: real)
    ensures (x + y) * k == x * k + y * k
  {
  }

  lemma Cancel(x: real, y: real, k: real)
    requires k > 0.0 && x * k == y * k
    ensures x == y
  {
    assert (x - y) * k == 0.0;
  }

  // So a jaccard at either limit carries containment to the same level's
  // limit: 0.60 to exactly 0.75, and 0.45 past 0.60.
  lemma JaccardNeverDecides(a: set<string>, b: set<string>)
    ensures JaccardOf(a, b) <= ContainmentOf(a, b)
    ensures JaccardOf(a, b) >= REJECT.jaccard ==> ContainmentOf(a, b) >= REJECT.containment
    ensures JaccardOf(a, b) >= REVIEW.jaccard ==> ContainmentOf(a, b) >= REVIEW.containment
  {
    var j, c := JaccardOf(a, b), ContainmentOf(a, b);
    ContainmentFollowsJaccard(a, b);
    JaccardAtMostOne(a, b);
    Quotient(2.0 * j, 1.0 + j);
    BoundBelow(j, 2.0 * j / (1.0 + j));
  }

  lemma JaccardAtMostOne(a: set<string>, b: set<string>)
    ensures JaccardOf(a, b) <= 1.0
  {
    if a != {} && b != {} {
      NonEmpty(a + b);
      assert a * b <= a + b;
      Subset(a * b, a + b);
      var i, u := |a * b| as real, |a + b| as real;
      Quotient(i, u);
      assert Times(1.0, u) == u;
      TimesCancel(1.0, i / u, u);
    }
  }

  lemma {:induction false} Subset(a: set<string>, b: set<string>)
    requires a <= b
    ensures |a| <= |b|
  {
    assert b == a + (b - a);
  }

  lemma BoundBelow(j: real, d: real)
    requires 0.0 <= j <= 1.0 && Times(d, 1.0 + j) == 2.0 * j
    ensures d >= j
    ensures j >= 0.60 ==> d >= 0.75
    ensures j >= 0.45 ==> d >= 0.60
  {
    SquareIsLess(j);
    TimesCancel(d, j, 1.0 + j);
    if j >= 0.60 { TimesCancel(d, 0.75, 1.0 + j); }
    if j >= 0.45 { TimesCancel(d, 0.60, 1.0 + j); }
  }

  lemma SquareIsLess(j: real)
    requires 0.0 <= j <= 1.0
    ensures Times(j, 1.0 + j) <= 2.0 * j
  {
    TimesGrow(j, j, 1.0);
    assert j * (1.0 + j) == j + j * j;
  }

  // The verdict is a step function of the one number.
  lemma VerdictIsOfTop(s: Similarity, a: string, b: string)
    ensures var x := ScoresOf(s, a, b);
            VerdictFor(x) == if Top(x) >= 0.75 then Reject else if Top(x) >= 0.60 then Review else HeldOut
  {
    JaccardNeverDecides(s.words(s.lower(a)), s.words(s.lower(b)));
  }

  // What the verdict of two questions is, counted: `i` shared words of `u` in
  // all, and the character ratio.
  lemma VerdictByCounts(s: Similarity, a: string, b: string)
    ensures var ta, tb := s.words(s.lower(a)), s.words(s.lower(b));
            var i, ratio := |ta * tb|, s.ratio(s.lower(a), s.lower(b));
            var v := VerdictFor(ScoresOf(s, a, b));
            (v == Reject <==> (ta != {} && tb != {} && (4 * i >= 3 * |ta| || 4 * i >= 3 * |tb|)) || ratio >= 0.75)
            && (v == HeldOut <==>
                  (ta != {} && tb != {} ==> 5 * i < 3 * |ta| && 5 * i < 3 * |tb|) && ratio < 0.60)
  {
    var ta, tb := s.words(s.lower(a)), s.words(s.lower(b));
    JaccardNeverDecides(ta, tb);
    if ta != {} && tb != {} {
      NonEmpty(ta);
      NonEmpty(tb);
      AtLeast(|ta * tb|, Smaller(|ta|, |tb|));
      if |ta| <= |tb| { SmallerIs(|ta|, |tb|); } else { SmallerIs(|tb|, |ta|); }
    }
  }

  lemma SmallerIs(a: nat, b: nat)
    requires a <= b
    ensures Smaller(a, b) == Smaller(b, a) == a
  {
  }

  lemma AtLeast(i: nat, m: nat)
    requires m > 0
    ensures i as real / m as real >= 0.75 <==> 4 * i >= 3 * m
    ensures i as real / m as real >= 0.60 <==> 5 * i >= 3 * m
  {
    Quotient(i as real, m as real);
    var q := i as real / m as real;
    Compare(q, 0.75, m as real);
    Compare(q, 0.60, m as real);
  }

  lemma Compare(q: real, c: real, k: real)
    requires k > 0.0
    ensures q >= c <==> Times(q, k) >= Times(c, k)
  {
    if q >= c { assert (q - c) * k >= 0.0; } else { assert (c - q) * k > 0.0; }
  }

  // The jaccard limits, counted the same way; no pair of questions is decided
  // by them alone.
  lemma JaccardByCounts(a: set<string>, b: set<string>)
    ensures JaccardOf(a, b) >= 0.60 <==> a != {} && b != {} && 5 * |a * b| >= 3 * |a + b|
    ensures JaccardOf(a, b) >= 0.45 <==> a != {} && b != {} && 20 * |a * b| >= 9 * |a + b|
    ensures Exceeds(Scores(JaccardOf(a, b), 0.0, 0.0), REJECT) <==> JaccardOf(a, b) >= 0.60
    ensures Exceeds(Scores(JaccardOf(a, b), 0.0, 0.0), REVIEW) <==> JaccardOf(a, b) >= 0.45
  {
    if a != {} && b != {} {
      NonEmpty(a + b);
      var q, u := JaccardOf(a, b), |a + b| as real;
      Quotient(|a * b| as real, u);
      Compare(q, 0.60, u);
      Compare(q, 0.45, u);
    }
  }

  // The limits leave no room: with the containment and ratio limits for
  // REJECT any higher, two questions could have the same nearest item hide a
  // rejected one.
  lemma RejectLimitIsTight(limit: real)
    requires limit > 0.75
    ensures var a, b := {"a", "b", "c", "d"}, {"a", "b", "c", "e"};
            var overlapping := Scores(JaccardOf(a, b), ContainmentOf(a, b), 0.0);
            exists r :: 0.0 <= r <= 1.0
              && Top(Scores(0.0, 0.0, r)) > Top(overlapping)
              && Exceeds(overlapping, Limits(0.60, limit, limit))
              && !Exceeds(Scores(0.0, 0.0, r), Limits(0.60, limit, limit))
  {
    var a, b := {"a", "b", "c", "d"}, {"a", "b", "c", "e"};
    assert a * b == {"a", "b", "c"} && a + b == {"a", "b", "c", "d", "e"};
    assert JaccardOf(a, b) == 0.60 && ContainmentOf(a, b) == 0.75;
    var r := (0.75 + if limit > 1.0 then 1.0 else limit) / 2.0;
    assert Top(Scores(0.0, 0.0, r)) == r;
  }

  // ------------------------------------------------------------------ //
  // The scans
  // ------------------------------------------------------------------ //

  type Item = (string, string)   // label, question

  method Nearest(s: Similarity, question: string, corpus: seq<Item>) returns (best: Scores, from: string, other: string)
    ensures forall item :: item in corpus ==> Top(ScoresOf(s, question, item.1)) <= Top(best)
    ensures (best, from, other) == (Scores(0.0, 0.0, 0.0), "", "")
            || ((from, other) in corpus && best == ScoresOf(s, question, other))
  {
    best, from, other := Zero, "", "";
    for i := 0 to |corpus|
      invariant forall k :: 0 <= k < i ==> Top(ScoresOf(s, question, corpus[k].1)) <= Top(best)
      invariant (best, from, other) == (Zero, "", "")
                || ((from, other) in corpus && best == ScoresOf(s, question, other))
    {
      var x := ScoresOf(s, question, corpus[i].1);
      if Top(x) > Top(best) {
        best, from, other := x, corpus[i].0, corpus[i].1;
      }
    }
  }

  ghost predicate SomeItem(s: Similarity, question: string, corpus: seq<Item>, v: Verdict) {
    exists item :: item in corpus && VerdictFor(ScoresOf(s, question, item.1)) == v
  }

  // What the documentation promises: the worst verdict over everything.
  ghost predicate IsWorst(s: Similarity, question: string, corpus: seq<Item>, v: Verdict) {
    match v
    case Reject => SomeItem(s, question, corpus, Reject)
    case Review => SomeItem(s, question, corpus, Review) && !SomeItem(s, question, corpus, Reject)
    case HeldOut => !SomeItem(s, question, corpus, Review) && !SomeItem(s, question, corpus, Reject)
  }

  // Main result: the verdict of the nearest item alone is the worst verdict
  // over the whole corpus.
  lemma NearestDecides(s: Similarity, question: string, corpus: seq<Item>, best: Scores, from: string, other: string)
    requires forall item :: item in corpus ==> Top(ScoresOf(s, question, item.1)) <= Top(best)
    requires best == Zero || ((from, other) in corpus && best == ScoresOf(s, question, other))
    ensures IsWorst(s, question, corpus, VerdictFor(best))
  {
    forall item | item in corpus
      ensures VerdictFor(ScoresOf(s, question, item.1)) == Reject ==> VerdictFor(best) == Reject
      ensures VerdictFor(ScoresOf(s, question, item.1)) == Review ==> VerdictFor(best) != HeldOut
    {
      VerdictIsOfTop(s, question, item.1);
      if best != Zero { VerdictIsOfTop(s, question, other); }
    }
    if best != Zero { assert VerdictFor(ScoresOf(s, question, (from, other).1)) == VerdictFor(best); }
  }

  ghost predicate Clean(s: Similarity, question: string, heldOut: seq<Item>) {
    forall item :: item in heldOut ==> VerdictFor(ScoresOf(s, question, item.1)) == HeldOut
  }

  lemma CleanIffWorst(s: Similarity, question: string, heldOut: seq<Item>, v: Verdict)
    requires IsWorst(s, question, heldOut, v)
    ensures Clean(s, question, heldOut) <==> v == HeldOut
  {
  }

  lemma SameLowerSameVerdict(s: Similarity, a: string, b: string, heldOut: seq<Item>)
    requires s.lower(a) == s.lower(b)
    ensures Clean(s, a, heldOut) <==> Clean(s, b, heldOut)
  {
    assert forall item :: item in heldOut ==> ScoresOf(s, a, item.1) == ScoresOf(s, b, item.1);
  }

  ghost function Questions(lower: string -> string, candidates: seq<Item>): set<string> {
    if candidates == [] then {}
    else Questions(lower, candidates[..|candidates| - 1]) + {lower(candidates[|candidates| - 1].1)}
  }

  // The distinct questions that are not clean.
  ghost function Flagged(lower: string -> string, clean: string -> bool, candidates: seq<Item>): set<string> {
    if candidates == [] then {}
    else
      var last := candidates[|candidates| - 1].1;
      Flagged(lower, clean, candidates[..|candidates| - 1]) + if clean(last) then {} else {lower(last)}
  }

  lemma {:induction false} QuestionsAre(lower: string -> string, candidates: seq<Item>, key: string)
    ensures key in Questions(lower, candidates) <==> exists i :: 0 <= i < |candidates| && lower(candidates[i].1) == key
  {
    if candidates != [] {
      var rest := candidates[..|candidates| - 1];
      QuestionsAre(lower, rest, key);
      assert forall i :: 0 <= i < |rest| ==> rest[i] == candidates[i];
    }
  }

  lemma {:induction false} FlaggedAre(lower: string -> string, clean: string -> bool, candidates: seq<Item>,
        key: string)
    ensures key in Flagged(lower, clean, candidates) <==>
              exists i :: 0 <= i < |candidates| && lower(candidates[i].1) == key && !clean(candidates[i].1)
  {
    if candidates != [] {
      var rest := candidates[..|candidates| - 1];
      FlaggedAre(lower, clean, rest, key);
      assert forall i :: 0 <= i < |rest| ==> rest[i] == candidates[i];
    }
  }

  // A repeated question adds nothing, a new one adds itself if it overlaps.
  lemma ScanStep(lower: string -> string, clean: string -> bool, candidates: seq<Item>, i: nat)
    requires i < |candidates|
    requires forall c :: c in candidates && lower(c.1) == lower(candidates[i].1) ==>
               clean(c.1) == clean(candidates[i].1)
    ensures var key := lower(candidates[i].1);
            Questions(lower, candidates[..i + 1]) == Questions(lower, candidates[..i]) + {key}
            && (key in Questions(lower, candidates[..i]) ==>
                  Flagged(lower, clean, candidates[..i + 1]) == Flagged(lower, clean, candidates[..i]))
            && (key !in Questions(lower, candidates[..i]) ==>
                  |Flagged(lower, clean, candidates[..i + 1])|
                  == |Flagged(lower, clean, candidates[..i])| + if clean(candidates[i].1) then 0 else 1)
  {
    var key := lower(candidates[i].1);
    var done := candidates[..i];
    OneMore(lower, clean, candidates, i);
    QuestionsAre(lower, done, key);
    FlaggedAre(lower, clean, done, key);
    if key in Questions(lower, done) {
      var k :| 0 <= k < i && lower(done[k].1) == key;
      assert candidates[k] in candidates && clean(done[k].1) == clean(candidates[i].1);
    }
  }

  lemma OneMore(lower: string -> string, clean: string -> bool, candidates: seq<Item>, i: nat)
    requires i < |candidates|
    ensures var key := lower(candidates[i].1);
            Questions(lower, candidates[..i + 1]) == Questions(lower, candidates[..i]) + {key}
            && Flagged(lower, clean, candidates[..i + 1])
               == Flagged(lower, clean, candidates[..i]) + if clean(candidates[i].1) then {} else {key}
  {
    assert candidates[..i + 1][..i] == candidates[..i];
  }

  lemma NothingFlaggedIff(lower: string -> string, clean: string -> bool, candidates: seq<Item>)
    ensures |Flagged(lower, clean, candidates)| == 0 <==> forall c :: c in candidates ==> clean(c.1)
  {
    var bad := Flagged(lower, clean, candidates);
    if bad != {} {
      var key :| key in bad;
      FlaggedAre(lower, clean, candidates, key);
    } else {
      forall i | 0 <= i < |candidates| ensures clean(candidates[i].1) {
        FlaggedAre(lower, clean, candidates, lower(candidates[i].1));
      }
    }
  }

  // The gate before a training run: nonzero exactly when there is nothing to
  // check or some training question overlaps some held-out one, although each
  // question is compared with one held-out question only and repeated ones
  // not at all. Questions come stripped from the reader.
  method CheckTraining(s: Similarity, candidates: seq<Item>, heldOut: seq<Item>)
      returns (exit: int, checked: nat, flagged: nat)
    ensures exit == 0 || exit == 1
    ensures exit == 0 <==> heldOut != [] && candidates != [] && forall c :: c in candidates ==> Clean(s, c.1, heldOut)
    ensures heldOut != [] && candidates != [] ==>
              checked == |Questions(s.lower, candidates)|
              && flagged == |Flagged(s.lower, q => Clean(s, q, heldOut), candidates)|
  {
    if heldOut == [] || candidates == [] { return 1, 0, 0; }
    var seen: set<string> := {};
    flagged := 0;
    ghost var clean := q => Clean(s, q, heldOut);
    forall a, b | s.lower(a) == s.lower(b) ensures clean(a) == clean(b) { SameLowerSameVerdict(s, a, b, heldOut); }
    for i := 0 to |candidates|
      invariant seen == Questions(s.lower, candidates[..i])
      invariant flagged == |Flagged(s.lower, clean, candidates[..i])|
    {
      var question := candidates[i].1;
      var key := s.lower(question);
      ScanStep(s.lower, clean, candidates, i);
      if key !in seen {
        seen := seen + {key};
        var overlaps := Overlaps(s, question, heldOut);
        if overlaps {
          flagged := flagged + 1;
        }
      }
    }
    assert candidates[..|candidates|] == candidates;
    checked := |seen|;
    exit := if flagged > 0 then 1 else 0;
    NothingFlaggedIff(s.lower, clean, candidates);
  }

  // One question's turn: only its nearest held-out question is judged.
  method Overlaps(s: Similarity, question: string, heldOut: seq<Item>) returns (overlaps: bool)
    ensures overlaps <==> !Clean(s, question, heldOut)
  {
    var best, from, other := Nearest(s, question, heldOut);
    NearestDecides(s, question, heldOut, best, from, other);
    CleanIffWorst(s, question, heldOut, VerdictFor(best));
    overlaps := VerdictFor(best) != HeldOut;
  }
}
