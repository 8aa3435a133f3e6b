/** How much a training run trains, and on which records:
    `training/train_qlora.py:192-260,567-592,760-855,934-950`. Epoch counts and
    ratios are exact rationals here. */
module TrainingPlan {
  import opened Common

  // ------------------------------------------------------------------ //
  // Rounding
  // ------------------------------------------------------------------ //

  function Ceil(x: real): int { -((-x).Floor) }

  function CeilDiv(n: nat, d: nat): nat
    requires d > 0
  {
    (n + d - 1) / d
  }

  lemma CeilBounds(x: real)
    ensures x <= Ceil(x) as real < x + 1.0
  {
  }

  lemma CeilMonotone(x: real, y: real)
    requires x <= y
    ensures Ceil(x) <= Ceil(y)
  {
    CeilBounds(x);
    CeilBounds(y);
  }

  lemma DivBounds(n: nat, d: nat)
    requires d > 0
    ensures n / d * d <= n < (n / d + 1) * d
    ensures n % d == 0 ==> n / d * d == n
  {
    assert n == n / d * d + n % d;
  }

  lemma CeilDivBounds(n: nat, d: nat)
    requires d > 0
    ensures n <= CeilDiv(n, d) * d <= n + d - 1
  {
    DivBounds(n + d - 1, d);
    var q := CeilDiv(n, d);
    assert (q + 1) * d == q * d + d;
  }

  lemma LessByProduct(x: nat, y: nat, d: nat)
    requires x * d < y * d
    ensures x < y
  {
    if y <= x { ProductLeq(y, x, d); }
  }

  // A quotient is the only number within its bounds.
  lemma CeilDivIs(n: nat, d: nat, q: nat)
    requires d > 0 && n <= q * d <= n + d - 1
    ensures CeilDiv(n, d) == q
  {
    CeilDivBounds(n, d);
    var c := CeilDiv(n, d);
    OneMore(q, d);
    OneMore(c, d);
    LessByProduct(c, q + 1, d);
    LessByProduct(q, c + 1, d);
  }

  lemma ProductLeq(x: nat, y: nat, d: nat)
    requires x <= y
    ensures x * d <= y * d
  {
    assert (y - x) * d >= 0;
  }

  // Batches of batches: rounding up twice is rounding up once.
  lemma NestedCeiling(n: nat, p: nat, a: nat)
    requires p > 0 && a > 0
    ensures p * a > 0 && CeilDiv(CeilDiv(n, p), a) == CeilDiv(n, p * a)
  {
    var inner := CeilDiv(n, p);
    var outer := CeilDiv(inner, a);
    CeilDivBounds(n, p);
    CeilDivBounds(inner, a);
    assert p * a > 0 by { ProductLeq(1, p, a); }
    ProductLeq(inner, outer * a, p);
    ProductLeq(outer * a, inner + a - 1, p);
    assert outer * a * p == outer * (p * a);
    assert (inner + a - 1) * p == inner * p + a * p - p;
    CeilDivIs(n, p * a, outer);
  }

  // ------------------------------------------------------------------ //
  // The step budget
  // ------------------------------------------------------------------ //

  // None is the ValueError.
  function EffectiveBatchSize(perDevice: int, accumulation: int, gpus: int): Option<nat> {
    if perDevice < 1 || accumulation < 1 || gpus < 1 then None
    else
      ProductPositive(perDevice, accumulation);
      ProductPositive(perDevice * accumulation, gpus);
      Some(perDevice * accumulation * gpus)
  }

  lemma ProductPositive(x: int, y: int)
    requires x >= 1 && y >= 1
    ensures x * y >= 1
  {
  }

  function StepsPerEpoch(n: nat, batch: nat): nat
    requires batch > 0
  {
    if CeilDiv(n, batch) < 1 then 1 else CeilDiv(n, batch)
  }

  function EstimateOptimizerSteps(n: int, epochs: real, perDevice: int, accumulation: int, gpus: int): Option<int> {
    if n < 1 || epochs <= 0.0 then None
    else match EffectiveBatchSize(perDevice, accumulation, gpus)
      case None => None
      case Some(batch) => if batch == 0 then None else Some(Ceil(StepsPerEpoch(n, batch) as real * epochs))
  }

  function ResolveMaxSteps(smoke: bool, cap: Option<int>, n: int, epochs: real, perDevice: int, accumulation: int,
      gpus: int): Option<int>
  {
    if smoke then (if cap.None? || cap.value < 1 then None else cap)
    else EstimateOptimizerSteps(n, epochs, perDevice, accumulation, gpus)
  }

  // A budget is refused only for what has no meaning: a smoke run needs its
  // cap and looks at nothing else, a full run needs no cap.
  lemma BudgetExistsIff(smoke: bool, cap: Option<int>, n: int, epochs: real, perDevice: int, accumulation: int,
        gpus: int)
    ensures ResolveMaxSteps(smoke, cap, n, epochs, perDevice, accumulation, gpus).Some? <==>
              if smoke then cap.Some? && cap.value >= 1
              else n >= 1 && epochs > 0.0 && perDevice >= 1 && accumulation >= 1 && gpus >= 1
  {
    if perDevice >= 1 && accumulation >= 1 && gpus >= 1 {
      ProductPositive(perDevice, accumulation);
      ProductPositive(perDevice * accumulation, gpus);
    }
  }

  lemma ScaledLeq(x: real, y: real, k: real)
    requires x <= y && k >= 0.0
    ensures x * k <= y * k
  {
    assert (y - x) * k >= 0.0;
  }

  lemma ScaledLess(x: real, y: real, k: real)
    requires x < y && k > 0.0
    ensures x * k < y * k
  {
    assert (y - x) * k > 0.0;
  }

  // Main result: a full run's budget covers every example in every epoch, and
  // passes that by less than one batch per epoch and one step; a smoke run's
  // is its cap.
  lemma BudgetCoversTraining(smoke: bool, cap: Option<int>, n: int, epochs: real, perDevice: int, accumulation: int,
        gpus: int)
    requires ResolveMaxSteps(smoke, cap, n, epochs, perDevice, accumulation, gpus).Some?
    ensures var steps := ResolveMaxSteps(smoke, cap, n, epochs, perDevice, accumulation, gpus).value;
            steps >= 1
            && if smoke then cap == Some(steps)
               else var b := (perDevice * accumulation * gpus) as real;
                    n as real * epochs <= steps as real * b < (n as real + b - 1.0) * epochs + b
  {
    if !smoke { FullBudget(n, epochs, perDevice, accumulation, gpus); }
  }

  lemma FullBudget(n: int, epochs: real, perDevice: int, accumulation: int, gpus: int)
    requires EstimateOptimizerSteps(n, epochs, perDevice, accumulation, gpus).Some?
    ensures var b := EffectiveBatchSize(perDevice, accumulation, gpus).value as real;
            var steps := EstimateOptimizerSteps(n, epochs, perDevice, accumulation, gpus).value;
            steps >= 1 && n as real * epochs <= steps as real * b < (n as real + b - 1.0) * epochs + b
  {
    var batch := EffectiveBatchSize(perDevice, accumulation, gpus).value;
    var per := CeilDiv(n, batch);
    CeilDivBounds(n, batch);
    LessByProduct(0, per, batch);
    assert StepsPerEpoch(n, batch) == per;
    var steps := EstimateOptimizerSteps(n, epochs, perDevice, accumulation, gpus).value;
    CeilBounds(per as real * epochs);
    assert (per * batch) as real == per as real * batch as real;
    BudgetInReals(n as real, epochs, batch as real, per as real, steps as real);
    ScaledLess(0.0, per as real, epochs);
  }

  // Products by name, so that the bounds below are chained without opening
  // them.
  function Times(x: real, y: real): real { x * y }

  lemma TimesLeq(x: real, y: real, k: real)
    requires x <= y && k > 0.0
    ensures Times(x, k) <= Times(y, k)
  {
    ScaledLeq(x, y, k);
  }

  lemma TimesOneMore(x: real, k: real)
    ensures Times(x + 1.0, k) == Times(x, k) + k
  {
  }

  lemma TimesSwap(p: real, e: real, b: real)
    ensures Times(Times(p, e), b) == Times(Times(p, b), e)
  {
    assert p * e * b == p * b * e;
  }

  lemma TimesLess(x: real, y: real, k: real)
    requires x < y && k > 0.0
    ensures Times(x, k) < Times(y, k)
  {
    ScaledLess(x, y, k);
  }

  lemma BudgetInReals(n: real, e: real, b: real, per: real, steps: real)
    requires e > 0.0 && b > 0.0 && n <= Times(per, b) <= n + b - 1.0
    requires Times(per, e) <= steps < Times(per, e) + 1.0
    ensures Times(n, e) <= Times(steps, b) < Times(n + b - 1.0, e) + b
  {
    TimesSwap(per, e, b);
    TimesLeq(n, Times(per, b), e);
    TimesLeq(Times(per, e), steps, b);
    TimesLess(steps, Times(per, e) + 1.0, b);
    TimesOneMore(Times(per, e), b);
    TimesLeq(Times(per, b), n + b - 1.0, e);
  }

  // The trainer's own budget on one device, which drops each epoch's trailing
  // partial group.
  function TrainerSteps(n: nat, epochs: real, perDevice: nat, accumulation: nat): int
    requires perDevice > 0 && accumulation > 0
  {
    var groups := CeilDiv(n, perDevice) / accumulation;
    Ceil((if groups < 1 then 1 else groups) as real * epochs)
  }

  lemma NeverBelowTheTrainer(n: nat, epochs: real, perDevice: nat, accumulation: nat)
    requires n >= 1 && epochs > 0.0 && perDevice >= 1 && accumulation >= 1
    ensures EstimateOptimizerSteps(n, epochs, perDevice, accumulation, 1).Some?
    ensures var steps := EstimateOptimizerSteps(n, epochs, perDevice, accumulation, 1).value;
            var trainer := TrainerSteps(n, epochs, perDevice, accumulation);
            trainer <= steps <= trainer + Ceil(epochs)
    ensures CeilDiv(n, perDevice) % accumulation == 0 ==>
              EstimateOptimizerSteps(n, epochs, perDevice, accumulation, 1)
              == Some(TrainerSteps(n, epochs, perDevice, accumulation))
  {
    BudgetExistsIff(false, None, n, epochs, perDevice, accumulation, 1);
    GroupsPerEpoch(n, perDevice, accumulation);
    var f := CeilDiv(n, perDevice) / accumulation;
    assert perDevice * accumulation * 1 == perDevice * accumulation;
    OneMorePerEpoch(if f < 1 then 1 else f, StepsPerEpoch(n, perDevice * accumulation), epochs);
  }

  // Each epoch's step count is the trainer's, or one more.
  lemma GroupsPerEpoch(n: nat, perDevice: nat, accumulation: nat)
    requires n >= 1 && perDevice >= 1 && accumulation >= 1
    ensures perDevice * accumulation >= 1
    ensures var f := CeilDiv(n, perDevice) / accumulation;
            var g := if f < 1 then 1 else f;
            g <= StepsPerEpoch(n, perDevice * accumulation) <= g + 1
            && (CeilDiv(n, perDevice) % accumulation == 0 ==> StepsPerEpoch(n, perDevice * accumulation) == g)
  {
    ProductPositive(perDevice, accumulation);
    NestedCeiling(n, perDevice, accumulation);
    CeilDivBounds(n, perDevice);
    LessByProduct(0, CeilDiv(n, perDevice), perDevice);
    FloorOrOneMore(CeilDiv(n, perDevice), accumulation);
  }

  lemma OneMorePerEpoch(g: nat, c: nat, epochs: real)
    requires g <= c <= g + 1 && epochs > 0.0
    ensures Ceil(g as real * epochs) <= Ceil(c as real * epochs) <= Ceil(g as real * epochs) + Ceil(epochs)
  {
    var x := g as real * epochs;
    ScaledLeq(g as real, c as real, epochs);
    ScaledLeq(c as real, g as real + 1.0, epochs);
    assert (g as real + 1.0) * epochs == x + epochs;
    CeilMonotone(x, c as real * epochs);
    CeilMonotone(c as real * epochs, x + epochs);
    CeilOfSum(x, epochs);
  }

  lemma FloorOrOneMore(n: nat, d: nat)
    requires n >= 1 && d >= 1
    ensures n / d <= CeilDiv(n, d) <= n / d + 1 && CeilDiv(n, d) >= 1
    ensures n % d == 0 ==> CeilDiv(n, d) == n / d
  {
    DivBounds(n, d);
    CeilDivBounds(n, d);
    var q, c := n / d, CeilDiv(n, d);
    OneMore(c, d);
    OneMore(q + 1, d);
    LessByProduct(q, c + 1, d);
    LessByProduct(c, q + 2, d);
    LessByProduct(0, c, d);
    if n % d == 0 { CeilDivIs(n, d, q); }
  }

  lemma OneMore(x: nat, d: nat)
    ensures (x + 1) * d == x * d + d
  {
  }

  lemma CeilOfSum(x: real, y: real)
    ensures Ceil(x + y) <= Ceil(x) + Ceil(y)
  {
    CeilBounds(x);
    CeilBounds(y);
    CeilBounds(x + y);
  }

  // The documented case: 37 examples, accumulation 8, three epochs.
  lemma ThirtySevenExamples()
    ensures EstimateOptimizerSteps(37, 3.0, 1, 8, 1) == Some(15) && TrainerSteps(37, 3.0, 1, 8) == 12
  {
  }

  function WarmupSteps(ratio: real, total: int): Option<int> {
    if !(0.0 <= ratio <= 1.0) || total < 1 then None else Some(Ceil(total as real * ratio))
  }

  lemma WarmupExistsIff(ratio: real, total: int)
    ensures WarmupSteps(ratio, total).Some? <==> 0.0 <= ratio && ratio <= 1.0 && total > 0
  {
  }

  lemma WarmupFits(ratio: real, total: int)
    requires WarmupSteps(ratio, total).Some?
    ensures var w := WarmupSteps(ratio, total).value;
            0 <= w <= total && (w == 0 <==> ratio == 0.0) && (w - 1) as real < total as real * ratio <= w as real
  {
    PartOf(ratio, total as real);
    CeilWithin(total as real * ratio, total);
  }

  lemma PartOf(ratio: real, t: real)
    requires 0.0 <= ratio <= 1.0 && t > 0.0
    ensures 0.0 <= t * ratio <= t && (t * ratio == 0.0 <==> ratio == 0.0)
  {
    assert t * ratio == ratio * t;
    ScaledLeq(0.0, ratio, t);
    ScaledLeq(ratio, 1.0, t);
    if ratio > 0.0 { ScaledLess(0.0, ratio, t); }
  }

  lemma CeilWithin(x: real, total: int)
    requires 0.0 <= x <= total as real
    ensures 0 <= Ceil(x) <= total && (Ceil(x) == 0 <==> x == 0.0) && (Ceil(x) - 1) as real < x <= Ceil(x) as real
  {
    CeilBounds(x);
  }

  // ------------------------------------------------------------------ //
  // The smoke subset
  // ------------------------------------------------------------------ //

  datatype Record = Record(format: string, text: string)

  const DEFAULT_FORMAT := "bare"

  function FormatOf(r: Record): string { if r.format == "" then DEFAULT_FORMAT else r.format }

  predicate IsFirst(records: seq<Record>, i: nat)
    requires i < |records|
  {
    forall j :: 0 <= j < i ==> FormatOf(records[j]) != FormatOf(records[i])
  }

  function Firsts(records: seq<Record>): set<nat> { set i: nat | i < |records| && IsFirst(records, i) }

  // Records without a format are bare ones.
  predicate SameFormat(a: Record, b: Record) {
    a.format == b.format || (a.format in {"", "bare"} && b.format in {"", "bare"})
  }

  // The first record of a format is one with none of that format before it.
  lemma FirstIff(records: seq<Record>, i: nat)
    requires i < |records|
    ensures i in Firsts(records) <==> forall j :: 0 <= j < i ==> !SameFormat(records[j], records[i])
  {
    if i in Firsts(records) {
      forall j | 0 <= j < i ensures !SameFormat(records[j], records[i]) {
        assert FormatOf(records[j]) != FormatOf(records[i]);
      }
    }
    if forall j :: 0 <= j < i ==> !SameFormat(records[j], records[i]) {
      forall j | 0 <= j < i ensures FormatOf(records[j]) != FormatOf(records[i]) {
        assert !SameFormat(records[j], records[i]);
      }
    }
  }

  predicate Increasing(s: seq<nat>) { forall i, j :: 0 <= i < j < |s| ==> s[i] < s[j] }

  function At(records: seq<Record>, indices: seq<nat>): (picked: seq<Record>)
    requires forall k :: 0 <= k < |indices| ==> indices[k] < |records|
    ensures |picked| == |indices| && forall k :: 0 <= k < |indices| ==> picked[k] == records[indices[k]]
  {
    if indices == [] then [] else [records[indices[0]]] + At(records, indices[1..])
  }

  function Elements(s: seq<nat>): set<nat> { set i | i in s }

  lemma {:induction false} IncreasingSize(s: seq<nat>)
    requires Increasing(s)
    ensures |Elements(s)| == |s|
  {
    if s == [] {
      assert Elements(s) == {};
    } else {
      var init, last := s[..|s| - 1], s[|s| - 1];
      IncreasingSize(init);
      assert s == init + [last];
      assert Elements(s) == Elements(init) + {last};
      assert last !in Elements(init);
    }
  }

  lemma {:induction false} RangeSize(chosen: set<nat>, n: nat)
    requires forall i :: i in chosen ==> i < n
    ensures |chosen| <= n
    ensures (forall i :: 0 <= i < n ==> i in chosen) ==> |chosen| == n
  {
    if n == 0 {
      assert chosen == {};
    } else {
      RangeSize(chosen - {n - 1}, n - 1);
    }
  }

  method SmokeSubset(records: seq<Record>, limit: int) returns (picked: seq<Record>, ghost indices: seq<nat>)
    ensures forall k :: 0 <= k < |indices| ==> indices[k] < |records|
    ensures Increasing(indices) && picked == At(records, indices)
    ensures |picked| == if limit <= 0 then 0 else if limit < |records| then limit else |records|
    // Every format is there when the formats fit the limit; otherwise the
    // limit is spent on the formats met first.
    ensures |Firsts(records)| <= limit ==> forall i :: i in Firsts(records) ==> i in indices
    ensures |Firsts(records)| > limit ==> forall i :: i in indices ==> i in Firsts(records)
    ensures forall i, j :: i in indices && i in Firsts(records) && j in Firsts(records) && j < i ==> j in indices
    // What is left of the limit goes to the earliest of the other records.
    ensures forall i, j :: i in indices && i !in Firsts(records) && 0 <= j < i && j !in Firsts(records) ==> j in indices
  {
    if limit <= 0 || records == [] {
      return [], [];
    }
    var firsts := FirstOfEachFormat(records);
    IncreasingSize(firsts);
    assert Elements(firsts) == Firsts(records);
    var kept := if |firsts| <= limit then firsts else firsts[..limit];
    IncreasingSize(kept);
    PrefixIsEarliest(firsts, |kept|);
    var chosen := FillUp(Elements(kept), limit, |records|);
    picked, indices := InOrder(records, chosen);
  }

  // A prefix of an increasing list holds its smallest elements.
  lemma PrefixIsEarliest(s: seq<nat>, n: nat)
    requires Increasing(s) && n <= |s|
    ensures Elements(s[..n]) <= Elements(s)
    ensures forall i, j :: i in Elements(s[..n]) && j in Elements(s) && j < i ==> j in Elements(s[..n])
  {
    forall i, j | i in Elements(s[..n]) && j in Elements(s) && j < i ensures j in Elements(s[..n]) {
      var x :| 0 <= x < n && s[..n][x] == i;
      var y :| 0 <= y < |s| && s[y] == j;
      assert y < x;
      assert s[..n][y] == j;
    }
  }

  method FirstOfEachFormat(records: seq<Record>) returns (chosen: seq<nat>)
    ensures Increasing(chosen) && forall i :: i in chosen <==> i in Firsts(records)
  {
    chosen := [];
    var seen: set<string> := {};
    for index := 0 to |records|
      invariant Increasing(chosen)
      invariant forall i :: i in chosen <==> i < index && i in Firsts(records)
      invariant forall k :: 0 <= k < |chosen| ==> chosen[k] < index
      invariant seen == set j: nat | j < index :: FormatOf(records[j])
    {
      var format := FormatOf(records[index]);
      if format !in seen {
        assert IsFirst(records, index);
        seen := seen + {format};
        chosen := chosen + [index];
      }
    }
  }

  method FillUp(kept: set<nat>, limit: nat, n: nat) returns (chosen: set<nat>)
    requires |kept| <= limit && forall i :: i in kept ==> i < n
    ensures kept <= chosen && (forall i :: i in chosen ==> i < n)
    ensures |chosen| == if limit < n then limit else n
    ensures |kept| == limit ==> chosen == kept
    ensures forall i, j: nat :: i in chosen && i !in kept && j < i ==> j in chosen
  {
    chosen := kept;
    var index := 0;
    while index < n && |chosen| < limit
      invariant index <= n && |chosen| <= limit
      invariant kept <= chosen && (forall i :: i in chosen ==> i < n)
      invariant forall i :: i in chosen && i !in kept ==> i < index
      invariant forall j: nat :: j < index ==> j in chosen
      invariant |kept| == limit ==> chosen == kept
    {
      if index !in chosen {
        chosen := chosen + {index};
      }
      index := index + 1;
    }
    RangeSize(chosen, n);
  }

  method InOrder(records: seq<Record>, chosen: set<nat>) returns (picked: seq<Record>, ghost indices: seq<nat>)
    requires forall i :: i in chosen ==> i < |records|
    ensures (forall i :: i in indices <==> i in chosen) && forall k :: 0 <= k < |indices| ==> indices[k] < |records|
    ensures Increasing(indices) && |picked| == |chosen| && picked == At(records, indices)
  {
    picked, indices := [], [];
    for index := 0 to |records|
      invariant forall i :: i in indices <==> i in chosen && i < index
      invariant forall k :: 0 <= k < |indices| ==> indices[k] < index
      invariant Increasing(indices) && picked == At(records, indices)
    {
      if index in chosen {
        AtSnoc(records, indices, index);
        picked := picked + [records[index]];
        indices := indices + [index];
      }
    }
    AllChosen(indices, chosen);
  }

  lemma AllChosen(indices: seq<nat>, chosen: set<nat>)
    requires Increasing(indices) && forall i :: i in indices <==> i in chosen
    ensures |indices| == |chosen|
  {
    assert Elements(indices) == chosen;
    IncreasingSize(indices);
  }

  lemma AtSnoc(records: seq<Record>, indices: seq<nat>, index: nat)
    requires index < |records| && forall k :: 0 <= k < |indices| ==> indices[k] < |records|
    ensures At(records, indices + [index]) == At(records, indices) + [records[index]]
  {
  }

  // ------------------------------------------------------------------ //
  // Records that do not fit the window
  // ------------------------------------------------------------------ //

  datatype Row = Row(line: nat, tokens: nat, fits: bool)
  datatype Audit = Audit(records: nat, maxTokens: nat, totalTokens: nat, oversizedLines: seq<nat>, rows: seq<Row>)
  datatype Policy = FailRun | Drop

  type Length = Record -> nat

  // The records that fit, in order.
  function Fitting(records: seq<Record>, length: Length, window: nat): seq<Record> {
    if records == [] then []
    else
      var last := records[|records| - 1];
      Fitting(records[..|records| - 1], length, window) + if length(last) <= window then [last] else []
  }

  function Total(records: seq<Record>, length: Length): nat {
    if records == [] then 0 else Total(records[..|records| - 1], length) + length(records[|records| - 1])
  }

  lemma {:induction false} TotalIsASum(a: seq<Record>, b: seq<Record>, length: Length)
    ensures Total([], length) == 0
    ensures Total(a + b, length) == Total(a, length) + Total(b, length)
    ensures forall r :: Total([r], length) == length(r)
  {
    forall r ensures Total([r], length) == length(r) { assert [r][..0] == []; }
    if b == [] {
      assert a + b == a;
    } else {
      TotalIsASum(a, b[..|b| - 1], length);
      assert (a + b)[..|a + b| - 1] == a + b[..|b| - 1];
    }
  }

  // What an audit of the first n records says.
  ghost predicate AuditOf(audit: Audit, records: seq<Record>, n: nat, length: Length, window: nat)
    requires n <= |records|
  {
    audit.records == n
    && RowsAre(audit.rows, records, n, length, window)
    && IsMaximum(audit.maxTokens, records, n, length)
    && audit.totalTokens == Total(records[..n], length)
    && IsOversized(audit.oversizedLines, records, n, length, window)
  }

  ghost predicate RowsAre(rows: seq<Row>, records: seq<Record>, n: nat, length: Length, window: nat)
    requires n <= |records|
  {
    |rows| == n && forall i :: 0 <= i < n ==> rows[i] == Row(i + 1, length(records[i]), length(records[i]) <= window)
  }

  ghost predicate IsMaximum(m: nat, records: seq<Record>, n: nat, length: Length)
    requires n <= |records|
  {
    (forall i :: 0 <= i < n ==> length(records[i]) <= m)
    && if n == 0 then m == 0 else exists i :: 0 <= i < n && length(records[i]) == m
  }

  ghost predicate IsOversized(lines: seq<nat>, records: seq<Record>, n: nat, length: Length, window: nat)
    requires n <= |records|
  {
    Increasing(lines) && (forall k :: 0 <= k < |lines| ==> lines[k] <= n)
    && forall i: nat :: i in lines <==> 1 <= i <= n && length(records[i - 1]) > window
  }

  lemma MaximumStep(m: nat, records: seq<Record>, n: nat, length: Length)
    requires n < |records| && IsMaximum(m, records, n, length)
    ensures IsMaximum(if length(records[n]) > m then length(records[n]) else m, records, n + 1, length)
  {
  }

  lemma OversizedStep(lines: seq<nat>, records: seq<Record>, n: nat, length: Length, window: nat)
    requires n < |records| && IsOversized(lines, records, n, length, window)
    ensures IsOversized(if length(records[n]) <= window then lines else lines + [n + 1], records, n + 1, length, window)
  {
    var longer := if length(records[n]) <= window then lines else lines + [n + 1];
    forall i: nat ensures i in longer <==> 1 <= i <= n + 1 && length(records[i - 1]) > window {
      assert i in longer <==> i in lines || (length(records[n]) > window && i == n + 1);
    }
  }

  lemma RowsStep(rows: seq<Row>, records: seq<Record>, n: nat, length: Length, window: nat)
    requires n < |records| && RowsAre(rows, records, n, length, window)
    ensures var row := Row(n + 1, length(records[n]), length(records[n]) <= window);
            RowsAre(rows + [row], records, n + 1, length, window)
  {
  }

  lemma TotalStep(records: seq<Record>, n: nat, length: Length)
    requires n < |records|
    ensures Total(records[..n + 1], length) == Total(records[..n], length) + length(records[n])
  {
    assert records[..n + 1][..n] == records[..n];
  }

  method AuditRecordLengths(records: seq<Record>, length: Length, window: nat) returns (audit: Audit)
    ensures AuditOf(audit, records, |records|, length, window)
  {
    var rows: seq<Row>, lines: seq<nat>, longest, total := [], [], 0, 0;
    for i := 0 to |records|
      invariant RowsAre(rows, records, i, length, window)
      invariant IsMaximum(longest, records, i, length)
      invariant total == Total(records[..i], length)
      invariant IsOversized(lines, records, i, length, window)
    {
      MaximumStep(longest, records, i, length);
      OversizedStep(lines, records, i, length, window);
      RowsStep(rows, records, i, length, window);
      TotalStep(records, i, length);
      var tokens := length(records[i]);
      rows := rows + [Row(i + 1, tokens, tokens <= window)];
      if tokens > window { lines := lines + [i + 1]; }
      if tokens > longest { longest := tokens; }
      total := total + tokens;
    }
    audit := Audit(|records|, longest, total, lines, rows);
  }

  // None is the TrainingDataError.
  method ApplyOversizedPolicy(audit: Audit, records: seq<Record>, policy: Policy) returns (kept: Option<seq<Record>>)
    ensures audit.oversizedLines == [] ==> kept == Some(records)
    ensures audit.oversizedLines != [] && policy == FailRun ==> kept == None
    ensures audit.oversizedLines != [] && policy == Drop ==> kept == Some(Undropped(records, audit.oversizedLines))
  {
    if audit.oversizedLines == [] { return Some(records); }
    if policy == FailRun { return None; }
    var out: seq<Record> := [];
    for i := 0 to |records|
      invariant out == Undropped(records[..i], audit.oversizedLines)
    {
      assert records[..i + 1][..i] == records[..i];
      if i + 1 !in audit.oversizedLines {
        out := out + [records[i]];
      }
    }
    assert records[..|records|] == records;
    kept := Some(out);
  }

  function Undropped(records: seq<Record>, dropped: seq<nat>): seq<Record> {
    if records == [] then []
    else Undropped(records[..|records| - 1], dropped) + if |records| in dropped then [] else [records[|records| - 1]]
  }

  lemma {:induction false} UndroppedAreFitting(records: seq<Record>, dropped: seq<nat>, length: Length, window: nat)
    requires forall i :: 1 <= i <= |records| ==> (i in dropped <==> length(records[i - 1]) > window)
    ensures Undropped(records, dropped) == Fitting(records, length, window)
  {
    if records != [] { UndroppedAreFitting(records[..|records| - 1], dropped, length, window); }
  }

  lemma {:induction false} AllKept(records: seq<Record>, length: Length, window: nat)
    requires forall i :: 0 <= i < |records| ==> length(records[i]) <= window
    ensures Fitting(records, length, window) == records
  {
    if records != [] {
      var rest := records[..|records| - 1];
      AllKept(rest, length, window);
      assert records == rest + [records[|records| - 1]];
    }
  }

  // The audit and the policy together: under `drop` training gets exactly the
  // records that fit, in order; under `fail` it gets all of them or none, and
  // none exactly when some record does not fit.
  method PrepareSplit(records: seq<Record>, length: Length, window: nat, policy: Policy)
      returns (kept: Option<seq<Record>>)
    ensures policy == Drop ==> kept == Some(Fitting(records, length, window))
    ensures policy == FailRun ==>
              kept == if forall i :: 0 <= i < |records| ==> length(records[i]) <= window then Some(records) else None
  {
    var audit := AuditRecordLengths(records, length, window);
    kept := ApplyOversizedPolicy(audit, records, policy);
    UndroppedAreFitting(records, audit.oversizedLines, length, window);
    if audit.oversizedLines == [] {
      forall i | 0 <= i < |records| ensures length(records[i]) <= window { assert i + 1 !in audit.oversizedLines; }
      AllKept(records, length, window);
    } else {
      assert audit.oversizedLines[0] in audit.oversizedLines;
    }
  }
}
