/** Choosing a decision threshold on calibration data: rates, the search, and its optimality and completeness. */
module ThresholdSearch {
  import opened Counting
  import opened Outcomes

  datatype Operator = GTE | LTE

  datatype Pair = Pair(id: string, score: real, positive: bool)

  datatype Targets = Targets(minTpr: real, maxFpr: real) {

    predicate Ok() {
      0.0 <= minTpr <= 1.0 && 0.0 <= maxFpr <= 1.0
    }
  }

  datatype Confusion = Confusion(tp: nat, fp: nat, tn: nat, fn: nat)

  predicate Passes(score: real, threshold: real, op: Operator) {
    if op == GTE then score >= threshold else score <= threshold
  }

  function Confuse(pairs: seq<Pair>, threshold: real, op: Operator): Confusion {
    Confusion(
      Count(pairs, (p: Pair) => p.positive && Passes(p.score, threshold, op)),
      Count(pairs, (p: Pair) => !p.positive && Passes(p.score, threshold, op)),
      Count(pairs, (p: Pair) => !p.positive && !Passes(p.score, threshold, op)),
      Count(pairs, (p: Pair) => p.positive && !Passes(p.score, threshold, op)))
  }

  function Positives(pairs: seq<Pair>): nat {
    Count(pairs, (p: Pair) => p.positive)
  }

  /** A share of a total; nothing of nothing counts as none. */
  function Share(part: nat, total: nat): real {
    if total == 0 then 0.0 else part as real / total as real
  }

  function Tpr(pairs: seq<Pair>, threshold: real, op: Operator): real {
    Share(Confuse(pairs, threshold, op).tp, Positives(pairs))
  }

  function Fpr(pairs: seq<Pair>, threshold: real, op: Operator): real {
    Share(Confuse(pairs, threshold, op).fp, |pairs| - Positives(pairs))
  }

  predicate Meets(pairs: seq<Pair>, threshold: real, op: Operator, t: Targets) {
    Tpr(pairs, threshold, op) >= t.minTpr && Fpr(pairs, threshold, op) <= t.maxFpr
  }

  lemma ConfusionAddsUp(pairs: seq<Pair>, threshold: real, op: Operator)
    ensures var c := Confuse(pairs, threshold, op);
            c.tp + c.fn == Positives(pairs) && c.fp + c.tn == |pairs| - Positives(pairs)
  {
    CountSplits(pairs, (p: Pair) => p.positive && Passes(p.score, threshold, op),
                (p: Pair) => p.positive && !Passes(p.score, threshold, op), (p: Pair) => p.positive);
    CountSplits(pairs, (p: Pair) => !p.positive && Passes(p.score, threshold, op),
                (p: Pair) => !p.positive && !Passes(p.score, threshold, op), (p: Pair) => !p.positive);
    CountSplits(pairs, (p: Pair) => p.positive, (p: Pair) => !p.positive, (p: Pair) => true);
    CountAll(pairs, (p: Pair) => true);
  }

  // The targets in numbers of labelled scores

  predicate Accepted(op: Operator, score: real, threshold: real) {
    match op
    case GTE => threshold <= score
    case LTE => threshold >= score
  }

  /** How many scores of this kind are accepted. */
  function Hits(pairs: seq<Pair>, kind: bool, op: Operator, threshold: real): nat {
    Count(pairs, (p: Pair) => p.positive == kind && Accepted(op, p.score, threshold))
  }

  function Labelled(pairs: seq<Pair>, kind: bool): nat {
    Count(pairs, (p: Pair) => p.positive == kind)
  }

  /** At least this share of the positives is accepted; where there are none, none can be required. */
  ghost predicate EnoughPositives(pairs: seq<Pair>, threshold: real, op: Operator, share: real) {
    && Hits(pairs, true, op, threshold) as real >= share * Labelled(pairs, true) as real
    && (Labelled(pairs, true) == 0 ==> share <= 0.0)
  }

  /** At most this share of the negatives is accepted. */
  ghost predicate FewNegatives(pairs: seq<Pair>, threshold: real, op: Operator, share: real) {
    Hits(pairs, false, op, threshold) as real <= share * Labelled(pairs, false) as real
  }

  ghost predicate Feasible(pairs: seq<Pair>, threshold: real, op: Operator, t: Targets) {
    EnoughPositives(pairs, threshold, op, t.minTpr) && FewNegatives(pairs, threshold, op, t.maxFpr)
  }

  lemma CountsByLabel(pairs: seq<Pair>, threshold: real, op: Operator)
    ensures Confuse(pairs, threshold, op).tp == Hits(pairs, true, op, threshold)
    ensures Confuse(pairs, threshold, op).fp == Hits(pairs, false, op, threshold)
    ensures Positives(pairs) == Labelled(pairs, true) && |pairs| - Positives(pairs) == Labelled(pairs, false)
  {
    CountSame(pairs, (p: Pair) => p.positive && Passes(p.score, threshold, op),
              (p: Pair) => p.positive == true && Accepted(op, p.score, threshold));
    CountSame(pairs, (p: Pair) => !p.positive && Passes(p.score, threshold, op),
              (p: Pair) => p.positive == false && Accepted(op, p.score, threshold));
    CountSame(pairs, (p: Pair) => p.positive, (p: Pair) => p.positive == true);
    CountSame(pairs, (p: Pair) => !p.positive, (p: Pair) => p.positive == false);
    CountSplits(pairs, (p: Pair) => p.positive, (p: Pair) => !p.positive, (p: Pair) => true);
    CountAll(pairs, (p: Pair) => true);
  }

  /** Comparing a share with a limit is comparing the part with that much of the total. */
  lemma ShareOfTotal(part: nat, total: nat, limit: real)
    requires part <= total && 0.0 <= limit
    ensures Share(part, total) >= limit <==> part as real >= limit * total as real && (total == 0 ==> limit <= 0.0)
    ensures Share(part, total) <= limit <==> part as real <= limit * total as real
  {
    if total == 0 {
      TimesNothing(limit, total as real);
    } else {
      QuotientTimes(part as real, total as real);
      Scaling(Share(part, total), limit, total as real);
    }
  }

  lemma TimesNothing(x: real, n: real)
    requires n == 0.0
    ensures x * n == 0.0
  {
  }

  lemma QuotientTimes(x: real, n: real)
    requires n > 0.0
    ensures x / n * n == x
  {
  }

  lemma Scaling(x: real, y: real, n: real)
    requires n > 0.0
    ensures x >= y <==> x * n >= y * n
    ensures x <= y <==> x * n <= y * n
  {
    if x > y {
      ScalingUp(y, x, n);
    } else if x < y {
      ScalingUp(x, y, n);
    }
  }

  lemma ScalingUp(x: real, y: real, n: real)
    requires n > 0.0 && x < y
    ensures x * n < y * n
  {
    var d := y - x;
    assert d * n > 0.0;
    assert y * n == (x + d) * n == x * n + d * n;
  }

  lemma TprIff(pairs: seq<Pair>, threshold: real, op: Operator, limit: real)
    requires 0.0 <= limit
    ensures Tpr(pairs, threshold, op) >= limit <==> EnoughPositives(pairs, threshold, op, limit)
  {
    CountsByLabel(pairs, threshold, op);
    ConfusionAddsUp(pairs, threshold, op);
    ShareOfTotal(Hits(pairs, true, op, threshold), Labelled(pairs, true), limit);
  }

  lemma FprIff(pairs: seq<Pair>, threshold: real, op: Operator, limit: real)
    requires 0.0 <= limit
    ensures Fpr(pairs, threshold, op) <= limit <==> FewNegatives(pairs, threshold, op, limit)
  {
    CountsByLabel(pairs, threshold, op);
    ConfusionAddsUp(pairs, threshold, op);
    ShareOfTotal(Hits(pairs, false, op, threshold), Labelled(pairs, false), limit);
  }

  /** Meeting the targets, in these numbers. */
  lemma MeetsIff(pairs: seq<Pair>, threshold: real, op: Operator, t: Targets)
    requires t.Ok()
    ensures Meets(pairs, threshold, op, t) <==> Feasible(pairs, threshold, op, t)
  {
    TprIff(pairs, threshold, op, t.minTpr);
    FprIff(pairs, threshold, op, t.maxFpr);
  }

  /** threshold_search.binary_rates */
  method BinaryRates(pairs: seq<Pair>, threshold: real, op: Operator) returns (rates: Option<(real, real)>)
    ensures rates.None? <==> pairs == []
    ensures rates.Some? ==> rates.value == (Tpr(pairs, threshold, op), Fpr(pairs, threshold, op))
  {
    if pairs == [] { return None; }
    var tp, fp, tn, fn := 0, 0, 0, 0;
    for i := 0 to |pairs|
      invariant Confusion(tp, fp, tn, fn) == Confuse(pairs[..i], threshold, op)
    {
      assert pairs[..i + 1][..i] == pairs[..i];
      var p := pairs[i];
      var predicted := Passes(p.score, threshold, op);
      if p.positive && predicted {
        tp := tp + 1;
      } else if p.positive && !predicted {
        fn := fn + 1;
      } else if !p.positive && predicted {
        fp := fp + 1;
      } else {
        tn := tn + 1;
      }
    }
    assert pairs[..|pairs|] == pairs;
    ConfusionAddsUp(pairs, threshold, op);
    return Some((Share(tp, tp + fn), Share(fp, fp + tn)));
  }

  // The search

  predicate Stricter(a: real, b: real, op: Operator) {
    if op == GTE then a > b else a < b
  }

  /** The scores that occur, each of them once. */
  function Scores(pairs: seq<Pair>): seq<real> {
    if pairs == [] then [] else
    var shorter, last := Scores(pairs[..|pairs| - 1]), pairs[|pairs| - 1];
    if last.score in shorter then shorter else shorter + [last.score]
  }

  lemma {:induction false} InScores(pairs: seq<Pair>, x: real)
    ensures x in Scores(pairs) <==> exists p :: p in pairs && p.score == x
  {
    if pairs != [] {
      var shorter, last := pairs[..|pairs| - 1], pairs[|pairs| - 1];
      InScores(shorter, x);
      assert forall p :: p in pairs <==> p in shorter || p == last;
    }
  }

  function Grid(pairs: seq<Pair>, candidates: Option<seq<real>>): seq<real> {
    if candidates.Some? then candidates.value else Scores(pairs)
  }

  /** The strictest threshold of the grid that meets the targets, if there is one. */
  ghost predicate IsSelected(pairs: seq<Pair>, grid: seq<real>, op: Operator, t: Targets, o: Option<real>) {
    match o
    case None => forall x :: x in grid ==> !Meets(pairs, x, op, t)
    case Some(best) =>
      best in grid && Meets(pairs, best, op, t) && forall x :: x in grid && Meets(pairs, x, op, t) ==> !Stricter(x, best, op)
  }

  function FirstThatMeets(pairs: seq<Pair>, ascending: seq<real>, op: Operator, t: Targets, i: nat): Option<real>
    requires i <= |ascending|
    decreases |ascending| - i
  {
    if i == |ascending| then None
    else if Meets(pairs, InOrder(ascending, i, op), op, t) then Some(InOrder(ascending, i, op))
    else FirstThatMeets(pairs, ascending, op, t, i + 1)
  }

  /** The threshold that the search finds on a grid. */
  function Selected(pairs: seq<Pair>, grid: seq<real>, op: Operator, t: Targets): (o: Option<real>)
    ensures IsSelected(pairs, grid, op, t, o)
  {
    var o := FirstThatMeets(pairs, Sorted(grid), op, t, 0);
    assert IsSelected(pairs, grid, op, t, o) by {
      FirstIsSelected(pairs, grid, op, t, 0);
    }
    o
  }

  lemma {:induction false} FirstIsSelected(pairs: seq<Pair>, grid: seq<real>, op: Operator, t: Targets, i: nat)
    requires i <= |Sorted(grid)|
    requires forall j :: 0 <= j < i ==> !Meets(pairs, InOrder(Sorted(grid), j, op), op, t)
    ensures IsSelected(pairs, grid, op, t, FirstThatMeets(pairs, Sorted(grid), op, t, i))
    decreases |Sorted(grid)| - i
  {
    if i == |Sorted(grid)| {
      forall x | x in grid
        ensures !Meets(pairs, x, op, t)
      {
        var k := Place(grid, x, op);
      }
    } else if Meets(pairs, InOrder(Sorted(grid), i, op), op, t) {
      FirstIsStrictest(pairs, grid, op, t, i);
    } else {
      FirstIsSelected(pairs, grid, op, t, i + 1);
    }
  }

  ghost predicate Offered(pairs: seq<Pair>, candidates: Option<seq<real>>, x: real) {
    match candidates
    case Some(given) => x in given
    case None => exists p :: p in pairs && p.score == x
  }

  lemma OfferedOnes(pairs: seq<Pair>, candidates: Option<seq<real>>, op: Operator, t: Targets)
    requires t.Ok()
    ensures forall x :: Offered(pairs, candidates, x) <==> x in Grid(pairs, candidates)
    ensures forall x :: Meets(pairs, x, op, t) <==> Feasible(pairs, x, op, t)
  {
    forall x
      ensures Offered(pairs, candidates, x) <==> x in Grid(pairs, candidates)
      ensures Meets(pairs, x, op, t) <==> Feasible(pairs, x, op, t)
    {
      InScores(pairs, x);
      MeetsIff(pairs, x, op, t);
    }
  }

  /** threshold_search.select_threshold_on_calibration; the errors for malformed arguments and for unreachable targets are
      both None. */
  method SelectThreshold(pairs: seq<Pair>, op: Operator, t: Targets, candidates: Option<seq<real>>) returns (best: Option<real>)
    requires t.Ok()
    ensures pairs == [] ==> best.None?
    ensures pairs != [] ==> best == Selected(pairs, Grid(pairs, candidates), op, t)
    // the strictest feasible one of the candidates, or of the observed scores where none are given
    ensures best.Some? ==> Offered(pairs, candidates, best.value) && Feasible(pairs, best.value, op, t)
    ensures best.Some? ==>
              forall x :: Offered(pairs, candidates, x) && Feasible(pairs, x, op, t) ==>
                            if op == GTE then x <= best.value else x >= best.value
    ensures best.None? && pairs != [] ==> forall x :: Offered(pairs, candidates, x) ==> !Feasible(pairs, x, op, t)
  {
    if pairs == [] { return None; }
    OfferedOnes(pairs, candidates, op, t);
    var grid := Grid(pairs, candidates);
    var ascending := Sorted(grid);
    for i := 0 to |ascending|
      invariant Selected(pairs, grid, op, t) == FirstThatMeets(pairs, ascending, op, t, i)
    {
      var threshold := InOrder(ascending, i, op);
      var rates := BinaryRates(pairs, threshold, op);
      if rates.value.0 >= t.minTpr && rates.value.1 <= t.maxFpr {
        return Some(threshold);
      }
    }
    return None;
  }

  lemma SelectedIsUnique(pairs: seq<Pair>, grid: seq<real>, op: Operator, t: Targets, o: Option<real>)
    requires IsSelected(pairs, grid, op, t, o)
    ensures o == Selected(pairs, grid, op, t)
  {
  }

  lemma FirstIsStrictest(pairs: seq<Pair>, grid: seq<real>, op: Operator, t: Targets, i: nat)
    requires i < |Sorted(grid)| && Meets(pairs, InOrder(Sorted(grid), i, op), op, t)
    requires forall j :: 0 <= j < i ==> !Meets(pairs, InOrder(Sorted(grid), j, op), op, t)
    ensures IsSelected(pairs, grid, op, t, Some(InOrder(Sorted(grid), i, op)))
  {
    var best := InOrder(Sorted(grid), i, op);
    SortedIsSorted(grid);
    assert best in multiset(Sorted(grid));
    assert best in multiset(grid);
    forall x | x in grid && Meets(pairs, x, op, t)
      ensures !Stricter(x, best, op)
    {
      var k := Place(grid, x, op);
    }
  }

  /** Strictest first: descending for GTE, ascending for LTE. */
  function InOrder(ascending: seq<real>, i: nat, op: Operator): real
    requires i < |ascending|
  {
    if op == GTE then ascending[|ascending| - 1 - i] else ascending[i]
  }

  lemma Place(grid: seq<real>, x: real, op: Operator) returns (k: nat)
    requires x in grid
    ensures k < |Sorted(grid)| && InOrder(Sorted(grid), k, op) == x
  {
    var ascending := Sorted(grid);
    SortedIsSorted(grid);
    assert x in multiset(grid);
    assert x in multiset(ascending);
    var i :| 0 <= i < |ascending| && ascending[i] == x;
    k := if op == GTE then |ascending| - 1 - i else i;
  }

  // What the result means

  lemma {:induction false} CountGrows(pairs: seq<Pair>, p: Pair -> bool, q: Pair -> bool)
    requires forall x :: x in pairs && p(x) ==> q(x)
    ensures Count(pairs, p) <= Count(pairs, q)
  {
    if pairs != [] {
      CountGrows(pairs[..|pairs| - 1], p, q);
      assert pairs[|pairs| - 1] in pairs;
    }
  }

  lemma ShareGrows(a: nat, b: nat, total: nat)
    requires a <= b
    ensures Share(a, total) <= Share(b, total)
  {
  }

  /** Whatever passes one threshold passes the other: both rates grow. */
  lemma RatesGrow(pairs: seq<Pair>, a: real, b: real, op: Operator)
    requires forall p :: p in pairs && Passes(p.score, a, op) ==> Passes(p.score, b, op)
    ensures Tpr(pairs, a, op) <= Tpr(pairs, b, op) && Fpr(pairs, a, op) <= Fpr(pairs, b, op)
  {
    CountGrows(pairs, (p: Pair) => p.positive && Passes(p.score, a, op), (p: Pair) => p.positive && Passes(p.score, b, op));
    CountGrows(pairs, (p: Pair) => !p.positive && Passes(p.score, a, op), (p: Pair) => !p.positive && Passes(p.score, b, op));
    ShareGrows(Confuse(pairs, a, op).tp, Confuse(pairs, b, op).tp, Positives(pairs));
    ShareGrows(Confuse(pairs, a, op).fp, Confuse(pairs, b, op).fp, |pairs| - Positives(pairs));
  }

  /** A real threshold that something passes decides like the loosest observed score that is at least as strict. */
  lemma {:induction false} SnapToScore(pairs: seq<Pair>, threshold: real, op: Operator) returns (score: real)
    requires exists p :: p in pairs && Passes(p.score, threshold, op)
    ensures score in Scores(pairs) && !Stricter(threshold, score, op)
    ensures forall p :: p in pairs ==> (Passes(p.score, threshold, op) <==> Passes(p.score, score, op))
  {
    var shorter, last := pairs[..|pairs| - 1], pairs[|pairs| - 1];
    assert forall p :: p in pairs <==> p in shorter || p == last;
    if p :| p in shorter && Passes(p.score, threshold, op) {
      score := SnapToScore(shorter, threshold, op);
      if Passes(last.score, threshold, op) && Stricter(score, last.score, op) {
        score := last.score;
      }
    } else {
      score := last.score;
    }
  }

  lemma NothingPasses(pairs: seq<Pair>, threshold: real, op: Operator)
    requires forall p :: p in pairs ==> !Passes(p.score, threshold, op)
    ensures Tpr(pairs, threshold, op) == 0.0 && Fpr(pairs, threshold, op) == 0.0
  {
    CountSame(pairs, (p: Pair) => p.positive && Passes(p.score, threshold, op), (p: Pair) => false);
    CountSame(pairs, (p: Pair) => !p.positive && Passes(p.score, threshold, op), (p: Pair) => false);
    CountNone(pairs);
  }

  lemma SomethingPasses(pairs: seq<Pair>, threshold: real, op: Operator, t: Targets)
    requires Meets(pairs, threshold, op, t) && t.minTpr > 0.0
    ensures exists p :: p in pairs && Passes(p.score, threshold, op)
  {
    if forall p :: p in pairs ==> !Passes(p.score, threshold, op) {
      NothingPasses(pairs, threshold, op);
      assert false;
    }
  }

  /** The search over observed scores is optimal among all real thresholds that let something pass: its result decides at
      least as strictly, and no such threshold that meets the targets has a lower false positive rate. */
  lemma SelectedIsStrictest(pairs: seq<Pair>, op: Operator, t: Targets, best: real, other: real)
    requires t.Ok() && IsSelected(pairs, Scores(pairs), op, t, Some(best))
    requires Meets(pairs, other, op, t) && exists p :: p in pairs && Passes(p.score, other, op)
    ensures forall p :: p in pairs && Passes(p.score, best, op) ==> Passes(p.score, other, op)
    ensures Fpr(pairs, best, op) <= Fpr(pairs, other, op)
  {
    var score := SnapToScore(pairs, other, op);
    RatesGrow(pairs, score, other, op);
    RatesGrow(pairs, other, score, op);
    assert !Stricter(score, best, op);
    RatesGrow(pairs, best, other, op);
  }

  /** The strictest observed score. */
  ghost predicate IsStrictest(pairs: seq<Pair>, score: real, op: Operator) {
    score in Scores(pairs) && forall x :: x in Scores(pairs) ==> !Stricter(x, score, op)
  }

  lemma {:induction false} StrictestExists(pairs: seq<Pair>, op: Operator) returns (score: real)
    requires pairs != []
    ensures IsStrictest(pairs, score, op)
  {
    var shorter, last := pairs[..|pairs| - 1], pairs[|pairs| - 1];
    score := last.score;
    assert last in pairs;
    if shorter != [] {
      var before := StrictestExists(shorter, op);
      if Stricter(before, score, op) {
        score := before;
      }
    }
  }

  /** A real threshold stricter than every score lets nothing pass. */
  lemma {:induction false} BeyondTheScores(pairs: seq<Pair>, op: Operator) returns (x: real)
    ensures forall p :: p in pairs ==> !Passes(p.score, x, op)
  {
    if pairs == [] {
      x := 0.0;
    } else {
      var last := pairs[|pairs| - 1];
      x := BeyondTheScores(pairs[..|pairs| - 1], op);
      if Passes(last.score, x, op) {
        x := if op == GTE then last.score + 1.0 else last.score - 1.0;
      }
    }
  }

  /** Among all real thresholds that meet the targets it has the lowest false positive rate exactly when some true positive
      rate is required or that rate is zero anyway. */
  lemma SelectedIsOptimal(pairs: seq<Pair>, op: Operator, t: Targets, best: real)
    requires t.Ok() && IsSelected(pairs, Scores(pairs), op, t, Some(best))
    ensures (forall x: real :: Meets(pairs, x, op, t) ==> Fpr(pairs, best, op) <= Fpr(pairs, x, op)) <==>
            t.minTpr > 0.0 || Fpr(pairs, best, op) == 0.0
  {
    if t.minTpr > 0.0 {
      forall x: real | Meets(pairs, x, op, t)
        ensures Fpr(pairs, best, op) <= Fpr(pairs, x, op)
      {
        SomethingPasses(pairs, x, op, t);
        SelectedIsStrictest(pairs, op, t, best, x);
      }
    } else {
      var x := BeyondTheScores(pairs, op);
      NothingPasses(pairs, x, op);
      assert Meets(pairs, x, op, t);
    }
  }

  /** Without one it need not have: here the one observed score is selected and lets every negative pass, while a threshold
      above it meets the targets as well and lets none pass. */
  lemma NotOptimalWhenTprIsZero() returns (pairs: seq<Pair>, t: Targets, best: real, other: real)
    ensures t.Ok() && Selected(pairs, Scores(pairs), GTE, t) == Some(best) && Meets(pairs, other, GTE, t)
    ensures Fpr(pairs, best, GTE) == 1.0 && Fpr(pairs, other, GTE) == 0.0
  {
    pairs, t, best, other := [Pair("negative", 1.0, false)], Targets(0.0, 1.0), 1.0, 2.0;
    assert pairs[..0] == [];
    assert Count(pairs, (p: Pair) => p.positive) == 0;
    assert Scores(pairs) == [1.0];
    assert Confuse(pairs, 1.0, GTE).fp == 1;
    assert Confuse(pairs, 2.0, GTE).fp == 0;
    assert Meets(pairs, best, GTE, t);
    SelectedIsUnique(pairs, Scores(pairs), GTE, t, Some(best));
  }

  /** Without a required true positive rate some real threshold always meets the targets. */
  lemma ReachableWithoutTpr(pairs: seq<Pair>, op: Operator, t: Targets)
    requires t.Ok() && t.minTpr == 0.0
    ensures exists x: real :: Meets(pairs, x, op, t)
  {
    var x := BeyondTheScores(pairs, op);
    NothingPasses(pairs, x, op);
    assert Meets(pairs, x, op, t);
  }

  /** The search fails exactly when no real threshold meets the targets, or when the required true positive rate is zero
      and already the strictest observed score lets too many negatives pass. */
  lemma FailsExactlyWhen(pairs: seq<Pair>, op: Operator, t: Targets, strictest: real)
    requires t.Ok() && pairs != [] && IsStrictest(pairs, strictest, op)
    ensures IsSelected(pairs, Scores(pairs), op, t, None) <==>
            (forall x: real :: !Meets(pairs, x, op, t)) || (t.minTpr == 0.0 && Fpr(pairs, strictest, op) > t.maxFpr)
  {
    if t.minTpr == 0.0 {
      forall x | x in Scores(pairs)
        ensures Fpr(pairs, strictest, op) <= Fpr(pairs, x, op)
      {
        RatesGrow(pairs, strictest, x, op);
      }
    } else if x: real :| Meets(pairs, x, op, t) {
      SomethingPasses(pairs, x, op, t);
      var score := SnapToScore(pairs, x, op);
      RatesGrow(pairs, score, x, op);
      RatesGrow(pairs, x, score, op);
      assert Meets(pairs, score, op, t);
    }
  }

  /** So with a positive required rate the search is complete. */
  lemma CompleteWhenTprIsRequired(pairs: seq<Pair>, op: Operator, t: Targets)
    requires t.Ok() && pairs != [] && t.minTpr > 0.0
    ensures IsSelected(pairs, Scores(pairs), op, t, None) <==> forall x: real :: !Meets(pairs, x, op, t)
  {
    var strictest := StrictestExists(pairs, op);
    FailsExactlyWhen(pairs, op, t, strictest);
  }

  /** Without one it is not: a threshold above every score meets the targets, but is not an observed score. */
  lemma IncompleteWhenTprIsZero() returns (pairs: seq<Pair>, t: Targets, threshold: real)
    ensures t.Ok() && IsSelected(pairs, Scores(pairs), GTE, t, None) && Meets(pairs, threshold, GTE, t)
  {
    pairs, t, threshold := [Pair("negative", 1.0, false)], Targets(0.0, 0.0), 2.0;
    assert pairs[..0] == [];
    assert Count(pairs, (p: Pair) => p.positive) == 0;
    assert forall x :: x in Scores(pairs) ==> x == 1.0;
    assert Confuse(pairs, 1.0, GTE).fp == 1;
    assert Confuse(pairs, 2.0, GTE).fp == 0;
  }

  // Mirror images

  function Negated(pairs: seq<Pair>): seq<Pair> {
    seq(|pairs|, i requires 0 <= i < |pairs| => pairs[i].(score := -pairs[i].score))
  }

  function Flip(op: Operator): Operator {
    if op == GTE then LTE else GTE
  }

  lemma {:induction false} CountNegated(pairs: seq<Pair>, p: Pair -> bool, q: Pair -> bool)
    requires forall x: Pair :: x in pairs ==> (p(x) <==> q(x.(score := -x.score)))
    ensures Count(Negated(pairs), q) == Count(pairs, p)
  {
    if pairs != [] {
      var n := |pairs| - 1;
      assert Negated(pairs)[..n] == Negated(pairs[..n]);
      assert pairs[n] in pairs;
      CountNegated(pairs[..n], p, q);
    }
  }

  lemma MirroredRates(pairs: seq<Pair>, threshold: real, op: Operator)
    ensures Tpr(Negated(pairs), -threshold, Flip(op)) == Tpr(pairs, threshold, op)
    ensures Fpr(Negated(pairs), -threshold, Flip(op)) == Fpr(pairs, threshold, op)
  {
    CountNegated(pairs, (p: Pair) => p.positive && Passes(p.score, threshold, op),
                 (p: Pair) => p.positive && Passes(p.score, -threshold, Flip(op)));
    CountNegated(pairs, (p: Pair) => !p.positive && Passes(p.score, threshold, op),
                 (p: Pair) => !p.positive && Passes(p.score, -threshold, Flip(op)));
    CountNegated(pairs, (p: Pair) => p.positive, (p: Pair) => p.positive);
  }

  lemma MirroredMeets(pairs: seq<Pair>, x: real, op: Operator, t: Targets)
    ensures Meets(Negated(pairs), -x, Flip(op), t) <==> Meets(pairs, x, op, t)
  {
    MirroredRates(pairs, x, op);
  }

  lemma MirroredScores(pairs: seq<Pair>, x: real)
    ensures -x in Scores(Negated(pairs)) <==> x in Scores(pairs)
  {
    var mirrored := Negated(pairs);
    InScores(pairs, x);
    InScores(mirrored, -x);
    if x in Scores(pairs) {
      var p :| p in pairs && p.score == x;
      var i :| 0 <= i < |pairs| && pairs[i] == p;
      assert mirrored[i] in mirrored;
    }
    if -x in Scores(mirrored) {
      var p :| p in mirrored && p.score == -x;
      var i :| 0 <= i < |mirrored| && mirrored[i] == p;
      assert pairs[i] in pairs;
    }
  }

  function Opposite(o: Option<real>): Option<real> {
    if o.Some? then Some(-o.value) else None
  }

  lemma SelectedMirrors(pairs: seq<Pair>, op: Operator, t: Targets, o: Option<real>)
    requires IsSelected(pairs, Scores(pairs), op, t, o)
    ensures IsSelected(Negated(pairs), Scores(Negated(pairs)), Flip(op), t, Opposite(o))
  {
    forall y | y in Scores(Negated(pairs))
      ensures -y in Scores(pairs) && (Meets(Negated(pairs), y, Flip(op), t) <==> Meets(pairs, -y, op, t))
    {
      MirroredMeets(pairs, -y, op, t);
      MirroredScores(pairs, -y);
    }
    if o.Some? {
      MirroredMeets(pairs, o.value, op, t);
      MirroredScores(pairs, o.value);
    }
  }

  /** The two searches mirror each other: negating all scores and turning the operator around negates the result. */
  lemma SearchesMirrorEachOther(pairs: seq<Pair>, op: Operator, t: Targets, o: Option<real>)
    ensures IsSelected(pairs, Scores(pairs), op, t, o) <==>
            IsSelected(Negated(pairs), Scores(Negated(pairs)), Flip(op), t, Opposite(o))
  {
    assert Negated(Negated(pairs)) == pairs && Opposite(Opposite(o)) == o;
    if IsSelected(pairs, Scores(pairs), op, t, o) {
      SelectedMirrors(pairs, op, t, o);
    }
    if IsSelected(Negated(pairs), Scores(Negated(pairs)), Flip(op), t, Opposite(o)) {
      SelectedMirrors(Negated(pairs), Flip(op), t, Opposite(o));
    }
  }

  // Freezing

  datatype Status = VALIDATION_PASSED | REJECTED

  datatype Decision = Decision(
    op: Operator, threshold: real, calibration: (real, real), validation: (real, real), status: Status)

  /** threshold_search.freeze_threshold, for non-empty splits. */
  function Freeze(threshold: real, op: Operator, calibration: seq<Pair>, validation: seq<Pair>, t: Targets): Decision {
    var c := (Tpr(calibration, threshold, op), Fpr(calibration, threshold, op));
    var v := (Tpr(validation, threshold, op), Fpr(validation, threshold, op));
    Decision(op, threshold, c, v,
             if c.0 < t.minTpr || c.1 > t.maxFpr then REJECTED
             else if v.0 < t.minTpr || v.1 > t.maxFpr then REJECTED
             else VALIDATION_PASSED)
  }

  /** A selected threshold always meets the calibration targets again, so only validation can reject it. */
  lemma FreezeDependsOnValidation(pairs: seq<Pair>, validation: seq<Pair>, op: Operator, t: Targets,
                                  candidates: Option<seq<real>>, best: real)
    requires IsSelected(pairs, Grid(pairs, candidates), op, t, Some(best))
    ensures Freeze(best, op, pairs, validation, t).status == VALIDATION_PASSED <==> Meets(validation, best, op, t)
  {
  }

  /** Whatever the threshold: it passes exactly when it is feasible on both splits. */
  lemma FrozenIff(threshold: real, op: Operator, calibration: seq<Pair>, validation: seq<Pair>, t: Targets)
    requires t.Ok()
    ensures Freeze(threshold, op, calibration, validation, t).status == VALIDATION_PASSED
       <==> Feasible(calibration, threshold, op, t) && Feasible(validation, threshold, op, t)
  {
    MeetsIff(calibration, threshold, op, t);
    MeetsIff(validation, threshold, op, t);
  }

  predicate IsShare(rate: real, part: int, total: int) {
    rate * total as real == part as real
  }

  ghost predicate AreRates(rates: (real, real), pairs: seq<Pair>, threshold: real, op: Operator) {
    && IsShare(rates.0, Hits(pairs, true, op, threshold), Labelled(pairs, true))
    && IsShare(rates.1, Hits(pairs, false, op, threshold), Labelled(pairs, false))
  }

  lemma FrozenRates(threshold: real, op: Operator, calibration: seq<Pair>, validation: seq<Pair>, t: Targets)
    ensures var d := Freeze(threshold, op, calibration, validation, t);
            && d.op == op && d.threshold == threshold
            && AreRates(d.calibration, calibration, threshold, op) && AreRates(d.validation, validation, threshold, op)
  {
    RatesInCounts(calibration, threshold, op);
    RatesInCounts(validation, threshold, op);
  }

  lemma RatesInCounts(pairs: seq<Pair>, threshold: real, op: Operator)
    ensures AreRates((Tpr(pairs, threshold, op), Fpr(pairs, threshold, op)), pairs, threshold, op)
  {
    CountsByLabel(pairs, threshold, op);
    ConfusionAddsUp(pairs, threshold, op);
    ShareTimesTotal(Hits(pairs, true, op, threshold), Labelled(pairs, true));
    ShareTimesTotal(Hits(pairs, false, op, threshold), Labelled(pairs, false));
  }

  lemma ShareTimesTotal(part: nat, total: nat)
    requires part <= total
    ensures IsShare(Share(part, total), part, total)
  {
  }
}
