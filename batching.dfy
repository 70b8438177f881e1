/**
 * `group_orders_by_batch_and_match`: for every bank statement row, a greedy
 * approximation of subset sum picks orders, largest amounts first, whose
 * amounts add up to about the row's amount. Every bank row is matched against
 * all orders; no order is consumed by an earlier row.
 */
module Batching {
  import opened Wrappers
  import opened Amounts

  /** What the mapping holds for a bank row: the chosen orders in the order chosen, their total, and the row's amount. */
  datatype Batch = Batch(orders: seq<nat>, sum: real, target: real)

  // ---------------------------------------------------------------------------
  // Visiting order: order positions by non-increasing amount

  /** `r` lists positions of `amounts` with amounts never increasing. */
  ghost predicate NonIncreasing(amounts: seq<real>, r: seq<nat>) {
    forall a, b :: 0 <= a < b < |r| && r[a] < |amounts| && r[b] < |amounts| ==> amounts[r[a]] >= amounts[r[b]]
  }

  /** How many times position `i` occurs in `r`. */
  function Occurrences(r: seq<nat>, i: nat): nat {
    if r == [] then 0 else (if r[0] == i then 1 else 0) + Occurrences(r[1..], i)
  }

  /** Places position `x` after every position whose amount is at least its own. */
  function Insert(amounts: seq<real>, r: seq<nat>, x: nat): (res: seq<nat>)
    requires x < |amounts| && forall k :: 0 <= k < |r| ==> r[k] < |amounts|
    ensures |res| == |r| + 1
    ensures forall k :: 0 <= k < |res| ==> res[k] < |amounts|
  {
    if r == [] then [x]
    else if amounts[r[0]] < amounts[x] then [x] + r
    else [r[0]] + Insert(amounts, r[1..], x)
  }

  /** Inserting a position below `m` into positions below `m` gives positions below `m`. */
  lemma {:induction false} InsertBound(amounts: seq<real>, r: seq<nat>, x: nat, m: nat)
    requires x < |amounts| && forall k :: 0 <= k < |r| ==> r[k] < |amounts|
    requires x < m && forall k :: 0 <= k < |r| ==> r[k] < m
    ensures forall k :: 0 <= k < |Insert(amounts, r, x)| ==> Insert(amounts, r, x)[k] < m
  {
    if r != [] && amounts[r[0]] >= amounts[x] {
      InsertBound(amounts, r[1..], x, m);
    }
  }

  /** Inserting adds exactly that position to the list: one more `x`, every other count unchanged. */
  lemma {:induction false} InsertAdds(amounts: seq<real>, r: seq<nat>, x: nat, i: nat)
    requires x < |amounts| && forall k :: 0 <= k < |r| ==> r[k] < |amounts|
    ensures Occurrences(Insert(amounts, r, x), i) == Occurrences(r, i) + (if i == x then 1 else 0)
  {
    var res := Insert(amounts, r, x);
    if r == [] {
      assert res[1..] == [];
    } else if amounts[r[0]] < amounts[x] {
      assert res[1..] == r;
    } else {
      InsertAdds(amounts, r[1..], x, i);
      assert res[1..] == Insert(amounts, r[1..], x);
    }
  }

  /** Inserting into a non-increasing list keeps it non-increasing. */
  lemma {:induction false} InsertSorted(amounts: seq<real>, r: seq<nat>, x: nat)
    requires x < |amounts| && forall k :: 0 <= k < |r| ==> r[k] < |amounts|
    requires NonIncreasing(amounts, r)
    ensures NonIncreasing(amounts, Insert(amounts, r, x))
  {
    if r != [] && amounts[r[0]] >= amounts[x] {
      InsertSorted(amounts, r[1..], x);
      InsertBelow(amounts, r[1..], x, amounts[r[0]]);
    }
  }

  /** Inserting a position whose amount is at most `m` into a list whose amounts are at most `m` keeps them so. */
  lemma {:induction false} InsertBelow(amounts: seq<real>, r: seq<nat>, x: nat, m: real)
    requires x < |amounts| && forall k :: 0 <= k < |r| ==> r[k] < |amounts|
    requires amounts[x] <= m && forall k :: 0 <= k < |r| ==> amounts[r[k]] <= m
    ensures forall k :: 0 <= k < |Insert(amounts, r, x)| ==> amounts[Insert(amounts, r, x)[k]] <= m
  {
    if r != [] && amounts[r[0]] >= amounts[x] {
      InsertBelow(amounts, r[1..], x, m);
    }
  }

  /**
   * `sort_values(ascending=False)` on the first `n` order amounts. The source
   * sort is not stable, so it promises only some non-increasing order; this
   * insertion sort keeps equal amounts in position order.
   */
  function SortDesc(amounts: seq<real>, n: nat): (r: seq<nat>)
    requires n <= |amounts|
    ensures |r| == n
    ensures forall k :: 0 <= k < |r| ==> r[k] < n
  {
    if n == 0 then []
    else
      InsertBound(amounts, SortDesc(amounts, n - 1), n - 1, n);
      Insert(amounts, SortDesc(amounts, n - 1), n - 1)
  }

  lemma SortDescUnfold(amounts: seq<real>, n: nat)
    requires 0 < n <= |amounts|
    ensures SortDesc(amounts, n) == Insert(amounts, SortDesc(amounts, n - 1), n - 1)
  {
  }

  /** Candidates are visited in non-increasing amount order. */
  lemma {:induction false} SortDescSorted(amounts: seq<real>, n: nat)
    requires n <= |amounts|
    ensures NonIncreasing(amounts, SortDesc(amounts, n))
  {
    if n > 0 {
      var prev := SortDesc(amounts, n - 1);
      SortDescSorted(amounts, n - 1);
      InsertSorted(amounts, prev, n - 1);
      SortDescUnfold(amounts, n);
    }
  }

  /**
   * Every order is visited exactly once, and nothing else is visited: the
   * visiting order is a permutation of the first `n` order positions.
   */
  lemma {:induction false} SortDescVisitsEachOnce(amounts: seq<real>, n: nat, i: nat)
    requires n <= |amounts|
    ensures Occurrences(SortDesc(amounts, n), i) == if i < n then 1 else 0
  {
    if n > 0 {
      var prev := SortDesc(amounts, n - 1);
      SortDescVisitsEachOnce(amounts, n - 1, i);
      InsertAdds(amounts, prev, n - 1, i);
      SortDescUnfold(amounts, n);
      var c := Occurrences(prev, i);
      assert Occurrences(SortDesc(amounts, n), i) == c + (if i == n - 1 then 1 else 0);
    } else {
      assert SortDesc(amounts, n) == [];
    }
  }

  // ---------------------------------------------------------------------------
  // The greedy choice

  /** `max(1.0, 0.02*target)`: how far from the target a sum may land. */
  function Band(target: real): (b: real)
    ensures b >= 1.0 && b >= 0.02 * target
    ensures b == 1.0 || b == 0.02 * target
  {
    if 1.0 < 0.02 * target then 0.02 * target else 1.0
  }

  /** Whether a candidate of amount `a` is added to running sum `s`: never beyond the band above the target. */
  predicate Admits(s: real, a: real, target: real)
    ensures Admits(s, a, target) ==> s + a <= target + Band(target)
  {
    Abs((s + a) - target) <= Band(target) || s + a <= target
  }

  /** The stopping test `s >= target*0.98`: a sum that stops the loop is no further below the target than the band. */
  predicate Reached(s: real, target: real)
    ensures Reached(s, target) ==> s >= target - Band(target)
  {
    s >= target * 0.98
  }

  /** The running sum after the first `n` decisions. */
  function SumPicked(vals: seq<real>, picks: seq<bool>, n: nat): real
    requires n <= |picks| <= |vals|
  {
    if n == 0 then 0.0
    else SumPicked(vals, picks, n - 1) + (if picks[n - 1] then vals[n - 1] else 0.0)
  }

  /**
   * The first `n` of the decisions `picks` are those of the greedy loop over
   * amounts `vals`: each visited candidate is taken exactly when it is
   * admitted at the running sum before it, and no candidate but the last
   * visited brought the sum to the stop threshold.
   */
  ghost predicate Follows(vals: seq<real>, target: real, picks: seq<bool>, n: nat)
    requires n <= |picks| <= |vals|
    decreases n
  {
    n == 0 ||
    (&& Follows(vals, target, picks, n - 1)
     && (picks[n - 1] <==> Admits(SumPicked(vals, picks, n - 1), vals[n - 1], target))
     && (n > 1 ==> !Reached(SumPicked(vals, picks, n - 1), target)))
  }

  /** All decisions in `picks` are those of the loop. */
  ghost predicate TracePrefix(vals: seq<real>, target: real, picks: seq<bool>) {
    |picks| <= |vals| && Follows(vals, target, picks, |picks|)
  }

  /** The decision at one position of a trace, read off the recursive definition. */
  lemma {:induction false} FollowsAt(vals: seq<real>, target: real, picks: seq<bool>, n: nat, p: nat)
    requires n <= |picks| <= |vals| && Follows(vals, target, picks, n) && p < n
    ensures picks[p] <==> Admits(SumPicked(vals, picks, p), vals[p], target)
    ensures p > 0 ==> !Reached(SumPicked(vals, picks, p), target)
  {
    if p < n - 1 {
      FollowsAt(vals, target, picks, n - 1, p);
    }
  }

  /** A trace is exactly a list of decisions each made as the loop makes it. */
  lemma TracePrefixMeans(vals: seq<real>, target: real, picks: seq<bool>)
    requires |picks| <= |vals|
    ensures TracePrefix(vals, target, picks) <==>
      && (forall p :: 0 <= p < |picks| ==> (picks[p] <==> Admits(SumPicked(vals, picks, p), vals[p], target)))
      && (forall p :: 0 < p < |picks| ==> !Reached(SumPicked(vals, picks, p), target))
  {
    if TracePrefix(vals, target, picks) {
      forall p | 0 <= p < |picks|
        ensures picks[p] <==> Admits(SumPicked(vals, picks, p), vals[p], target)
        ensures p > 0 ==> !Reached(SumPicked(vals, picks, p), target)
      {
        FollowsAt(vals, target, picks, |picks|, p);
      }
    } else {
      FollowsBack(vals, target, picks, |picks|);
    }
  }

  /** Decisions that each match the loop form a trace. */
  lemma {:induction false} FollowsBack(vals: seq<real>, target: real, picks: seq<bool>, n: nat)
    requires n <= |picks| <= |vals| && !Follows(vals, target, picks, n)
    ensures exists p ::
      && 0 <= p < n
      && (!(picks[p] <==> Admits(SumPicked(vals, picks, p), vals[p], target)) ||
          (p > 0 && Reached(SumPicked(vals, picks, p), target)))
  {
    if Follows(vals, target, picks, n - 1) {
      assert !(picks[n - 1] <==> Admits(SumPicked(vals, picks, n - 1), vals[n - 1], target)) ||
        (n - 1 > 0 && Reached(SumPicked(vals, picks, n - 1), target));
    } else {
      FollowsBack(vals, target, picks, n - 1);
    }
  }

  /** Whether the first `n` decisions follow the loop depends on those decisions only. */
  lemma {:induction false} FollowsPrefix(vals: seq<real>, target: real, p1: seq<bool>, p2: seq<bool>, n: nat)
    requires n <= |p1| <= |vals| && n <= |p2| <= |vals|
    requires p1[..n] == p2[..n]
    ensures Follows(vals, target, p1, n) <==> Follows(vals, target, p2, n)
  {
    if n > 0 {
      assert p1[..n - 1] == p2[..n - 1] by {
        assert p1[..n - 1] == p1[..n][..n - 1];
        assert p2[..n - 1] == p2[..n][..n - 1];
      }
      assert p1[n - 1] == p1[..n][n - 1];
      assert p2[n - 1] == p2[..n][n - 1];
      FollowsPrefix(vals, target, p1, p2, n - 1);
      SumPickedPrefix(vals, p1, p2, n - 1);
    }
  }

  /** The whole run: the loop ran out of candidates or stopped right after reaching the threshold. */
  ghost predicate GreedyTrace(vals: seq<real>, target: real, picks: seq<bool>) {
    && TracePrefix(vals, target, picks)
    && (|picks| == |vals| || (|picks| > 0 && Reached(SumPicked(vals, picks, |picks|), target)))
  }

  lemma {:induction false} SumPickedPrefix(vals: seq<real>, p1: seq<bool>, p2: seq<bool>, n: nat)
    requires n <= |p1| <= |vals| && n <= |p2| <= |vals|
    requires p1[..n] == p2[..n]
    ensures SumPicked(vals, p1, n) == SumPicked(vals, p2, n)
  {
    if n > 0 {
      assert p1[..n - 1] == p2[..n - 1] by {
        assert p1[..n - 1] == p1[..n][..n - 1];
        assert p2[..n - 1] == p2[..n][..n - 1];
      }
      assert p1[n - 1] == p1[..n][n - 1];
      assert p2[n - 1] == p2[..n][n - 1];
      SumPickedPrefix(vals, p1, p2, n - 1);
    }
  }

  /** The decisions are determined by the amounts and the target: there is one trace only. */
  lemma GreedyTraceUnique(vals: seq<real>, target: real, p1: seq<bool>, p2: seq<bool>)
    requires GreedyTrace(vals, target, p1) && GreedyTrace(vals, target, p2)
    ensures p1 == p2
  {
    var m := if |p1| < |p2| then |p1| else |p2|;
    GreedyTracePrefix(vals, target, p1, p2, m);
    SumPickedPrefix(vals, p1, p2, m);
    if m < |p1| {
      FollowsAt(vals, target, p1, |p1|, m);
    }
    if m < |p2| {
      FollowsAt(vals, target, p2, |p2|, m);
    }
    assert |p1| == |p2|;
    assert p1 == p1[..m] && p2 == p2[..m];
  }

  lemma {:induction false} GreedyTracePrefix(vals: seq<real>, target: real, p1: seq<bool>, p2: seq<bool>, n: nat)
    requires TracePrefix(vals, target, p1) && TracePrefix(vals, target, p2)
    requires n <= |p1| && n <= |p2|
    ensures p1[..n] == p2[..n]
  {
    if n > 0 {
      GreedyTracePrefix(vals, target, p1, p2, n - 1);
      SumPickedPrefix(vals, p1, p2, n - 1);
      FollowsAt(vals, target, p1, |p1|, n - 1);
      FollowsAt(vals, target, p2, |p2|, n - 1);
      assert p1[..n] == p1[..n - 1] + [p1[n - 1]];
      assert p2[..n] == p2[..n - 1] + [p2[n - 1]];
    }
  }

  /** One more decision, made as the loop makes it, extends the trace. */
  lemma TraceStep(vals: seq<real>, target: real, picks: seq<bool>, take: bool)
    requires TracePrefix(vals, target, picks) && |picks| < |vals|
    requires |picks| > 0 ==> !Reached(SumPicked(vals, picks, |picks|), target)
    requires take <==> Admits(SumPicked(vals, picks, |picks|), vals[|picks|], target)
    ensures TracePrefix(vals, target, picks + [take])
    ensures SumPicked(vals, picks + [take], |picks| + 1) ==
      SumPicked(vals, picks, |picks|) + (if take then vals[|picks|] else 0.0)
  {
    var next := picks + [take];
    assert next[..|picks|] == picks[..|picks|];
    FollowsPrefix(vals, target, next, picks, |picks|);
    SumPickedPrefix(vals, next, picks, |picks|);
  }

  /** Once something was taken, the running sum stays within the band above the target. */
  lemma {:induction false} SumWithinBand(vals: seq<real>, target: real, picks: seq<bool>, n: nat, p: nat)
    requires TracePrefix(vals, target, picks) && p < n <= |picks| && picks[p]
    ensures SumPicked(vals, picks, n) <= target + Band(target)
  {
    if p < n - 1 {
      SumWithinBand(vals, target, picks, n - 1, p);
    }
    FollowsAt(vals, target, picks, |picks|, n - 1);
  }

  /** The chosen order positions: the visited candidates that were taken, in visiting order. */
  function Chosen(cands: seq<nat>, picks: seq<bool>, n: nat): (r: seq<nat>)
    requires n <= |picks| <= |cands|
    ensures |r| <= n
  {
    if n == 0 then []
    else Chosen(cands, picks, n - 1) + (if picks[n - 1] then [cands[n - 1]] else [])
  }

  lemma {:induction false} ChosenPrefix(cands: seq<nat>, p1: seq<bool>, p2: seq<bool>, n: nat)
    requires n <= |p1| <= |cands| && n <= |p2| <= |cands|
    requires p1[..n] == p2[..n]
    ensures Chosen(cands, p1, n) == Chosen(cands, p2, n)
  {
    if n > 0 {
      assert p1[..n - 1] == p2[..n - 1] by {
        assert p1[..n - 1] == p1[..n][..n - 1];
        assert p2[..n - 1] == p2[..n][..n - 1];
      }
      assert p1[n - 1] == p1[..n][n - 1];
      assert p2[n - 1] == p2[..n][n - 1];
      ChosenPrefix(cands, p1, p2, n - 1);
    }
  }

  lemma {:induction false} ChosenNonEmpty(cands: seq<nat>, picks: seq<bool>, n: nat)
    requires n <= |picks| <= |cands| && Chosen(cands, picks, n) != []
    ensures exists p :: 0 <= p < n && picks[p]
  {
    if !picks[n - 1] {
      ChosenNonEmpty(cands, picks, n - 1);
    }
  }

  /** Total amount of the listed orders. */
  function Total(amounts: seq<real>, orders: seq<nat>): real
    requires forall k :: 0 <= k < |orders| ==> orders[k] < |amounts|
  {
    if orders == [] then 0.0
    else Total(amounts, orders[..|orders| - 1]) + amounts[orders[|orders| - 1]]
  }

  /** The amounts in visiting order. */
  function Values(amounts: seq<real>, cands: seq<nat>): (vals: seq<real>)
    requires forall p :: 0 <= p < |cands| ==> cands[p] < |amounts|
    ensures |vals| == |cands| && forall p :: 0 <= p < |cands| ==> vals[p] == amounts[cands[p]]
  {
    seq(|cands|, p requires 0 <= p < |cands| => amounts[cands[p]])
  }

  /** What one entry of the mapping holds for a bank row with amount `target`, candidates visited in order `cands`. */
  ghost predicate BatchFor(amounts: seq<real>, cands: seq<nat>, target: real, batch: Batch)
    requires forall p :: 0 <= p < |cands| ==> cands[p] < |amounts|
  {
    && batch.target == target
    && (forall k :: 0 <= k < |batch.orders| ==> batch.orders[k] < |amounts|)
    && batch.sum == Total(amounts, batch.orders)
    && (batch.orders != [] ==> batch.sum <= target + Band(target))
    && exists picks: seq<bool> ::
         && |picks| <= |cands|
         && GreedyTrace(Values(amounts, cands), target, picks)
         && batch.orders == Chosen(cands, picks, |picks|)
  }

  /**
   * The state of the inner loop after the decisions `picks`: the chosen
   * orders and running sum are those the decisions give, and once anything
   * was chosen the sum lies within the band above the target.
   */
  ghost predicate Selecting(amounts: seq<real>, cands: seq<nat>, target: real,
                            picks: seq<bool>, chosen: seq<nat>, s: real)
    requires forall p :: 0 <= p < |cands| ==> cands[p] < |amounts|
  {
    && |picks| <= |cands|
    && TracePrefix(Values(amounts, cands), target, picks)
    && s == SumPicked(Values(amounts, cands), picks, |picks|)
    && chosen == Chosen(cands, picks, |picks|)
    && (forall k :: 0 <= k < |chosen| ==> chosen[k] < |amounts|)
    && s == Total(amounts, chosen)
  }

  /** Deciding on the next candidate as the loop body does keeps the loop state. */
  lemma SelectStep(amounts: seq<real>, cands: seq<nat>, target: real,
                   picks: seq<bool>, chosen: seq<nat>, s: real, take: bool, chosen': seq<nat>, s': real)
    requires forall p :: 0 <= p < |cands| ==> cands[p] < |amounts|
    requires Selecting(amounts, cands, target, picks, chosen, s) && |picks| < |cands|
    requires |picks| > 0 ==> !Reached(s, target)
    requires take <==> Admits(s, amounts[cands[|picks|]], target)
    requires chosen' == if take then chosen + [cands[|picks|]] else chosen
    requires s' == if take then s + amounts[cands[|picks|]] else s
    ensures Selecting(amounts, cands, target, picks + [take], chosen', s')
  {
    var vals := Values(amounts, cands);
    var p := |picks|;
    assert vals[p] == amounts[cands[p]];
    TraceStep(vals, target, picks, take);
    ChosenStep(cands, picks, take, chosen, chosen');
    if take {
      TotalAppend(amounts, chosen, cands[p]);
    }
  }

  lemma ChosenStep(cands: seq<nat>, picks: seq<bool>, take: bool, chosen: seq<nat>, chosen': seq<nat>)
    requires |picks| < |cands| && chosen == Chosen(cands, picks, |picks|)
    requires chosen' == if take then chosen + [cands[|picks|]] else chosen
    ensures chosen' == Chosen(cands, picks + [take], |picks| + 1)
  {
    ChosenPrefix(cands, picks + [take], picks, |picks|);
  }

  lemma TotalAppend(amounts: seq<real>, orders: seq<nat>, c: nat)
    requires forall k :: 0 <= k < |orders| ==> orders[k] < |amounts|
    requires c < |amounts|
    ensures Total(amounts, orders + [c]) == Total(amounts, orders) + amounts[c]
  {
    assert (orders + [c])[..|orders|] == orders;
  }

  /** When the loop ends, the batch is what the specification asks for. */
  lemma SelectDone(amounts: seq<real>, cands: seq<nat>, target: real,
                   picks: seq<bool>, chosen: seq<nat>, s: real)
    requires forall p :: 0 <= p < |cands| ==> cands[p] < |amounts|
    requires Selecting(amounts, cands, target, picks, chosen, s)
    requires |picks| == |cands| || (|picks| > 0 && Reached(s, target))
    ensures BatchFor(amounts, cands, target, Batch(chosen, s, target))
  {
    var vals := Values(amounts, cands);
    assert GreedyTrace(vals, target, picks);
    if chosen != [] {
      ChosenNonEmpty(cands, picks, |picks|);
      var p :| 0 <= p < |picks| && picks[p];
      SumWithinBand(vals, target, picks, |picks|, p);
    }
  }

  /**
   * The inner loop for one bank row: visit the candidates in order, take each
   * one that the running sum admits, and stop right after the sum reaches 98%
   * of the target.
   */
  method SelectForTarget(target: real, cands: seq<nat>, amounts: seq<real>) returns (batch: Batch)
    requires forall p :: 0 <= p < |cands| ==> cands[p] < |amounts|
    ensures BatchFor(amounts, cands, target, batch)
  {
    ghost var picks: seq<bool> := [];
    var chosen: seq<nat> := [];
    var s := 0.0;
    var p := 0;
    while p < |cands|
      invariant p == |picks| && Selecting(amounts, cands, target, picks, chosen, s)
      invariant p > 0 ==> !Reached(s, target)
    {
      var a := amounts[cands[p]];
      ghost var before, sBefore := chosen, s;
      var take := false;
      if Abs((s + a) - target) <= Band(target) {
        chosen, s, take := chosen + [cands[p]], s + a, true;
      } else if s + a <= target {
        chosen, s, take := chosen + [cands[p]], s + a, true;
      }
      SelectStep(amounts, cands, target, picks, before, sBefore, take, chosen, s);
      picks := picks + [take];
      p := p + 1;
      if s >= target * 0.98 {
        break;
      }
    }
    batch := Batch(chosen, s, target);
    SelectDone(amounts, cands, target, picks, chosen, s);
  }

  /** The amount of every bank row, parsed from the row's text. */
  function BankAmounts(bankRows: seq<string>): (targets: seq<real>)
    ensures |targets| == |bankRows|
    ensures forall bi :: 0 <= bi < |bankRows| ==> targets[bi] == ParseAmount(Text(bankRows[bi]))
  {
    seq(|bankRows|, bi requires 0 <= bi < |bankRows| => ParseAmount(Text(bankRows[bi])))
  }

  /** Setting key `bi` of a map keyed by `0..bi-1` keys it by `0..bi` and keeps the earlier values. */
  lemma MapExtend<V>(m: map<nat, V>, bi: nat, v: V, m': map<nat, V>, P: (nat, V) -> bool)
    requires forall b: nat :: b in m <==> b < bi
    requires forall b: nat :: b < bi ==> P(b, m[b])
    requires P(bi, v) && m' == m[bi := v]
    ensures forall b: nat :: b in m' <==> b < bi + 1
    ensures forall b: nat :: b < bi + 1 ==> P(b, m'[b])
  {
    forall b: nat | b < bi + 1 ensures P(b, m'[b]) {
      if b < bi {
        assert m'[b] == m[b];
      }
    }
  }

  /** The loop over bank rows: one batch per row amount, keyed by the row's position. */
  method MatchTargets(targets: seq<real>, cands: seq<nat>, amounts: seq<real>) returns (mapping: map<nat, Batch>)
    requires forall p :: 0 <= p < |cands| ==> cands[p] < |amounts|
    ensures forall bi: nat :: bi in mapping <==> bi < |targets|
    ensures forall bi: nat :: bi < |targets| ==> BatchFor(amounts, cands, targets[bi], mapping[bi])
  {
    ghost var isBatch := (b: nat, x: Batch) => b < |targets| && BatchFor(amounts, cands, targets[b], x);
    mapping := map[];
    for bi := 0 to |targets|
      invariant forall b: nat :: b in mapping <==> b < bi
      invariant forall b: nat :: b < bi ==> isBatch(b, mapping[b])
    {
      var batch := SelectForTarget(targets[bi], cands, amounts);
      MapExtend(mapping, bi, batch, mapping[bi := batch], isBatch);
      mapping := mapping[bi := batch];
    }
  }

  /**
   * `group_orders_by_batch_and_match`: order amounts from the amount column
   * (zeros without one), each bank row's amount parsed from its text, and one
   * batch per bank row, keyed by its position; every bank row is matched
   * against all orders.
   */
  method GroupOrdersByBatch(orderCount: nat, amountCells: Option<seq<Cell>>, bankRows: seq<string>)
    returns (mapping: map<nat, Batch>)
    requires amountCells.Some? ==> |amountCells.value| == orderCount
    ensures forall bi: nat :: bi in mapping <==> bi < |bankRows|
    ensures forall bi: nat :: bi < |bankRows| ==>
      BatchFor(ParseColumn(orderCount, amountCells), SortDesc(ParseColumn(orderCount, amountCells), orderCount),
               ParseAmount(Text(bankRows[bi])), mapping[bi])
  {
    var amounts := ParseColumn(orderCount, amountCells);
    var cands := SortDesc(amounts, orderCount);
    mapping := MatchTargets(BankAmounts(bankRows), cands, amounts);
  }
}
