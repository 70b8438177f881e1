/**
 * `fuzzy_match_orders_to_payments`: three-phase record linkage of orders to
 * payments. Phase 1 left-joins orders to payments on identical ids; phase 2
 * gives each still unclassified row, in row order, the nearest unused payment
 * whose amount lies within the tolerance; phase 3 gives each row still
 * unclassified the payment whose id is most similar to the order's, when that
 * similarity exceeds 0.85. Rows left over are unmatched.
 *
 * The merged table is an array of rows updated in place, as the source
 * overwrites cells of the merged frame; a row names its order by position and
 * its attached payment, if any, by position.
 */
module Matching {
  import opened Wrappers
  import opened Amounts

  /** An order or payment after preparation: its identifier and its parsed amount. */
  datatype Record = Record(id: string, amount: real)

  /** A table as handed over: its row count and its id and amount columns, either of which may be absent. */
  datatype Table = Table(size: nat, ids: Option<seq<string>>, amounts: Option<seq<Cell>>)

  predicate WellFormedTable(t: Table) {
    && (t.ids.Some? ==> |t.ids.value| == t.size)
    && (t.amounts.Some? ==> |t.amounts.value| == t.size)
  }

  /** The id and amount columns as the engine sees them: an absent id column becomes the row position as text, an absent amount column zeros. */
  function Prepare(t: Table): (r: seq<Record>)
    requires WellFormedTable(t)
    ensures |r| == t.size
    ensures forall k :: 0 <= k < t.size ==> r[k].amount == ParseColumn(t.size, t.amounts)[k]
    ensures forall k :: 0 <= k < t.size ==> r[k].id == if t.ids.Some? then t.ids.value[k] else DecimalString(k)
  {
    var amounts := ParseColumn(t.size, t.amounts);
    seq(t.size, k requires 0 <= k < t.size =>
      Record(if t.ids.Some? then t.ids.value[k] else DecimalString(k), amounts[k]))
  }

  /** Without an id column every row gets an id of its own. */
  lemma DefaultIdsDistinct(t: Table, a: nat, b: nat)
    requires WellFormedTable(t) && t.ids.None? && a < b < t.size
    ensures Prepare(t)[a].id != Prepare(t)[b].id
  {
    if Prepare(t)[a].id == Prepare(t)[b].id {
      DecimalStringInjective(a, b);
    }
  }

  // ---------------------------------------------------------------------------
  // Rows of the merged table

  /** `match_type`: `Pending` is the `None` a row holds until a phase classifies it. */
  datatype Kind = Pending | DirectId | AmountGreedy | FuzzyId(score: real) | Unmatched

  /** A merged row: the order's position, the attached payment's position, and the classification. */
  datatype Row = Row(order: nat, payment: Option<nat>, kind: Kind)

  /** A row refers to existing records and carries a payment exactly when it is matched. */
  predicate RowShaped(r: Row, orderCount: nat, paymentCount: nat) {
    && r.order < orderCount
    && (r.payment.Some? ==> r.payment.value < paymentCount)
    && (r.payment.Some? <==> (r.kind.DirectId? || r.kind.AmountGreedy? || r.kind.FuzzyId?))
  }

  predicate RowsShaped(rows: seq<Row>, orders: seq<Record>, payments: seq<Record>) {
    forall k :: 0 <= k < |rows| ==> RowShaped(rows[k], |orders|, |payments|)
  }

  // ---------------------------------------------------------------------------
  // Phase 1: left join on id

  /** Positions, in payment order, of the first `n` payments whose id is `id`. */
  function PaymentsWithId(id: string, payments: seq<Record>, n: nat): (r: seq<nat>)
    requires n <= |payments|
    ensures |r| <= n
  {
    if n == 0 then []
    else if payments[n - 1].id != id then PaymentsWithId(id, payments, n - 1)
    // The empty case is split off so that `[] + [n - 1]` never needs simplifying in proofs.
    else if PaymentsWithId(id, payments, n - 1) == [] then [n - 1]
    else PaymentsWithId(id, payments, n - 1) + [n - 1]
  }

  /** The list holds exactly the payments with that id, the earliest first. */
  lemma {:induction false} PaymentsWithIdSpec(id: string, payments: seq<Record>, n: nat)
    requires n <= |payments|
    ensures forall k :: 0 <= k < |PaymentsWithId(id, payments, n)| ==>
      PaymentsWithId(id, payments, n)[k] < n && payments[PaymentsWithId(id, payments, n)[k]].id == id
    ensures forall j :: 0 <= j < n && payments[j].id == id ==>
      j in PaymentsWithId(id, payments, n) && PaymentsWithId(id, payments, n)[0] <= j
  {
    if n > 0 {
      PaymentsWithIdSpec(id, payments, n - 1);
      var prev := PaymentsWithId(id, payments, n - 1);
      var js := PaymentsWithId(id, payments, n);
      if payments[n - 1].id == id && prev != [] {
        assert js == prev + [n - 1];
        assert forall k :: 0 <= k < |prev| ==> js[k] == prev[k];
      }
    }
  }

  /** The positions come in increasing payment order. */
  lemma {:induction false} PaymentsWithIdIncreasing(id: string, payments: seq<Record>, n: nat)
    requires n <= |payments|
    ensures forall a, b :: 0 <= a < b < |PaymentsWithId(id, payments, n)| ==>
      PaymentsWithId(id, payments, n)[a] < PaymentsWithId(id, payments, n)[b]
  {
    if n > 0 {
      PaymentsWithIdIncreasing(id, payments, n - 1);
      PaymentsWithIdSpec(id, payments, n - 1);
      var prev := PaymentsWithId(id, payments, n - 1);
      var js := PaymentsWithId(id, payments, n);
      if payments[n - 1].id == id && prev != [] {
        assert js == prev + [n - 1];
        forall a, b | 0 <= a < b < |js| ensures js[a] < js[b] {
          assert js[a] == prev[a];
          if b < |prev| {
            assert js[b] == prev[b];
          } else {
            assert js[b] == n - 1;
          }
        }
      }
    }
  }

  /** The join's rows for order `i`: one per payment with its id, or one unclassified row. */
  function JoinRows(i: nat, id: string, payments: seq<Record>): (rows: seq<Row>)
    ensures |rows| == Max(1, |PaymentsWithId(id, payments, |payments|)|)
  {
    var js := PaymentsWithId(id, payments, |payments|);
    if js == [] then [Row(i, None, Pending)]
    else seq(|js|, k requires 0 <= k < |js| => Row(i, Some(js[k]), DirectId))
  }

  /** All rows of `JoinRows(i, ...)` belong to order `i`. */
  lemma JoinRowsOrder(i: nat, id: string, payments: seq<Record>)
    ensures forall k :: 0 <= k < |JoinRows(i, id, payments)| ==> JoinRows(i, id, payments)[k].order == i
  {
  }

  lemma JoinRowsSound(orders: seq<Record>, payments: seq<Record>, i: nat)
    requires i < |orders|
    ensures forall k :: 0 <= k < |JoinRows(i, orders[i].id, payments)| ==>
      JoinRowSound(JoinRows(i, orders[i].id, payments)[k], orders, payments)
  {
    JoinRowsOrder(i, orders[i].id, payments);
    PaymentsWithIdSpec(orders[i].id, payments, |payments|);
  }

  /** What a row of the join says: `direct_id` with a payment of the same id, or unclassified when no payment has that id (by `PaymentsWithId`'s contract). */
  ghost predicate JoinRowSound(r: Row, orders: seq<Record>, payments: seq<Record>) {
    && RowShaped(r, |orders|, |payments|)
    && (r.kind.DirectId? || r.kind.Pending?)
    && (r.kind.DirectId? ==> payments[r.payment.value].id == orders[r.order].id)
    && (r.kind.Pending? ==> PaymentsWithId(orders[r.order].id, payments, |payments|) == [])
  }

  /** `pd.merge(o, p, how="left")` over the first `n` orders, rows in order position; no order is dropped. */
  function LeftJoin(orders: seq<Record>, payments: seq<Record>, n: nat): (rows: seq<Row>)
    requires n <= |orders|
    ensures |rows| >= n
  {
    if n == 0 then []
    // The first order is a base case of its own, so that no proof has to simplify `[] + rows`.
    else if n == 1 then JoinRows(0, orders[0].id, payments)
    else LeftJoin(orders, payments, n - 1) + JoinRows(n - 1, orders[n - 1].id, payments)
  }

  /** The join of the first `n` orders only has rows of those orders. */
  lemma {:induction false} LeftJoinBound(orders: seq<Record>, payments: seq<Record>, n: nat)
    requires n <= |orders|
    ensures forall k :: 0 <= k < |LeftJoin(orders, payments, n)| ==> LeftJoin(orders, payments, n)[k].order < n
  {
    if n == 1 {
      JoinRowsOrder(0, orders[0].id, payments);
    } else if n > 1 {
      LeftJoinStep(orders, payments, n);
      LeftJoinBound(orders, payments, n - 1);
      JoinRowsOrder(n - 1, orders[n - 1].id, payments);
      AppendBound(LeftJoin(orders, payments, n - 1), JoinRows(n - 1, orders[n - 1].id, payments), n - 1);
    }
  }

  lemma AppendBound(prev: seq<Row>, last: seq<Row>, o: nat)
    requires forall k :: 0 <= k < |prev| ==> prev[k].order < o
    requires forall k :: 0 <= k < |last| ==> last[k].order == o
    ensures forall k :: 0 <= k < |prev + last| ==> (prev + last)[k].order < o + 1
  {
    forall k | 0 <= k < |prev + last| ensures (prev + last)[k].order < o + 1 {
      if k < |prev| {
        assert (prev + last)[k] == prev[k];
      } else {
        assert (prev + last)[k] == last[k - |prev|];
      }
    }
  }

  /** Every row of the join is `direct_id` with a payment of its order's id, or unclassified when there is none. */
  lemma {:induction false} LeftJoinSound(orders: seq<Record>, payments: seq<Record>, n: nat)
    requires n <= |orders|
    ensures forall k :: 0 <= k < |LeftJoin(orders, payments, n)| ==>
      JoinRowSound(LeftJoin(orders, payments, n)[k], orders, payments)
  {
    if n == 1 {
      JoinRowsSound(orders, payments, 0);
    } else if n > 1 {
      LeftJoinStep(orders, payments, n);
      LeftJoinSound(orders, payments, n - 1);
      JoinRowsSound(orders, payments, n - 1);
      AppendSound(LeftJoin(orders, payments, n - 1), JoinRows(n - 1, orders[n - 1].id, payments), orders, payments);
    }
  }

  lemma AppendSound(prev: seq<Row>, last: seq<Row>, orders: seq<Record>, payments: seq<Record>)
    requires forall k :: 0 <= k < |prev| ==> JoinRowSound(prev[k], orders, payments)
    requires forall k :: 0 <= k < |last| ==> JoinRowSound(last[k], orders, payments)
    ensures forall k :: 0 <= k < |prev + last| ==> JoinRowSound((prev + last)[k], orders, payments)
  {
    forall k | 0 <= k < |prev + last| ensures JoinRowSound((prev + last)[k], orders, payments) {
      if k < |prev| {
        assert (prev + last)[k] == prev[k];
      } else {
        assert (prev + last)[k] == last[k - |prev|];
      }
    }
  }

  lemma LeftJoinStep(orders: seq<Record>, payments: seq<Record>, n: nat)
    requires 1 < n <= |orders|
    ensures LeftJoin(orders, payments, n) == LeftJoin(orders, payments, n - 1) + JoinRows(n - 1, orders[n - 1].id, payments)
  {
  }

  /** The join keeps the orders' sequence: rows come in order position. */
  lemma {:induction false} LeftJoinOrdered(orders: seq<Record>, payments: seq<Record>, n: nat)
    requires n <= |orders|
    ensures forall a, b :: 0 <= a < b < |LeftJoin(orders, payments, n)| ==>
      LeftJoin(orders, payments, n)[a].order <= LeftJoin(orders, payments, n)[b].order
  {
    if n == 1 {
      JoinRowsOrder(0, orders[0].id, payments);
    } else if n > 1 {
      LeftJoinStep(orders, payments, n);
      LeftJoinOrdered(orders, payments, n - 1);
      LeftJoinBound(orders, payments, n - 1);
      JoinRowsOrder(n - 1, orders[n - 1].id, payments);
      AppendOrdered(LeftJoin(orders, payments, n - 1), JoinRows(n - 1, orders[n - 1].id, payments), n - 1);
    }
  }

  lemma AppendOrdered(prev: seq<Row>, last: seq<Row>, o: nat)
    requires forall a, b :: 0 <= a < b < |prev| ==> prev[a].order <= prev[b].order
    requires forall k :: 0 <= k < |prev| ==> prev[k].order < o
    requires forall k :: 0 <= k < |last| ==> last[k].order == o
    ensures forall a, b :: 0 <= a < b < |prev + last| ==> (prev + last)[a].order <= (prev + last)[b].order
  {
    var rows := prev + last;
    forall a, b | 0 <= a < b < |rows| ensures rows[a].order <= rows[b].order {
      if b < |prev| {
        assert rows[a] == prev[a] && rows[b] == prev[b];
      } else if a < |prev| {
        assert rows[a] == prev[a] && rows[b] == last[b - |prev|];
      } else {
        assert rows[a] == last[a - |prev|] && rows[b] == last[b - |prev|];
      }
    }
  }

  /** Number of rows that belong to order `i`. */
  function CountRows(rows: seq<Row>, i: nat): nat
  {
    if rows == [] then 0
    else (if rows[0].order == i then 1 else 0) + CountRows(rows[1..], i)
  }

  lemma {:induction false} CountRowsAppend(a: seq<Row>, b: seq<Row>, i: nat)
    ensures CountRows(a + b, i) == CountRows(a, i) + CountRows(b, i)
    decreases |a|
  {
    if a == [] {
      assert a + b == b;
    } else {
      assert (a + b)[1..] == a[1..] + b;
      CountRowsAppend(a[1..], b, i);
    }
  }

  lemma {:induction false} CountRowsUniform(rows: seq<Row>, o: nat, i: nat)
    requires forall k :: 0 <= k < |rows| ==> rows[k].order == o
    ensures CountRows(rows, i) == if o == i then |rows| else 0
    decreases |rows|
  {
    if rows != [] {
      CountRowsUniform(rows[1..], o, i);
    }
  }

  lemma {:induction false} CountRowsSameOrders(a: seq<Row>, b: seq<Row>, i: nat)
    requires |a| == |b| && forall k :: 0 <= k < |a| ==> a[k].order == b[k].order
    ensures CountRows(a, i) == CountRows(b, i)
    decreases |a|
  {
    if a != [] {
      CountRowsSameOrders(a[1..], b[1..], i);
    }
  }

  function Max(a: int, b: int): int { if a < b then b else a }

  /** Every order appears in the join: once per payment with its id, or once when there is none. */
  lemma {:induction false} JoinRowCount(orders: seq<Record>, payments: seq<Record>, n: nat, i: nat)
    requires n <= |orders|
    ensures CountRows(LeftJoin(orders, payments, n), i) ==
      if i < n then Max(1, |PaymentsWithId(orders[i].id, payments, |payments|)|) else 0
  {
    if n == 1 {
      JoinRowsOrder(0, orders[0].id, payments);
      CountRowsUniform(JoinRows(0, orders[0].id, payments), 0, i);
    } else if n > 1 {
      LeftJoinStep(orders, payments, n);
      JoinRowCount(orders, payments, n - 1, i);
      JoinRowsOrder(n - 1, orders[n - 1].id, payments);
      CountStep(LeftJoin(orders, payments, n - 1), JoinRows(n - 1, orders[n - 1].id, payments), n - 1, i);
    }
  }

  lemma CountStep(prev: seq<Row>, last: seq<Row>, o: nat, i: nat)
    requires forall k :: 0 <= k < |last| ==> last[k].order == o
    ensures CountRows(prev + last, i) == CountRows(prev, i) + if o == i then |last| else 0
  {
    CountRowsAppend(prev, last, i);
    CountRowsUniform(last, o, i);
  }

  // ---------------------------------------------------------------------------
  // Phase 2: greedy amount match

  /** The payment phase 2 attached to a row, if it did. */
  function AmountChoice(r: Row): Option<nat> {
    if r.kind.AmountGreedy? then r.payment else None
  }

  /** Payments marked used by phase 2 while handling the first `k` rows. */
  function Taken(rows: seq<Row>, k: nat): set<nat>
    requires k <= |rows|
  {
    if k == 0 then {}
    else Taken(rows, k - 1) + (if AmountChoice(rows[k - 1]).Some? then {AmountChoice(rows[k - 1]).value} else {})
  }

  function UsedSet(flags: seq<bool>): set<nat> {
    set j: nat | j < |flags| && flags[j]
  }

  /**
   * One greedy step for an order of amount `amt`, with `used` already taken:
   * `None` when no unused payment is within `tol` (inclusive), otherwise an
   * unused payment within `tol` whose distance is the least of all unused ones.
   */
  ghost predicate NearestChoice(payments: seq<Record>, used: set<nat>, amt: real, tol: real, choice: Option<nat>) {
    match choice
    case None =>
      forall j :: 0 <= j < |payments| && j !in used ==> Abs(payments[j].amount - amt) > tol
    case Some(b) =>
      && b < |payments| && b !in used && Abs(payments[b].amount - amt) <= tol
      && forall j :: 0 <= j < |payments| && j !in used ==> Abs(payments[b].amount - amt) <= Abs(payments[j].amount - amt)
  }

  /** Every row not joined in phase 1 got the outcome of one greedy step, the pool holding what earlier rows took. */
  ghost predicate AmountPhaseHolds(rows: seq<Row>, orders: seq<Record>, payments: seq<Record>, tol: real) {
    AmountPrefixHolds(rows, orders, payments, tol, |rows|)
  }

  /** The same, for the rows before position `k`. */
  ghost predicate AmountPrefixHolds(rows: seq<Row>, orders: seq<Record>, payments: seq<Record>, tol: real, k: nat) {
    && k <= |rows|
    && RowsShaped(rows, orders, payments)
    && forall q :: 0 <= q < k && !rows[q].kind.DirectId? ==>
         NearestChoice(payments, Taken(rows, q), orders[rows[q].order].amount, tol, AmountChoice(rows[q]))
  }

  lemma {:induction false} TakenSame(a: seq<Row>, b: seq<Row>, k: nat)
    requires k <= |a| && k <= |b|
    requires forall q :: 0 <= q < k ==> AmountChoice(a[q]) == AmountChoice(b[q])
    ensures Taken(a, k) == Taken(b, k)
  {
    if k > 0 {
      TakenSame(a, b, k - 1);
    }
  }

  lemma {:induction false} TakenContains(rows: seq<Row>, a: nat, k: nat)
    requires a < k <= |rows| && AmountChoice(rows[a]).Some?
    ensures AmountChoice(rows[a]).value in Taken(rows, k)
  {
    if a < k - 1 {
      TakenContains(rows, a, k - 1);
    }
  }

  /** No payment is attached to two `amount_greedy` rows. */
  lemma AmountGreedyExclusive(rows: seq<Row>, orders: seq<Record>, payments: seq<Record>, tol: real, a: nat, b: nat)
    requires AmountPhaseHolds(rows, orders, payments, tol)
    requires a < b < |rows| && rows[a].kind.AmountGreedy? && rows[b].kind.AmountGreedy?
    ensures rows[a].payment != rows[b].payment
  {
    TakenContains(rows, a, b);
  }

  /** A payment at exactly the tolerance is within reach: with one unused at that distance, phase 2 matches. */
  lemma ToleranceInclusive(payments: seq<Record>, used: set<nat>, amt: real, tol: real, choice: Option<nat>, j: nat)
    requires NearestChoice(payments, used, amt, tol, choice)
    requires j < |payments| && j !in used && payments[j].amount == amt + tol && tol >= 0.0
    ensures choice.Some? && Abs(payments[choice.value].amount - amt) <= tol
  {
  }

  /** With a negative tolerance no amount is close enough: phase 2 matches nothing. */
  lemma NegativeToleranceMatchesNothing(rows: seq<Row>, orders: seq<Record>, payments: seq<Record>, tol: real)
    requires AmountPhaseHolds(rows, orders, payments, tol) && tol < 0.0
    ensures forall k :: 0 <= k < |rows| ==> !rows[k].kind.AmountGreedy?
  {
  }

  /**
   * The nearest unused payment within `tol` of `amt`. The source takes the
   * first row of a sort by distance that is not stable, so it promises only
   * some nearest payment; this scan returns the first one in payment order.
   */
  method NearestUnused(amt: real, payments: seq<Record>, used: array<bool>, tol: real) returns (choice: Option<nat>)
    requires used.Length == |payments|
    ensures NearestChoice(payments, UsedSet(used[..]), amt, tol, choice)
  {
    choice := None;
    for j := 0 to |payments|
      invariant choice.None? ==> forall q :: 0 <= q < j && !used[q] ==> Abs(payments[q].amount - amt) > tol
      invariant choice.Some? ==>
        && choice.value < j && !used[choice.value] && Abs(payments[choice.value].amount - amt) <= tol
        && forall q :: 0 <= q < j && !used[q] ==> Abs(payments[choice.value].amount - amt) <= Abs(payments[q].amount - amt)
    {
      var d := Abs(payments[j].amount - amt);
      if !used[j] && d <= tol && (choice.None? || d < Abs(payments[choice.value].amount - amt)) {
        choice := Some(j);
      }
    }
    assert forall q :: 0 <= q < |payments| ==> (q !in UsedSet(used[..]) <==> !used[q]);
  }

  /** How phase 2 may change a row: a joined row stays, an unclassified one stays or becomes `amount_greedy`. */
  predicate AmountOutcome(before: Row, after: Row) {
    && after.order == before.order
    && (before.kind.DirectId? ==> after == before)
    && (before.kind.Pending? ==> after == before || after.kind.AmountGreedy?)
  }

  /** Handling row `k` extends the phase-2 property by one row and adds its payment, if any, to the pool. */
  lemma AmountStep(before: seq<Row>, after: seq<Row>, k: nat, orders: seq<Record>, payments: seq<Record>, tol: real)
    requires k < |before| && AmountPrefixHolds(before, orders, payments, tol, k)
    requires |after| == |before| && after == before[k := after[k]]
    requires RowShaped(after[k], |orders|, |payments|) && after[k].order == before[k].order
    requires after[k].kind.DirectId? == before[k].kind.DirectId?
    requires !after[k].kind.DirectId? ==>
      NearestChoice(payments, Taken(before, k), orders[after[k].order].amount, tol, AmountChoice(after[k]))
    ensures AmountPrefixHolds(after, orders, payments, tol, k + 1)
    ensures Taken(after, k + 1) ==
      Taken(before, k) + (if AmountChoice(after[k]).Some? then {AmountChoice(after[k]).value} else {})
  {
    forall q | 0 <= q <= k ensures Taken(after, q) == Taken(before, q) {
      TakenSame(after, before, q);
    }
  }

  /**
   * Phase 2 in place. The pool of used flags starts all false, so payments
   * joined in phase 1 are available to it too. Rows still unclassified are
   * visited in row order; each takes the nearest unused payment within the
   * tolerance, which is then marked used.
   */
  method AmountPhase(merged: array<Row>, orders: seq<Record>, payments: seq<Record>, tol: real)
    requires RowsShaped(merged[..], orders, payments)
    requires forall k :: 0 <= k < merged.Length ==> merged[k].kind.DirectId? || merged[k].kind.Pending?
    modifies merged
    ensures forall k :: 0 <= k < merged.Length ==> AmountOutcome(old(merged[k]), merged[k])
    ensures AmountPhaseHolds(merged[..], orders, payments, tol)
  {
    var used := new bool[|payments|](_ => false);
    assert UsedSet(used[..]) == {};
    ghost var init := merged[..];
    for k := 0 to merged.Length
      invariant forall q :: k <= q < merged.Length ==> merged[q] == init[q]
      invariant forall q :: 0 <= q < k ==> AmountOutcome(init[q], merged[q])
      invariant AmountPrefixHolds(merged[..], orders, payments, tol, k)
      invariant UsedSet(used[..]) == Taken(merged[..], k)
    {
      ghost var before := merged[..];
      ghost var usedBefore := UsedSet(used[..]);
      var row := merged[k];
      var next := row;
      if row.kind.Pending? {
        var choice := NearestUnused(orders[row.order].amount, payments, used, tol);
        if choice.Some? {
          used[choice.value] := true;
          assert UsedSet(used[..]) == usedBefore + {choice.value};
          next := Row(row.order, choice, AmountGreedy);
        }
      }
      merged[k] := next;
      AmountStep(before, merged[..], k, orders, payments, tol);
    }
  }

  /** Rows that keep their phase-2 outcome keep the phase-2 property. */
  lemma AmountPhaseTransfer(before: seq<Row>, after: seq<Row>, orders: seq<Record>, payments: seq<Record>, tol: real)
    requires AmountPhaseHolds(before, orders, payments, tol)
    requires RowsShaped(after, orders, payments) && |after| == |before|
    requires forall k :: 0 <= k < |after| ==>
      && after[k].order == before[k].order
      && after[k].kind.DirectId? == before[k].kind.DirectId?
      && AmountChoice(after[k]) == AmountChoice(before[k])
    ensures AmountPhaseHolds(after, orders, payments, tol)
  {
    forall k | 0 <= k <= |after| ensures Taken(after, k) == Taken(before, k) {
      TakenSame(after, before, k);
    }
  }

  // ---------------------------------------------------------------------------
  // Phase 3: best-similarity id match

  /** `payment_ids`: every payment's id, in payment order. */
  function Ids(payments: seq<Record>): (ids: seq<string>)
    ensures |ids| == |payments|
    ensures forall j :: 0 <= j < |payments| ==> ids[j] == payments[j].id
  {
    seq(|payments|, j requires 0 <= j < |payments| => payments[j].id)
  }

  /**
   * `(score, best)` is where the scan of `ids` ends that starts from
   * `(0.0, None)` and moves only on a strictly higher score: `None` when no
   * score is positive, otherwise the first position of the highest score.
   */
  ghost predicate BestScan(oid: string, ids: seq<string>, sim: (string, string) -> real, score: real, best: Option<nat>) {
    match best
    case None =>
      score == 0.0 && forall j :: 0 <= j < |ids| ==> sim(oid, ids[j]) <= 0.0
    case Some(b) =>
      && b < |ids| && score == sim(oid, ids[b]) && score > 0.0
      && (forall j :: 0 <= j < |ids| ==> sim(oid, ids[j]) <= score)
      && (forall j :: 0 <= j < b ==> sim(oid, ids[j]) < score)
  }

  /** `best_score > 0.85 and best_pay`: the best id exists and is not empty. */
  predicate Accepts(score: real, best: Option<nat>, ids: seq<string>) {
    score > 0.85 && best.Some? && best.value < |ids| && ids[best.value] != ""
  }

  /** The scan for `oid` does not lead to a fuzzy match. */
  ghost predicate NoFuzzyMatch(oid: string, ids: seq<string>, sim: (string, string) -> real) {
    forall score, best :: BestScan(oid, ids, sim, score, best) ==> !Accepts(score, best, ids)
  }

  /** A `fuzzy_id` row: its score and payment are what the scan found, and the scan's result was accepted. */
  ghost predicate FuzzyMatched(r: Row, oid: string, ids: seq<string>, sim: (string, string) -> real) {
    && r.kind.FuzzyId? && r.payment.Some?
    && BestScan(oid, ids, sim, r.kind.score, r.payment)
    && Accepts(r.kind.score, r.payment, ids)
  }

  lemma BestScanUnique(oid: string, ids: seq<string>, sim: (string, string) -> real,
                       s1: real, b1: Option<nat>, s2: real, b2: Option<nat>)
    requires BestScan(oid, ids, sim, s1, b1) && BestScan(oid, ids, sim, s2, b2)
    ensures s1 == s2 && b1 == b2
  {
    if b1.Some? && b2.Some? {
      assert sim(oid, ids[b1.value]) <= s2 && sim(oid, ids[b2.value]) <= s1;
    }
  }

  /**
   * `p[p[id] == best_pay].iloc[0]`, the first payment carrying the best id, is
   * the payment the scan stopped at: an earlier one with that id would have
   * scored the same and been kept.
   */
  lemma FirstWithBestId(oid: string, payments: seq<Record>, sim: (string, string) -> real, score: real, b: nat)
    requires BestScan(oid, Ids(payments), sim, score, Some(b))
    ensures var m := PaymentsWithId(payments[b].id, payments, |payments|); |m| > 0 && m[0] == b
  {
    var m := PaymentsWithId(payments[b].id, payments, |payments|);
    PaymentsWithIdSpec(payments[b].id, payments, |payments|);
    assert b in m;
    assert sim(oid, Ids(payments)[m[0]]) == score;
  }

  /** The scan always ends: some score and position satisfy `BestScan`. */
  lemma {:induction false} BestScanExists(oid: string, ids: seq<string>, sim: (string, string) -> real)
    ensures exists score, best :: BestScan(oid, ids, sim, score, best)
    decreases |ids|
  {
    if ids == [] {
      assert BestScan(oid, ids, sim, 0.0, None);
    } else {
      var last := |ids| - 1;
      var init := ids[..last];
      BestScanExists(oid, init, sim);
      var s, b :| BestScan(oid, init, sim, s, b);
      assert forall j :: 0 <= j < last ==> init[j] == ids[j];
      if sim(oid, ids[last]) > s {
        assert BestScan(oid, ids, sim, sim(oid, ids[last]), Some(last));
      } else {
        assert BestScan(oid, ids, sim, s, b);
      }
    }
  }

  /**
   * The 0.85 threshold: when no payment id scores above it, the order gets no
   * fuzzy match; when one does and no payment id is empty, it gets one.
   */
  lemma FuzzyThreshold(oid: string, ids: seq<string>, sim: (string, string) -> real)
    ensures (forall j :: 0 <= j < |ids| ==> sim(oid, ids[j]) <= 0.85) ==> NoFuzzyMatch(oid, ids, sim)
    ensures (forall j :: 0 <= j < |ids| ==> ids[j] != "") && (exists j :: 0 <= j < |ids| && sim(oid, ids[j]) > 0.85)
      ==> !NoFuzzyMatch(oid, ids, sim)
  {
    BestScanExists(oid, ids, sim);
    var s, b :| BestScan(oid, ids, sim, s, b);
    if (forall j :: 0 <= j < |ids| ==> ids[j] != "") && (exists j :: 0 <= j < |ids| && sim(oid, ids[j]) > 0.85) {
      var j :| 0 <= j < |ids| && sim(oid, ids[j]) > 0.85;
      assert Accepts(s, b, ids);
    }
  }

  /** The strict-`>` scan over `ids` for order id `oid`. */
  method BestPaymentId(oid: string, ids: seq<string>, sim: (string, string) -> real) returns (score: real, best: Option<nat>)
    ensures BestScan(oid, ids, sim, score, best)
  {
    score, best := 0.0, None;
    for j := 0 to |ids|
      invariant BestScan(oid, ids[..j], sim, score, best)
    {
      var sc := sim(oid, ids[j]);
      if sc > score {
        score, best := sc, Some(j);
      }
    }
    assert ids[..|ids|] == ids;
  }

  /**
   * Phase 3 in place. Rows still unclassified are scored against the whole
   * payment id list, used or not; an accepted row gets the first payment with
   * the best id and the label `fuzzy_id` with the score. Nothing is marked
   * used, so one payment may serve several rows.
   */
  method FuzzyPhase(merged: array<Row>, orders: seq<Record>, payments: seq<Record>, sim: (string, string) -> real)
    requires RowsShaped(merged[..], orders, payments)
    modifies merged
    ensures RowsShaped(merged[..], orders, payments)
    ensures forall k :: 0 <= k < merged.Length ==> merged[k].order == old(merged[k].order)
    ensures forall k :: 0 <= k < merged.Length && !old(merged[k]).kind.Pending? ==> merged[k] == old(merged[k])
    ensures forall k :: 0 <= k < merged.Length && old(merged[k]).kind.Pending? ==>
      || (merged[k] == old(merged[k]) && NoFuzzyMatch(orders[merged[k].order].id, Ids(payments), sim))
      || FuzzyMatched(merged[k], orders[merged[k].order].id, Ids(payments), sim)
  {
    var ids := Ids(payments);
    for k := 0 to merged.Length
      invariant forall q :: k <= q < merged.Length ==> merged[q] == old(merged[q])
      invariant RowsShaped(merged[..], orders, payments)
      invariant forall q :: 0 <= q < k ==> merged[q].order == old(merged[q].order)
      invariant forall q :: 0 <= q < k && !old(merged[q]).kind.Pending? ==> merged[q] == old(merged[q])
      invariant forall q :: 0 <= q < k && old(merged[q]).kind.Pending? ==>
        || (merged[q] == old(merged[q]) && NoFuzzyMatch(orders[merged[q].order].id, ids, sim))
        || FuzzyMatched(merged[q], orders[merged[q].order].id, ids, sim)
    {
      var row := merged[k];
      if row.kind.Pending? {
        var oid := orders[row.order].id;
        var score, best := BestPaymentId(oid, ids, sim);
        if score > 0.85 && best.Some? && ids[best.value] != "" {
          var m := PaymentsWithId(ids[best.value], payments, |payments|);
          FirstWithBestId(oid, payments, sim, score, best.value);
          merged[k] := Row(row.order, Some(m[0]), FuzzyId(score));
        } else {
          forall s, b | BestScan(oid, ids, sim, s, b) ensures !Accepts(s, b, ids) {
            BestScanUnique(oid, ids, sim, s, b, score, best);
          }
        }
      }
    }
  }

  /** Every row not joined in phase 1 and not matched by phase 2 was handled by phase 3. */
  ghost predicate FuzzyPhaseHolds(rows: seq<Row>, orders: seq<Record>, payments: seq<Record>, sim: (string, string) -> real) {
    && RowsShaped(rows, orders, payments)
    && forall k :: 0 <= k < |rows| ==>
         && (rows[k].kind.FuzzyId? ==> FuzzyMatched(rows[k], orders[rows[k].order].id, Ids(payments), sim))
         && (rows[k].kind.Unmatched? ==> NoFuzzyMatch(orders[rows[k].order].id, Ids(payments), sim))
  }

  // ---------------------------------------------------------------------------
  // The engine

  /**
   * What `fuzzy_match_orders_to_payments` returns: the rows of the left join,
   * in join order, each finally classified; `direct_id` rows exactly where the
   * join matched, and the other rows classified by phase 2, else phase 3, else
   * `unmatched`.
   */
  ghost predicate ReconcileSpec(orders: seq<Record>, payments: seq<Record>, tol: real,
                                sim: (string, string) -> real, rows: seq<Row>) {
    var join := LeftJoin(orders, payments, |orders|);
    && |rows| == |join|
    && RowsShaped(rows, orders, payments)
    && (forall k :: 0 <= k < |rows| ==>
          && rows[k].order == join[k].order
          && !rows[k].kind.Pending?
          && (rows[k].kind.DirectId? <==> join[k].kind.DirectId?)
          && (join[k].kind.DirectId? ==> rows[k] == join[k]))
    && AmountPhaseHolds(rows, orders, payments, tol)
    && FuzzyPhaseHolds(rows, orders, payments, sim)
  }

  /** The phases' outcomes, composed, meet the specification of the engine. */
  lemma ComposePhases(orders: seq<Record>, payments: seq<Record>, tol: real, sim: (string, string) -> real,
                      join: seq<Row>, amount: seq<Row>, fuzzy: seq<Row>, rows: seq<Row>)
    requires join == LeftJoin(orders, payments, |orders|)
    requires |amount| == |join| && |fuzzy| == |join| && |rows| == |join|
    requires AmountPhaseHolds(amount, orders, payments, tol)
    requires forall k :: 0 <= k < |join| ==> AmountOutcome(join[k], amount[k])
    requires RowsShaped(fuzzy, orders, payments)
    requires forall k :: 0 <= k < |join| ==> fuzzy[k].order == amount[k].order
    requires forall k :: 0 <= k < |join| && !amount[k].kind.Pending? ==> fuzzy[k] == amount[k]
    requires forall k :: 0 <= k < |join| && amount[k].kind.Pending? ==>
      || (fuzzy[k] == amount[k] && NoFuzzyMatch(orders[fuzzy[k].order].id, Ids(payments), sim))
      || FuzzyMatched(fuzzy[k], orders[fuzzy[k].order].id, Ids(payments), sim)
    requires forall k :: 0 <= k < |join| ==>
      rows[k] == if fuzzy[k].kind.Pending? then fuzzy[k].(kind := Unmatched) else fuzzy[k]
    ensures ReconcileSpec(orders, payments, tol, sim, rows)
  {
    LeftJoinSound(orders, payments, |orders|);
    forall k | 0 <= k < |join|
      ensures RowShaped(rows[k], |orders|, |payments|)
      ensures rows[k].order == join[k].order && !rows[k].kind.Pending?
      ensures rows[k].kind.DirectId? <==> join[k].kind.DirectId?
      ensures join[k].kind.DirectId? ==> rows[k] == join[k]
      ensures AmountChoice(rows[k]) == AmountChoice(amount[k])
      ensures rows[k].kind.DirectId? == amount[k].kind.DirectId?
      ensures rows[k].kind.FuzzyId? ==> FuzzyMatched(rows[k], orders[rows[k].order].id, Ids(payments), sim)
      ensures rows[k].kind.Unmatched? ==> NoFuzzyMatch(orders[rows[k].order].id, Ids(payments), sim)
    {
      assert JoinRowSound(join[k], orders, payments);
      assert RowShaped(amount[k], |orders|, |payments|);
      assert RowShaped(fuzzy[k], |orders|, |payments|);
    }
    AmountPhaseTransfer(amount, rows, orders, payments, tol);
  }

  /** The three phases over already prepared orders and payments. */
  method Reconcile(orders: seq<Record>, payments: seq<Record>, tol: real, sim: (string, string) -> real)
    returns (rows: seq<Row>)
    ensures ReconcileSpec(orders, payments, tol, sim, rows)
  {
    var join := LeftJoin(orders, payments, |orders|);
    LeftJoinSound(orders, payments, |orders|);
    var merged := new Row[|join|](k requires 0 <= k < |join| => join[k]);
    assert merged[..] == join;
    AmountPhase(merged, orders, payments, tol);
    ghost var amount := merged[..];
    FuzzyPhase(merged, orders, payments, sim);
    ghost var fuzzy := merged[..];
    forall k | 0 <= k < merged.Length && merged[k].kind.Pending? {
      merged[k] := merged[k].(kind := Unmatched);
    }
    rows := merged[..];
    ComposePhases(orders, payments, tol, sim, join, amount, fuzzy, rows);
  }

  /** `fuzzy_match_orders_to_payments` on tables with possibly absent columns. */
  method FuzzyMatchOrdersToPayments(orders: Table, payments: Table, tol: real, sim: (string, string) -> real)
    returns (rows: seq<Row>)
    requires WellFormedTable(orders) && WellFormedTable(payments)
    ensures ReconcileSpec(Prepare(orders), Prepare(payments), tol, sim, rows)
  {
    rows := Reconcile(Prepare(orders), Prepare(payments), tol, sim);
  }

  // ---------------------------------------------------------------------------
  // Consequences

  /** A row is `direct_id` exactly when some payment carries its order's id. */
  lemma DirectIdIffSharedId(orders: seq<Record>, payments: seq<Record>, tol: real,
                            sim: (string, string) -> real, rows: seq<Row>, k: nat)
    requires ReconcileSpec(orders, payments, tol, sim, rows) && k < |rows|
    ensures rows[k].kind.DirectId? <==> exists j :: 0 <= j < |payments| && payments[j].id == orders[rows[k].order].id
  {
    var join := LeftJoin(orders, payments, |orders|);
    LeftJoinSound(orders, payments, |orders|);
    assert JoinRowSound(join[k], orders, payments);
    PaymentsWithIdSpec(orders[rows[k].order].id, payments, |payments|);
    if rows[k].kind.DirectId? {
      assert payments[rows[k].payment.value].id == orders[rows[k].order].id;
    }
  }

  /** Every order has rows in the result: one per payment with its id, or exactly one. */
  lemma RowsPerOrder(orders: seq<Record>, payments: seq<Record>, tol: real,
                     sim: (string, string) -> real, rows: seq<Row>, i: nat)
    requires ReconcileSpec(orders, payments, tol, sim, rows) && i < |orders|
    ensures CountRows(rows, i) == Max(1, |PaymentsWithId(orders[i].id, payments, |payments|)|)
  {
    var join := LeftJoin(orders, payments, |orders|);
    CountRowsSameOrders(rows, join, i);
    JoinRowCount(orders, payments, |orders|, i);
  }

  /** Phases 2 and 3 touch only rows the earlier phases left unclassified. */
  lemma PhaseOrder(orders: seq<Record>, payments: seq<Record>, tol: real,
                   sim: (string, string) -> real, rows: seq<Row>, k: nat)
    requires ReconcileSpec(orders, payments, tol, sim, rows) && k < |rows|
    ensures var join := LeftJoin(orders, payments, |orders|);
      !rows[k].kind.DirectId? ==> join[k].kind.Pending?
    ensures rows[k].kind.FuzzyId? || rows[k].kind.Unmatched? ==>
      NearestChoice(payments, Taken(rows, k), orders[rows[k].order].amount, tol, None)
  {
    var join := LeftJoin(orders, payments, |orders|);
    LeftJoinSound(orders, payments, |orders|);
    assert JoinRowSound(join[k], orders, payments);
  }
}
