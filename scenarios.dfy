/**
 * Small worked cases of the engine and of the batch grouping, derived from
 * the specifications alone: whatever rows or batch satisfy them are the ones
 * given here.
 */
module Scenarios {
  import opened Wrappers
  import opened Matching
  import opened Batching

  /**
   * A payment joined on id in phase 1 is not marked used for phase 2: order
   * "A" gets payment "A" by id, and order "B" of the same amount then gets
   * that same payment by amount.
   */
  lemma DirectPaymentReused(sim: (string, string) -> real, rows: seq<Row>)
    requires ReconcileSpec([Record("A", 100.0), Record("B", 100.0)], [Record("A", 100.0)], 1.0, sim, rows)
    ensures rows == [Row(0, Some(0), DirectId), Row(1, Some(0), AmountGreedy)]
  {
    var orders := [Record("A", 100.0), Record("B", 100.0)];
    var payments := [Record("A", 100.0)];
    assert PaymentsWithId("A", payments, 1) == [0];
    assert PaymentsWithId("B", payments, 1) == [];
    assert LeftJoin(orders, payments, 2) == [Row(0, Some(0), DirectId), Row(1, None, Pending)];
    assert Taken(rows, 1) == {};
    assert NearestChoice(payments, Taken(rows, 1), 100.0, 1.0, AmountChoice(rows[1]));
  }

  /** Target 300 over amounts 150, 150, 5: both 150s are taken and the loop stops before the 5. */
  lemma HalvesMakeTarget(picks: seq<bool>)
    requires GreedyTrace([150.0, 150.0, 5.0], 300.0, picks)
    ensures picks == [true, true]
  {
    var vals := [150.0, 150.0, 5.0];
    assert SumPicked(vals, [true, true], 1) == 150.0;
    assert SumPicked(vals, [true, true], 2) == 300.0;
    assert Follows(vals, 300.0, [true, true], 1);
    assert Follows(vals, 300.0, [true, true], 2);
    assert GreedyTrace(vals, 300.0, [true, true]);
    GreedyTraceUnique(vals, 300.0, picks, [true, true]);
  }

  lemma HalvesChosen()
    ensures Chosen([0, 1, 2], [true, true], 2) == [0, 1]
  {
    assert Chosen([0, 1, 2], [true, true], 1) == [0];
  }

  lemma HalvesValues()
    ensures Values([150.0, 150.0, 5.0], [0, 1, 2]) == [150.0, 150.0, 5.0]
  {
  }

  lemma HalvesTotal()
    ensures Total([150.0, 150.0, 5.0], [0, 1]) == 300.0
  {
    assert [0, 1][..1] == [0];
    assert Total([150.0, 150.0, 5.0], [0]) == 150.0;
  }

  /** The batch for that bank row: the two orders of 150, summing to the target exactly. */
  lemma HalvesBatch(batch: Batch)
    requires BatchFor([150.0, 150.0, 5.0], [0, 1, 2], 300.0, batch)
    ensures batch == Batch([0, 1], 300.0, 300.0)
  {
    HalvesValues();
    var picks :| |picks| <= 3 && GreedyTrace([150.0, 150.0, 5.0], 300.0, picks)
      && batch.orders == Chosen([0, 1, 2], picks, |picks|);
    HalvesMakeTarget(picks);
    HalvesChosen();
    HalvesTotal();
  }
}
