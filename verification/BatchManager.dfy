/** The batch manager object. */
module BatchManager {
  import opened Common
  import opened Lists
  import opened Slices
  import Spec = BatchSpec
  import opened BatchSpec

  class BatchOperationManager {
    const batchSize: int
    var operations: seq<Operation>
    var executedCount: nat
    ghost var inFlight: seq<seq<Operation>>
    ghost var started: seq<seq<Operation>>
    ghost var added: seq<Operation>

    constructor (batchSize: int)
      ensures this.batchSize == batchSize && View() == EMPTY
    {
      this.batchSize := batchSize;
      operations, executedCount, inFlight, started, added := [], 0, [], [], [];
    }

    ghost function View(): Manager
      reads this
    {
      Manager(operations, executedCount, inFlight, started, added)
    }

    /** Slices a batch off the queue and starts it. */
    method BeginBatch() returns (batch: seq<Operation>)
      modifies this
      ensures View() == Spec.BeginBatch(old(View()), batchSize)
      ensures old(operations) == [] ==> batch == []
      ensures old(operations) != [] ==> inFlight == old(inFlight) + [batch]
    {
      if operations == [] { return []; }
      batch := Slice(operations, 0, Some(batchSize));
      operations := Slice(operations, batchSize, None);
      inFlight, started := inFlight + [batch], started + [batch];
    }

    /** What add_operation does before it first waits. */
    method BeginAdd(op: Operation) returns (batch: seq<Operation>)
      modifies this
      ensures View() == Spec.Add(old(View()), op, batchSize)
    {
      operations := operations + [op];
      added := added + [op];
      batch := [];
      if |operations| >= batchSize {
        batch := BeginBatch();
      }
    }

    /** The rest of _execute_batch once its tasks are done. */
    method FinishBatch(batch: seq<Operation>, ghost i: nat)
      requires i < |inFlight| && inFlight[i] == batch
      modifies this
      ensures View() == Spec.FinishBatch(old(View()), i)
    {
      executedCount := executedCount + |batch|;
      inFlight := inFlight[..i] + inFlight[i + 1..];
    }

    /** _execute_batch run through without interruption. */
    method ExecuteBatch()
      modifies this
      ensures View() == Spec.ExecuteBatch(old(View()), batchSize)
    {
      if operations == [] { return; }
      var batch := BeginBatch();
      ghost var i := |old(inFlight)|;
      FinishBatch(batch, i);
      assert inFlight == old(inFlight);
    }

    method AddOperation(op: Operation)
      modifies this
      ensures View() == AddAndWait(old(View()), op, batchSize)
    {
      operations := operations + [op];
      added := added + [op];
      if |operations| >= batchSize {
        ExecuteBatch();
      }
    }

    /** execute_remaining run through: the loop needs a positive batch size to end. */
    method ExecuteRemaining()
      requires batchSize >= 1
      modifies this
      ensures operations == [] && inFlight == old(inFlight) && added == old(added)
      ensures executedCount == old(executedCount) + |old(operations)|
      ensures Flatten(started) == Flatten(old(started)) + old(operations)
      ensures |old(operations)| <= batchSize ==> View() == Spec.ExecuteBatch(old(View()), batchSize)
    {
      ghost var first := true;
      while operations != []
        invariant inFlight == old(inFlight) && added == old(added)
        invariant executedCount + |operations| == old(executedCount) + |old(operations)|
        invariant Flatten(started) + operations == Flatten(old(started)) + old(operations)
        invariant first ==> View() == old(View())
        invariant !first && |old(operations)| <= batchSize ==> operations == [] && View() == Spec.ExecuteBatch(old(View()), batchSize)
        decreases |operations|
      {
        ExecuteBatchTurn(View(), batchSize);
        ExecuteBatch();
        first := false;
      }
      assert Flatten(started) + [] == Flatten(started);
    }

    /** async_batch_operations with a body that adds the operations one by one. */
    method AddAllAndDrain(ops: seq<Operation>)
      requires batchSize >= 1 && View() == EMPTY
      modifies this
      ensures Flatten(started) == ops && executedCount == |ops|
      ensures |started| == (|ops| + batchSize - 1) / batchSize
    {
      var i := 0;
      while i < |ops|
        invariant 0 <= i <= |ops|
        invariant AddAll(View(), ops[i..], batchSize) == AddAll(EMPTY, ops, batchSize)
      {
        assert ops[i..][1..] == ops[i + 1..];
        AddOperation(ops[i]);
        i := i + 1;
      }
      assert ops[i..] == [];
      SequentialBatches(ops, batchSize);
      AddAllEven(EMPTY, ops, batchSize);
      ExecuteRemaining();
    }
  }
}
