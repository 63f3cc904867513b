/**
  The batch manager between two awaits. `add_operation` appends and, if the queue is full, takes a
  batch off and starts it, all without giving up control; a batch finishes later. Several adders
  may be waiting for their batches at once.
 */
module BatchSpec {
  import opened Common
  import opened Lists
  import opened Slices

  type Operation = nat

  /** `started` lists the batches in the order they were sliced off, `inFlight` those not finished. */
  datatype Manager = Manager(
    queue: seq<Operation>,
    executed: nat,
    inFlight: seq<seq<Operation>>,
    started: seq<seq<Operation>>,
    added: seq<Operation>)

  const EMPTY := Manager([], 0, [], [], [])

  /** The part of _execute_batch before its first await. */
  function BeginBatch(m: Manager, size: int): Manager {
    if m.queue == [] then m
    else
      var batch := Slice(m.queue, 0, Some(size));
      m.(queue := Slice(m.queue, size, None), inFlight := m.inFlight + [batch], started := m.started + [batch])
  }

  /** add_operation up to its await. */
  function Add(m: Manager, op: Operation, size: int): Manager {
    var m' := m.(queue := m.queue + [op], added := m.added + [op]);
    if |m'.queue| >= size then BeginBatch(m', size) else m'
  }

  /** gather() has returned for the i-th batch in flight; failures are collected like results. */
  function FinishBatch(m: Manager, i: nat): Manager
    requires i < |m.inFlight|
  {
    m.(executed := m.executed + |m.inFlight[i]|, inFlight := m.inFlight[..i] + m.inFlight[i + 1..])
  }

  datatype Step =
    | AddOperation(op: Operation)
    | ExecuteRemaining
    | Finish(i: nat)

  function Apply(m: Manager, step: Step, size: int): Manager {
    match step
    case AddOperation(op) => Add(m, op, size)
    case ExecuteRemaining => BeginBatch(m, size)
    case Finish(i) => if i < |m.inFlight| then FinishBatch(m, i) else m
  }

  function Run(m: Manager, steps: seq<Step>, size: int): Manager
    decreases |steps|
  {
    if steps == [] then m else Run(Apply(m, steps[0], size), steps[1..], size)
  }

  // ---------- conservation under every interleaving ----------

  ghost predicate Inv(m: Manager, size: int) {
    && Flatten(m.started) + m.queue == m.added
    && m.executed + |Flatten(m.inFlight)| + |m.queue| == |m.added|
    && |m.queue| < size
    && (forall b | b in m.started :: 1 <= |b| <= size)
    && (forall b | b in m.inFlight :: b in m.started)
  }

  /** A full or part-full queue goes out as one batch. */
  lemma BeginTakesAll(m: Manager, size: int)
    requires 1 <= |m.queue| <= size
    ensures BeginBatch(m, size) == m.(queue := [], inFlight := m.inFlight + [m.queue], started := m.started + [m.queue])
  {
    assert Slice(m.queue, 0, Some(size)) == m.queue;
    assert Slice(m.queue, size, None) == [];
  }

  lemma BeginKeeps(m: Manager, size: int)
    requires 1 <= |m.queue| <= size
    requires Flatten(m.started) + m.queue == m.added
    requires m.executed + |Flatten(m.inFlight)| + |m.queue| == |m.added|
    requires (forall b | b in m.started :: 1 <= |b| <= size) && (forall b | b in m.inFlight :: b in m.started)
    ensures Inv(BeginBatch(m, size), size)
  {
    BeginTakesAll(m, size);
    FlattenSnoc(m.started, m.queue);
    FlattenSnoc(m.inFlight, m.queue);
  }

  lemma ApplyKeeps(m: Manager, step: Step, size: int)
    requires Inv(m, size)
    ensures Inv(Apply(m, step, size), size)
  {
    match step
    case AddOperation(op) =>
      var m' := m.(queue := m.queue + [op], added := m.added + [op]);
      assert Flatten(m.started) + (m.queue + [op]) == (Flatten(m.started) + m.queue) + [op];
      if |m'.queue| >= size { BeginKeeps(m', size); }
    case ExecuteRemaining =>
      if m.queue != [] { BeginKeeps(m, size); }
    case Finish(i) =>
      if i < |m.inFlight| { TakenOut(m.inFlight, i); }
  }

  lemma TakenOut(batches: seq<seq<Operation>>, i: nat)
    requires i < |batches|
    ensures |Flatten(batches[..i] + batches[i + 1..])| + |batches[i]| == |Flatten(batches)|
  {
    var before, after := batches[..i], batches[i + 1..];
    assert batches == before + ([batches[i]] + after);
    FlattenConcat(before, [batches[i]] + after);
    FlattenCons(batches[i], after);
    FlattenConcat(before, after);
  }

  /** Over every interleaving of adders, drains and completions: the batches in slice order and
      then the queue are the operations in the order they were added, executed + in flight +
      queued = added, and the queue is shorter than a batch whenever control is given up. */
  lemma {:induction false} RunKeeps(m: Manager, steps: seq<Step>, size: int)
    requires Inv(m, size)
    ensures Inv(Run(m, steps, size), size)
    decreases |steps|
  {
    if steps != [] {
      ApplyKeeps(m, steps[0], size);
      RunKeeps(Apply(m, steps[0], size), steps[1..], size);
    }
  }

  lemma EmptyInv(size: int)
    requires size >= 1
    ensures Inv(EMPTY, size)
  {
  }

  /** When nothing is in flight or queued, everything added was executed. */
  lemma QuietMeansDone(steps: seq<Step>, size: int)
    requires size >= 1
    requires Run(EMPTY, steps, size).inFlight == [] && Run(EMPTY, steps, size).queue == []
    ensures var m := Run(EMPTY, steps, size); m.executed == |m.added| && Flatten(m.started) == m.added
  {
    EmptyInv(size);
    RunKeeps(EMPTY, steps, size);
  }

  // ---------- one adder after the other ----------

  /** _execute_batch when nothing else happens while it waits. */
  function ExecuteBatch(m: Manager, size: int): Manager {
    var begun := BeginBatch(m, size);
    if |begun.inFlight| == |m.inFlight| then begun
    else begun.(executed := m.executed + |begun.inFlight[|m.inFlight|]|, inFlight := m.inFlight)
  }

  /** One turn of execute_remaining. */
  lemma ExecuteBatchTurn(m: Manager, size: int)
    requires size >= 1 && m.queue != []
    ensures var r := ExecuteBatch(m, size);
            && r.inFlight == m.inFlight && r.added == m.added
            && |r.queue| < |m.queue| && (|m.queue| <= size ==> r.queue == [])
            && r.executed + |r.queue| == m.executed + |m.queue|
            && Flatten(r.started) + r.queue == Flatten(m.started) + m.queue
  {
    var batch := Slice(m.queue, 0, Some(size));
    FlattenSnoc(m.started, batch);
    assert batch + Slice(m.queue, size, None) == m.queue;
    assert Flatten(m.started) + (batch + Slice(m.queue, size, None)) == (Flatten(m.started) + batch) + Slice(m.queue, size, None);
  }

  function AddAndWait(m: Manager, op: Operation, size: int): Manager {
    var m' := m.(queue := m.queue + [op], added := m.added + [op]);
    if |m'.queue| >= size then ExecuteBatch(m', size) else m'
  }

  function AddAll(m: Manager, ops: seq<Operation>, size: int): Manager
    decreases |ops|
  {
    if ops == [] then m else AddAll(AddAndWait(m, ops[0], size), ops[1..], size)
  }

  /** Only whole batches so far, the rest queued. */
  ghost predicate Even(m: Manager, size: int) {
    && size >= 1
    && m.inFlight == []
    && Flatten(m.started) + m.queue == m.added
    && |m.started| * size + |m.queue| == |m.added|
    && m.executed == |m.started| * size
    && |m.queue| < size
  }

  lemma AddAndWaitEven(m: Manager, op: Operation, size: int)
    requires Even(m, size)
    ensures Even(AddAndWait(m, op, size), size) && AddAndWait(m, op, size).added == m.added + [op]
  {
    var m' := m.(queue := m.queue + [op], added := m.added + [op]);
    assert Flatten(m.started) + (m.queue + [op]) == (Flatten(m.started) + m.queue) + [op];
    if |m'.queue| >= size {
      BeginTakesAll(m', size);
      FlattenSnoc(m.started, m'.queue);
      assert (|m.started| + 1) * size == |m.started| * size + size;
    }
  }

  lemma {:induction false} AddAllEven(m: Manager, ops: seq<Operation>, size: int)
    requires Even(m, size)
    ensures Even(AddAll(m, ops, size), size) && AddAll(m, ops, size).added == m.added + ops
    decreases |ops|
  {
    if ops != [] {
      AddAndWaitEven(m, ops[0], size);
      AddAllEven(AddAndWait(m, ops[0], size), ops[1..], size);
      assert m.added + ops == (m.added + [ops[0]]) + ops[1..];
    } else {
      assert m.added + ops == m.added;
    }
  }

  /** n adds one after the other and a final drain run ceil(n / batch_size) batches, which are the
      operations in order, and count n. */
  lemma SequentialBatches(ops: seq<Operation>, size: int)
    requires size >= 1
    ensures var m := ExecuteBatch(AddAll(EMPTY, ops, size), size);
            && m.queue == [] && m.inFlight == []
            && Flatten(m.started) == ops && m.executed == |ops|
            && |m.started| == (|ops| + size - 1) / size
  {
    AddAllEven(EMPTY, ops, size);
    var m := AddAll(EMPTY, ops, size);
    assert EMPTY.added + ops == ops;
    if m.queue == [] {
      CeilingIs(|ops|, size, |m.started|, 0);
      assert Flatten(m.started) + [] == Flatten(m.started);
    } else {
      BeginTakesAll(m, size);
      FlattenSnoc(m.started, m.queue);
      CeilingIs(|ops|, size, |m.started|, |m.queue|);
    }
  }

  lemma CeilingIs(n: nat, size: int, whole: nat, rest: nat)
    requires size >= 1 && rest < size && whole * size + rest == n
    ensures (n + size - 1) / size == if rest == 0 then whole else whole + 1
  {
    if rest == 0 {
      QuotientIs(n + size - 1, size, whole, size - 1);
    } else {
      assert (whole + 1) * size == whole * size + size;
      QuotientIs(n + size - 1, size, whole + 1, rest - 1);
    }
  }

  lemma QuotientIs(n: nat, size: int, q: nat, r: nat)
    requires size >= 1 && r < size && n == q * size + r
    ensures n / size == q
  {
    var d, e := n / size, n % size;
    assert n == d * size + e;
    assert (d - q) * size == d * size - q * size;
    MultipleGrows(d - q, size);
  }

  lemma MultipleGrows(k: int, size: int)
    requires size >= 1
    ensures k >= 1 ==> k * size >= size
    ensures k <= -1 ==> k * size <= -size
  {
    if k >= 1 {
      assert k * size == (k - 1) * size + size;
      assert (k - 1) * size >= 0;
    } else if k <= -1 {
      assert k * size == (k + 1) * size - size;
      assert (k + 1) * size <= 0;
    }
  }

  // ---------- batch sizes that cannot work ----------

  function Drain(m: Manager, size: int, turns: nat): Manager
    decreases turns
  {
    if turns == 0 then m else Drain(BeginBatch(m, size), size, turns - 1)
  }

  /** execute_remaining ends exactly if the batch size is positive or there was nothing to do: with
      a batch size of zero or less some operation stays queued for ever. */
  lemma {:induction false} DrainEndsIff(m: Manager, size: int)
    ensures (exists turns: nat :: Drain(m, size, turns).queue == []) <==> size >= 1 || m.queue == []
  {
    if m.queue == [] {
      assert Drain(m, size, 0).queue == [];
    } else if size >= 1 {
      PositiveDrains(m, size, |m.queue|);
      assert Drain(m, size, |m.queue|).queue == [];
    } else {
      forall turns: nat ensures Drain(m, size, turns).queue != [] {
        NeverDrains(m, size, turns);
      }
    }
  }

  lemma {:induction false} PositiveDrains(m: Manager, size: int, turns: nat)
    requires size >= 1 && turns >= |m.queue|
    ensures Drain(m, size, turns).queue == []
    decreases turns
  {
    if turns > 0 { PositiveDrains(BeginBatch(m, size), size, turns - 1); }
  }

  lemma {:induction false} NeverDrains(m: Manager, size: int, turns: nat)
    requires size <= 0 && m.queue != []
    ensures Drain(m, size, turns).queue != []
    decreases turns
  {
    if turns > 0 { NeverDrains(BeginBatch(m, size), size, turns - 1); }
  }
}
