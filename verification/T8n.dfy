/**
 The transaction loop of the state-transition tool (`bin/mega-t8n/src/cmd.rs`). Decoding, conversion
 and execution are parameters; what is modelled is how the loop turns their results into receipts,
 rejections, the block's logs and the gas total.
 */
module T8n {
  import opened Common

  datatype Log = Log(address: nat, topics: seq<nat>, data: seq<nat>)

  datatype Execution = Execution(success: bool, gasUsed: u64, logs: seq<Log>)

  /** What the loop calls: the envelope hash, the conversion and the committing execution. */
  datatype Machine<!State, !Tx, !Env> = Machine(
    envelope: Tx -> Result<nat, string>,
    convert: Tx -> Result<Env, string>,
    execute: (State, Env) -> Result<(Execution, State), string>)

  datatype TransactionLog = TransactionLog(log: Log, transactionHash: nat, transactionIndex: nat, logIndex: nat)

  datatype Receipt = Receipt(status: nat, cumulativeGasUsed: u64, gasUsed: u64, logs: seq<TransactionLog>,
      transactionHash: nat)

  datatype Rejected = Rejected(index: nat, error: string)

  /** One transaction against the state before it: its execution and the next state, or the rejection. */
  function Attempt<State, Tx, Env>(m: Machine<State, Tx, Env>, s: State, tx: Tx): Result<(Execution, State), string> {
    var env := m.convert(tx);
    if env.Err? then Err("Failed to convert transaction: " + env.error) else m.execute(s, env.value)
  }

  /** The state after a list of transactions: rejected ones leave it alone. */
  function StateAfter<State, Tx, Env>(m: Machine<State, Tx, Env>, s: State, txs: seq<Tx>): State {
    if txs == [] then s
    else
      var before := StateAfter(m, s, txs[..|txs| - 1]);
      var r := Attempt(m, before, txs[|txs| - 1]);
      if r.Ok? then r.value.1 else before
  }

  function AttemptAt<State, Tx, Env>(
    m: Machine<State, Tx, Env>, s: State, txs: seq<Tx>, i: nat): Result<(Execution, State), string>
    requires i < |txs|
  {
    Attempt(m, StateAfter(m, s, txs[..i]), txs[i])
  }

  function Gas(receipts: seq<Receipt>): nat {
    if receipts == [] then 0 else Gas(receipts[..|receipts| - 1]) + receipts[|receipts| - 1].gasUsed
  }

  function Payloads(logs: seq<TransactionLog>): seq<Log> {
    seq(|logs|, j requires 0 <= j < |logs| => logs[j].log)
  }

  function AllPayloads(receipts: seq<Receipt>): seq<Log> {
    if receipts == [] then [] else AllPayloads(receipts[..|receipts| - 1]) + Payloads(receipts[|receipts| - 1].logs)
  }

  function Stamped(logs: seq<Log>, hash: nat, index: nat): seq<TransactionLog> {
    seq(|logs|, j requires 0 <= j < |logs| => TransactionLog(logs[j], hash, index, j))
  }

  /** What receipt `i` must say about transaction `i`, apart from the running total. */
  ghost predicate Reports<State(!new), Tx(!new), Env(!new)>(
    m: Machine<State, Tx, Env>, s: State, txs: seq<Tx>, i: nat, r: Receipt)
    requires i < |txs|
  {
    var a := AttemptAt(m, s, txs, i);
    && m.envelope(txs[i]) == Ok(r.transactionHash)
    && (a.Err? ==> r.status == 0 && r.gasUsed == 0 && r.logs == [])
    && (a.Ok? ==>
          && r.gasUsed == a.value.0.gasUsed
          && (r.status == 1 <==> a.value.0.success) && r.status <= 1
          && Payloads(r.logs) == (if a.value.0.success then a.value.0.logs else [])
          && (forall j :: 0 <= j < |r.logs| ==>
                r.logs[j].transactionHash == r.transactionHash && r.logs[j].transactionIndex ==
                    i && r.logs[j].logIndex == j))
  }

  /** `rejected` lists exactly the failed attempts, in increasing order, with their errors. */
  ghost predicate ListsFailures<State(!new), Tx(!new), Env(!new)>(
    m: Machine<State, Tx, Env>, s: State, txs: seq<Tx>, n: nat, rejected: seq<Rejected>)
    requires n <= |txs|
  {
    && (forall j :: 0 <= j < |rejected| ==>
          rejected[j].index < n && AttemptAt(m, s, txs, rejected[j].index) == Err(rejected[j].error))
    && (forall j, k :: 0 <= j < k < |rejected| ==> rejected[j].index < rejected[k].index)
    && (forall i {:trigger AttemptAt(m, s, txs, i)} :: 0 <= i < n && AttemptAt(m, s, txs, i).Err? ==>
          Rejected(i, AttemptAt(m, s, txs, i).error) in rejected)
  }

  ghost predicate AllReport<State(!new), Tx(!new), Env(!new)>(
    m: Machine<State, Tx, Env>, s: State, txs: seq<Tx>, receipts: seq<Receipt>)
    requires |receipts| <= |txs|
  {
    forall i :: 0 <= i < |receipts| ==> Reports(m, s, txs, i, receipts[i])
  }

  /** The value of a 64-bit counter that wraps. */
  function Wrapped(x: nat): u64 {
    if x <= U64_MAX then x else Wrapped(x - U64_MAX - 1)
  }

  /** One wrapping addition. */
  function WrappingAdd(a: u64, b: u64): u64 {
    if a + b <= U64_MAX then a + b else a + b - U64_MAX - 1
  }

  lemma {:induction false} WrappedAdd(a: nat, b: u64)
    ensures WrappingAdd(Wrapped(a), b) == Wrapped(a + b)
    decreases a
  {
    if a > U64_MAX {
      WrappedAdd(a - U64_MAX - 1, b);
    }
  }

  lemma {:induction false} WrappedModulo(x: nat)
    ensures Wrapped(x) == x % 0x1_0000_0000_0000_0000
    decreases x
  {
    if x > U64_MAX {
      WrappedModulo(x - U64_MAX - 1);
    }
  }

  /** Every cumulative amount is the gas of the receipts up to and including it, modulo 2^64. */
  ghost predicate Cumulative(receipts: seq<Receipt>) {
    forall i :: 0 <= i < |receipts| ==> receipts[i].cumulativeGasUsed == Wrapped(Gas(receipts[..i + 1]))
  }

  datatype Results<State> = Results(
    receipts: seq<Receipt>, rejected: seq<Rejected>, logs: seq<Log>, total: u64, state: State)

  /** The results of processing the first `n` transactions. */
  ghost predicate Processed<State(!new), Tx(!new), Env(!new)>(
    m: Machine<State, Tx, Env>, start: State, txs: seq<Tx>, n: nat, r: Results<State>)
  {
    && |r.receipts| == n <= |txs|
    && AllReport(m, start, txs, r.receipts)
    && Cumulative(r.receipts)
    && r.total == Wrapped(Gas(r.receipts))
    && ListsFailures(m, start, txs, n, r.rejected)
    && r.logs == AllPayloads(r.receipts)
    && r.state == StateAfter(m, start, txs[..n])
  }

  /** One transaction with a decoded envelope: executed, or rejected with a zero receipt. */
  function Transact<State, Tx, Env>(m: Machine<State, Tx, Env>, r: Results<State>, index: nat, tx: Tx, hash: nat)
    : Results<State>
  {
    var a := Attempt(m, r.state, tx);
    if a.Err? then
      r.(receipts := r.receipts + [Receipt(0, r.total, 0, [], hash)],
         rejected := r.rejected + [Rejected(index, a.error)])
    else
      var e, total := a.value.0, WrappingAdd(r.total, a.value.0.gasUsed);
      Results(r.receipts + [Executed(total, e, hash, index)], r.rejected,
              if e.success then r.logs + e.logs else r.logs, total, a.value.1)
  }

  /** The transactions one after the other. */
  function TransactAll<State, Tx, Env>(m: Machine<State, Tx, Env>, start: State, txs: seq<Tx>): Results<State> {
    if txs == [] then Results([], [], [], 0, start)
    else
      var n := |txs| - 1;
      var hash := m.envelope(txs[n]);
      Transact(m, TransactAll(m, start, txs[..n]), n, txs[n], if hash.Ok? then hash.value else 0)
  }

  lemma {:induction false} TransactNext<State, Tx, Env>(m: Machine<State, Tx, Env>, start: State, txs: seq<Tx>, n: nat)
    requires n < |txs| && m.envelope(txs[n]).Ok?
    ensures TransactAll(m, start, txs[..n + 1]) ==
            Transact(m, TransactAll(m, start, txs[..n]), n, txs[n], m.envelope(txs[n]).value)
  {
    assert txs[..n + 1][..n] == txs[..n];
  }

  /** What the results say about the transactions. */
  lemma {:induction false} TransactProcessed<State(!new), Tx(!new), Env(!new)>(
    m: Machine<State, Tx, Env>, start: State, txs: seq<Tx>, n: nat)
    requires n <= |txs| && forall i :: 0 <= i < n ==> m.envelope(txs[i]).Ok?
    ensures Processed(m, start, txs, n, TransactAll(m, start, txs[..n]))
  {
    if n > 0 {
      TransactProcessed(m, start, txs, n - 1);
      TransactNext(m, start, txs, n - 1);
      var r := TransactAll(m, start, txs[..n - 1]);
      if Attempt(m, r.state, txs[n - 1]).Err? {
        RejectStep(m, start, txs, n - 1, r, m.envelope(txs[n - 1]).value);
      } else {
        ExecuteStep(m, start, txs, n - 1, r, m.envelope(txs[n - 1]).value);
      }
    }
  }

  /**
   The loop. An envelope that does not decode ends the whole run with its error; every other
   transaction gets one receipt.
   */
  method RunTransition<State(!new), Tx(!new), Env(!new)>(m: Machine<State, Tx, Env>, start: State, txs: seq<Tx>)
    returns (
      failure: Option<string>, receipts: seq<Receipt>, rejected: seq<Rejected>, logs: seq<Log>,
      total: u64, state: State)
    ensures Processed(m, start, txs, |receipts|, Results(receipts, rejected, logs, total, state))
    ensures forall i :: 0 <= i < |receipts| ==> m.envelope(txs[i]).Ok?
    ensures failure.Some? ==> |receipts| < |txs| && m.envelope(txs[|receipts|]) == Err(failure.value)
    ensures failure.None? ==> |receipts| == |txs|
  {
    failure, receipts, rejected, logs, total, state := None, [], [], [], 0, start;
    ghost var done := 0;
    for index := 0 to |txs|
      invariant failure == None && |receipts| == done == index
      invariant forall i :: 0 <= i < index ==> m.envelope(txs[i]).Ok?
      invariant Results(receipts, rejected, logs, total, state) == TransactAll(m, start, txs[..index])
    {
      var envelope := m.envelope(txs[index]);
      if envelope.Err? {
        failure := Some(envelope.error);
        break;
      }
      var hash := envelope.value;
      TransactNext(m, start, txs, index);
      var env := m.convert(txs[index]);
      if env.Err? {
        rejected := rejected + [Rejected(index, "Failed to convert transaction: " + env.error)];
        receipts := receipts + [Receipt(0, total, 0, [], hash)];
      } else {
        var result := m.execute(state, env.value);
        if result.Ok? {
          var execution := result.value.0;
          state := result.value.1;
          total := WrappingAdd(total, execution.gasUsed);
          if execution.success {
            logs := logs + execution.logs;
          }
          receipts := receipts + [Executed(total, execution, hash, index)];
        } else {
          receipts := receipts + [Receipt(0, total, 0, [], hash)];
          rejected := rejected + [Rejected(index, result.error)];
        }
      }
      done := done + 1;
    }
    TransactProcessed(m, start, txs, done);
  }

  lemma StateStep<State(!new), Tx(!new), Env(!new)>(m: Machine<State, Tx, Env>, s: State, txs: seq<Tx>, n: nat)
    requires n < |txs|
    ensures var a, before := AttemptAt(m, s, txs, n), StateAfter(m, s, txs[..n]);
            StateAfter(m, s, txs[..n + 1]) == if a.Ok? then a.value.1 else before
  {
    assert txs[..n + 1][..n] == txs[..n];
  }

  lemma Appended(receipts: seq<Receipt>, r: Receipt)
    ensures Gas(receipts + [r]) == Gas(receipts) + r.gasUsed
    ensures AllPayloads(receipts + [r]) == AllPayloads(receipts) + Payloads(r.logs)
    ensures Cumulative(receipts) && r.cumulativeGasUsed == Wrapped(Gas(receipts) + r.gasUsed) ==>
            Cumulative(receipts + [r])
  {
    var more := receipts + [r];
    assert more[..|receipts|] == receipts && more[..|receipts| + 1] == more;
    if Cumulative(receipts) && r.cumulativeGasUsed == Wrapped(Gas(receipts) + r.gasUsed) {
      forall i | 0 <= i < |more| ensures more[i].cumulativeGasUsed == Wrapped(Gas(more[..i + 1])) {
        if i < |receipts| {
          assert more[..i + 1] == receipts[..i + 1];
        }
      }
    }
  }

  lemma {:induction false} FailuresStep<State(!new), Tx(!new), Env(!new)>(
    m: Machine<State, Tx, Env>, s: State, txs: seq<Tx>, n: nat, rejected: seq<Rejected>)
    requires n < |txs| && ListsFailures(m, s, txs, n, rejected)
    ensures var a := AttemptAt(m, s, txs, n);
            ListsFailures(m, s, txs, n + 1, if a.Ok? then rejected else rejected + [Rejected(n, a.error)])
  {
    var a := AttemptAt(m, s, txs, n);
    if a.Err? {
      OneMoreFailure(m, s, txs, n, rejected, a.error);
    }
  }

  lemma {:induction false} OneMoreFailure<State(!new), Tx(!new), Env(!new)>(
    m: Machine<State, Tx, Env>, s: State, txs: seq<Tx>, n: nat, rejected: seq<Rejected>, error: string)
    requires n < |txs| && ListsFailures(m, s, txs, n, rejected) && AttemptAt(m, s, txs, n) == Err(error)
    ensures ListsFailures(m, s, txs, n + 1, rejected + [Rejected(n, error)])
  {
    var more := rejected + [Rejected(n, error)];
    forall j | 0 <= j < |more|
      ensures more[j].index < n + 1 && AttemptAt(m, s, txs, more[j].index) == Err(more[j].error)
    {
      assert j < |rejected| ==> more[j] == rejected[j];
    }
    forall i | 0 <= i < n + 1 && AttemptAt(m, s, txs, i).Err?
      ensures Rejected(i, AttemptAt(m, s, txs, i).error) in more
    {
      if i == n {
        assert more[|rejected|] == Rejected(n, error);
      }
    }
  }

  /** The receipt of an executed transaction. */
  function Executed(total: u64, e: Execution, hash: nat, index: nat): Receipt {
    Receipt(if e.success then 1 else 0, total, e.gasUsed, if e.success then Stamped(e.logs, hash, index) else [], hash)
  }

  lemma StampedPayloads(logs: seq<Log>, hash: nat, index: nat)
    ensures Payloads(Stamped(logs, hash, index)) == logs
  {
  }

  lemma {:induction false} ReportStep<State(!new), Tx(!new), Env(!new)>(
    m: Machine<State, Tx, Env>, s: State, txs: seq<Tx>,
    receipts: seq<Receipt>, r: Receipt)
    requires |receipts| < |txs| && AllReport(m, s, txs, receipts) && Reports(m, s, txs, |receipts|, r)
    ensures AllReport(m, s, txs, receipts + [r])
  {
  }

  lemma {:induction false} ExecutedReports<State(!new), Tx(!new), Env(!new)>(
    m: Machine<State, Tx, Env>, s: State, txs: seq<Tx>,
    i: nat, total: u64, e: Execution, hash: nat)
    requires i < |txs| && m.envelope(txs[i]) == Ok(hash)
    requires AttemptAt(m, s, txs, i).Ok? && AttemptAt(m, s, txs, i).value.0 == e
    ensures Reports(m, s, txs, i, Executed(total, e, hash, i))
  {
    StampedPayloads(e.logs, hash, i);
  }

  /** The running totals after one receipt. */
  lemma {:induction false} TotalsStep(receipts: seq<Receipt>, r: Receipt)
    requires Cumulative(receipts) && r.cumulativeGasUsed == WrappingAdd(Wrapped(Gas(receipts)), r.gasUsed)
    ensures Cumulative(receipts + [r]) && r.cumulativeGasUsed == Wrapped(Gas(receipts + [r]))
  {
    WrappedAdd(Gas(receipts), r.gasUsed);
    Appended(receipts, r);
  }

  lemma {:induction false} LogsStep(receipts: seq<Receipt>, total: u64, e: Execution, hash: nat, index: nat)
    ensures AllPayloads(receipts + [Executed(total, e, hash, index)])
         == if e.success then AllPayloads(receipts) + e.logs else AllPayloads(receipts)
  {
    Appended(receipts, Executed(total, e, hash, index));
    StampedPayloads(e.logs, hash, index);
    assert AllPayloads(receipts) + [] == AllPayloads(receipts);
  }

  /** A rejected transaction: a zero receipt and one more rejection. */
  lemma {:induction false} RejectStep<State(!new), Tx(!new), Env(!new)>(
    m: Machine<State, Tx, Env>, start: State, txs: seq<Tx>,
    n: nat, r: Results<State>, hash: nat)
    requires n < |txs| && Processed(m, start, txs, n, r) && m.envelope(txs[n]) == Ok(hash)
    requires Attempt(m, r.state, txs[n]).Err?
    ensures Processed(m, start, txs, n + 1,
                      r.(receipts := r.receipts + [Receipt(0, r.total, 0, [], hash)],
                         rejected := r.rejected + [Rejected(n, Attempt(m, r.state, txs[n]).error)]))
  {
    var receipt := Receipt(0, r.total, 0, [], hash);
    StateStep(m, start, txs, n);
    FailuresStep(m, start, txs, n, r.rejected);
    ReportStep(m, start, txs, r.receipts, receipt);
    TotalsStep(r.receipts, receipt);
    Appended(r.receipts, receipt);
    assert AllPayloads(r.receipts) + [] == AllPayloads(r.receipts);
  }

  /** An executed transaction: its gas, status and stamped logs. */
  lemma {:induction false} ExecuteStep<State(!new), Tx(!new), Env(!new)>(
    m: Machine<State, Tx, Env>, start: State, txs: seq<Tx>,
    n: nat, r: Results<State>, hash: nat)
    requires n < |txs| && Processed(m, start, txs, n, r) && m.envelope(txs[n]) == Ok(hash)
    requires Attempt(m, r.state, txs[n]).Ok?
    ensures var e := Attempt(m, r.state, txs[n]).value.0;
            var total := WrappingAdd(r.total, e.gasUsed);
            Processed(m, start, txs, n + 1,
                      Results(r.receipts + [Executed(total, e, hash, n)], r.rejected,
                              if e.success then r.logs + e.logs else r.logs, total,
                                  Attempt(m, r.state, txs[n]).value.1))
  {
    var e := Attempt(m, r.state, txs[n]).value.0;
    var total := WrappingAdd(r.total, e.gasUsed);
    StateStep(m, start, txs, n);
    FailuresStep(m, start, txs, n, r.rejected);
    ExecutedReports(m, start, txs, n, total, e, hash);
    ReportStep(m, start, txs, r.receipts, Executed(total, e, hash, n));
    TotalsStep(r.receipts, Executed(total, e, hash, n));
    LogsStep(r.receipts, total, e, hash, n);
  }

  /** The cumulative amounts are exact, and never decrease, exactly as long as the gas fits 64 bits. */
  lemma {:induction false} ExactGas(receipts: seq<Receipt>, i: nat)
    requires Cumulative(receipts) && i < |receipts|
    ensures receipts[i].cumulativeGasUsed == Gas(receipts[..i + 1]) <==> Gas(receipts[..i + 1]) <= U64_MAX
    ensures i > 0 ==> (receipts[i - 1].cumulativeGasUsed <= receipts[i].cumulativeGasUsed
                       <==> receipts[i - 1].cumulativeGasUsed + receipts[i].gasUsed <= U64_MAX)
  {
    if i > 0 {
      assert receipts[..i + 1][..i] == receipts[..i];
      assert Gas(receipts[..i + 1]) == Gas(receipts[..i]) + receipts[i].gasUsed;
      WrappedAdd(Gas(receipts[..i]), receipts[i].gasUsed);
    }
  }
}
