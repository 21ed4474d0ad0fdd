/**
 Every interleaving of runs, commits and system calls over one block: the protocol around
 `MegaBlockExecutor` when callers execute transactions speculatively and commit them later.
 */
module BlockProtocol {
  import opened Common
  import opened BlockLimit
  import opened StateDb
  import opened BlockExecutor

  /** The EVM: what executing a transaction on a database returns. */
  type Evm = (Database, Request) -> Result<Executed, nat>

  datatype Step =
    | RunStep(req: Request)
    | CommitStep(k: nat)
    | SystemStep(entries: seq<HookEntry>)

  /** An outcome in flight and how much of the history it was run on. */
  datatype Flight = Flight(o: Outcome, at: nat)

  /** What took effect, in order. */
  datatype Action = TxAction(o: Outcome, at: nat) | SystemAction(entries: seq<HookEntry>)

  /** The executor, the outcomes in flight, and the history of effects. */
  datatype World = World(block: Block, pool: seq<Flight>, done: seq<Action>)

  function Start(limits: Limits, db: Database): Block {
    Block(limits, ZERO, [], [], db)
  }

  function Next(evm: Evm, w: World, s: Step): World {
    match s
    case RunStep(req) =>
      var r := Run(w.block, req, evm(w.block.db, req));
      if r.Ok? then w.(pool := w.pool + [Flight(r.value, |w.done|)]) else w
    case CommitStep(k) =>
      if k >= |w.pool| then w
      else
        var f := w.pool[k];
        var rest := w.(pool := w.pool[..k] + w.pool[k + 1..]);
        if Check(w.block.limits, w.block.used, f.o.req.tx).Some? then rest
        else rest.(block := CommitTx(w.block, f.o), done := w.done + [TxAction(f.o, f.at)])
    case SystemStep(entries) =>
      w.(block := ShowAll(w.block, entries), done := w.done + [SystemAction(entries)])
  }

  function Exec(evm: Evm, w: World, steps: seq<Step>): World {
    if steps == [] then w else Next(evm, Exec(evm, w, steps[..|steps| - 1]), steps[|steps| - 1])
  }

  // ---------------------------------------------------------------------------------------------
  // The sequential meaning of a history
  // ---------------------------------------------------------------------------------------------

  function Effect(b: Block, a: Action): Block {
    match a
    case TxAction(o, _) => CommitTx(b, o)
    case SystemAction(entries) => ShowAll(b, entries)
  }

  function Perform(b: Block, done: seq<Action>): Block {
    if done == [] then b else Effect(Perform(b, done[..|done| - 1]), done[|done| - 1])
  }

  lemma PerformAppend(b: Block, done: seq<Action>, a: Action)
    ensures Perform(b, done + [a]) == Effect(Perform(b, done), a)
  {
    assert (done + [a])[..|done|] == done;
  }

  /** The committed transactions of a history. */
  function RunOf(done: seq<Action>): seq<Committed> {
    if done == [] then [] else RunOf(done[..|done| - 1]) + Counted(done[|done| - 1])
  }

  function Counted(a: Action): seq<Committed> {
    match a
    case TxAction(o, _) => [Committed(o.req.tx, o.exec.usage)]
    case SystemAction(_) => []
  }

  lemma RunOfAppend(done: seq<Action>, a: Action)
    ensures RunOf(done + [a]) == RunOf(done) + Counted(a)
    ensures a.SystemAction? ==> RunOf(done + [a]) == RunOf(done)
  {
    assert (done + [a])[..|done|] == done;
  }

  // ---------------------------------------------------------------------------------------------
  // Linearizability
  // ---------------------------------------------------------------------------------------------

  ghost predicate Linear(limits: Limits, db: Database, w: World) {
    && w.block == Perform(Start(limits, db), w.done)
    && w.block.limits == limits
    && w.block.used == CountersOf(RunOf(w.done))
    && |w.block.receipts| == |RunOf(w.done)|
    && Admitted(limits, RunOf(w.done))
  }

  lemma NextLinear(limits: Limits, db: Database, evm: Evm, w: World, s: Step)
    requires Linear(limits, db, w)
    ensures Linear(limits, db, Next(evm, w, s))
  {
    match s
    case RunStep(_) =>
    case CommitStep(k) =>
      if k < |w.pool| && Check(w.block.limits, w.block.used, w.pool[k].o.req.tx).None? {
        var o, at := w.pool[k].o, w.pool[k].at;
        PerformAppend(Start(limits, db), w.done, TxAction(o, at));
        RunOfAppend(w.done, TxAction(o, at));
        AdmittedExtend(limits, RunOf(w.done), Committed(o.req.tx, o.exec.usage));
      }
    case SystemStep(entries) =>
      PerformAppend(Start(limits, db), w.done, SystemAction(entries));
      RunOfAppend(w.done, SystemAction(entries));
      ShowAllFrame(w.block, entries);
  }

  /**
   Whatever is in flight and however runs, commits and system calls interleave, the executor is in
   the state the effects produce one after the other in commit order, and each of those commits
   passes the check in that sequential execution.
   */
  lemma {:induction false} Linearizable(limits: Limits, db: Database, evm: Evm, pool: seq<Flight>, steps: seq<Step>)
    ensures Linear(limits, db, Exec(evm, World(Start(limits, db), pool, []), steps))
  {
    if steps != [] {
      var n := |steps| - 1;
      Linearizable(limits, db, evm, pool, steps[..n]);
      NextLinear(limits, db, evm, Exec(evm, World(Start(limits, db), pool, []), steps[..n]), steps[n]);
    }
  }

  /** History only grows. */
  lemma {:induction false} DoneGrows(evm: Evm, w: World, steps: seq<Step>, m: nat)
    requires m <= |steps|
    ensures Exec(evm, w, steps[..m]).done <= Exec(evm, w, steps).done
    decreases |steps|
  {
    if m == |steps| {
      assert steps[..m] == steps;
    } else {
      var n := |steps| - 1;
      assert steps[..n][..m] == steps[..m];
      DoneGrows(evm, w, steps[..n], m);
      NextGrows(evm, Exec(evm, w, steps[..n]), steps[n]);
    }
  }

  lemma {:induction false} NextGrows(evm: Evm, w: World, s: Step)
    ensures w.done <= Next(evm, w, s).done
  {
  }

  lemma {:induction false} RunOfPrefix(done: seq<Action>, m: nat)
    requires m <= |done|
    ensures RunOf(done[..m]) <= RunOf(done)
    decreases |done|
  {
    if m == |done| {
      assert done[..m] == done;
    } else {
      var n := |done| - 1;
      assert done[..n][..m] == done[..m];
      RunOfPrefix(done[..n], m);
    }
  }

  /**
   A transaction committed in the end would have passed the run-time check in every state the block
   was in before its commit; a transaction refused in some state is never committed afterwards.
   */
  lemma {:induction false} AdmittedAtEveryEarlierState(
    limits: Limits, db: Database, evm: Evm, pool: seq<Flight>, steps: seq<Step>, m: nat, i: nat)
    requires m <= |steps|
    requires var w := Exec(evm, World(Start(limits, db), pool, []), steps);
             var earlier := Exec(evm, World(Start(limits, db), pool, []), steps[..m]);
             |RunOf(earlier.done)| <= i < |RunOf(w.done)|
    ensures var w := Exec(evm, World(Start(limits, db), pool, []), steps);
            var earlier := Exec(evm, World(Start(limits, db), pool, []), steps[..m]);
            Check(limits, earlier.block.used, RunOf(w.done)[i].tx).None?
  {
    var w0 := World(Start(limits, db), pool, []);
    var w, earlier := Exec(evm, w0, steps), Exec(evm, w0, steps[..m]);
    Linearizable(limits, db, evm, pool, steps);
    Linearizable(limits, db, evm, pool, steps[..m]);
    DoneGrows(evm, w0, steps, m);
    RunOfPrefix(w.done, |earlier.done|);
    assert w.done[..|earlier.done|] == earlier.done;
    AdmittedEarlier(limits, RunOf(w.done), |RunOf(earlier.done)|, i);
    assert RunOf(w.done)[..|RunOf(earlier.done)|] == RunOf(earlier.done);
  }

  lemma {:induction false} HistoryCounters(limits: Limits, db: Database, done: seq<Action>)
    ensures var b := Perform(Start(limits, db), done);
            b.limits == limits && b.used == CountersOf(RunOf(done)) && |b.receipts| == |RunOf(done)|
  {
    if done != [] {
      var n := |done| - 1;
      HistoryCounters(limits, db, done[..n]);
      match done[n]
      case TxAction(o, _) =>
        var before, e := RunOf(done[..n]), Committed(o.req.tx, o.exec.usage);
        assert (before + [e])[..|before|] == before;
      case SystemAction(entries) =>
        ShowAllFrame(Perform(Start(limits, db), done[..n]), entries);
        assert RunOf(done[..n]) + [] == RunOf(done[..n]);
    }
  }

  // ---------------------------------------------------------------------------------------------
  // Safety of every reachable state
  // ---------------------------------------------------------------------------------------------

  predicate HonestOutcome(o: Outcome) {
    o.exec.usage.gas <= o.req.tx.gasLimit
  }

  /** The assumption on the EVM: no transaction uses more gas than its limit. */
  ghost predicate HonestEvm(evm: Evm) {
    forall db, req :: evm(db, req).Ok? ==> evm(db, req).value.usage.gas <= req.tx.gasLimit
  }

  ghost predicate HonestWorld(w: World) {
    && GasBounded(RunOf(w.done))
    && forall i :: 0 <= i < |w.pool| ==> HonestOutcome(w.pool[i].o)
  }

  lemma {:induction false} NextHonest(evm: Evm, w: World, s: Step)
    requires HonestWorld(w) && HonestEvm(evm)
    ensures HonestWorld(Next(evm, w, s))
  {
    match s
    case RunStep(req) => assert evm(w.block.db, req).Ok? ==> evm(w.block.db, req).value.usage.gas <= req.tx.gasLimit;
    case CommitStep(k) =>
      if k < |w.pool| {
        CommitHonest(evm, w, k);
      }
    case SystemStep(entries) => RunOfAppend(w.done, SystemAction(entries));
  }

  lemma {:induction false} CommitHonest(evm: Evm, w: World, k: nat)
    requires HonestWorld(w) && k < |w.pool|
    ensures HonestWorld(Next(evm, w, CommitStep(k)))
  {
    var pool := w.pool[..k] + w.pool[k + 1..];
    forall i | 0 <= i < |pool| ensures HonestOutcome(pool[i].o) {
      assert pool[i] == w.pool[if i < k then i else i + 1];
    }
    assert HonestOutcome(w.pool[k].o);
    RunOfAppend(w.done, TxAction(w.pool[k].o, w.pool[k].at));
  }

  lemma {:induction false} GasHonestRuns(limits: Limits, db: Database, evm: Evm, pool: seq<Flight>, steps: seq<Step>)
    requires HonestEvm(evm) && forall i :: 0 <= i < |pool| ==> HonestOutcome(pool[i].o)
    ensures HonestWorld(Exec(evm, World(Start(limits, db), pool, []), steps))
  {
    if steps != [] {
      var n := |steps| - 1;
      GasHonestRuns(limits, db, evm, pool, steps[..n]);
      NextHonest(evm, Exec(evm, World(Start(limits, db), pool, []), steps[..n]), steps[n]);
    }
  }

  /**
   Block limits in every reachable state: gas, size and DA size stay within their limits; a soft
   limit is crossed by at most the last transaction, by less than its own usage, and then every
   outcome in flight is refused.
   */
  lemma {:induction false} LimitsHold(limits: Limits, db: Database, evm: Evm, pool: seq<Flight>, steps: seq<Step>)
    requires HonestEvm(evm) && forall i :: 0 <= i < |pool| ==> HonestOutcome(pool[i].o)
    ensures var w := Exec(evm, World(Start(limits, db), pool, []), steps);
            var c := w.block.used;
            && c.gas <= limits.blockGas && c.size <= limits.blockSize && c.da <= limits.blockDa
            && SoftSafe(limits, RunOf(w.done))
            && (!SoftOpen(limits, c) ==> forall k :: Next(evm, w, CommitStep(k)).block == w.block)
  {
    Linearizable(limits, db, evm, pool, steps);
    GasHonestRuns(limits, db, evm, pool, steps);
    var w := Exec(evm, World(Start(limits, db), pool, []), steps);
    HardCaps(limits, RunOf(w.done));
    SoftCaps(limits, RunOf(w.done));
    if !SoftOpen(limits, w.block.used) {
      forall k ensures Next(evm, w, CommitStep(k)).block == w.block {
        ClosedRefuses(evm, w, k);
      }
    }
  }

  lemma ClosedRefuses(evm: Evm, w: World, k: nat)
    requires !SoftOpen(w.block.limits, w.block.used)
    ensures Next(evm, w, CommitStep(k)).block == w.block
  {
    if k < |w.pool| {
      CheckExact(w.block.limits, w.block.used, w.pool[k].o.req.tx);
    }
  }

  /** The hook log replays to the database in every reachable state. */
  lemma {:induction false} LogIsJournal(limits: Limits, db: Database, done: seq<Action>)
    ensures var b := Perform(Start(limits, db), done);
            Replay(db, b.log) == b.db && b.log == LogOf(done)
  {
    if done != [] {
      var n := |done| - 1;
      LogIsJournal(limits, db, done[..n]);
      HistoryCounters(limits, db, done[..n]);
      var before := Perform(Start(limits, db), done[..n]);
      match done[n]
      case TxAction(o, _) =>
        ReplayAppend(db, before.log, HookEntry(Transaction(|before.receipts|), o.exec.state));
      case SystemAction(entries) =>
        ShowAllFrame(before, entries);
        ReplayConcat(db, before.log, entries);
    }
  }

  lemma {:induction false} ReplayConcat(db: Database, a: seq<HookEntry>, b: seq<HookEntry>)
    ensures Replay(db, a + b) == Replay(Replay(db, a), b)
  {
    if b == [] {
      assert a + b == a;
    } else {
      var n := |b| - 1;
      assert a + b == (a + b[..n]) + [b[n]];
      ReplayAppend(db, a + b[..n], b[n]);
      ReplayConcat(db, a, b[..n]);
    }
  }

  /** What the log must be: system entries as given, the k-th transaction under index k. */
  function LogOf(done: seq<Action>): seq<HookEntry> {
    if done == [] then []
    else
      var front := done[..|done| - 1];
      LogOf(front) + Logged(|RunOf(front)|, done[|done| - 1])
  }

  function Logged(index: nat, a: Action): seq<HookEntry> {
    match a
    case TxAction(o, _) => [HookEntry(Transaction(index), o.exec.state)]
    case SystemAction(entries) => entries
  }

  /** Receipt `i` carries the capped gas of the first `i + 1` commits. */
  lemma {:induction false} ReceiptGas(limits: Limits, db: Database, done: seq<Action>, i: nat)
    requires i < |RunOf(done)|
    ensures |Perform(Start(limits, db), done).receipts| == |RunOf(done)|
    ensures Perform(Start(limits, db), done).receipts[i].cumulativeGas == CountersOf(RunOf(done)[..i + 1]).gas
    decreases |done|
  {
    var n := |done| - 1;
    HistoryCounters(limits, db, done);
    HistoryCounters(limits, db, done[..n]);
    RunOfPrefix(done, n);
    var front, before := RunOf(done[..n]), Perform(Start(limits, db), done[..n]);
    EffectReceipts(before, done[n]);
    if i < |front| {
      ReceiptGas(limits, db, done[..n], i);
      assert before.receipts[i] == Effect(before, done[n]).receipts[i];
      assert RunOf(done)[..i + 1] == front[..i + 1];
    } else {
      assert done[n].TxAction? && i == |before.receipts|;
      assert RunOf(done)[..i + 1] == RunOf(done);
    }
  }

  /** An effect keeps the receipts; a transaction adds one with the new gas counter. */
  lemma {:induction false} EffectReceipts(b: Block, a: Action)
    ensures b.receipts <= Effect(b, a).receipts
    ensures |Effect(b, a).receipts| == |b.receipts| + |Counted(a)|
    ensures a.TxAction? ==> Effect(b, a).receipts[|b.receipts|].cumulativeGas == Effect(b, a).used.gas
  {
    if a.SystemAction? {
      ShowAllFrame(b, a.entries);
    }
  }

  /** The committed outcomes of a history, each with the length of the history it was run on. */
  function FlightsOf(done: seq<Action>): seq<Flight> {
    if done == [] then [] else FlightsOf(done[..|done| - 1]) + Landed(done[|done| - 1])
  }

  function Landed(a: Action): seq<Flight> {
    match a
    case TxAction(o, at) => [Flight(o, at)]
    case SystemAction(_) => []
  }

  /** A receipt has its transaction's success and logs, and the deposit fields only for a deposit. */
  predicate Reports(r: Receipt, o: Outcome) {
    && r.success == o.exec.success
    && r.logs == o.exec.logs
    && (o.req.tx.isDeposit ==> r.depositNonce == o.depositNonce)
    && (!o.req.tx.isDeposit ==> r.depositNonce == None)
    && r.depositVersion == if r.depositNonce.Some? then Some(1) else None
  }

  lemma {:induction false} CommitReports(b: Block, o: Outcome)
    ensures exists r :: CommitTx(b, o).receipts == b.receipts + [r] && Reports(r, o)
  {
    assert Reports(BuildReceipt(o, Advance(b.used, o.req.tx, o.exec.usage).gas), o);
  }

  /** Receipt `i` of a history is about the `i`-th committed outcome. */
  lemma {:induction false} HistoryReports(b: Block, done: seq<Action>)
    requires b.receipts == []
    ensures AllReport(Perform(b, done).receipts, FlightsOf(done))
  {
    if done != [] {
      var n := |done| - 1;
      HistoryReports(b, done[..n]);
      match done[n]
      case TxAction(o, at) => CommitReports(Perform(b, done[..n]), o);
      case SystemAction(entries) =>
        ShowAllFrame(Perform(b, done[..n]), entries);
        assert FlightsOf(done[..n]) + [] == FlightsOf(done[..n]);
    }
  }

  ghost predicate AllReport(receipts: seq<Receipt>, flights: seq<Flight>) {
    && |receipts| == |flights|
    && forall i :: 0 <= i < |receipts| ==> Reports(receipts[i], flights[i].o)
  }

  /** In every state an interleaving reaches, receipt `i` reports the `i`-th committed outcome. */
  lemma {:induction false} ReceiptsReport(limits: Limits, db: Database, evm: Evm, pool: seq<Flight>, steps: seq<Step>)
    ensures var w := Exec(evm, World(Start(limits, db), pool, []), steps);
            AllReport(w.block.receipts, FlightsOf(w.done))
  {
    Linearizable(limits, db, evm, pool, steps);
    HistoryReports(Start(limits, db), Exec(evm, World(Start(limits, db), pool, []), steps).done);
  }

  /** Receipts carrying the prefix sums of `gas`, never decreasing, ending in the total. */
  ghost predicate PrefixSums(gas: seq<nat>, receipts: seq<Receipt>) {
    && |receipts| == |gas|
    && (forall i :: 0 <= i < |receipts| ==> receipts[i].cumulativeGas == Sum(gas[..i + 1]))
    && (forall i, j :: 0 <= i <= j < |receipts| ==> receipts[i].cumulativeGas <= receipts[j].cumulativeGas)
    && FinalGas(receipts) == Sum(gas)
  }

  lemma {:induction false} PrefixSumsFrom(gas: seq<nat>, receipts: seq<Receipt>)
    requires |receipts| == |gas|
    requires forall i :: 0 <= i < |receipts| ==> receipts[i].cumulativeGas == Sum(gas[..i + 1])
    ensures PrefixSums(gas, receipts)
  {
    forall i, j | 0 <= i <= j < |receipts|
      ensures receipts[i].cumulativeGas <= receipts[j].cumulativeGas
    {
      SumPrefix(gas[..j + 1], i + 1);
      assert gas[..j + 1][..i + 1] == gas[..i + 1];
    }
    assert gas[..|gas|] == gas;
  }

  lemma {:induction false} ReceiptIsPrefixSum(limits: Limits, db: Database, done: seq<Action>, i: nat)
    requires Admitted(limits, RunOf(done)) && GasBounded(RunOf(done)) && limits.blockGas < U64_MAX
    requires i < |RunOf(done)|
    ensures |Perform(Start(limits, db), done).receipts| == |RunOf(done)|
    ensures Perform(Start(limits, db), done).receipts[i].cumulativeGas == Sum(Gas(RunOf(done))[..i + 1])
  {
    ReceiptGas(limits, db, done, i);
    PrefixGas(limits, RunOf(done), i + 1);
  }

  lemma {:induction false} PrefixGas(limits: Limits, run: seq<Committed>, n: nat)
    requires Admitted(limits, run) && GasBounded(run) && limits.blockGas < U64_MAX && n <= |run|
    ensures CountersOf(run[..n]).gas == Sum(Gas(run)[..n])
  {
    AdmittedPrefix(limits, run, n);
    GasNeverLost(limits, run[..n]);
    assert Gas(run[..n]) == Gas(run)[..n];
  }

  /**
   With a real block gas limit the receipts are the prefix sums of the gas used, never decrease, and
   the last one, which `finish` reports, is the total (zero for an empty block).
   */
  lemma {:induction false} ReceiptsArePrefixSums(
    limits: Limits, db: Database, evm: Evm, pool: seq<Flight>, steps: seq<Step>)
    requires HonestEvm(evm) && (forall i :: 0 <= i < |pool| ==> HonestOutcome(pool[i].o)) && limits.blockGas < U64_MAX
    ensures var w := Exec(evm, World(Start(limits, db), pool, []), steps);
            PrefixSums(Gas(RunOf(w.done)), w.block.receipts)
  {
    Linearizable(limits, db, evm, pool, steps);
    GasHonestRuns(limits, db, evm, pool, steps);
    var w := Exec(evm, World(Start(limits, db), pool, []), steps);
    forall i | 0 <= i < |w.block.receipts|
      ensures w.block.receipts[i].cumulativeGas == Sum(Gas(RunOf(w.done))[..i + 1])
    {
      ReceiptIsPrefixSum(limits, db, w.done, i);
    }
    PrefixSumsFrom(Gas(RunOf(w.done)), w.block.receipts);
  }

  /** Every completed step leaves the hook log a complete journal of the database. */
  lemma {:induction false} JournalAlways(limits: Limits, db: Database, evm: Evm, pool: seq<Flight>, steps: seq<Step>)
    ensures var w := Exec(evm, World(Start(limits, db), pool, []), steps);
            Replay(db, w.block.log) == w.block.db && w.block.log == LogOf(w.done)
  {
    Linearizable(limits, db, evm, pool, steps);
    LogIsJournal(limits, db, Exec(evm, World(Start(limits, db), pool, []), steps).done);
  }
}
