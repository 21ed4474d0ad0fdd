/**
 Speculative execution against serial execution: the block executor runs a transaction on whatever
 database it finds and commits it later, on a database that may have moved on. A serial executor runs
 each committed transaction again right before its commit.
 */
module Speculation {
  import opened Common
  import opened BlockLimit
  import opened StateDb
  import opened BlockExecutor
  import opened BlockProtocol

  // ---------------------------------------------------------------------------------------------
  // The serial executor
  // ---------------------------------------------------------------------------------------------

  function SerialSteps(done: seq<Action>): seq<Step> {
    if done == [] then [] else SerialSteps(done[..|done| - 1]) + StepsFor(done[|done| - 1])
  }

  function StepsFor(a: Action): seq<Step> {
    match a
    case TxAction(o, _) => [RunStep(o.req), CommitStep(0)]
    case SystemAction(entries) => [SystemStep(entries)]
  }

  function Serial(evm: Evm, b: Block, done: seq<Action>): World {
    Exec(evm, World(b, [], []), SerialSteps(done))
  }

  /** The history a serial executor with the same outcomes would have. */
  function Serialised(done: seq<Action>): seq<Action> {
    if done == [] then []
    else
      var n := |done| - 1;
      Serialised(done[..n]) + [InPlace(done[n], n)]
  }

  function InPlace(a: Action, at: nat): Action {
    if a.TxAction? then TxAction(a.o, at) else a
  }

  /** Running the transaction again on this database gives the same outcome. */
  predicate SameAgain(evm: Evm, db: Database, o: Outcome) {
    evm(db, o.req) == Ok(o.exec) && o.depositNonce == CachedNonce(db, o.req)
  }

  /** Every committed transaction would have had the same outcome on the database it was committed to. */
  ghost predicate Repeatable(evm: Evm, b: Block, done: seq<Action>) {
    forall i :: 0 <= i < |done| && done[i].TxAction? ==> SameAgain(evm, Perform(b, done[..i]).db, done[i].o)
  }

  lemma {:induction false} RepeatableFront(evm: Evm, b: Block, done: seq<Action>)
    requires done != []
    ensures var n := |done| - 1;
            Repeatable(evm, b, done) <==>
            Repeatable(evm, b, done[..n]) && (done[n].TxAction? ==> SameAgain(evm, Perform(b, done[..n]).db, done[n].o))
  {
    var n := |done| - 1;
    assert forall i :: 0 <= i < n ==> done[..n][..i] == done[..i] && done[..n][i] == done[i];
  }

  lemma {:induction false} ExecTwo(evm: Evm, w: World, steps: seq<Step>, s: Step, t: Step)
    ensures Exec(evm, w, steps + [s]) == Next(evm, Exec(evm, w, steps), s)
    ensures Exec(evm, w, steps + [s, t]) == Next(evm, Next(evm, Exec(evm, w, steps), s), t)
  {
    assert (steps + [s])[..|steps|] == steps;
    assert (steps + [s, t])[..|steps| + 1] == steps + [s];
  }

  /** One transaction of the serial executor. */
  function SerialTx(evm: Evm, w: World, req: Request): World {
    var r := Run(w.block, req, evm(w.block.db, req));
    if r.Err? then w else World(CommitTx(w.block, r.value), [], w.done + [TxAction(r.value, |w.done|)])
  }

  lemma {:induction false} RunAndCommit(evm: Evm, w: World, req: Request)
    requires w.pool == []
    ensures Next(evm, Next(evm, w, RunStep(req)), CommitStep(0)) == SerialTx(evm, w, req)
  {
    var r := Run(w.block, req, evm(w.block.db, req));
    if r.Ok? {
      var f := Flight(r.value, |w.done|);
      assert w.pool + [f] == [f];
      assert [f][..0] + [f][1..] == [];
    }
  }

  /** The serial executor does one action after the other and never has anything left in flight. */
  lemma {:induction false} SerialStep(evm: Evm, b: Block, done: seq<Action>)
    requires done != []
    ensures Serial(evm, b, done[..|done| - 1]).pool == []
    ensures Serial(evm, b, done).pool == []
    ensures var front, last := Serial(evm, b, done[..|done| - 1]), done[|done| - 1];
            Serial(evm, b, done) ==
            if last.TxAction? then SerialTx(evm, front, last.o.req)
            else World(ShowAll(front.block, last.entries), [], front.done + [last])
  {
    var n := |done| - 1;
    var front := done[..n];
    if front != [] {
      SerialStep(evm, b, front);
    }
    var w0 := World(b, [], []);
    match done[n]
    case TxAction(o, _) =>
      ExecTwo(evm, w0, SerialSteps(front), RunStep(o.req), CommitStep(0));
      RunAndCommit(evm, Serial(evm, b, front), o.req);
    case SystemAction(entries) =>
      ExecTwo(evm, w0, SerialSteps(front), SystemStep(entries), SystemStep(entries));
  }

  lemma LastAdmitted(limits: Limits, run: seq<Committed>, last: Committed)
    requires Admitted(limits, run + [last])
    ensures Check(limits, CountersOf(run), last.tx).None?
  {
    assert (run + [last])[..|run|] == run && (run + [last])[|run|] == last;
    assert Check(limits, CountersOf((run + [last])[..|run|]), (run + [last])[|run|].tx).None?;
  }

  /** The front of an admitted history is admitted, and its last transaction passes the check there. */
  lemma {:induction false} AdmittedFront(limits: Limits, db: Database, done: seq<Action>)
    requires done != [] && Admitted(limits, RunOf(done))
    ensures var n := |done| - 1;
            var front := Perform(Start(limits, db), done[..n]);
            && Admitted(limits, RunOf(done[..n]))
            && (done[n].TxAction? ==> Check(front.limits, front.used, done[n].o.req.tx).None?)
  {
    var n := |done| - 1;
    RunOfPrefix(done, n);
    AdmittedPrefix(limits, RunOf(done), |RunOf(done[..n])|);
    assert RunOf(done)[..|RunOf(done[..n])|] == RunOf(done[..n]);
    HistoryCounters(limits, db, done[..n]);
    if done[n].TxAction? {
      LastAdmitted(limits, RunOf(done[..n]), Committed(done[n].o.req.tx, done[n].o.exec.usage));
    }
  }

  /** The serial executor reproduces a history exactly when every transaction is repeatable. */
  lemma {:induction false} SerialExact(evm: Evm, limits: Limits, db: Database, done: seq<Action>)
    requires Admitted(limits, RunOf(done))
    ensures var b := Start(limits, db);
            && |Serial(evm, b, done).done| <= |done| == |Serialised(done)|
            && (Repeatable(evm, b, done) <==> Serial(evm, b, done).done == Serialised(done))
            && (Repeatable(evm, b, done) ==> Serial(evm, b, done).block == Perform(b, done))
  {
    if done != [] {
      var b, n := Start(limits, db), |done| - 1;
      AdmittedFront(limits, db, done);
      SerialExact(evm, limits, db, done[..n]);
      SerialStep(evm, b, done);
      RepeatableFront(evm, b, done);
      ExtendSame(Serial(evm, b, done[..n]).done, Serialised(done[..n]), Serial(evm, b, done).done, InPlace(done[n], n));
      if Repeatable(evm, b, done[..n]) {
        SameState(evm, Serial(evm, b, done[..n]), Perform(b, done[..n]), done[n], n);
      }
    }
  }

  /** A history that grows by at most one action equals a longer one only by growing like it. */
  lemma {:induction false} ExtendSame(front: seq<Action>, goal: seq<Action>, all: seq<Action>, last: Action)
    requires |front| <= |goal| && front <= all && |all| <= |front| + 1
    ensures all == goal + [last] ==> front == goal
  {
    if all == goal + [last] {
      assert front == all[..|front|] == goal;
    }
  }

  lemma {:induction false} SameState(evm: Evm, w: World, b: Block, a: Action, n: nat)
    requires w.block == b && |w.done| == n
    requires a.TxAction? ==> Check(b.limits, b.used, a.o.req.tx).None?
    ensures var next := if a.TxAction? then SerialTx(evm, w, a.o.req)
                        else World(ShowAll(w.block, a.entries), [], w.done + [a]);
            && (next.done == w.done + [InPlace(a, n)] <==> (a.TxAction? ==> SameAgain(evm, b.db, a.o)))
            && (next.done == w.done + [InPlace(a, n)] ==> next.block == Effect(b, a))
  {
    if a.TxAction? {
      var r := Run(b, a.o.req, evm(b.db, a.o.req));
      if r.Ok? {
        var mine, other := w.done + [TxAction(r.value, n)], w.done + [TxAction(a.o, n)];
        assert mine == other ==> mine[n] == other[n];
        assert SameAgain(evm, b.db, a.o) <==> r.value == a.o;
      }
    }
  }

  /**
   For every EVM and every interleaving over any pool: running each committed transaction again right
   before its commit reproduces the history, and with it the limiter, receipts, log and database, if
   and only if every committed outcome is what its transaction yields on the database of its commit.
   */
  lemma {:induction false} SpeculationMatchesSerial(
    evm: Evm, limits: Limits, db: Database, pool: seq<Flight>, steps: seq<Step>)
    ensures var b := Start(limits, db);
            var w := Exec(evm, World(b, pool, []), steps);
            && (Serial(evm, b, w.done).done == Serialised(w.done) <==> Repeatable(evm, b, w.done))
            && (Repeatable(evm, b, w.done) ==> Serial(evm, b, w.done).block == w.block)
  {
    Linearizable(limits, db, evm, pool, steps);
    SerialExact(evm, limits, db, Exec(evm, World(Start(limits, db), pool, []), steps).done);
  }

  // ---------------------------------------------------------------------------------------------
  // Conflicts
  // ---------------------------------------------------------------------------------------------

  function InfoAt(d: Database, a: Address): Option<Info> {
    if a in d then Some(d[a].info) else None
  }

  /** The databases agree on what an execution read: the infos it loaded, the slots it returned, its signer. */
  ghost predicate SameReads(d: Database, e: Database, req: Request, x: Executed) {
    && InfoOf(d, req.signer) == InfoOf(e, req.signer)
    && (forall a :: a in x.loaded ==> InfoAt(d, a) == InfoAt(e, a))
    && (forall a :: a in x.state ==> SameSlots(d, e, a, x.state[a]))
  }

  ghost predicate SameSlots(d: Database, e: Database, a: Address, acc: Account) {
    forall s :: s in acc.storage ==> ReadSlot(StorageOf(d, a), s) == ReadSlot(StorageOf(e, a), s)
  }

  /** The result of an execution depends on nothing but what it read. */
  ghost predicate DependsOnReads(evm: Evm) {
    forall d, e, req :: evm(d, req).Ok? && SameReads(d, e, req, evm(d, req).value) ==> evm(e, req) == evm(d, req)
  }

  /** An execution records what it read: loaded infos, its signer's among them, and original slot values. */
  ghost predicate Records(d: Database, req: Request, x: Executed) {
    && req.signer in x.loaded
    && (forall a :: a in x.loaded ==> x.loaded[a] == InfoAt(d, a))
    && (forall a :: a in x.state ==> RecordsSlots(d, a, x.state[a]))
  }

  ghost predicate RecordsSlots(d: Database, a: Address, acc: Account) {
    forall s :: s in acc.storage ==> acc.storage[s].original == ReadSlot(StorageOf(d, a), s)
  }

  ghost predicate RecordsReads(evm: Evm) {
    forall d, req :: evm(d, req).Ok? ==> Records(d, req, evm(d, req).value)
  }

  /** So equal results come from databases that agree on what was read. */
  lemma {:induction false} RecordedTwice(d: Database, e: Database, req: Request, x: Executed)
    requires Records(d, req, x) && Records(e, req, x)
    ensures SameReads(d, e, req, x)
  {
    assert InfoAt(d, req.signer) == InfoAt(e, req.signer);
    forall a | a in x.state ensures SameSlots(d, e, a, x.state[a]) {
      assert RecordsSlots(d, a, x.state[a]) && RecordsSlots(e, a, x.state[a]);
    }
  }

  /** Nothing a committed transaction read changed between its run and its commit. */
  ghost predicate Undisturbed(b: Block, done: seq<Action>) {
    forall i :: 0 <= i < |done| && done[i].TxAction? ==> StillSame(b, done, i)
  }

  ghost predicate StillSame(b: Block, done: seq<Action>, i: nat)
    requires i < |done| && done[i].TxAction?
  {
    && done[i].at <= i
    && SameReads(Perform(b, done[..done[i].at]).db, Perform(b, done[..i]).db, done[i].o.req, done[i].o.exec)
  }

  /** The outcome was produced by the EVM on the history of its run. */
  ghost predicate RanOn(evm: Evm, b: Block, done: seq<Action>, o: Outcome, at: nat) {
    at <= |done| && SameAgain(evm, Perform(b, done[..at]).db, o)
  }

  ghost predicate AllRan(evm: Evm, b: Block, w: World) {
    && (forall k :: 0 <= k < |w.pool| ==> RanOn(evm, b, w.done, w.pool[k].o, w.pool[k].at))
    && (forall i :: 0 <= i < |w.done| && w.done[i].TxAction? ==> RanOn(evm, b, w.done[..i], w.done[i].o, w.done[i].at))
  }

  lemma {:induction false} RanOnLonger(evm: Evm, b: Block, done: seq<Action>, a: Action, o: Outcome, at: nat)
    requires RanOn(evm, b, done, o, at)
    ensures RanOn(evm, b, done + [a], o, at)
  {
    assert (done + [a])[..at] == done[..at];
  }

  lemma {:induction false} GrownRan(evm: Evm, b: Block, w: World, pool: seq<Flight>, a: Action, block: Block)
    requires AllRan(evm, b, w)
    requires forall k :: 0 <= k < |pool| ==> pool[k] in w.pool
    requires a.TxAction? ==> RanOn(evm, b, w.done, a.o, a.at)
    ensures AllRan(evm, b, World(block, pool, w.done + [a]))
  {
    var done := w.done + [a];
    forall k | 0 <= k < |pool| ensures RanOn(evm, b, done, pool[k].o, pool[k].at) {
      assert pool[k] in w.pool;
      var m :| 0 <= m < |w.pool| && w.pool[m] == pool[k];
      RanOnLonger(evm, b, w.done, a, pool[k].o, pool[k].at);
    }
    forall i | 0 <= i < |done| && done[i].TxAction? ensures RanOn(evm, b, done[..i], done[i].o, done[i].at) {
      assert i < |w.done| ==> done[..i] == w.done[..i] && done[i] == w.done[i];
      assert i == |w.done| ==> done[..i] == w.done;
    }
  }

  lemma {:induction false} NextRan(evm: Evm, b: Block, w: World, s: Step)
    requires AllRan(evm, b, w) && w.block == Perform(b, w.done)
    ensures AllRan(evm, b, Next(evm, w, s))
  {
    match s
    case RunStep(req) =>
      assert w.done[..|w.done|] == w.done;
    case CommitStep(k) =>
      if k < |w.pool| {
        CommitRan(evm, b, w, k);
      }
    case SystemStep(entries) =>
      GrownRan(evm, b, w, w.pool, SystemAction(entries), ShowAll(w.block, entries));
  }

  lemma {:induction false} CommitRan(evm: Evm, b: Block, w: World, k: nat)
    requires AllRan(evm, b, w) && k < |w.pool|
    ensures AllRan(evm, b, Next(evm, w, CommitStep(k)))
  {
    var f, rest := w.pool[k], w.pool[..k] + w.pool[k + 1..];
    forall m | 0 <= m < |rest| ensures rest[m] in w.pool {
      assert rest[m] == w.pool[if m < k then m else m + 1];
    }
    assert RanOn(evm, b, w.done, f.o, f.at);
    GrownRan(evm, b, w, rest, TxAction(f.o, f.at), CommitTx(w.block, f.o));
    RestRan(evm, b, w, rest);
  }

  lemma {:induction false} RestRan(evm: Evm, b: Block, w: World, rest: seq<Flight>)
    requires AllRan(evm, b, w) && forall m :: 0 <= m < |rest| ==> rest[m] in w.pool
    ensures AllRan(evm, b, w.(pool := rest))
  {
    forall k | 0 <= k < |rest| ensures RanOn(evm, b, w.done, rest[k].o, rest[k].at) {
      assert rest[k] in w.pool;
      var m :| 0 <= m < |w.pool| && w.pool[m] == rest[k];
    }
  }

  /** Every outcome of a block was run by the EVM on some earlier state of that block. */
  lemma {:induction false} Provenance(evm: Evm, limits: Limits, db: Database, steps: seq<Step>)
    ensures AllRan(evm, Start(limits, db), Exec(evm, World(Start(limits, db), [], []), steps))
  {
    if steps != [] {
      var n, b := |steps| - 1, Start(limits, db);
      Provenance(evm, limits, db, steps[..n]);
      Linearizable(limits, db, evm, [], steps[..n]);
      NextRan(evm, b, Exec(evm, World(b, [], []), steps[..n]), steps[n]);
    }
  }

  /** A committed outcome, its position in the history, and where in the history it was run. */
  lemma {:induction false} FlightRan(evm: Evm, b: Block, done: seq<Action>, i: nat)
    requires i < |FlightsOf(done)|
    requires forall j :: 0 <= j < |done| && done[j].TxAction? ==> RanOn(evm, b, done[..j], done[j].o, done[j].at)
    ensures var f := FlightsOf(done)[i];
            f.at <= |done| && SameAgain(evm, Perform(b, done[..f.at]).db, f.o)
    decreases |done|
  {
    var n := |done| - 1;
    var front := done[..n];
    if i < |FlightsOf(front)| {
      forall j | 0 <= j < |front| && front[j].TxAction?
        ensures RanOn(evm, b, front[..j], front[j].o, front[j].at)
      {
        assert RanOn(evm, b, done[..j], done[j].o, done[j].at);
        assert front[..j] == done[..j];
      }
      FlightRan(evm, b, front, i);
      assert front[..FlightsOf(done)[i].at] == done[..FlightsOf(done)[i].at];
    } else {
      assert done[n].TxAction? && RanOn(evm, b, done[..n], done[n].o, done[n].at);
      assert done[..n][..done[n].at] == done[..done[n].at];
    }
  }

  /** A receipt in terms of the execution behind it: `db` is the database the transaction was run on. */
  predicate ReportsRun(evm: Evm, db: Database, req: Request, r: Receipt) {
    && evm(db, req).Ok?
    && r.success == evm(db, req).value.success
    && r.logs == evm(db, req).value.logs
    && (req.tx.isDeposit ==> r.depositVersion == Some(1) && r.depositNonce == Some(InfoOf(db, req.signer).nonce))
    && (!req.tx.isDeposit ==> r.depositVersion == None && r.depositNonce == None)
  }

  /**
   Receipts tell what ran: in every state a block reaches, receipt `i` has the success and logs the EVM
   returned on the database the `i`-th committed transaction was run on, and it is a deposit receipt, with
   version 1 and the nonce the signer had there, exactly when the transaction is a deposit.
   */
  lemma {:induction false} ReceiptsTellRuns(evm: Evm, limits: Limits, db: Database, steps: seq<Step>, i: nat)
    requires i < |Exec(evm, World(Start(limits, db), [], []), steps).block.receipts|
    ensures var b := Start(limits, db);
            var w := Exec(evm, World(b, [], []), steps);
            && |w.block.receipts| == |FlightsOf(w.done)|
            && FlightsOf(w.done)[i].at <= |w.done|
            && ReportsRun(evm, Perform(b, w.done[..FlightsOf(w.done)[i].at]).db, FlightsOf(w.done)[i].o.req,
                          w.block.receipts[i])
  {
    var b := Start(limits, db);
    var w := Exec(evm, World(b, [], []), steps);
    ReceiptsReport(limits, db, evm, [], steps);
    Provenance(evm, limits, db, steps);
    FlightRan(evm, b, w.done, i);
    assert Reports(w.block.receipts[i], FlightsOf(w.done)[i].o);
  }

  lemma {:induction false} UndisturbedRepeats(evm: Evm, b: Block, done: seq<Action>, i: nat)
    requires i < |done| && done[i].TxAction? && RanOn(evm, b, done[..i], done[i].o, done[i].at)
    ensures DependsOnReads(evm) && StillSame(b, done, i) ==> SameAgain(evm, Perform(b, done[..i]).db, done[i].o)
    ensures RecordsReads(evm) && SameAgain(evm, Perform(b, done[..i]).db, done[i].o) ==> StillSame(b, done, i)
  {
    var o, at := done[i].o, done[i].at;
    assert done[..i][..at] == done[..at];
    var d, e := Perform(b, done[..at]).db, Perform(b, done[..i]).db;
    assert evm(d, o.req) == Ok(o.exec);
    if RecordsReads(evm) && SameAgain(evm, e, o) {
      RecordedTwice(d, e, o.req, o.exec);
    }
  }

  /**
   Conflict freedom: if results depend only on what was read, a block in which nothing a committed
   transaction read changed before its commit equals serial execution in every respect. If moreover
   executions record what they read, this is exactly when the histories agree.
   */
  lemma {:induction false} ConflictFreeIsSerial(evm: Evm, limits: Limits, db: Database, steps: seq<Step>)
    requires DependsOnReads(evm)
    ensures var b := Start(limits, db);
            var w := Exec(evm, World(b, [], []), steps);
            && (Undisturbed(b, w.done) ==>
                  Serial(evm, b, w.done).block == w.block && Serial(evm, b, w.done).done == Serialised(w.done))
            && (RecordsReads(evm) ==>
                  (Undisturbed(b, w.done) <==> Serial(evm, b, w.done).done == Serialised(w.done)))
  {
    var b := Start(limits, db);
    var w := Exec(evm, World(b, [], []), steps);
    Provenance(evm, limits, db, steps);
    SpeculationMatchesSerial(evm, limits, db, [], steps);
    forall i | 0 <= i < |w.done| && w.done[i].TxAction?
      ensures StillSame(b, w.done, i) ==> SameAgain(evm, Perform(b, w.done[..i]).db, w.done[i].o)
      ensures RecordsReads(evm) && SameAgain(evm, Perform(b, w.done[..i]).db, w.done[i].o) ==>
              StillSame(b, w.done, i)
    {
      UndisturbedRepeats(evm, b, w.done, i);
    }
  }

  // ---------------------------------------------------------------------------------------------
  // A condition on the states alone
  // ---------------------------------------------------------------------------------------------

  /** The accounts an action may change. */
  predicate Mentions(a: Action, x: Address) {
    match a
    case TxAction(o, _) => x in o.exec.state
    case SystemAction(entries) => exists k :: 0 <= k < |entries| && x in entries[k].state
  }

  predicate Reads(o: Outcome, x: Address) {
    x == o.req.signer || x in o.exec.state || x in o.exec.loaded
  }

  /** No action between a transaction's run and its commit mentions an account it read. */
  ghost predicate Disjoint(done: seq<Action>) {
    forall i, k :: 0 <= i < |done| && done[i].TxAction? && done[i].at <= k < i ==>
                     forall x :: Reads(done[i].o, x) ==> !Mentions(done[k], x)
  }

  lemma {:induction false} ReplayKeeps(db: Database, log: seq<HookEntry>, x: Address)
    requires forall k :: 0 <= k < |log| ==> x !in log[k].state
    ensures Lookup(Replay(db, log), x) == Lookup(db, x)
  {
    if log != [] {
      var n := |log| - 1;
      ReplayKeeps(db, log[..n], x);
      CommitPointwise(Replay(db, log[..n]), log[n].state, x);
    }
  }

  lemma {:induction false} EffectKeeps(b: Block, a: Action, x: Address)
    requires !Mentions(a, x)
    ensures Lookup(Effect(b, a).db, x) == Lookup(b.db, x)
  {
    match a
    case TxAction(o, _) => CommitPointwise(b.db, o.exec.state, x);
    case SystemAction(entries) =>
      ShowAllFrame(b, entries);
      ReplayKeeps(b.db, entries, x);
  }

  lemma {:induction false} HistoryKeeps(b: Block, done: seq<Action>, m: nat, n: nat, x: Address)
    requires m <= n <= |done| && forall k :: m <= k < n ==> !Mentions(done[k], x)
    ensures Lookup(Perform(b, done[..n]).db, x) == Lookup(Perform(b, done[..m]).db, x)
    decreases n
  {
    if m < n {
      HistoryKeeps(b, done, m, n - 1, x);
      assert done[..n] == done[..n - 1] + [done[n - 1]];
      PerformAppend(b, done[..n - 1], done[n - 1]);
      EffectKeeps(Perform(b, done[..n - 1]), done[n - 1], x);
    }
  }

  /** Disjoint accounts suffice, so a scheduler can tell from the returned states alone. */
  lemma {:induction false} DisjointIsSerial(evm: Evm, limits: Limits, db: Database, steps: seq<Step>)
    requires DependsOnReads(evm)
    requires Disjoint(Exec(evm, World(Start(limits, db), [], []), steps).done)
    ensures var b := Start(limits, db);
            var w := Exec(evm, World(b, [], []), steps);
            Serial(evm, b, w.done).block == w.block
  {
    var b := Start(limits, db);
    var w := Exec(evm, World(b, [], []), steps);
    Provenance(evm, limits, db, steps);
    forall i | 0 <= i < |w.done| && w.done[i].TxAction? ensures StillSame(b, w.done, i) {
      DisjointStillSame(b, w.done, i);
    }
    ConflictFreeIsSerial(evm, limits, db, steps);
  }

  lemma {:induction false} DisjointStillSame(b: Block, done: seq<Action>, i: nat)
    requires i < |done| && done[i].TxAction? && done[i].at <= i && Disjoint(done)
    ensures StillSame(b, done, i)
  {
    var o, at := done[i].o, done[i].at;
    forall x | Reads(o, x) ensures Lookup(Perform(b, done[..i]).db, x) == Lookup(Perform(b, done[..at]).db, x) {
      HistoryKeeps(b, done, at, i, x);
    }
    assert Reads(o, o.req.signer);
    assert forall a :: a in o.exec.state || a in o.exec.loaded ==> Reads(o, a);
  }

  // ---------------------------------------------------------------------------------------------
  // What goes wrong otherwise
  // ---------------------------------------------------------------------------------------------

  lemma {:induction false} ExecFour(evm: Evm, w: World, p: Step, q: Step, r: Step, s: Step)
    ensures Exec(evm, w, [p, q, r, s]) == Next(evm, Next(evm, Next(evm, Next(evm, w, p), q), r), s)
  {
    ExecTwo(evm, w, [], p, q);
    assert [] + [p, q] == [p, q];
    ExecTwo(evm, w, [p, q], r, s);
    assert [p, q] + [r, s] == [p, q, r, s];
  }

  lemma {:induction false} RunNext(evm: Evm, w: World, req: Request, x: Executed)
    requires Check(w.block.limits, w.block.used, req.tx).None? && evm(w.block.db, req) == Ok(x)
    ensures Next(evm, w, RunStep(req)) ==
            w.(pool := w.pool + [Flight(Outcome(req, x, CachedNonce(w.block.db, req)), |w.done|)])
  {
  }

  lemma {:induction false} CommitNext(evm: Evm, w: World, f: Flight, rest: seq<Flight>)
    requires w.pool == [f] + rest && Check(w.block.limits, w.block.used, f.o.req.tx).None?
    ensures Next(evm, w, CommitStep(0)) == World(CommitTx(w.block, f.o), rest, w.done + [TxAction(f.o, f.at)])
  {
    assert w.pool[..0] + w.pool[1..] == rest;
  }

  /** Two transactions the limiter admits one after the other. */
  predicate BothFit(limits: Limits, p: Request, x: Executed, q: Request) {
    && Check(limits, ZERO, p.tx).None? && Check(limits, ZERO, q.tx).None?
    && Check(limits, Advance(ZERO, p.tx, x.usage), q.tx).None?
  }

  function BothFirst(p: Request, q: Request): seq<Step> {
    [RunStep(p), RunStep(q), CommitStep(0), CommitStep(0)]
  }

  /** Running both transactions before committing either. */
  lemma {:induction false} RunBothFirst(
    evm: Evm, limits: Limits, db: Database, p: Request, x: Executed, q: Request, y: Executed)
    requires BothFit(limits, p, x, q) && evm(db, p) == Ok(x) && evm(db, q) == Ok(y)
    ensures var b := Start(limits, db);
            var o, u := Outcome(p, x, CachedNonce(db, p)), Outcome(q, y, CachedNonce(db, q));
            Exec(evm, World(b, [], []), BothFirst(p, q)) ==
            World(CommitTx(CommitTx(b, o), u), [], [TxAction(o, 0), TxAction(u, 0)])
  {
    var b := Start(limits, db);
    var f := Flight(Outcome(p, x, CachedNonce(db, p)), 0);
    var g := Flight(Outcome(q, y, CachedNonce(db, q)), 0);
    var w0 := World(b, [], []);
    ExecFour(evm, w0, RunStep(p), RunStep(q), CommitStep(0), CommitStep(0));
    RunNext(evm, w0, p, x);
    assert [] + [f] == [f];
    RunNext(evm, w0.(pool := [f]), q, y);
    assert [f] + [g] == [f, g];
    CommitNext(evm, World(b, [f, g], []), f, [g]);
    assert [g] == [g] + [];
    var a := TxAction(f.o, 0);
    assert [] + [a] == [a];
    CommitNext(evm, World(CommitTx(b, f.o), [g], [a]), g, []);
    assert [a] + [TxAction(g.o, 0)] == [a, TxAction(g.o, 0)];
  }

  /** The serial executor on the same two transactions, the second on what the first left. */
  lemma {:induction false} SerialTwo(
    evm: Evm, limits: Limits, db: Database, p: Request, x: Executed, q: Request, u: Outcome)
    requires BothFit(limits, p, x, q) && evm(db, p) == Ok(x) && u.req == q
    ensures var b := Start(limits, db);
            var o := Outcome(p, x, CachedNonce(db, p));
            var c := CommitTx(b, o);
            var done := [TxAction(o, 0), TxAction(u, 0)];
            Serial(evm, b, done).block ==
            if evm(c.db, q).Err? then c else CommitTx(c, Outcome(q, evm(c.db, q).value, CachedNonce(c.db, q)))
  {
    var b := Start(limits, db);
    var o := Outcome(p, x, CachedNonce(db, p));
    var first, done := [TxAction(o, 0)], [TxAction(o, 0), TxAction(u, 0)];
    SerialStep(evm, b, done);
    assert done[..1] == first;
    SerialStep(evm, b, first);
    assert first[..0] == [];
    assert Serial(evm, b, []) == World(b, [], []);
  }

  /** An EVM in which every transaction pays `n` out of one account. */
  function Pay(payer: Address, n: nat, usage: Usage): Evm {
    (db: Database, req: Request) =>
      if InfoOf(db, payer).balance < n then Err(0) else Ok(Paid(db, req, payer, n, usage))
  }

  function Paid(db: Database, req: Request, payer: Address, n: nat, usage: Usage): Executed
    requires InfoOf(db, payer).balance >= n
  {
    var info := InfoOf(db, payer);
    Executed(usage, true, [],
             map[payer := Account(info.(balance := info.balance - n), map[], true, false, false)],
             map[req.signer := InfoAt(db, req.signer), payer := InfoAt(db, payer)])
  }

  /** It depends on what it reads and records it. */
  lemma {:induction false} PayReads(payer: Address, n: nat, usage: Usage)
    ensures DependsOnReads(Pay(payer, n, usage)) && RecordsReads(Pay(payer, n, usage))
  {
    var evm := Pay(payer, n, usage);
    forall d, e, req | evm(d, req).Ok? && SameReads(d, e, req, evm(d, req).value)
      ensures evm(e, req) == evm(d, req)
    {
      var x := Paid(d, req, payer, n, usage);
      assert payer in x.loaded && req.signer in x.loaded;
      PaidSame(d, e, req, payer, n, usage);
    }
  }

  lemma PaidSame(d: Database, e: Database, req: Request, payer: Address, n: nat, usage: Usage)
    requires InfoOf(d, payer).balance >= n
    requires InfoAt(d, payer) == InfoAt(e, payer) && InfoAt(d, req.signer) == InfoAt(e, req.signer)
    ensures InfoOf(e, payer).balance >= n && Paid(d, req, payer, n, usage) == Paid(e, req, payer, n, usage)
  {
    assert InfoOf(d, payer) == InfoOf(e, payer);
  }

  lemma PaidOver(db: Database, base: Database, req: Request, payer: Address, n: nat, usage: Usage)
    requires InfoOf(db, payer).balance >= n
    ensures InfoOf(Commit(base, Paid(db, req, payer, n, usage).state), payer) ==
            InfoOf(db, payer).(balance := InfoOf(db, payer).balance - n)
  {
    CommitPointwise(base, Paid(db, req, payer, n, usage).state, payer);
  }

  /** Both payments, run first or one at a time. */
  lemma {:induction false} TwoPayments(
    limits: Limits, db: Database, payer: Address, n: nat, usage: Usage, p: Request, q: Request)
    requires 2 * n <= InfoOf(db, payer).balance
    requires BothFit(limits, p, Paid(db, p, payer, n, usage), q)
    ensures var evm, b := Pay(payer, n, usage), Start(limits, db);
            var w := Exec(evm, World(b, [], []), BothFirst(p, q));
            && |w.done| == 2
            && InfoOf(w.block.db, payer).balance == InfoOf(db, payer).balance - n
            && InfoOf(Serial(evm, b, w.done).block.db, payer).balance == InfoOf(db, payer).balance - 2 * n
  {
    var evm, b := Pay(payer, n, usage), Start(limits, db);
    var x, y := Paid(db, p, payer, n, usage), Paid(db, q, payer, n, usage);
    RunBothFirst(evm, limits, db, p, x, q, y);
    var o, u := Outcome(p, x, CachedNonce(db, p)), Outcome(q, y, CachedNonce(db, q));
    var c := CommitTx(b, o);
    PaidOver(db, c.db, q, payer, n, usage);
    SerialTwo(evm, limits, db, p, x, q, u);
    PaidOver(db, db, p, payer, n, usage);
    PaidOver(c.db, c.db, q, payer, n, usage);
  }

  /**
   Lost update: two payments out of one account, both run before either is committed, take the amount
   once; run and committed one at a time they take it twice. The conflict shows in what they read.
   */
  lemma {:induction false} LostUpdate(
    limits: Limits, db: Database, payer: Address, n: nat, usage: Usage, p: Request, q: Request)
    requires n > 0 && 2 * n <= InfoOf(db, payer).balance
    requires BothFit(limits, p, Paid(db, p, payer, n, usage), q)
    ensures var evm, b := Pay(payer, n, usage), Start(limits, db);
            var w := Exec(evm, World(b, [], []), BothFirst(p, q));
            && InfoOf(w.block.db, payer).balance == InfoOf(db, payer).balance - n
            && InfoOf(Serial(evm, b, w.done).block.db, payer).balance == InfoOf(db, payer).balance - 2 * n
            && !Undisturbed(b, w.done)
  {
    TwoPayments(limits, db, payer, n, usage, p, q);
    PayReads(payer, n, usage);
    ConflictFreeIsSerial(Pay(payer, n, usage), limits, db, BothFirst(p, q));
  }

  /**
   Stale nonce: two deposits of one signer, both run before either is committed. Whenever the first
   changes the signer's nonce the second receipt carries the old one, and serial execution gives
   different receipts whatever the EVM then returns.
   */
  lemma {:induction false} StaleNonce(
    evm: Evm, limits: Limits, db: Database, p: Request, x: Executed, q: Request, y: Executed)
    requires p.tx.isDeposit && q.tx.isDeposit && p.signer == q.signer
    requires BothFit(limits, p, x, q) && evm(db, p) == Ok(x) && evm(db, q) == Ok(y)
    requires InfoOf(Commit(db, x.state), p.signer).nonce != InfoOf(db, p.signer).nonce
    ensures var b := Start(limits, db);
            var w := Exec(evm, World(b, [], []), BothFirst(p, q));
            && |w.block.receipts| == 2 && w.block.receipts[1].depositNonce == Some(InfoOf(db, p.signer).nonce)
            && Serial(evm, b, w.done).block.receipts != w.block.receipts
  {
    var b := Start(limits, db);
    RunBothFirst(evm, limits, db, p, x, q, y);
    var o, u := Outcome(p, x, CachedNonce(db, p)), Outcome(q, y, CachedNonce(db, q));
    SerialTwo(evm, limits, db, p, x, q, u);
    var c := CommitTx(b, o);
    if evm(c.db, q).Ok? {
      var again := Outcome(q, evm(c.db, q).value, CachedNonce(c.db, q));
      assert CommitTx(c, again).receipts[1].depositNonce == Some(InfoOf(c.db, q.signer).nonce);
    }
  }
}
