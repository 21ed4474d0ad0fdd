/**
 The block executor (`crates/mega-evm/src/block/executor.rs`): transactions are run speculatively,
 in any order and number, and committed later; the commit re-checks the limits because the block may
 have moved on. Every committed state is first shown to the state hook.

 The EVM is a parameter: what an execution returns is an argument of the run step.
 */
module BlockExecutor {
  import opened Common
  import opened BlockLimit
  import opened StateDb
  import opened SequencerRegistry
  import opened BalanceIncrements

  datatype Source = BlockHashes | BeaconRoot | Transaction(index: nat) | PostBlockIncrements

  /** One call of the state hook; also one system-call outcome waiting to be committed. */
  datatype HookEntry = HookEntry(source: Source, state: EvmState)

  datatype Request = Request(tx: Tx, signer: Address)

  /**
   What executing a transaction comes to: its usage, success, logs and state, and the account infos it
   loaded from the database on the way (`None` for an absent account).
   */
  datatype Executed = Executed(
    usage: Usage, success: bool, logs: seq<nat>, state: EvmState, loaded: map<Address, Option<Info>>)

  /** An executed, uncommitted transaction; a deposit remembers its signer's nonce. */
  datatype Outcome = Outcome(req: Request, exec: Executed, depositNonce: Option<nat>)

  datatype Receipt = Receipt(
    success: bool, cumulativeGas: u64, logs: seq<nat>, depositVersion: Option<nat>, depositNonce: Option<nat>)

  datatype Failure = Refused(refusal: Refusal) | EvmError(code: nat)

  /** The executor's state: limiter, receipts, hook log, database. */
  datatype Block = Block(limits: Limits, used: Counters, receipts: seq<Receipt>, log: seq<HookEntry>, db: Database)

  // ---------------------------------------------------------------------------------------------
  // The operations on values
  // ---------------------------------------------------------------------------------------------

  function CachedNonce(db: Database, req: Request): Option<nat> {
    if req.tx.isDeposit then Some(InfoOf(db, req.signer).nonce) else None
  }

  /** Check, then execute; the block is not changed. */
  function Run(b: Block, req: Request, evm: Result<Executed, nat>): Result<Outcome, Failure> {
    var check := Check(b.limits, b.used, req.tx);
    if check.Some? then Err(Refused(check.value))
    else if evm.Err? then Err(EvmError(evm.error))
    else Ok(Outcome(req, evm.value, CachedNonce(b.db, req)))
  }

  /** A run fails exactly when a limit is violated or the EVM errs, and a violated limit comes first. */
  lemma RunExact(b: Block, req: Request, evm: Result<Executed, nat>)
    ensures Run(b, req, evm).Ok? <==> Admissible(b.limits, b.used, req.tx) && evm.Ok?
    ensures Run(b, req, evm) == Err(EvmError(if evm.Err? then evm.error else 0)) <==>
            Admissible(b.limits, b.used, req.tx) && evm.Err?
    ensures Run(b, req, evm).Ok? ==> Run(b, req, evm).value.req == req && Run(b, req, evm).value.exec == evm.value
  {
    CheckExact(b.limits, b.used, req.tx);
  }

  /** Deposits get a deposit receipt, with the Canyon version and the cached nonce. */
  function BuildReceipt(o: Outcome, cumulative: u64): Receipt {
    if o.req.tx.isDeposit then
      Receipt(o.exec.success, cumulative, o.exec.logs, if o.depositNonce.Some? then Some(1) else None, o.depositNonce)
    else
      Receipt(o.exec.success, cumulative, o.exec.logs, None, None)
  }

  function CommitTx(b: Block, o: Outcome): Block {
    var used := Advance(b.used, o.req.tx, o.exec.usage);
    Block(b.limits, used,
          b.receipts + [BuildReceipt(o, used.gas)],
          b.log + [HookEntry(Transaction(|b.receipts|), o.exec.state)],
          Commit(b.db, o.exec.state))
  }

  function Show(b: Block, e: HookEntry): Block {
    b.(log := b.log + [e], db := Commit(b.db, e.state))
  }

  function ShowAll(b: Block, es: seq<HookEntry>): Block {
    if es == [] then b else Show(ShowAll(b, es[..|es| - 1]), es[|es| - 1])
  }

  lemma ShowAllNext(b: Block, es: seq<HookEntry>, i: nat)
    requires i < |es|
    ensures ShowAll(b, es[..i + 1]) == Show(ShowAll(b, es[..i]), es[i])
  {
    assert es[..i + 1][..i] == es[..i];
  }

  /** Replaying the log over a database: every logged state, in order. */
  function Replay(db: Database, log: seq<HookEntry>): Database {
    if log == [] then db else Commit(Replay(db, log[..|log| - 1]), log[|log| - 1].state)
  }

  lemma ReplayAppend(db: Database, log: seq<HookEntry>, e: HookEntry)
    ensures Replay(db, log + [e]) == Commit(Replay(db, log), e.state)
  {
    assert (log + [e])[..|log|] == log;
  }

  /** System entries never touch the limiter or the receipts. */
  lemma {:induction false} ShowAllFrame(b: Block, es: seq<HookEntry>)
    ensures ShowAll(b, es) == b.(log := b.log + es, db := Replay(b.db, es))
  {
    if es != [] {
      ShowAllFrame(b, es[..|es| - 1]);
      assert es[..|es| - 1] + [es[|es| - 1]] == es;
      assert b.log + es[..|es| - 1] + [es[|es| - 1]] == b.log + es;
    } else {
      assert b.log + es == b.log;
    }
  }

  // ---------------------------------------------------------------------------------------------
  // The pre-block list
  // ---------------------------------------------------------------------------------------------

  /** Everything `pre_execution_changes` obtains from the EVM and the chain configuration. */
  datatype PreBlock = PreBlock(
    env: Env,
    blockHashes: Result<Option<(bool, EvmState)>, PreBlockError>,
    beaconRoot: Result<Option<(bool, EvmState)>, PreBlockError>,
    contracts: seq<ContractSpec>,
    apply: Result<EvmState, PreBlockError>)

  /** An error of the call itself is passed on; from Rex5 on a call that did not succeed is one too. */
  function SystemCall(
    p: PreBlock, call: Result<Option<(bool, EvmState)>, PreBlockError>, source: Source, error: PreBlockError)
    : Result<seq<HookEntry>, PreBlockError>
  {
    if call.Err? then Err(call.error)
    else if call.value.None? then Ok([])
    else if p.env.rex5 && !call.value.value.0 then Err(error)
    else Ok([HookEntry(source, call.value.value.1)])
  }

  function Entries(sts: seq<EvmState>): seq<HookEntry> {
    seq(|sts|, i requires 0 <= i < |sts| => HookEntry(Transaction(0), sts[i]))
  }

  function Deploys(db: Database, specs: seq<ContractSpec>): seq<EvmState> {
    seq(|specs|, i requires 0 <= i < |specs| => TransactDeploy(db, specs[i]))
  }

  /** The outcomes of the whole pre-block phase in push order. */
  function PreBlockOutcomes(p: PreBlock, db: Database): Result<seq<HookEntry>, PreBlockError> {
    var hashes := SystemCall(p, p.blockHashes, BlockHashes, BlockHashesCallFailed);
    if hashes.Err? then hashes
    else
      var root := SystemCall(p, p.beaconRoot, BeaconRoot, BeaconRootCallFailed);
      if root.Err? then root
      else
        var early := hashes.value + root.value + Entries(Deploys(db, p.contracts));
        if !p.env.rex5 then Ok(early)
        else if p.env.rex5Config.None? then Err(MissingRex5Config)
        else
          var registry := RegistryOutcomes(p.env, db, p.env.rex5Config.value, p.apply);
          if registry.Err? then Err(registry.error) else Ok(early + Entries(registry.value))
  }

  /** Commit the outcomes, then read the system address; errors while collecting commit nothing. */
  function PreBlockPhase(p: PreBlock, b: Block): (Result<Address, PreBlockError>, Block) {
    var outcomes := PreBlockOutcomes(p, b.db);
    if outcomes.Err? then (Err(outcomes.error), b)
    else
      var shown := ShowAll(b, outcomes.value);
      var resolved := ResolveSystemAddress(p.env, shown.db);
      if resolved.Err? then (Err(resolved.error), shown)
      else
        var seen := resolved.value.1;
        (Ok(resolved.value.0), if seen.Some? then Show(shown, HookEntry(Transaction(0), seen.value)) else shown)
  }

  // ---------------------------------------------------------------------------------------------
  // The executor object
  // ---------------------------------------------------------------------------------------------

  class MegaBlockExecutor {
    const limiter: BlockLimiter
    var receipts: seq<Receipt>
    var log: seq<HookEntry>
    var db: Database
    ghost const initialDb: Database

    function View(): Block
      reads this, limiter
    {
      Block(limiter.limits, limiter.Used(), receipts, log, db)
    }

    /** The log is a complete journal of the database. */
    ghost predicate Valid()
      reads this, limiter
    {
      db == Replay(initialDb, log)
    }

    constructor (limits: Limits, db: Database)
      ensures fresh(limiter) && Valid()
      ensures View() == Block(limits, ZERO, [], [], db) && initialDb == db
    {
      limiter := new BlockLimiter(limits);
      receipts, log := [], [];
      this.db := db;
      initialDb := db;
    }

    method RunTransaction(req: Request, evm: Result<Executed, nat>) returns (r: Result<Outcome, Failure>)
      ensures r == Run(View(), req, evm)
    {
      var check := limiter.PreExecutionCheck(req.tx);
      if check.Some? {
        return Err(Refused(check.value));
      }
      var depositor := if req.tx.isDeposit then Some(InfoOf(db, req.signer).nonce) else None;
      match evm {
        case Err(e) => return Err(EvmError(e));
        case Ok(x) => return Ok(Outcome(req, x, depositor));
      }
    }

    /** A refused outcome changes nothing; an admitted one is counted, logged, receipted, committed. */
    method CommitTransactionOutcome(o: Outcome) returns (r: Result<u64, Refusal>)
      requires Valid()
      modifies this, limiter
      ensures Valid()
      ensures match Check(limiter.limits, old(limiter.Used()), o.req.tx)
              case Some(refusal) => r == Err(refusal) && View() == old(View())
              case None => r == Ok(o.exec.usage.gas) && View() == CommitTx(old(View()), o)
    {
      var check := limiter.PreExecutionCheck(o.req.tx);
      if check.Some? {
        return Err(check.value);
      }
      limiter.PostExecutionUpdate(o.req.tx, o.exec.usage);
      ReplayAppend(initialDb, log, HookEntry(Transaction(|receipts|), o.exec.state));
      log := log + [HookEntry(Transaction(|receipts|), o.exec.state)];
      receipts := receipts + [BuildReceipt(o, limiter.gasUsed)];
      db := Commit(db, o.exec.state);
      return Ok(o.exec.usage.gas);
    }

    /** Run and, if the caller's condition on the result says so, commit at once. */
    method ExecuteTransaction(req: Request, evm: Result<Executed, nat>, shouldCommit: bool)
      returns (r: Result<Option<u64>, Failure>)
      requires Valid()
      modifies this, limiter
      ensures Valid()
      ensures match Run(old(View()), req, evm)
              case Err(e) => r == Err(e) && View() == old(View())
              case Ok(o) =>
                if shouldCommit then r == Ok(Some(o.exec.usage.gas)) && View() == CommitTx(old(View()), o)
                else r == Ok(None) && View() == old(View())
    {
      var run := RunTransaction(req, evm);
      if run.Err? {
        return Err(run.error);
      }
      if !shouldCommit {
        return Ok(None);
      }
      var done := CommitTransactionOutcome(run.value);
      match done {
        case Ok(gas) => return Ok(Some(gas));
        case Err(refusal) => return Err(Refused(refusal));
      }
    }

    method CommitSystemCallOutcomes(outcomes: seq<HookEntry>)
      requires Valid()
      modifies this
      ensures Valid()
      ensures View() == ShowAll(old(View()), outcomes)
    {
      for i := 0 to |outcomes|
        invariant Valid()
        invariant View() == ShowAll(old(View()), outcomes[..i])
      {
        ReplayAppend(initialDb, log, outcomes[i]);
        ShowAllNext(old(View()), outcomes, i);
        log := log + [outcomes[i]];
        db := Commit(db, outcomes[i].state);
      }
      assert outcomes[..|outcomes|] == outcomes;
    }

    /** Collects the pre-block outcomes; nothing is committed, whether it succeeds or not. */
    method PreExecutionChanges(p: PreBlock) returns (r: Result<seq<HookEntry>, PreBlockError>)
      ensures r == PreBlockOutcomes(p, db)
    {
      var outcomes: seq<HookEntry> := [];
      if p.blockHashes.Err? {
        return Err(p.blockHashes.error);
      }
      var hashes := p.blockHashes.value;
      if hashes.Some? {
        if p.env.rex5 && !hashes.value.0 {
          return Err(BlockHashesCallFailed);
        }
        outcomes := outcomes + [HookEntry(BlockHashes, hashes.value.1)];
      }
      if p.beaconRoot.Err? {
        return Err(p.beaconRoot.error);
      }
      var root := p.beaconRoot.value;
      if root.Some? {
        if p.env.rex5 && !root.value.0 {
          return Err(BeaconRootCallFailed);
        }
        outcomes := outcomes + [HookEntry(BeaconRoot, root.value.1)];
      }
      ghost var calls := outcomes;
      assert calls == SystemCall(p, p.blockHashes, BlockHashes, BlockHashesCallFailed).value
                      + SystemCall(p, p.beaconRoot, BeaconRoot, BeaconRootCallFailed).value;
      for i := 0 to |p.contracts|
        invariant outcomes == calls + Entries(Deploys(db, p.contracts[..i]))
      {
        outcomes := outcomes + [HookEntry(Transaction(0), TransactDeploy(db, p.contracts[i]))];
      }
      assert p.contracts[..|p.contracts|] == p.contracts;
      if !p.env.rex5 {
        return Ok(outcomes);
      }
      if p.env.rex5Config.None? {
        return Err(MissingRex5Config);
      }
      var deploy := DeployRegistry(p.env, db, p.env.rex5Config.value);
      var registry := RegistryChanges(p.env.rex6, deploy, ApplyDue(db, p.env.number), p.apply);
      if registry.Err? {
        return Err(registry.error);
      }
      return Ok(outcomes + registry.value);
    }

    /** The registry part: deploy first before Rex6, last from Rex6 on. */
    method RegistryChanges(
      rex6: bool, deploy: Result<Option<EvmState>, PreBlockError>, gate: (bool, EvmState),
      apply: Result<EvmState, PreBlockError>)
      returns (r: Result<seq<HookEntry>, PreBlockError>)
      ensures match Pushed(rex6, deploy, gate, apply)
              case Err(e) => r == Err(e)
              case Ok(sts) => r == Ok(Entries(sts))
    {
      var outcomes: seq<HookEntry> := [];
      if !rex6 {
        if deploy.Err? {
          return Err(deploy.error);
        }
        outcomes := outcomes + Entries(Optional(deploy.value));
      }
      outcomes := outcomes + [HookEntry(Transaction(0), gate.1)];
      if gate.0 {
        if apply.Err? {
          return Err(apply.error);
        }
        outcomes := outcomes + [HookEntry(Transaction(0), apply.value)];
      }
      if rex6 {
        if deploy.Err? {
          return Err(deploy.error);
        }
        outcomes := outcomes + Entries(Optional(deploy.value));
      }
      assert outcomes == Entries(InOrder(rex6, deploy.value, gate.1, if gate.0 then Some(apply.value) else None));
      return Ok(outcomes);
    }

    /** Pre-block: commit the collected outcomes, then read the block's system address. */
    method ApplyPreExecutionChanges(p: PreBlock) returns (r: Result<Address, PreBlockError>)
      requires Valid()
      modifies this
      ensures Valid()
      ensures (r, View()) == PreBlockPhase(p, old(View()))
    {
      var outcomes := PreExecutionChanges(p);
      if outcomes.Err? {
        return Err(outcomes.error);
      }
      CommitSystemCallOutcomes(outcomes.value);
      var resolved := ResolveSystemAddress(p.env, db);
      if resolved.Err? {
        return Err(resolved.error);
      }
      var (address, seen) := resolved.value;
      if seen.Some? {
        ReplayAppend(initialDb, log, HookEntry(Transaction(0), seen.value));
        log := log + [HookEntry(Transaction(0), seen.value)];
        db := Commit(db, seen.value);
      }
      return Ok(address);
    }

    /** Post-block: commit the balance increments and report the last cumulative gas, or zero. */
    method Finish(incs: Increments) returns (all: seq<Receipt>, gasUsed: u64)
      requires Valid()
      modifies this
      ensures Valid()
      ensures View() == Show(old(View()), HookEntry(PostBlockIncrements, Delta(incs, old(db))))
      ensures all == receipts && gasUsed == FinalGas(receipts)
    {
      var st := TransactBalanceIncrements(incs, db);
      assert st == Delta(incs, db);
      CommitSystemCallOutcomes([HookEntry(PostBlockIncrements, st)]);
      assert [HookEntry(PostBlockIncrements, st)][..0] == [];
      return receipts, if receipts == [] then 0 else receipts[|receipts| - 1].cumulativeGas;
    }
  }

  function FinalGas(receipts: seq<Receipt>): u64 {
    if receipts == [] then 0 else receipts[|receipts| - 1].cumulativeGas
  }
}
