/**
 What the pre-block phase leaves outside the registry account: the block hashes, the beacon root and the
 flat system contracts each end up in the database, and each was shown to the state hook as what it is.
 */
module PreBlockState {
  import opened Common
  import opened StateDb
  import opened SequencerRegistry
  import opened BlockExecutor
  import opened PreBlockRegistry

  /** Of several states only one mentions the account. */
  ghost predicate OnlyIn(sts: seq<EvmState>, k: nat, a: Address) {
    k < |sts| && forall i :: 0 <= i < |sts| && i != k ==> a !in sts[i]
  }

  /** Then that one decides what becomes of it. */
  lemma {:induction false} OnlyMention(db: Database, sts: seq<EvmState>, k: nat, a: Address)
    requires OnlyIn(sts, k, a)
    ensures Lookup(CommitAll(db, sts), a) == After(db, sts[k], a)
    decreases |sts|
  {
    var n := |sts| - 1;
    if k < n {
      OnlyMention(db, sts[..n], k, a);
    } else {
      CommitAllUntouched(db, sts[..n], a);
    }
    CommitPointwise(CommitAll(db, sts[..n]), sts[n], a);
  }

  ghost predicate InHashes(p: PreBlock, a: Address) {
    p.blockHashes.Ok? && p.blockHashes.value.Some? && a in p.blockHashes.value.value.1
  }

  ghost predicate InRoot(p: PreBlock, a: Address) {
    p.beaconRoot.Ok? && p.beaconRoot.value.Some? && a in p.beaconRoot.value.value.1
  }

  ghost predicate IsContract(p: PreBlock, a: Address) {
    exists i :: 0 <= i < |p.contracts| && p.contracts[i].address == a
  }

  /** The registry part has nothing to do with the account. */
  ghost predicate OutsideRegistry(p: PreBlock, db: Database, a: Address) {
    a != REGISTRY && (ApplyDue(db, p.env.number).0 && p.apply.Ok? ==> a !in p.apply.value)
  }

  lemma {:induction false} RegistryOutside(env: Env, db: Database, apply: Result<EvmState, PreBlockError>, a: Address)
    requires env.rex5Config.Some? && a != REGISTRY
    requires ApplyDue(db, env.number).0 && apply.Ok? ==> a !in apply.value
    requires RegistryOutcomes(env, db, env.rex5Config.value, apply).Ok?
    ensures var sts := RegistryOutcomes(env, db, env.rex5Config.value, apply).value;
            forall i :: 0 <= i < |sts| ==> a !in sts[i]
  {
  }

  /** An account mentioned by one entry only ends up as that entry says. */
  lemma {:induction false} EntryDecides(db: Database, log: seq<HookEntry>, k: nat, a: Address)
    requires k < |log| && forall i :: 0 <= i < |log| && i != k ==> a !in log[i].state
    ensures Lookup(Replay(db, log), a) == After(db, log[k].state, a)
  {
    ReplayIsCommitAll(db, log);
    OnlyMention(db, States(log), k, a);
  }

  /** The outcomes are the early entries, followed by some that leave the account alone. */
  lemma {:induction false} EarlyFirst(p: PreBlock, db: Database, a: Address)
    requires PreBlockOutcomes(p, db).Ok? && OutsideRegistry(p, db, a)
    ensures var all := PreBlockOutcomes(p, db).value;
            && Early(p, db) <= all
            && forall i :: |Early(p, db)| <= i < |all| ==> a !in all[i].state
  {
    OutcomesExact(p, db);
    if p.env.rex5 {
      RegistryOutside(p.env, db, p.apply, a);
    }
  }

  /** Every outcome is shown, in order, after what was shown before. */
  lemma {:induction false} PhaseLog(p: PreBlock, b: Block)
    requires PreBlockOutcomes(p, b.db).Ok?
    ensures b.log + PreBlockOutcomes(p, b.db).value <= PreBlockPhase(p, b).1.log
  {
    ShowAllFrame(b, PreBlockOutcomes(p, b.db).value);
  }

  /** What the phase shows and commits, entry by entry. */
  lemma {:induction false} PhaseEntry(p: PreBlock, b: Block, early: seq<HookEntry>, k: nat, a: Address)
    requires PreBlockOutcomes(p, b.db).Ok? && OutsideRegistry(p, b.db, a) && early == Early(p, b.db)
    requires k < |early| && forall i :: 0 <= i < |early| && i != k ==> a !in early[i].state
    ensures ShownAndCommitted(p, b, early[k].source, early[k].state, a)
  {
    EarlyFirst(p, b.db, a);
    EntryDecides(b.db, PreBlockOutcomes(p, b.db).value, k, a);
    PhaseDatabase(p, b);
    PhaseLog(p, b);
    assert PreBlockPhase(p, b).1.log[|b.log| + k] == early[k];
  }

  /** The phase showed `state` to the hook under `source` and committed what it says of `a`. */
  ghost predicate ShownAndCommitted(p: PreBlock, b: Block, source: Source, state: EvmState, a: Address) {
    var after := PreBlockPhase(p, b).1;
    && Lookup(after.db, a) == After(b.db, state, a)
    && exists k :: |b.log| <= k < |after.log| && after.log[k] == HookEntry(source, state)
  }

  /** Block hashes: whatever the call wrote to an account nobody else writes is in the database. */
  lemma {:induction false} HashesCommitted(p: PreBlock, b: Block, a: Address)
    requires PreBlockOutcomes(p, b.db).Ok? && OutsideRegistry(p, b.db, a)
    requires InHashes(p, a) && !InRoot(p, a) && !IsContract(p, a)
    ensures ShownAndCommitted(p, b, BlockHashes, p.blockHashes.value.value.1, a)
  {
    OutcomesExact(p, b.db);
    DeploysOutside(p, b.db, a);
    assert Early(p, b.db)[0] == HookEntry(BlockHashes, p.blockHashes.value.value.1);
    PhaseEntry(p, b, Early(p, b.db), 0, a);
  }

  /** The beacon root likewise. */
  lemma {:induction false} RootCommitted(p: PreBlock, b: Block, a: Address)
    requires PreBlockOutcomes(p, b.db).Ok? && OutsideRegistry(p, b.db, a)
    requires InRoot(p, a) && !InHashes(p, a) && !IsContract(p, a)
    ensures ShownAndCommitted(p, b, BeaconRoot, p.beaconRoot.value.value.1, a)
  {
    OutcomesExact(p, b.db);
    DeploysOutside(p, b.db, a);
    var k := if p.blockHashes.value.Some? then 1 else 0;
    assert Early(p, b.db)[k] == HookEntry(BeaconRoot, p.beaconRoot.value.value.1);
    PhaseEntry(p, b, Early(p, b.db), k, a);
  }

  lemma {:induction false} DeploysOutside(p: PreBlock, db: Database, a: Address)
    requires !IsContract(p, a)
    ensures forall i :: 0 <= i < |p.contracts| ==> a !in Entries(Deploys(db, p.contracts))[i].state
  {
    forall i | 0 <= i < |p.contracts| ensures a !in Entries(Deploys(db, p.contracts))[i].state {
      assert p.contracts[i].address != a;
    }
  }

  /**
   The flat contracts: each one, at an address of its own, ends with its code, balance and nonce kept, and
   the storage it had, or its seed alone if it is new or forced to be.
   */
  lemma {:induction false} ContractInstalled(p: PreBlock, b: Block, i: nat, s: Slot)
    requires PreBlockOutcomes(p, b.db).Ok? && i < |p.contracts| && OutsideRegistry(p, b.db, p.contracts[i].address)
    requires !InHashes(p, p.contracts[i].address) && !InRoot(p, p.contracts[i].address)
    requires forall j :: 0 <= j < |p.contracts| && j != i ==> p.contracts[j].address != p.contracts[i].address
    ensures var spec := p.contracts[i];
            var after := PreBlockPhase(p, b).1.db;
            var found := spec.address in b.db && b.db[spec.address].info.code == spec.code;
            var created := spec.address !in b.db || spec.forceCreate;
            && InfoOf(after, spec.address) == InfoOf(b.db, spec.address).(code := spec.code)
            && (found ==> Lookup(after, spec.address) == Lookup(b.db, spec.address))
            && (!found && created ==> SeedOnly(spec.seed, StorageOf(after, spec.address), s))
            && (!found && !created && spec.code != NoCode ==>
                  StorageOf(after, spec.address) == b.db[spec.address].storage)
  {
    var k := ContractEntry(p, b.db, i);
    PhaseEntry(p, b, Early(p, b.db), k, p.contracts[i].address);
    DeployMeaning(b.db, b.db, p.contracts[i], s);
    CommitPointwise(b.db, TransactDeploy(b.db, p.contracts[i]), p.contracts[i].address);
  }

  /** The entry of a contract is the only early one to mention its address. */
  lemma {:induction false} ContractEntry(p: PreBlock, db: Database, i: nat) returns (k: nat)
    requires i < |p.contracts| && !InHashes(p, p.contracts[i].address) && !InRoot(p, p.contracts[i].address)
    requires forall j :: 0 <= j < |p.contracts| && j != i ==> p.contracts[j].address != p.contracts[i].address
    ensures k < |Early(p, db)| && Early(p, db)[k] == HookEntry(Transaction(0), TransactDeploy(db, p.contracts[i]))
    ensures forall j :: 0 <= j < |Early(p, db)| && j != k ==> p.contracts[i].address !in Early(p, db)[j].state
  {
    var early, deploys := Early(p, db), Entries(Deploys(db, p.contracts));
    var calls := |early| - |deploys|;
    k := calls + i;
    assert early[k] == deploys[i];
    forall j | 0 <= j < |early| && j != k ensures p.contracts[i].address !in early[j].state {
      if j >= calls {
        assert early[j] == deploys[j - calls] && p.contracts[j - calls].address != p.contracts[i].address;
      }
    }
  }

  // ---------------------------------------------------------------------------------------------
  // Errors
  // ---------------------------------------------------------------------------------------------

  /** The registry cannot be deployed, kept or upgraded. */
  predicate DeployFails(env: Env, db: Database) {
    (env.rex6 && env.minRotationDelay.None?) || !CodeFits(env, db)
  }

  /** The apply call is made and errs. */
  predicate ApplyFails(p: PreBlock, db: Database) {
    ApplyDue(db, p.env.number).0 && p.apply.Err?
  }

  /** The first thing that goes wrong; before Rex6 the deploy comes before the apply call, from then on after. */
  function FirstFailure(p: PreBlock, db: Database): PreBlockError {
    if p.blockHashes.Err? then p.blockHashes.error
    else if p.blockHashes.value.Some? && p.env.rex5 && !p.blockHashes.value.value.0 then BlockHashesCallFailed
    else if p.beaconRoot.Err? then p.beaconRoot.error
    else if p.beaconRoot.value.Some? && p.env.rex5 && !p.beaconRoot.value.value.0 then BeaconRootCallFailed
    else if p.env.rex5Config.None? then MissingRex5Config
    else if ApplyFails(p, db) && (p.env.rex6 || !DeployFails(p.env, db)) then p.apply.error
    else if p.env.rex6 && p.env.minRotationDelay.None? then MissingRex6Config
    else ForeignCode(InfoOf(db, REGISTRY).code)
  }

  /** Collecting the outcomes fails with that. */
  lemma {:induction false} ErrorsInOrder(p: PreBlock, b: Block)
    requires PreBlockOutcomes(p, b.db).Err?
    ensures PreBlockPhase(p, b) == (Err(FirstFailure(p, b.db)), b)
  {
    OutcomesExact(p, b.db);
    if CallsFine(p) && p.env.rex5Config.Some? {
      RegistryError(p.env, b.db, p.env.rex5Config.value);
    }
  }

  lemma {:induction false} RegistryError(env: Env, db: Database, config: Config)
    requires env.rex5
    ensures DeployRegistry(env, db, config).Err? <==> DeployFails(env, db)
    ensures DeployRegistry(env, db, config).Err? ==>
              DeployRegistry(env, db, config).error ==
              if env.rex6 && env.minRotationDelay.None? then MissingRex6Config
              else ForeignCode(InfoOf(db, REGISTRY).code)
  {
  }
}
