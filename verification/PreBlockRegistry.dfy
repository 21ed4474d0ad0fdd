/**
 The pre-block phase of the block executor as a whole: block hashes, beacon root, flat system
 contracts and the sequencer registry are committed in push order, then the system address is read.
 */
module PreBlockRegistry {
  import opened Common
  import opened StateDb
  import opened SequencerRegistry
  import opened BlockExecutor

  /** Both system calls went through; from Rex5 on they also have to succeed. */
  predicate CallsFine(p: PreBlock) {
    && p.blockHashes.Ok? && (p.blockHashes.value.Some? && p.env.rex5 ==> p.blockHashes.value.value.0)
    && p.beaconRoot.Ok? && (p.beaconRoot.value.Some? && p.env.rex5 ==> p.beaconRoot.value.value.0)
  }

  /** The system calls and the flat contracts have nothing to do with the registry account. */
  ghost predicate RegistryApart(p: PreBlock) {
    && (p.blockHashes.Ok? && p.blockHashes.value.Some? ==> REGISTRY !in p.blockHashes.value.value.1)
    && (p.beaconRoot.Ok? && p.beaconRoot.value.Some? ==> REGISTRY !in p.beaconRoot.value.value.1)
    && (forall i :: 0 <= i < |p.contracts| ==> p.contracts[i].address != REGISTRY)
  }

  /** If the apply call is made and returns a state, it is what the contract does. */
  ghost predicate ApplyFaithful(p: PreBlock, db: Database) {
    ApplyDue(db, p.env.number).0 && p.apply.Ok? ==> IsApplyOutcome(db, p.env.number, p.apply.value)
  }

  /** What the registry account and the configuration must be like, from the Rex5 rules on. */
  predicate RegistryFine(p: PreBlock, db: Database) {
    && p.env.rex5Config.Some? && ExpectedSystemAddress(p.env, db) != 0
    && if p.env.rex5 then
         && Configured(p.env) && CodeFits(p.env, db) && !LosesDeploy(p.env, db)
         && (ApplyDue(db, p.env.number).0 ==> p.apply.Ok?)
       else InfoOf(db, REGISTRY).code == RegistryV2
  }

  function States(log: seq<HookEntry>): seq<EvmState> {
    seq(|log|, i requires 0 <= i < |log| => log[i].state)
  }

  lemma {:induction false} ReplayIsCommitAll(db: Database, log: seq<HookEntry>)
    ensures Replay(db, log) == CommitAll(db, States(log))
  {
    if log != [] {
      var n := |log| - 1;
      ReplayIsCommitAll(db, log[..n]);
      assert States(log)[..n] == States(log[..n]);
    }
  }

  /** The entries before the registry's. */
  function Early(p: PreBlock, db: Database): seq<HookEntry> {
    var hashes := SystemCall(p, p.blockHashes, BlockHashes, BlockHashesCallFailed);
    var root := SystemCall(p, p.beaconRoot, BeaconRoot, BeaconRootCallFailed);
    (if hashes.Ok? then hashes.value else []) + (if root.Ok? then root.value else []) +
        Entries(Deploys(db, p.contracts))
  }

  lemma {:induction false} EarlyApart(p: PreBlock, db: Database)
    requires RegistryApart(p)
    ensures forall i :: 0 <= i < |Early(p, db)| ==> REGISTRY !in Early(p, db)[i].state
  {
    var deploys := Entries(Deploys(db, p.contracts));
    forall i | 0 <= i < |deploys| ensures REGISTRY !in deploys[i].state {
      assert deploys[i].state == TransactDeploy(db, p.contracts[i]);
    }
  }

  /** Entries that leave the registry alone, followed by registry states, act on it like the latter. */
  lemma {:induction false} AfterEarly(db: Database, early: seq<HookEntry>, sts: seq<EvmState>)
    requires forall i :: 0 <= i < |early| ==> REGISTRY !in early[i].state
    ensures Lookup(Replay(db, early + Entries(sts)), REGISTRY) == Lookup(CommitAll(db, sts), REGISTRY)
  {
    ReplayIsCommitAll(db, early + Entries(sts));
    assert States(early + Entries(sts)) == States(early) + sts;
    CommitAllConcat(db, States(early), sts);
    CommitAllUntouched(db, States(early), REGISTRY);
    CommitAllAt(CommitAll(db, States(early)), db, sts, REGISTRY);
  }

  /** Resolving looks at the registry account only, and reading it back changes nothing. */
  lemma {:induction false} ResolveAt(env: Env, d: Database, e: Database)
    requires Lookup(d, REGISTRY) == Lookup(e, REGISTRY)
    ensures ResolveSystemAddress(env, d) == ResolveSystemAddress(env, e)
    ensures InfoOf(d, REGISTRY) == InfoOf(e, REGISTRY) && StorageOf(d, REGISTRY) == StorageOf(e, REGISTRY)
  {
  }

  lemma {:induction false} ReadBackChangesNothing(env: Env, db: Database)
    ensures var r := ResolveSystemAddress(env, db);
            r.Ok? && r.value.1.Some? ==> Commit(db, r.value.1.value) == db
  {
    var r := ResolveSystemAddress(env, db);
    if r.Ok? && r.value.1.Some? {
      WitnessChangesNothing(db, r.value.1.value);
    }
  }

  /** What the phase leaves: the database of the committed outcomes, whether or not the address is found. */
  lemma {:induction false} PhaseDatabase(p: PreBlock, b: Block)
    requires PreBlockOutcomes(p, b.db).Ok?
    ensures var final := Replay(b.db, PreBlockOutcomes(p, b.db).value);
            var resolved := ResolveSystemAddress(p.env, final);
            && PreBlockPhase(p, b).1.db == final
            && PreBlockPhase(p, b).0 == if resolved.Ok? then Ok(resolved.value.0) else Err(resolved.error)
    ensures PreBlockPhase(p, b).1.used == b.used && PreBlockPhase(p, b).1.receipts == b.receipts
  {
    ShowAllFrame(b, PreBlockOutcomes(p, b.db).value);
    ReadBackChangesNothing(p.env, Replay(b.db, PreBlockOutcomes(p, b.db).value));
  }

  /** The registry outcomes of the phase are those of a faithful apply call. */
  lemma {:induction false} FaithfulOutcomes(p: PreBlock, db: Database) returns (apply: EvmState)
    requires ApplyFaithful(p, db) && p.env.rex5Config.Some?
    requires ApplyDue(db, p.env.number).0 ==> p.apply.Ok?
    ensures IsApplyOutcome(db, p.env.number, apply)
    ensures RegistryOutcomes(p.env, db, p.env.rex5Config.value, p.apply) ==
            RegistryOutcomes(p.env, db, p.env.rex5Config.value, Ok(apply))
  {
    apply := if ApplyDue(db, p.env.number).0 then p.apply.value else ApplyOutcome(db, p.env.number);
  }

  /** When collecting the outcomes succeeds, and what they are. */
  lemma {:induction false} OutcomesExact(p: PreBlock, db: Database)
    ensures PreBlockOutcomes(p, db).Ok? <==>
            CallsFine(p) && (p.env.rex5 ==> p.env.rex5Config.Some? && Configured(p.env) && CodeFits(p.env, db)
                                            && (ApplyDue(db, p.env.number).0 ==> p.apply.Ok?))
    ensures PreBlockOutcomes(p, db).Ok? && !p.env.rex5 ==> PreBlockOutcomes(p, db).value == Early(p, db)
    ensures PreBlockOutcomes(p, db).Ok? && p.env.rex5 ==>
              var registry := RegistryOutcomes(p.env, db, p.env.rex5Config.value, p.apply);
              registry.Ok? && PreBlockOutcomes(p, db).value == Early(p, db) + Entries(registry.value)
  {
    if p.env.rex5 && p.env.rex5Config.Some? {
      DeployExact(p.env, db);
    }
  }

  /** From Rex5 on: what reading the address finds after the collected outcomes. */
  lemma {:induction false} PhaseFromRex5(p: PreBlock, b: Block)
    requires p.env.rex5 && RegistryApart(p) && ApplyFaithful(p, b.db) && PreBlockOutcomes(p, b.db).Ok?
    ensures Configured(p.env)
    ensures PreBlockPhase(p, b).0.Ok? <==> !LosesDeploy(p.env, b.db) && ExpectedSystemAddress(p.env, b.db) != 0
    ensures PreBlockPhase(p, b).0.Ok? ==>
              && PreBlockPhase(p, b).0 == Ok(ExpectedSystemAddress(p.env, b.db))
              && EndsAsExpected(p.env, b.db, PreBlockPhase(p, b).1.db)
  {
    var env, db := p.env, b.db;
    OutcomesExact(p, db);
    var apply := FaithfulOutcomes(p, db);
    var registry := RegistryOutcomes(env, db, env.rex5Config.value, Ok(apply));
    PhaseDatabase(p, b);
    EarlyApart(p, db);
    AfterEarly(db, Early(p, db), registry.value);
    ResolveAt(env, PreBlockPhase(p, b).1.db, CommitAll(db, registry.value));
    ResolveExact(env, db, apply);
    RegistryEnds(env, db, apply);
  }

  /** Rex6 without Rex5: nothing touches the registry account. */
  lemma {:induction false} PhaseWithoutRex5(p: PreBlock, b: Block)
    requires !p.env.rex5 && RegistryApart(p) && CallsFine(p)
    ensures Lookup(PreBlockPhase(p, b).1.db, REGISTRY) == Lookup(b.db, REGISTRY)
    ensures var r := ResolveSystemAddress(p.env, b.db);
            PreBlockPhase(p, b).0 == if r.Ok? then Ok(r.value.0) else Err(r.error)
  {
    OutcomesExact(p, b.db);
    PhaseDatabase(p, b);
    EarlyApart(p, b.db);
    assert Early(p, b.db) + Entries([]) == Early(p, b.db);
    AfterEarly(b.db, Early(p, b.db), []);
    ResolveAt(p.env, PreBlockPhase(p, b).1.db, b.db);
  }

  /**
   The pre-block phase succeeds if and only if both system calls go through and, under the Rex5 rules,
   the forks are configured, the registry account has code that can be kept, upgraded or deployed
   over, a due apply call returns, no deploy is lost to it, and the address in force is not zero.
   Then it returns that address, and from Rex5 on the registry ends with the code of the fork and
   every slot seeded, applied or upgraded as expected. Counters and receipts are never touched, and
   an error while collecting changes nothing at all.
   */
  lemma {:induction false} PreBlockExact(p: PreBlock, b: Block)
    requires RegistryApart(p) && ApplyFaithful(p, b.db)
    ensures PreBlockPhase(p, b).0.Ok? <==> CallsFine(p) && (SpecRex5(p.env) ==> RegistryFine(p, b.db))
    ensures PreBlockPhase(p, b).0.Ok? ==>
              && PreBlockPhase(p, b).0 == Ok(ExpectedSystemAddress(p.env, b.db))
              && (p.env.rex5 ==> Configured(p.env) && EndsAsExpected(p.env, b.db, PreBlockPhase(p, b).1.db))
    ensures PreBlockPhase(p, b).1.used == b.used && PreBlockPhase(p, b).1.receipts == b.receipts
    ensures PreBlockOutcomes(p, b.db).Err? ==> PreBlockPhase(p, b).1 == b
  {
    OutcomesExact(p, b.db);
    if PreBlockOutcomes(p, b.db).Ok? {
      PhaseDatabase(p, b);
      if p.env.rex5 {
        PhaseFromRex5(p, b);
      } else {
        PhaseWithoutRex5(p, b);
      }
    }
  }

  /**
   A fresh registry by the contract's storage layout: the fixed system address in force and as the first of
   its history, the configured sequencer in force and as the first of its history, the configured admin, the
   block the history starts at, from Rex6 on the rotation delay, and nothing else.
   */
  ghost predicate HoldsInitialRoles(env: Env, st: map<Slot, Word>)
    requires Configured(env)
  {
    && ReadSlot(st, Flat(0)) == MEGA_SYSTEM_ADDRESS && ReadSlot(st, Flat(4)) == MEGA_SYSTEM_ADDRESS
    && ReadSlot(st, Flat(1)) == env.rex5Config.value.sequencer
    && ReadSlot(st, Flat(5)) == env.rex5Config.value.sequencer
    && ReadSlot(st, Flat(2)) == env.rex5Config.value.admin
    && ReadSlot(st, Flat(6)) == env.number
    && ReadSlot(st, Flat(13)) == (if env.rex6 then env.minRotationDelay.value else 0)
    && forall s: Slot :: s.Element? || s.index !in {0, 1, 2, 4, 5, 6, 13} ==> ReadSlot(st, s) == 0
  }

  lemma {:induction false} FreshSlots(env: Env, st: map<Slot, Word>)
    requires Configured(env) && forall s :: ReadSlot(st, s) == FreshSlot(env, s)
    ensures HoldsInitialRoles(env, st)
  {
  }

  /** That is what a phase leaves that finds the registry account without code. */
  lemma {:induction false} FreshRegistry(p: PreBlock, b: Block)
    requires RegistryApart(p) && ApplyFaithful(p, b.db)
    requires p.env.rex5 && InfoOf(b.db, REGISTRY).code == NoCode && PreBlockPhase(p, b).0.Ok?
    ensures Configured(p.env) && HoldsInitialRoles(p.env, StorageOf(PreBlockPhase(p, b).1.db, REGISTRY))
  {
    PreBlockExact(p, b);
    FreshSlots(p.env, StorageOf(PreBlockPhase(p, b).1.db, REGISTRY));
  }

  /** Before Rex6, a registry account without code and with due changes fails the block. */
  lemma {:induction false} LostDeployFails(p: PreBlock, b: Block)
    requires RegistryApart(p) && ApplyFaithful(p, b.db)
    requires p.env.rex5 && !p.env.rex6 && REGISTRY in b.db && b.db[REGISTRY].info.code == NoCode
    requires ApplyDue(b.db, p.env.number).0
    ensures PreBlockPhase(p, b).0.Err?
  {
    PreBlockExact(p, b);
  }

  /** With Rex6 on, Rex5 off and no registry, the phase deploys none and fails the block. */
  lemma {:induction false} Rex6WithoutRex5Fails(p: PreBlock, b: Block)
    requires p.env.rex6 && !p.env.rex5 && RegistryApart(p) && REGISTRY !in b.db
    ensures PreBlockPhase(p, b).0.Err? && REGISTRY !in PreBlockPhase(p, b).1.db
    ensures CallsFine(p) ==>
              PreBlockPhase(p, b).0 == Err(if p.env.rex5Config.None? then MissingRex5Config else RegistryMissing)
  {
    OutcomesExact(p, b.db);
    if CallsFine(p) {
      PhaseWithoutRex5(p, b);
      assert Lookup(PreBlockPhase(p, b).1.db, REGISTRY) == None;
    }
  }

  // ---------------------------------------------------------------------------------------------
  // In fork order
  // ---------------------------------------------------------------------------------------------

  predicate ForksInOrder(env: Env) {
    (env.rex6 ==> env.rex5) && (env.rex5 ==> Configured(env))
  }

  /** Registry accounts that arise on a chain that runs these blocks in fork order. */
  predicate WellFormed(env: Env, db: Database) {
    var code, storage := InfoOf(db, REGISTRY).code, StorageOf(db, REGISTRY);
    && (code == NoCode ==>
          ReadSlot(storage, SYSTEM_ROLE.pending) == 0 && ReadSlot(storage, SEQUENCER_ROLE.pending) == 0)
    && (code != NoCode ==> CodeFits(env, db) && ReadSlot(storage, CURRENT_SYSTEM_ADDRESS) != 0)
  }

  /** In fork order the phase fails exactly when a call does, and the account stays well formed. */
  lemma {:induction false} InForkOrder(p: PreBlock, b: Block)
    requires RegistryApart(p) && ApplyFaithful(p, b.db)
    requires p.env.rex5 && ForksInOrder(p.env) && WellFormed(p.env, b.db)
    ensures PreBlockPhase(p, b).0.Ok? <==> CallsFine(p) && (ApplyDue(b.db, p.env.number).0 ==> p.apply.Ok?)
    ensures PreBlockPhase(p, b).0.Ok? ==> WellFormed(p.env, PreBlockPhase(p, b).1.db)
  {
    PreBlockExact(p, b);
    ExpectedAddressSlot(p.env, b.db);
    assert !LosesDeploy(p.env, b.db);
  }
}
