/**
 The `SequencerRegistry` part of the pre-block changes: deploy or upgrade the registry, decide
 whether a pending role change is due, apply it, and read back the system address
 (`crates/mega-evm/src/system/sequencer_registry.rs`, `system/deploy.rs`,
 `crates/system-contracts/contracts/SequencerRegistry.sol`).

 Every helper looks at the database as it was before the block; the executor commits the returned
 states in push order. At the Rex6 activation block the order decides which code survives.
 */
module SequencerRegistry {
  import opened Common
  import opened StateDb

  const REGISTRY: Address := 0x6342000000000000000000000000000000000006
  const MEGA_SYSTEM_ADDRESS: Address := 0xA887dCB9D5f39Ef79272801d05Abdf707CFBbD1d

  const CURRENT_SYSTEM_ADDRESS := Flat(0)
  const CURRENT_SEQUENCER := Flat(1)
  const ADMIN := Flat(2)
  const INITIAL_SYSTEM_ADDRESS := Flat(4)
  const INITIAL_SEQUENCER := Flat(5)
  const INITIAL_FROM_BLOCK := Flat(6)
  const MIN_ROTATION_DELAY := Flat(13)

  /** The slots of one role: current holder, pending holder, activation block, history array. */
  datatype Role = Role(current: Slot, pending: Slot, activation: Slot, history: nat)

  const SYSTEM_ROLE := Role(Flat(0), Flat(7), Flat(8), 11)
  const SEQUENCER_ROLE := Role(Flat(1), Flat(9), Flat(10), 12)

  datatype Config = Config(sequencer: Address, admin: Address)

  /** The block: active forks, its number, and the parameters attached to Rex5 and Rex6. */
  datatype Env = Env(
    rex5: bool, rex6: bool, number: u64, rex5Config: Option<Config>, minRotationDelay: Option<u64>)

  datatype PreBlockError =
    | BlockHashesCallFailed
    | BeaconRootCallFailed
    | MissingRex5Config
    | MissingRex6Config
    | ForeignCode(found: Code)
    | RegistryMissing
    | CodeMismatch(found: Code)
    | ZeroSystemAddress

  // ---------------------------------------------------------------------------------------------
  // Deploying
  // ---------------------------------------------------------------------------------------------

  datatype ContractSpec = ContractSpec(address: Address, code: Code, seed: seq<(Slot, Word)>, forceCreate: bool)

  function Seeded(seed: seq<(Slot, Word)>): map<Slot, SlotValue> {
    if seed == [] then map[]
    else
      var (s, v) := seed[|seed| - 1];
      Seeded(seed[..|seed| - 1])[s := SlotValue(0, v)]
  }

  /** Install a system contract: read-only if present, otherwise a touched account. */
  function TransactDeploy(db: Database, spec: ContractSpec): EvmState {
    var info := InfoOf(db, spec.address);
    if spec.address in db && info.code == spec.code then
      map[spec.address := ReadOnly(info, map[])]
    else
      var created := spec.address !in db || spec.forceCreate;
      map[spec.address := Account(info.(code := spec.code), if created then Seeded(spec.seed) else map[], true,
          created, false)]
  }

  function TargetCode(env: Env): Code {
    if env.rex6 then RegistryV2 else RegistryV1
  }

  function RegistrySeed(env: Env, config: Config): seq<(Slot, Word)> {
    [ (CURRENT_SYSTEM_ADDRESS, MEGA_SYSTEM_ADDRESS),
      (CURRENT_SEQUENCER, config.sequencer),
      (ADMIN, config.admin),
      (INITIAL_SYSTEM_ADDRESS, MEGA_SYSTEM_ADDRESS),
      (INITIAL_SEQUENCER, config.sequencer),
      (INITIAL_FROM_BLOCK, env.number) ]
    + (if env.rex6 && env.minRotationDelay.Some? then [(MIN_ROTATION_DELAY, env.minRotationDelay.value)] else [])
  }

  /** `None` when gated out; an error on missing parameters or foreign code. */
  function DeployRegistry(env: Env, db: Database, config: Config): Result<Option<EvmState>, PreBlockError> {
    if !env.rex5 then Ok(None)
    else if env.rex6 && env.minRotationDelay.None? then Err(MissingRex6Config)
    else
      var info := InfoOf(db, REGISTRY);
      if REGISTRY in db && env.rex6 && info.code == RegistryV1 then
        var original := ReadSlot(StorageOf(db, REGISTRY), MIN_ROTATION_DELAY);
        var slots := map[MIN_ROTATION_DELAY := SlotValue(original, env.minRotationDelay.value)];
        Ok(Some(map[REGISTRY := Account(info.(code := RegistryV2), slots, true, false, false)]))
      else if REGISTRY in db && info.code != TargetCode(env) && info.code != NoCode then
        Err(ForeignCode(info.code))
      else
        Ok(Some(TransactDeploy(db, ContractSpec(REGISTRY, TargetCode(env), RegistrySeed(env, config), true))))
  }

  // ---------------------------------------------------------------------------------------------
  // Applying pending role changes
  // ---------------------------------------------------------------------------------------------

  /** One role of the pre-check, with the slots it read. */
  function RoleDue(storage: map<Slot, Word>, r: Role, number: u64): (bool, map<Slot, SlotValue>) {
    var pending := ReadSlot(storage, r.pending);
    if pending == 0 then (false, map[r.pending := SlotValue(pending, pending)])
    else
      var activation := ReadSlot(storage, r.activation);
      (number >= Min(activation, U64_MAX),
       map[r.pending := SlotValue(pending, pending), r.activation := SlotValue(activation, activation)])
  }

  /** The pre-check: whether the apply call is due, and the record of everything it read. */
  function ApplyDue(db: Database, number: u64): (bool, EvmState) {
    if REGISTRY !in db then (false, map[REGISTRY := ReadOnly(NO_INFO, map[])])
    else
      var (d1, s1) := RoleDue(db[REGISTRY].storage, SYSTEM_ROLE, number);
      var (d2, s2) := RoleDue(db[REGISTRY].storage, SEQUENCER_ROLE, number);
      (d1 || d2, map[REGISTRY := ReadOnly(db[REGISTRY].info, s1 + s2)])
  }

  /** A history record: `uint96 fromBlock` in the low bits, the address above it. */
  function Packed(fromBlock: Word, addr: Word): Word {
    addr * 0x1_0000_0000_0000_0000_0000_0000 + fromBlock % 0x1_0000_0000_0000_0000_0000_0000
  }

  /** The contract's own guard, on the full 256-bit block number. */
  predicate RoleApplies(storage: map<Slot, Word>, r: Role, number: nat) {
    ReadSlot(storage, r.pending) != 0 && number >= ReadSlot(storage, r.activation)
  }

  function ApplyRole(storage: map<Slot, Word>, r: Role, number: nat): map<Slot, Word> {
    if !RoleApplies(storage, r, number) then storage
    else
      var pending := ReadSlot(storage, r.pending);
      var activation := ReadSlot(storage, r.activation);
      var length := ReadSlot(storage, Flat(r.history));
      storage
        [r.current := pending]
        [Flat(r.history) := length + 1]
        [Element(r.history, length) := Packed(activation, pending)]
        [r.pending := 0]
        [r.activation := 0]
  }

  /** `applyPendingChanges()` of the registry contract, both versions. */
  function ApplyPendingChanges(storage: map<Slot, Word>, number: nat): map<Slot, Word> {
    ApplyRole(ApplyRole(storage, SYSTEM_ROLE, number), SEQUENCER_ROLE, number)
  }

  /** The registry storage after the call; an account without code executes nothing. */
  function Applied(db: Database, number: nat): map<Slot, Word> {
    var storage := StorageOf(db, REGISTRY);
    if InfoOf(db, REGISTRY).code == NoCode then storage else ApplyPendingChanges(storage, number)
  }

  /**
   Any state the system call may return: the registry touched, with the account info the call saw
   and the slots it accessed; other accounts are unconstrained.
   */
  ghost predicate IsApplyOutcome(db: Database, number: nat, st: EvmState) {
    && REGISTRY in st
    && var acc := st[REGISTRY];
    && acc.info == InfoOf(db, REGISTRY)
    && acc.touched && !acc.created && !acc.destroyed
    && (forall s :: s in acc.storage ==>
                      && acc.storage[s].original == ReadSlot(StorageOf(db, REGISTRY), s)
                      && acc.storage[s].present == ReadSlot(Applied(db, number), s))
    && (forall s :: ReadSlot(StorageOf(db, REGISTRY), s) != ReadSlot(Applied(db, number), s) ==> s in acc.storage)
  }

  /**
   The Rust gate agrees with the contract's guard except at the last block number a `u64` can hold,
   where a saturated activation block looks due; it never skips a call that would do something.
   */
  lemma GateExact(db: Database, number: u64)
    requires REGISTRY in db
    ensures var storage := db[REGISTRY].storage;
            ApplyDue(db, number).0 <==>
            exists r :: r in {SYSTEM_ROLE, SEQUENCER_ROLE} &&
                        (RoleApplies(storage, r, number) ||
                         (number == U64_MAX && ReadSlot(storage, r.pending) != 0 &&
                             ReadSlot(storage, r.activation) > U64_MAX))
    ensures !ApplyDue(db, number).0 ==> ApplyPendingChanges(db[REGISTRY].storage, number) == db[REGISTRY].storage
  {
    var storage := db[REGISTRY].storage;
    forall r | r in {SYSTEM_ROLE, SEQUENCER_ROLE}
      ensures RoleDue(storage, r, number).0 <==>
              (RoleApplies(storage, r, number) ||
               (number == U64_MAX && ReadSlot(storage, r.pending) != 0 && ReadSlot(storage, r.activation) > U64_MAX))
    {
    }
    assert SYSTEM_ROLE in {SYSTEM_ROLE, SEQUENCER_ROLE} && SEQUENCER_ROLE in {SYSTEM_ROLE, SEQUENCER_ROLE};
  }

  lemma GateIsWitness(db: Database, number: u64)
    ensures IsWitness(ApplyDue(db, number).1)
  {
  }

  /** What a due change means: the new holder is in place, the request cleared and recorded. */
  lemma ApplyRoleMeaning(storage: map<Slot, Word>, r: Role, number: nat)
    requires r in {SYSTEM_ROLE, SEQUENCER_ROLE}
    requires RoleApplies(storage, r, number)
    ensures var out := ApplyPendingChanges(storage, number);
            var n := ReadSlot(storage, Flat(r.history));
            && ReadSlot(out, r.current) == ReadSlot(storage, r.pending)
            && ReadSlot(out, r.pending) == 0 && ReadSlot(out, r.activation) == 0
            && ReadSlot(out, Flat(r.history)) == n + 1
            && ReadSlot(out, Element(r.history, n)) ==
                Packed(ReadSlot(storage, r.activation), ReadSlot(storage, r.pending))
  {
  }

  /**
   The same by the contract's storage layout: a due system-address change moves slot 7 to slot 0 and adds to
   the history at slot 11, a due sequencer change moves slot 9 to slot 1 and adds to the one at slot 12, each
   clearing its own request; a change that is not due leaves all of its slots alone.
   */
  lemma AppliedSlots(storage: map<Slot, Word>, number: nat)
    ensures var out := ApplyPendingChanges(storage, number);
            && (if ReadSlot(storage, Flat(7)) != 0 && ReadSlot(storage, Flat(8)) <= number then
                  && ReadSlot(out, Flat(0)) == ReadSlot(storage, Flat(7))
                  && ReadSlot(out, Flat(7)) == 0 && ReadSlot(out, Flat(8)) == 0
                  && ReadSlot(out, Flat(11)) == ReadSlot(storage, Flat(11)) + 1
                else
                  forall i :: i in {0, 7, 8, 11} ==> ReadSlot(out, Flat(i)) == ReadSlot(storage, Flat(i)))
            && (if ReadSlot(storage, Flat(9)) != 0 && ReadSlot(storage, Flat(10)) <= number then
                  && ReadSlot(out, Flat(1)) == ReadSlot(storage, Flat(9))
                  && ReadSlot(out, Flat(9)) == 0 && ReadSlot(out, Flat(10)) == 0
                  && ReadSlot(out, Flat(12)) == ReadSlot(storage, Flat(12)) + 1
                else
                  forall i :: i in {1, 9, 10, 12} ==> ReadSlot(out, Flat(i)) == ReadSlot(storage, Flat(i)))
  {
  }

  /** Nothing outside the two roles is written; in particular the rotation delay is not. */
  lemma ApplyTouchesOnlyRoles(storage: map<Slot, Word>, number: nat, s: Slot)
    requires s.Flat? && s.index !in {0, 1, 7, 8, 9, 10, 11, 12}
    ensures ReadSlot(ApplyPendingChanges(storage, number), s) == ReadSlot(storage, s)
  {
  }

  // ---------------------------------------------------------------------------------------------
  // The pre-block list and its order
  // ---------------------------------------------------------------------------------------------

  /** The states pushed for the registry, in push order: deploy last from Rex6 on, first before. */
  function RegistryOutcomes(env: Env, db: Database, config: Config, apply: Result<EvmState, PreBlockError>)
    : Result<seq<EvmState>, PreBlockError>
  {
    Pushed(env.rex6, DeployRegistry(env, db, config), ApplyDue(db, env.number), apply)
  }

  function Pushed(
    deployLast: bool, deploy: Result<Option<EvmState>, PreBlockError>, gate: (bool, EvmState),
    apply: Result<EvmState, PreBlockError>)
    : Result<seq<EvmState>, PreBlockError>
  {
    if deploy.Err? && !deployLast then Err(deploy.error)
    else if gate.0 && apply.Err? then Err(apply.error)
    else if deploy.Err? then Err(deploy.error)
    else Ok(InOrder(deployLast, deploy.value, gate.1, if gate.0 then Some(apply.value) else None))
  }

  function Optional(st: Option<EvmState>): seq<EvmState> {
    if st.Some? then [st.value] else []
  }

  function InOrder(deployLast: bool, deploy: Option<EvmState>, seen: EvmState, apply: Option<EvmState>)
    : seq<EvmState>
  {
    var d := Optional(deploy);
    var a := [seen] + Optional(apply);
    if deployLast then a + d else d + a
  }

  lemma CommitThree(db: Database, x: EvmState, y: EvmState, z: EvmState)
    ensures CommitAll(db, [x, y, z]) == Commit(Commit(Commit(db, x), y), z)
    ensures CommitAll(db, [x, y]) == Commit(Commit(db, x), y)
  {
    CommitAllAppend(db, [], x);
    CommitAllAppend(db, [x], y);
    CommitAllAppend(db, [x, y], z);
    assert [] + [x] == [x] && [x] + [y] == [x, y] && [x, y] + [z] == [x, y, z];
  }

  /** Committing an apply outcome over a registry whose storage agrees off the changed slots. */
  lemma CommitApply(db: Database, base: Database, number: nat, st: EvmState, s: Slot)
    requires IsApplyOutcome(db, number, st) && InfoOf(db, REGISTRY) != NO_INFO
    requires REGISTRY in base
    ensures REGISTRY in Commit(base, st)
    ensures Commit(base, st)[REGISTRY].info == InfoOf(db, REGISTRY)
    ensures ReadSlot(Commit(base, st)[REGISTRY].storage, s) ==
            if ReadSlot(StorageOf(db, REGISTRY), s) != ReadSlot(Applied(db, number), s)
            then ReadSlot(Applied(db, number), s)
            else ReadSlot(base[REGISTRY].storage, s)
  {
    CommitPointwise(base, st, REGISTRY);
  }

  /** The registry storage an upgrade block must end with. */
  function UpgradedSlot(env: Env, db: Database, s: Slot): Word
    requires env.minRotationDelay.Some?
  {
    if s == MIN_ROTATION_DELAY then env.minRotationDelay.value
    else ReadSlot(ApplyPendingChanges(StorageOf(db, REGISTRY), env.number), s)
  }

  ghost predicate EndsUpgraded(env: Env, db: Database, final: Database, info: Info)
    requires env.minRotationDelay.Some?
  {
    && REGISTRY in final
    && final[REGISTRY].info == info
    && forall s :: ReadSlot(final[REGISTRY].storage, s) == UpgradedSlot(env, db, s)
  }

  /** The upgrade over any state of the registry: new code, the delay written, the rest kept. */
  lemma CommitUpgrade(env: Env, db: Database, base: Database, config: Config, s: Slot)
    requires env.rex5 && env.rex6 && env.minRotationDelay.Some?
    requires REGISTRY in db && db[REGISTRY].info.code == RegistryV1
    requires REGISTRY in base
    requires ReadSlot(base[REGISTRY].storage, MIN_ROTATION_DELAY) == ReadSlot(db[REGISTRY].storage, MIN_ROTATION_DELAY)
    ensures var after := Commit(base, DeployRegistry(env, db, config).value.value);
            && REGISTRY in after
            && after[REGISTRY].info == db[REGISTRY].info.(code := RegistryV2)
            && ReadSlot(after[REGISTRY].storage, s) ==
               if s == MIN_ROTATION_DELAY then env.minRotationDelay.value else ReadSlot(base[REGISTRY].storage, s)
  {
    CommitPointwise(base, DeployRegistry(env, db, config).value.value, REGISTRY);
  }

  /** The slot-wise overlay: the two writers of the registry write different slots. */
  lemma UpgradeOverlay(env: Env, db: Database, config: Config, apply: EvmState)
    requires env.rex5 && env.rex6 && env.minRotationDelay.Some?
    requires REGISTRY in db && db[REGISTRY].info.code == RegistryV1
    requires IsApplyOutcome(db, env.number, apply)
    ensures var deploy := DeployRegistry(env, db, config).value.value;
            && EndsUpgraded(env, db, Commit(Commit(db, apply), deploy), db[REGISTRY].info.(code := RegistryV2))
            && EndsUpgraded(env, db, Commit(Commit(db, deploy), apply), db[REGISTRY].info)
  {
    var deploy := DeployRegistry(env, db, config).value.value;
    var applied, upgraded := Commit(db, apply), Commit(db, deploy);
    ApplyTouchesOnlyRoles(db[REGISTRY].storage, env.number, MIN_ROTATION_DELAY);
    CommitApply(db, db, env.number, apply, MIN_ROTATION_DELAY);
    CommitUpgrade(env, db, db, config, MIN_ROTATION_DELAY);
    CommitUpgrade(env, db, applied, config, MIN_ROTATION_DELAY);
    CommitApply(db, upgraded, env.number, apply, MIN_ROTATION_DELAY);
    assert Applied(db, env.number) == ApplyPendingChanges(db[REGISTRY].storage, env.number);
    forall s
      ensures ReadSlot(Commit(applied, deploy)[REGISTRY].storage, s) == UpgradedSlot(env, db, s)
    {
      CommitApply(db, db, env.number, apply, s);
      CommitUpgrade(env, db, applied, config, s);
    }
    forall s
      ensures ReadSlot(Commit(upgraded, apply)[REGISTRY].storage, s) == UpgradedSlot(env, db, s)
    {
      CommitUpgrade(env, db, db, config, s);
      CommitApply(db, upgraded, env.number, apply, s);
    }
  }

  /**
   The Rex6 activation block with a v1 registry and due changes. In push order the block ends with
   the v2 code, the seeded delay and every applied role slot; had the deploy been pushed first, the
   same storage would end under the stale v1 code.
   */
  lemma {:induction false} UpgradeOrder(env: Env, db: Database, config: Config, apply: EvmState)
    requires env.rex5 && env.rex6 && env.minRotationDelay.Some?
    requires REGISTRY in db && db[REGISTRY].info.code == RegistryV1
    requires ApplyDue(db, env.number).0 && IsApplyOutcome(db, env.number, apply)
    ensures var r := RegistryOutcomes(env, db, config, Ok(apply));
            r.Ok? && EndsUpgraded(env, db, CommitAll(db, r.value), db[REGISTRY].info.(code := RegistryV2))
    ensures EndsUpgraded(env, db, DeployFirst(env, db, config, apply), db[REGISTRY].info)
  {
    UpgradeDeploys(env, db, config);
    RegistryCommitted(env, db, config, apply);
    DeployFirstCommitted(env, db, config, apply);
    UpgradeOverlay(env, db, config, apply);
  }

  lemma {:induction false} UpgradeDeploys(env: Env, db: Database, config: Config)
    requires env.rex5 && env.rex6 && env.minRotationDelay.Some?
    requires REGISTRY in db && db[REGISTRY].info.code == RegistryV1
    ensures DeployRegistry(env, db, config).Ok? && DeployRegistry(env, db, config).value.Some?
  {
  }

  lemma {:induction false} DeployFirstCommitted(env: Env, db: Database, config: Config, apply: EvmState)
    requires DeployRegistry(env, db, config).Ok? && DeployRegistry(env, db, config).value.Some?
    ensures DeployFirst(env, db, config, apply) ==
            Commit(Commit(db, DeployRegistry(env, db, config).value.value), apply)
  {
    GateIsWitness(db, env.number);
    OrdersOfThree(db, DeployRegistry(env, db, config).value.value, ApplyDue(db, env.number).1, apply);
  }

  /** The database had the deploy been pushed before the apply call. */
  function DeployFirst(env: Env, db: Database, config: Config, apply: EvmState): Database
    requires DeployRegistry(env, db, config).Ok?
  {
    CommitAll(db, InOrder(false, DeployRegistry(env, db, config).value, ApplyDue(db, env.number).1, Some(apply)))
  }

  /** The witness entry drops out of both orders. */
  lemma OrdersOfThree(db: Database, deploy: EvmState, seen: EvmState, apply: EvmState)
    requires IsWitness(seen)
    ensures CommitAll(db, InOrder(true, Some(deploy), seen, Some(apply))) == Commit(Commit(db, apply), deploy)
    ensures CommitAll(db, InOrder(false, Some(deploy), seen, Some(apply))) == Commit(Commit(db, deploy), apply)
    ensures CommitAll(db, InOrder(true, Some(deploy), seen, None)) == Commit(db, deploy)
    ensures CommitAll(db, InOrder(false, Some(deploy), seen, None)) == Commit(db, deploy)
  {
    assert InOrder(true, Some(deploy), seen, Some(apply)) == [seen, apply, deploy];
    assert InOrder(false, Some(deploy), seen, Some(apply)) == [deploy, seen, apply];
    assert InOrder(true, Some(deploy), seen, None) == [seen, deploy];
    assert InOrder(false, Some(deploy), seen, None) == [deploy, seen];
    CommitThree(db, seen, apply, deploy);
    CommitThree(db, deploy, seen, apply);
    CommitThree(db, seen, deploy, deploy);
    WitnessChangesNothing(db, seen);
    WitnessChangesNothing(Commit(db, deploy), seen);
  }

  /**
   Before Rex6 the order of deploy and apply does not matter, except for a registry account that
   holds pending changes but no code: there deploy-then-apply loses the fresh code again. That
   account does not arise, since pending slots are only written by registry code.
   */
  lemma OrderBeforeRex6(env: Env, db: Database, config: Config, apply: EvmState)
    requires env.rex5 && !env.rex6
    requires DeployRegistry(env, db, config).Ok?
    requires IsApplyOutcome(db, env.number, apply)
    ensures var deploy := DeployRegistry(env, db, config).value;
            var (due, seen) := ApplyDue(db, env.number);
            var a := if due then Some(apply) else None;
            CommitAll(db, InOrder(false, deploy, seen, a)) == CommitAll(db, InOrder(true, deploy, seen, a))
            <==> !(due && InfoOf(db, REGISTRY).code == NoCode)
  {
    var deploy := DeployRegistry(env, db, config).value.value;
    var (due, seen) := ApplyDue(db, env.number);
    OrdersOfThree(db, deploy, seen, apply);
    if due {
      if InfoOf(db, REGISTRY).code == NoCode {
        CommitPointwise(db, deploy, REGISTRY);
        CommitPointwise(Commit(db, apply), deploy, REGISTRY);
        CommitPointwise(Commit(db, deploy), apply, REGISTRY);
      } else {
        WitnessChangesNothing(db, deploy);
        WitnessChangesNothing(Commit(db, apply), deploy);
      }
    }
  }

  // ---------------------------------------------------------------------------------------------
  // Reading back the system address
  // ---------------------------------------------------------------------------------------------

  /** The spec follows the latest active fork, so Rex6 enables the Rex5 rules as well. */
  predicate SpecRex5(env: Env) {
    env.rex5 || env.rex6
  }

  /** The system address of the block and the witness of how it was read. */
  function ResolveSystemAddress(env: Env, db: Database): Result<(Address, Option<EvmState>), PreBlockError> {
    if !SpecRex5(env) then Ok((MEGA_SYSTEM_ADDRESS, None))
    else if env.rex5Config.None? then Err(MissingRex5Config)
    else if REGISTRY !in db then Err(RegistryMissing)
    else if db[REGISTRY].info.code != TargetCode(env) then Err(CodeMismatch(db[REGISTRY].info.code))
    else
      var value := ReadSlot(db[REGISTRY].storage, CURRENT_SYSTEM_ADDRESS);
      if value == 0 then Err(ZeroSystemAddress)
      else
        var slots := map[CURRENT_SYSTEM_ADDRESS := SlotValue(value, value)];
        Ok((value, Some(map[REGISTRY := ReadOnly(db[REGISTRY].info, slots)])))
  }

  /** The system address a block must use. */
  function ExpectedSystemAddress(env: Env, db: Database): Address {
    var storage := StorageOf(db, REGISTRY);
    if !SpecRex5(env) then MEGA_SYSTEM_ADDRESS
    else if !env.rex5 then ReadSlot(storage, CURRENT_SYSTEM_ADDRESS)
    else if InfoOf(db, REGISTRY).code == NoCode then MEGA_SYSTEM_ADDRESS
    else if RoleApplies(storage, SYSTEM_ROLE, env.number) then ReadSlot(storage, SYSTEM_ROLE.pending)
    else ReadSlot(storage, CURRENT_SYSTEM_ADDRESS)
  }

  /** The parameters the active forks need are configured. */
  predicate Configured(env: Env) {
    env.rex5Config.Some? && (env.rex6 ==> env.minRotationDelay.Some?)
  }

  /** Before Rex6, applying due changes on an account without code takes the fresh code away again. */
  predicate LosesDeploy(env: Env, db: Database) {
    InfoOf(db, REGISTRY).code == NoCode && !env.rex6 && ApplyDue(db, env.number).0
  }

  /** The code found on the registry account can be kept, upgraded or deployed over. */
  predicate CodeFits(env: Env, db: Database) {
    var code := InfoOf(db, REGISTRY).code;
    code == NoCode || code == RegistryV1 || (code == RegistryV2 && env.rex6)
  }

  /** A slot seeded once keeps its seed. */
  lemma {:induction false} SeedAt(seed: seq<(Slot, Word)>, i: nat)
    requires i < |seed|
    requires forall j :: i < j < |seed| ==> seed[j].0 != seed[i].0
    ensures seed[i].0 in Seeded(seed) && Seeded(seed)[seed[i].0] == SlotValue(0, seed[i].1)
  {
    if i < |seed| - 1 {
      SeedAt(seed[..|seed| - 1], i);
    }
  }

  lemma {:induction false} NotSeeded(seed: seq<(Slot, Word)>, s: Slot)
    requires forall i :: 0 <= i < |seed| ==> seed[i].0 != s
    ensures s !in Seeded(seed)
  {
    if seed != [] {
      NotSeeded(seed[..|seed| - 1], s);
    }
  }

  /** What a fresh registry holds, by the contract's storage layout; every other slot is zero. */
  function FreshSlot(env: Env, s: Slot): Word
    requires Configured(env)
  {
    match s
    case Flat(0) => MEGA_SYSTEM_ADDRESS             // current system address
    case Flat(1) => env.rex5Config.value.sequencer  // current sequencer
    case Flat(2) => env.rex5Config.value.admin
    case Flat(4) => MEGA_SYSTEM_ADDRESS             // initial system address
    case Flat(5) => env.rex5Config.value.sequencer  // initial sequencer
    case Flat(6) => env.number                      // first block of the history
    case Flat(13) => if env.rex6 then env.minRotationDelay.value else 0
    case _ => 0
  }

  /** The seed list says just that, in whatever order it is inserted. */
  lemma {:induction false} SeedMeaning(env: Env, s: Slot)
    requires Configured(env)
    ensures var seeded := Seeded(RegistrySeed(env, env.rex5Config.value));
            && (if s in seeded then seeded[s].present else 0) == FreshSlot(env, s)
            && (s in seeded ==> seeded[s].original == 0)
  {
    var seed := RegistrySeed(env, env.rex5Config.value);
    SeedsAreNew(seed, s);
    if i :| 0 <= i < |seed| && seed[i].0 == s {
      SeedAt(seed, i);
    } else {
      NotSeeded(seed, s);
      assert seed[0].0 == Flat(0) && seed[1].0 == Flat(1) && seed[2].0 == Flat(2) && seed[3].0 == Flat(4);
      assert seed[4].0 == Flat(5) && seed[5].0 == Flat(6) && (env.rex6 ==> seed[6].0 == Flat(13));
    }
  }

  /** The registry slot after the pre-block changes: fresh, or applied, with the delay on an upgrade. */
  function ExpectedSlot(env: Env, db: Database, s: Slot): Word
    requires Configured(env)
  {
    if InfoOf(db, REGISTRY).code == NoCode then FreshSlot(env, s)
    else if env.rex6 && InfoOf(db, REGISTRY).code == RegistryV1 then UpgradedSlot(env, db, s)
    else ReadSlot(ApplyPendingChanges(StorageOf(db, REGISTRY), env.number), s)
  }

  lemma {:induction false} SeedsAreNew(seed: seq<(Slot, Word)>, s: Slot)
    ensures s in Seeded(seed) ==> Seeded(seed)[s].original == 0
  {
    if seed != [] {
      SeedsAreNew(seed[..|seed| - 1], s);
    }
  }

  /**
   Installing a system contract: the account gets the code and keeps balance and nonce. Found with that code
   it is left alone; new, or forced to be, its storage is the seed and nothing else; otherwise its storage is
   kept and the seed ignored. No other account is touched.
   */
  lemma {:induction false} DeployMeaning(db: Database, base: Database, spec: ContractSpec, s: Slot)
    requires Lookup(base, spec.address) == Lookup(db, spec.address)
    ensures var after := Commit(base, TransactDeploy(db, spec));
            var found := spec.address in db && db[spec.address].info.code == spec.code;
            var created := spec.address !in db || spec.forceCreate;
            && InfoOf(after, spec.address) == InfoOf(db, spec.address).(code := spec.code)
            && (found ==> Lookup(after, spec.address) == Lookup(db, spec.address))
            && (!found && created ==> SeedOnly(spec.seed, StorageOf(after, spec.address), s))
            && (!found && !created && spec.code != NoCode ==>
                  StorageOf(after, spec.address) == db[spec.address].storage)
            && forall a :: a != spec.address ==> Lookup(after, a) == Lookup(base, a)
  {
    var st := TransactDeploy(db, spec);
    CommitPointwise(base, st, spec.address);
    forall a | a != spec.address ensures Lookup(Commit(base, st), a) == Lookup(base, a) {
      CommitPointwise(base, st, a);
    }
    if st[spec.address].created {
      SeedsAreNew(spec.seed, s);
      SeededReads(spec.seed, s);
    } else if st[spec.address].touched && spec.code != NoCode {
      assert Changed(map[]) == map[];
      assert db[spec.address].storage + map[] == db[spec.address].storage;
    }
  }

  /** Slot `s` holds what the seed last says of it, or zero if the seed does not mention it. */
  ghost predicate SeedOnly(seed: seq<(Slot, Word)>, storage: map<Slot, Word>, s: Slot) {
    && ((forall i :: 0 <= i < |seed| ==> seed[i].0 != s) ==> ReadSlot(storage, s) == 0)
    && (forall i :: 0 <= i < |seed| && seed[i].0 == s && (forall j :: i < j < |seed| ==> seed[j].0 != s) ==>
                      ReadSlot(storage, s) == seed[i].1)
  }

  lemma {:induction false} SeededReads(seed: seq<(Slot, Word)>, s: Slot)
    ensures SeedOnly(seed, Changed(Seeded(seed)), s)
  {
    SeedsAreNew(seed, s);
    if forall i :: 0 <= i < |seed| ==> seed[i].0 != s {
      NotSeeded(seed, s);
    }
    forall i | 0 <= i < |seed| && seed[i].0 == s && forall j :: i < j < |seed| ==> seed[j].0 != s
      ensures ReadSlot(Changed(Seeded(seed)), s) == seed[i].1
    {
      SeedAt(seed, i);
    }
  }

  /** The registry ends with the code of the fork and the expected slots. */
  ghost predicate EndsAsExpected(env: Env, db: Database, final: Database)
    requires Configured(env)
  {
    && REGISTRY in final && final[REGISTRY].info.code == TargetCode(env)
    && forall s :: ReadSlot(final[REGISTRY].storage, s) == ExpectedSlot(env, db, s)
  }

  /** A fresh deploy replaces whatever account there is. */
  lemma {:induction false} EndsAfterDeploy(env: Env, db: Database, base: Database)
    requires env.rex5 && Configured(env) && InfoOf(db, REGISTRY).code == NoCode
    ensures EndsAsExpected(env, db, Commit(base, DeployRegistry(env, db, env.rex5Config.value).value.value))
  {
    var deploy := DeployRegistry(env, db, env.rex5Config.value).value.value;
    CommitPointwise(base, deploy, REGISTRY);
    forall s ensures ReadSlot(Commit(base, deploy)[REGISTRY].storage, s) == ExpectedSlot(env, db, s) {
      SeedMeaning(env, s);
    }
  }

  lemma {:induction false} EndsAfterUpgrade(env: Env, db: Database, apply: EvmState)
    requires env.rex5 && env.rex6 && Configured(env)
    requires REGISTRY in db && db[REGISTRY].info.code == RegistryV1
    requires IsApplyOutcome(db, env.number, apply)
    ensures var deploy := DeployRegistry(env, db, env.rex5Config.value).value.value;
            && EndsAsExpected(env, db, Commit(Commit(db, apply), deploy))
            && (!ApplyDue(db, env.number).0 ==> EndsAsExpected(env, db, Commit(db, deploy)))
  {
    UpgradeOverlay(env, db, env.rex5Config.value, apply);
    if !ApplyDue(db, env.number).0 {
      GateExact(db, env.number);
      QuietUpgrade(env, db);
    }
  }

  lemma {:induction false} QuietUpgrade(env: Env, db: Database)
    requires env.rex5 && env.rex6 && Configured(env)
    requires REGISTRY in db && db[REGISTRY].info.code == RegistryV1
    requires ApplyPendingChanges(db[REGISTRY].storage, env.number) == db[REGISTRY].storage
    ensures EndsAsExpected(env, db, Commit(db, DeployRegistry(env, db, env.rex5Config.value).value.value))
  {
    var deploy := DeployRegistry(env, db, env.rex5Config.value).value.value;
    CommitUpgrade(env, db, db, env.rex5Config.value, MIN_ROTATION_DELAY);
    forall s ensures ReadSlot(Commit(db, deploy)[REGISTRY].storage, s) == ExpectedSlot(env, db, s) {
      CommitUpgrade(env, db, db, env.rex5Config.value, s);
    }
  }

  lemma {:induction false} EndsWhenPresent(env: Env, db: Database, apply: EvmState)
    requires env.rex5 && Configured(env)
    requires REGISTRY in db && db[REGISTRY].info.code == TargetCode(env)
    requires IsApplyOutcome(db, env.number, apply)
    ensures EndsAsExpected(env, db, Commit(db, apply))
    ensures !ApplyDue(db, env.number).0 ==> EndsAsExpected(env, db, db)
  {
    CommitApply(db, db, env.number, apply, CURRENT_SYSTEM_ADDRESS);
    forall s ensures ReadSlot(Commit(db, apply)[REGISTRY].storage, s) == ExpectedSlot(env, db, s) {
      CommitApply(db, db, env.number, apply, s);
    }
    GateExact(db, env.number);
  }

  /** The lost deploy: the account ends without the code of the fork. */
  lemma {:induction false} DeployLost(env: Env, db: Database, base: Database, apply: EvmState)
    requires InfoOf(db, REGISTRY).code == NoCode && IsApplyOutcome(db, env.number, apply)
    ensures InfoOf(Commit(base, apply), REGISTRY).code == NoCode
  {
    CommitPointwise(base, apply, REGISTRY);
  }

  lemma {:induction false} DeployExact(env: Env, db: Database)
    requires env.rex5 && env.rex5Config.Some?
    ensures DeployRegistry(env, db, env.rex5Config.value).Ok? <==> Configured(env) && CodeFits(env, db)
    ensures DeployRegistry(env, db, env.rex5Config.value).Ok? ==>
              && DeployRegistry(env, db, env.rex5Config.value).value.Some?
              && (InfoOf(db, REGISTRY).code == TargetCode(env) ==>
                    IsWitness(DeployRegistry(env, db, env.rex5Config.value).value.value))
  {
  }

  /** Committing the registry outcomes ends as expected exactly when no deploy is lost. */
  lemma {:induction false} RegistryEnds(env: Env, db: Database, apply: EvmState)
    requires env.rex5 && Configured(env) && CodeFits(env, db) && IsApplyOutcome(db, env.number, apply)
    ensures RegistryOutcomes(env, db, env.rex5Config.value, Ok(apply)).Ok?
    ensures var final := CommitAll(db, RegistryOutcomes(env, db, env.rex5Config.value, Ok(apply)).value);
            && (LosesDeploy(env, db) ==> InfoOf(final, REGISTRY).code == NoCode)
            && (!LosesDeploy(env, db) ==> EndsAsExpected(env, db, final))
  {
    DeployExact(env, db);
    var deploy := DeployRegistry(env, db, env.rex5Config.value).value.value;
    RegistryCommitted(env, db, env.rex5Config.value, apply);
    if InfoOf(db, REGISTRY).code == NoCode {
      EndsAfterDeploy(env, db, db);
      EndsAfterDeploy(env, db, Commit(db, apply));
      DeployLost(env, db, Commit(db, deploy), apply);
    } else if env.rex6 && db[REGISTRY].info.code == RegistryV1 {
      EndsAfterUpgrade(env, db, apply);
    } else {
      EndsWhenPresent(env, db, apply);
      WitnessChangesNothing(db, deploy);
      WitnessChangesNothing(Commit(db, apply), deploy);
    }
  }

  lemma {:induction false} ExpectedAddressSlot(env: Env, db: Database)
    requires env.rex5 && Configured(env)
    ensures ExpectedSlot(env, db, CURRENT_SYSTEM_ADDRESS) == ExpectedSystemAddress(env, db)
  {
    SystemAddressAfterApply(StorageOf(db, REGISTRY), env.number);
  }

  /**
   After the registry outcomes, reading the system address succeeds exactly when no deploy was lost
   and the address in force is not zero, and then it returns that address.
   */
  lemma {:induction false} ResolveExact(env: Env, db: Database, apply: EvmState)
    requires env.rex5 && Configured(env) && CodeFits(env, db) && IsApplyOutcome(db, env.number, apply)
    ensures RegistryOutcomes(env, db, env.rex5Config.value, Ok(apply)).Ok?
    ensures var final := CommitAll(db, RegistryOutcomes(env, db, env.rex5Config.value, Ok(apply)).value);
            var r := ResolveSystemAddress(env, final);
            && (r.Ok? <==> !LosesDeploy(env, db) && ExpectedSystemAddress(env, db) != 0)
            && (r.Ok? ==> r.value.0 == ExpectedSystemAddress(env, db))
  {
    RegistryEnds(env, db, apply);
    ExpectedAddressSlot(env, db);
  }

  /** A state the apply call may return. */
  ghost function ApplyOutcome(db: Database, number: nat): (st: EvmState)
    ensures IsApplyOutcome(db, number, st)
  {
    var storage, applied := StorageOf(db, REGISTRY), Applied(db, number);
    var slots := map s | s in storage.Keys + applied.Keys :: SlotValue(ReadSlot(storage, s), ReadSlot(applied, s));
    map[REGISTRY := Account(InfoOf(db, REGISTRY), slots, true, false, false)]
  }

  /** The pushed states, as the commits they amount to. */
  lemma {:induction false} RegistryCommitted(env: Env, db: Database, config: Config, apply: EvmState)
    requires DeployRegistry(env, db, config).Ok? && DeployRegistry(env, db, config).value.Some?
    ensures RegistryOutcomes(env, db, config, Ok(apply)).Ok?
    ensures var deploy := DeployRegistry(env, db, config).value.value;
            CommitAll(db, RegistryOutcomes(env, db, config, Ok(apply)).value) ==
            if !ApplyDue(db, env.number).0 then Commit(db, deploy)
            else if env.rex6 then Commit(Commit(db, apply), deploy)
            else Commit(Commit(db, deploy), apply)
  {
    GateIsWitness(db, env.number);
    PushedCommitted(db, env.rex6, DeployRegistry(env, db, config).value.value, ApplyDue(db, env.number), apply);
  }

  lemma {:induction false} PushedCommitted(
    db: Database, deployLast: bool, deploy: EvmState, gate: (bool, EvmState), apply: EvmState)
    requires IsWitness(gate.1)
    ensures Pushed(deployLast, Ok(Some(deploy)), gate, Ok(apply)).Ok?
    ensures CommitAll(db, Pushed(deployLast, Ok(Some(deploy)), gate, Ok(apply)).value) ==
            if !gate.0 then Commit(db, deploy)
            else if deployLast then Commit(Commit(db, apply), deploy)
            else Commit(Commit(db, deploy), apply)
  {
    OrdersOfThree(db, deploy, gate.1, apply);
  }

  lemma SystemAddressAfterApply(storage: map<Slot, Word>, number: nat)
    ensures ReadSlot(ApplyPendingChanges(storage, number), CURRENT_SYSTEM_ADDRESS) ==
            if RoleApplies(storage, SYSTEM_ROLE, number) then ReadSlot(storage, SYSTEM_ROLE.pending)
            else ReadSlot(storage, CURRENT_SYSTEM_ADDRESS)
  {
  }

  /** The swapped order would make the same block fail: resolving finds the stale code. */
  lemma SwappedOrderFailsBlock(env: Env, db: Database, apply: EvmState)
    requires env.rex5 && env.rex6 && Configured(env)
    requires REGISTRY in db && db[REGISTRY].info.code == RegistryV1
    requires ApplyDue(db, env.number).0 && IsApplyOutcome(db, env.number, apply)
    ensures ResolveSystemAddress(env, DeployFirst(env, db, env.rex5Config.value, apply)) ==
            Err(CodeMismatch(RegistryV1))
  {
    UpgradeOrder(env, db, env.rex5Config.value, apply);
  }
}
