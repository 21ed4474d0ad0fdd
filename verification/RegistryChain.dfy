/**
 A chain of blocks as the block executor runs it: the pre-block phase, then transactions that may
 call the registry. Each phase's system address is what every later lookup of that block returns.
 */
module RegistryChain {
  import opened Common
  import opened StateDb
  import opened SequencerRegistry
  import opened BlockExecutor
  import opened PreBlockRegistry
  import opened RegistryHistory

  /**
   One block: what its pre-block phase gets, the executor before and after it, what the registry says
   about the system address before and after it, the address it returned, and the calls its
   transactions make to the registry.
   */
  datatype ChainBlock = ChainBlock(
    p: PreBlock, start: Block, before: View,
    result: Result<Address, PreBlockError>, ready: Block, after: View, calls: seq<Call>)

  /** A block from Rex5 on, run by the executor under its number in a working environment. */
  ghost predicate Runs(c: ChainBlock, number: nat) {
    && (c.result, c.ready) == PreBlockPhase(c.p, c.start)
    && c.before == SystemView(c.start.db) && c.after == SystemView(c.ready.db)
    && c.p.env.number == number && c.p.env.rex5 && Configured(c.p.env)
    && CallsFine(c.p) && RegistryApart(c.p) && ApplyFaithful(c.p, c.start.db)
    && (ApplyDue(c.start.db, number).0 ==> c.p.apply.Ok?)
  }

  /** No registry yet, and nothing due on whatever account there is. */
  predicate Fresh(c: ChainBlock, number: nat) {
    number <= U64_MAX && InfoOf(c.start.db, REGISTRY).code == NoCode && !ApplyDue(c.start.db, number).0
  }

  /** The transactions of a block change the registry through its entry points only. */
  ghost predicate CallsLead(d: Database, number: nat, calls: seq<Call>, e: Database) {
    && InfoOf(e, REGISTRY).code == InfoOf(d, REGISTRY).code
    && var st := AfterCalls(Registry(SYSTEM_ROLE), StorageOf(d, REGISTRY), number, calls);
    && forall s :: ReadSlot(StorageOf(e, REGISTRY), s) == ReadSlot(st, s)
  }

  /** How consecutive blocks follow each other; forks are not switched off again. */
  ghost predicate Follows(c: ChainBlock, number: nat, d: ChainBlock) {
    && CallsLead(c.ready.db, number, c.calls, d.start.db)
    && (c.p.env.rex6 ==> d.p.env.rex6)
  }

  function SystemView(db: Database): View {
    ViewOf(StorageOf(db, REGISTRY), SYSTEM_ROLE)
  }

  /** What a phase leaves: the fork's code, a nonzero address, and a history that answers. */
  ghost predicate Good(c: ChainBlock, first: nat, addresses: seq<Address>) {
    && addresses != [] && c.result == Ok(addresses[|addresses| - 1]) && addresses[|addresses| - 1] != 0
    && InfoOf(c.ready.db, REGISTRY).code == TargetCode(c.p.env)
    && Answers(c.after, first, addresses)
  }

  /** The registry before the block answers for all earlier ones. */
  ghost predicate Continues(c: ChainBlock, first: nat, addresses: seq<Address>) {
    && Answers(c.before, first, addresses) && addresses[|addresses| - 1] != 0
    && InfoOf(c.start.db, REGISTRY).code != NoCode && CodeFits(c.p.env, c.start.db)
  }

  // ---------------------------------------------------------------------------------------------
  // One phase
  // ---------------------------------------------------------------------------------------------

  lemma {:induction false} SameReadsSameView(st: Storage, t: Storage, r: Role)
    requires forall s :: ReadSlot(st, s) == ReadSlot(t, s)
    ensures ViewOf(st, r) == ViewOf(t, r)
  {
    SameView(st, t, r);
  }

  /** The phase of a running block, once its address is known not to be zero. */
  lemma {:induction false} PhaseEnds(c: ChainBlock, number: nat)
    requires Runs(c, number) && CodeFits(c.p.env, c.start.db) && !LosesDeploy(c.p.env, c.start.db)
    requires ExpectedSystemAddress(c.p.env, c.start.db) != 0
    ensures c.result == Ok(ExpectedSystemAddress(c.p.env, c.start.db))
    ensures EndsAsExpected(c.p.env, c.start.db, c.ready.db)
  {
    PreBlockExact(c.p, c.start);
  }

  lemma {:induction false} FirstBlock(c: ChainBlock, first: nat)
    requires Runs(c, first) && Fresh(c, first)
    ensures c.result.Ok? && Good(c, first, [c.result.value])
  {
    var env, db := c.p.env, c.start.db;
    PhaseEnds(c, first);
    ExpectedAddressSlot(env, db);
    FirstView(env, db, c.ready.db);
    FirstAnswers(SystemView(c.ready.db), first);
  }

  lemma {:induction false} FirstView(env: Env, db: Database, final: Database)
    requires env.rex5 && Configured(env) && InfoOf(db, REGISTRY).code == NoCode && EndsAsExpected(env, db, final)
    ensures Ready(SystemView(final), env.number, [])
    ensures SystemView(final).current == ExpectedSlot(env, db, CURRENT_SYSTEM_ADDRESS)
  {
    DeployBootstraps(env, db, StorageOf(final, REGISTRY), SYSTEM_ROLE);
  }

  lemma {:induction false} LaterView(env: Env, db: Database, final: Database)
    requires env.rex5 && Configured(env) && InfoOf(db, REGISTRY).code != NoCode && EndsAsExpected(env, db, final)
    ensures SystemView(final) == ApplyView(SystemView(db), env.number)
  {
    var after := AfterPreBlock(StorageOf(db, REGISTRY), env.number, UpgradeDelay(env, db));
    forall s ensures ReadSlot(StorageOf(final, REGISTRY), s) == ReadSlot(after, s) {
      PhaseIsChainStep(env, db, s);
    }
    SameReadsSameView(StorageOf(final, REGISTRY), after, SYSTEM_ROLE);
    PreBlockViewed(StorageOf(db, REGISTRY), SYSTEM_ROLE, env.number, UpgradeDelay(env, db));
  }

  lemma {:induction false} LaterAddress(env: Env, db: Database)
    requires env.rex5 && Configured(env) && InfoOf(db, REGISTRY).code != NoCode
    ensures ExpectedSystemAddress(env, db) == ApplyView(SystemView(db), env.number).current
  {
  }

  lemma {:induction false} LaterBlock(c: ChainBlock, first: nat, addresses: seq<Address>)
    requires Runs(c, first + |addresses|) && Continues(c, first, addresses)
    ensures c.result.Ok? && Good(c, first, addresses + [c.result.value])
  {
    var env, db := c.p.env, c.start.db;
    LaterAddress(env, db);
    BlockKeepsAnswers(SystemView(db), first, addresses);
    PhaseEnds(c, first + |addresses|);
    LaterView(env, db, c.ready.db);
  }

  // ---------------------------------------------------------------------------------------------
  // Chains
  // ---------------------------------------------------------------------------------------------

  /** The calls of a block keep the answers. */
  lemma {:induction false} CallsAnswer(
    d: Database, number: nat, calls: seq<Call>, e: Database, first: nat, addresses: seq<Address>)
    requires CallsLead(d, number, calls, e) && number == first + |addresses| - 1
    requires Answers(SystemView(d), first, addresses)
    ensures Answers(SystemView(e), first, addresses)
  {
    RegistryLawful(SYSTEM_ROLE);
    var m, st := Registry(SYSTEM_ROLE), StorageOf(d, REGISTRY);
    CallsKeepAnswers(m, st, first, addresses, calls);
    SameReadsSameView(StorageOf(e, REGISTRY), AfterCalls(m, st, number, calls), SYSTEM_ROLE);
  }

  lemma {:induction false} NextContinues(c: ChainBlock, d: ChainBlock, first: nat, addresses: seq<Address>)
    requires Good(c, first, addresses) && Follows(c, first + |addresses| - 1, d)
    requires c.after == SystemView(c.ready.db) && d.before == SystemView(d.start.db)
    ensures Continues(d, first, addresses)
  {
    CallsAnswer(c.ready.db, first + |addresses| - 1, c.calls, d.start.db, first, addresses);
  }

  /** The calls of a block, between the registry as its phase left it and as the next block finds it. */
  ghost predicate Calls(c: ChainBlock, number: nat, d: ChainBlock) {
    && Follows(c, number, d)
    && c.after == SystemView(c.ready.db) && d.before == SystemView(d.start.db)
  }

  /** The two relations a chain is made of; the executor's are `Executor`. */
  datatype Rules = Rules(runs: (ChainBlock, nat) -> bool, calls: (ChainBlock, nat, ChainBlock) -> bool)

  ghost function Executor(): Rules {
    Rules(Runs, Calls)
  }

  ghost predicate FirstLaw(k: Rules) {
    forall c, first: nat :: k.runs(c, first) && Fresh(c, first) ==> c.result.Ok? && Good(c, first, [c.result.value])
  }

  ghost predicate PhaseLaw(k: Rules) {
    forall c, first: nat, addresses: seq<Address> ::
      k.runs(c, first + |addresses|) && Continues(c, first, addresses) ==>
      c.result.Ok? && Good(c, first, addresses + [c.result.value])
  }

  ghost predicate CallsLaw(k: Rules) {
    forall c, d, first: nat, addresses: seq<Address> | addresses != [] ::
      k.calls(c, first + |addresses| - 1, d) && Good(c, first, addresses) ==> Continues(d, first, addresses)
  }

  lemma {:induction false} ExecutorFirstLaw()
    ensures FirstLaw(Executor())
  {
    forall c, first: nat | Executor().runs(c, first) && Fresh(c, first)
      ensures c.result.Ok? && Good(c, first, [c.result.value])
    {
      FirstBlock(c, first);
    }
  }

  lemma {:induction false} ExecutorPhaseLaw()
    ensures PhaseLaw(Executor())
  {
    forall c, first: nat, addresses: seq<Address>
      | Executor().runs(c, first + |addresses|) && Continues(c, first, addresses)
      ensures c.result.Ok? && Good(c, first, addresses + [c.result.value])
    {
      LaterBlock(c, first, addresses);
    }
  }

  lemma {:induction false} ExecutorCallsLaw()
    ensures CallsLaw(Executor())
  {
    forall c, d, first: nat, addresses: seq<Address>
      | addresses != [] && Executor().calls(c, first + |addresses| - 1, d) && Good(c, first, addresses)
      ensures Continues(d, first, addresses)
    {
      NextContinues(c, d, first, addresses);
    }
  }

  /** Consecutive blocks, the first one, under number `first`, deploying the registry. */
  ghost predicate IsChain(k: Rules, chain: seq<ChainBlock>, first: nat) {
    && (chain != [] ==> Fresh(chain[0], first))
    && (forall i :: 0 <= i < |chain| ==> k.runs(chain[i], first + i))
    && (forall i, j :: 0 <= i < j == i + 1 < |chain| ==> k.calls(chain[i], first + i, chain[j]))
  }

  /** The addresses the phases returned. */
  function Addresses(chain: seq<ChainBlock>): seq<Address> {
    seq(|chain|, i requires 0 <= i < |chain| => if chain[i].result.Ok? then chain[i].result.value else 0)
  }

  /** Every phase returned an address. */
  ghost predicate AllReturn(chain: seq<ChainBlock>) {
    forall i :: 0 <= i < |chain| ==> chain[i].result.Ok?
  }

  lemma {:induction false} OneMore(chain: seq<ChainBlock>)
    requires chain != [] && AllReturn(chain[..|chain| - 1]) && chain[|chain| - 1].result.Ok?
    ensures AllReturn(chain)
    ensures Addresses(chain) == Addresses(chain[..|chain| - 1]) + [chain[|chain| - 1].result.value]
  {
    var front := chain[..|chain| - 1];
    assert forall i :: 0 <= i < |front| ==> front[i] == chain[i];
  }

  /** Along a chain every phase returns an address, and the last block is good for all of them. */
  ghost predicate AllGood(chain: seq<ChainBlock>, first: nat)
    requires chain != []
  {
    AllReturn(chain) && Good(chain[|chain| - 1], first, Addresses(chain))
  }

  lemma {:induction false} NextGood(k: Rules, c: ChainBlock, d: ChainBlock, first: nat, addresses: seq<Address>)
    requires PhaseLaw(k) && CallsLaw(k) && Good(c, first, addresses)
    requires k.calls(c, first + |addresses| - 1, d) && k.runs(d, first + |addresses|)
    ensures d.result.Ok? && Good(d, first, addresses + [d.result.value])
  {
    assert Continues(d, first, addresses);
  }

  lemma {:induction false} ChainGood(k: Rules, chain: seq<ChainBlock>, first: nat)
    requires FirstLaw(k) && PhaseLaw(k) && CallsLaw(k) && chain != [] && IsChain(k, chain, first)
    ensures AllReturn(chain) && Good(chain[|chain| - 1], first, Addresses(chain))
  {
    var n := |chain| - 1;
    assert k.runs(chain[n], first + n);
    if n == 0 {
      assert Addresses(chain) == [chain[0].result.value];
    } else {
      var front := chain[..n];
      assert IsChain(k, front, first);
      ChainGood(k, front, first);
      assert k.calls(chain[n - 1], first + (n - 1), chain[n]);
      NextGood(k, chain[n - 1], chain[n], first, Addresses(front));
      OneMore(chain);
    }
  }

  /**
   Over every chain of blocks the executor runs since the deploy, with any registry calls in between:
   each pre-block phase returns an address, and looking up that block's number afterwards, in the same
   or any later block and after any calls (`now`), returns the same address.
   */
  lemma {:induction false} LookupIsResolved(
    k: Rules, chain: seq<ChainBlock>, first: nat, now: ChainBlock, i: nat)
    requires k == Executor() && i < |chain| && IsChain(k, chain, first)
    requires k.calls(chain[|chain| - 1], first + |chain| - 1, now)
    ensures chain[i].result == Ok(HolderAt(now.before.history, now.before.initial, first + i))
    ensures now.before.initialFrom == first && Ordered(now.before.history, first, first + |chain| - 1)
  {
    ExecutorFirstLaw();
    ExecutorPhaseLaw();
    ExecutorCallsLaw();
    ChainAnswers(k, chain, first, now, i);
  }

  lemma {:induction false} ChainAnswers(k: Rules, chain: seq<ChainBlock>, first: nat, now: ChainBlock, i: nat)
    requires FirstLaw(k) && PhaseLaw(k) && CallsLaw(k) && i < |chain| && IsChain(k, chain, first)
    requires k.calls(chain[|chain| - 1], first + |chain| - 1, now)
    ensures chain[i].result == Ok(HolderAt(now.before.history, now.before.initial, first + i))
    ensures now.before.initialFrom == first && Ordered(now.before.history, first, first + |chain| - 1)
  {
    ChainGood(k, chain, first);
    assert Continues(now, first, Addresses(chain));
    assert chain[i].result == Ok(Addresses(chain)[i]);
  }
}
