/**
 The block resource limiter (`crates/mega-evm/src/block/limit.rs`).

 Seven saturating counters are checked before a transaction is admitted and advanced after it has
 executed. Three checks are additive ("would this transaction still fit"), four are soft ("is there
 anything left at all") and let the last transaction of a block overshoot.
 */
module BlockLimit {
  import opened Common

  /** The limits the block-level checks read; `no limit` is `u64::MAX`. */
  datatype Limits = Limits(
    txGas: u64, blockGas: u64,
    txSize: u64, blockSize: u64,
    txDa: u64, blockDa: u64,
    blockData: u64, blockKv: u64, blockCompute: u64, blockGrowth: u64)

  /** What is known of a transaction before it executes. */
  datatype Tx = Tx(hash: nat, gasLimit: u64, size: u64, daSize: u64, isDeposit: bool)

  /** What execution reports about a transaction. */
  datatype Usage = Usage(gas: u64, data: u64, kv: u64, compute: u64, growth: u64)

  datatype Counters = Counters(gas: u64, size: u64, da: u64, data: u64, kv: u64, compute: u64, growth: u64)

  datatype Refusal =
    | TxGasLimit(hash: nat, txGasLimit: u64, limit: u64)
    | BlockGasLimit(transactionGasLimit: u64, available: u64)
    | TxSizeLimit(hash: nat, txSize: u64, limit: u64)
    | BlockSizeLimit(hash: nat, blockUsed: u64, txUsed: u64, limit: u64)
    | TxDaLimit(hash: nat, daSize: u64, limit: u64)
    | BlockDaLimit(hash: nat, blockUsed: u64, txUsed: u64, limit: u64)
    | BlockDataLimit(hash: nat, blockUsed: u64, limit: u64)
    | BlockKvLimit(hash: nat, blockUsed: u64, limit: u64)
    | BlockComputeLimit(hash: nat, blockUsed: u64, limit: u64)
    | BlockGrowthLimit(hash: nat, blockUsed: u64, limit: u64)

  const ZERO := Counters(0, 0, 0, 0, 0, 0, 0)

  /** The pre-execution check: the first limit that is violated, if any. */
  function Check(l: Limits, c: Counters, tx: Tx): Option<Refusal> {
    if tx.gasLimit > l.txGas then Some(TxGasLimit(tx.hash, tx.gasLimit, l.txGas))
    else if SatAdd(c.gas, tx.gasLimit) > l.blockGas then
      Some(BlockGasLimit(tx.gasLimit, SatSub(l.blockGas, c.gas)))
    else if tx.size > l.txSize then Some(TxSizeLimit(tx.hash, tx.size, l.txSize))
    else if SatAdd(tx.size, c.size) > l.blockSize then
      Some(BlockSizeLimit(tx.hash, c.size, tx.size, l.blockSize))
    else if !tx.isDeposit && tx.daSize > l.txDa then Some(TxDaLimit(tx.hash, tx.daSize, l.txDa))
    else if !tx.isDeposit && SatAdd(tx.daSize, c.da) > l.blockDa then
      Some(BlockDaLimit(tx.hash, c.da, tx.daSize, l.blockDa))
    else if c.data >= l.blockData then Some(BlockDataLimit(tx.hash, c.data, l.blockData))
    else if c.kv >= l.blockKv then Some(BlockKvLimit(tx.hash, c.kv, l.blockKv))
    else if c.compute >= l.blockCompute then Some(BlockComputeLimit(tx.hash, c.compute, l.blockCompute))
    else if c.growth >= l.blockGrowth then Some(BlockGrowthLimit(tx.hash, c.growth, l.blockGrowth))
    else None
  }

  /** The counters after a transaction; a deposit does not advance the DA counter. */
  function Advance(c: Counters, tx: Tx, u: Usage): Counters {
    Counters(
      SatAdd(c.gas, u.gas),
      SatAdd(c.size, tx.size),
      if tx.isDeposit then c.da else SatAdd(c.da, tx.daSize),
      SatAdd(c.data, u.data),
      SatAdd(c.kv, u.kv),
      SatAdd(c.compute, u.compute),
      SatAdd(c.growth, u.growth))
  }

  predicate Reached(l: Limits, c: Counters) {
    || c.gas >= l.blockGas || c.size >= l.blockSize || c.da >= l.blockDa
    || c.data >= l.blockData || c.kv >= l.blockKv
    || c.compute >= l.blockCompute || c.growth >= l.blockGrowth
  }

  /** The limiter object: fixed limits, seven counters updated in place. */
  class BlockLimiter {
    const limits: Limits
    var gasUsed: u64
    var sizeUsed: u64
    var daUsed: u64
    var dataUsed: u64
    var kvUsed: u64
    var computeUsed: u64
    var growthUsed: u64

    function Used(): Counters
      reads this
    {
      Counters(gasUsed, sizeUsed, daUsed, dataUsed, kvUsed, computeUsed, growthUsed)
    }

    constructor (limits: Limits)
      ensures this.limits == limits
      ensures Used() == ZERO
    {
      this.limits := limits;
      gasUsed, sizeUsed, daUsed, dataUsed, kvUsed, computeUsed, growthUsed := 0, 0, 0, 0, 0, 0, 0;
    }

    /** Refuses on the first violated limit; reads only. */
    method PreExecutionCheck(tx: Tx) returns (r: Option<Refusal>)
      ensures r == Check(limits, Used(), tx)
      ensures r.None? <==> Admissible(limits, Used(), tx)
    {
      if tx.gasLimit > limits.txGas {
        return Some(TxGasLimit(tx.hash, tx.gasLimit, limits.txGas));
      }
      if SatAdd(gasUsed, tx.gasLimit) > limits.blockGas {
        return Some(BlockGasLimit(tx.gasLimit, SatSub(limits.blockGas, gasUsed)));
      }
      if tx.size > limits.txSize {
        return Some(TxSizeLimit(tx.hash, tx.size, limits.txSize));
      }
      if SatAdd(tx.size, sizeUsed) > limits.blockSize {
        return Some(BlockSizeLimit(tx.hash, sizeUsed, tx.size, limits.blockSize));
      }
      if !tx.isDeposit {
        if tx.daSize > limits.txDa {
          return Some(TxDaLimit(tx.hash, tx.daSize, limits.txDa));
        }
        if SatAdd(tx.daSize, daUsed) > limits.blockDa {
          return Some(BlockDaLimit(tx.hash, daUsed, tx.daSize, limits.blockDa));
        }
      }
      if dataUsed >= limits.blockData {
        return Some(BlockDataLimit(tx.hash, dataUsed, limits.blockData));
      }
      if kvUsed >= limits.blockKv {
        return Some(BlockKvLimit(tx.hash, kvUsed, limits.blockKv));
      }
      if computeUsed >= limits.blockCompute {
        return Some(BlockComputeLimit(tx.hash, computeUsed, limits.blockCompute));
      }
      if growthUsed >= limits.blockGrowth {
        return Some(BlockGrowthLimit(tx.hash, growthUsed, limits.blockGrowth));
      }
      return None;
    }

    method PostExecutionUpdate(tx: Tx, u: Usage)
      modifies this
      ensures Used() == Advance(old(Used()), tx, u)
    {
      gasUsed := SatAdd(gasUsed, u.gas);
      sizeUsed := SatAdd(sizeUsed, tx.size);
      if !tx.isDeposit {
        daUsed := SatAdd(daUsed, tx.daSize);
      }
      dataUsed := SatAdd(dataUsed, u.data);
      kvUsed := SatAdd(kvUsed, u.kv);
      computeUsed := SatAdd(computeUsed, u.compute);
      growthUsed := SatAdd(growthUsed, u.growth);
    }

    method IsBlockLimitReached() returns (r: bool)
      ensures r <==> Reached(limits, Used())
      ensures Bounded(limits) && limits.txGas > 0 && limits.txSize > 0 && limits.txDa > 0 ==>
                (r <==> RefusesAll(limits, Used()))
    {
      if Bounded(limits) && limits.txGas > 0 && limits.txSize > 0 && limits.txDa > 0 {
        ReachedExact(limits, Used());
      }
      return gasUsed >= limits.blockGas ||
             sizeUsed >= limits.blockSize ||
             daUsed >= limits.blockDa ||
             dataUsed >= limits.blockData ||
             kvUsed >= limits.blockKv ||
             computeUsed >= limits.blockCompute ||
             growthUsed >= limits.blockGrowth;
    }
  }

  // ---------------------------------------------------------------------------------------------
  // Admissibility, stated in unbounded arithmetic
  // ---------------------------------------------------------------------------------------------

  /** `amount` fits on top of `used`, where a limit of `u64::MAX` means unlimited. */
  predicate Fits(used: int, amount: int, limit: u64) {
    limit == U64_MAX || used + amount <= limit
  }

  predicate SoftOpen(l: Limits, c: Counters) {
    c.data < l.blockData && c.kv < l.blockKv && c.compute < l.blockCompute && c.growth < l.blockGrowth
  }

  predicate WithinTxLimits(l: Limits, tx: Tx) {
    tx.gasLimit <= l.txGas && tx.size <= l.txSize && (!tx.isDeposit ==> tx.daSize <= l.txDa)
  }

  predicate Admissible(l: Limits, c: Counters, tx: Tx) {
    && WithinTxLimits(l, tx)
    && Fits(c.gas, tx.gasLimit, l.blockGas)
    && Fits(c.size, tx.size, l.blockSize)
    && (!tx.isDeposit ==> Fits(c.da, tx.daSize, l.blockDa))
    && SoftOpen(l, c)
  }

  lemma CheckExact(l: Limits, c: Counters, tx: Tx)
    ensures Check(l, c, tx).None? <==> Admissible(l, c, tx)
  {
  }

  /** The ten limits in the order they are looked at, in unbounded arithmetic. */
  predicate Violates(l: Limits, c: Counters, tx: Tx, k: nat) {
    match k
    case 0 => tx.gasLimit > l.txGas
    case 1 => !Fits(c.gas, tx.gasLimit, l.blockGas)
    case 2 => tx.size > l.txSize
    case 3 => !Fits(c.size, tx.size, l.blockSize)
    case 4 => !tx.isDeposit && tx.daSize > l.txDa
    case 5 => !tx.isDeposit && !Fits(c.da, tx.daSize, l.blockDa)
    case 6 => c.data >= l.blockData
    case 7 => c.kv >= l.blockKv
    case 8 => c.compute >= l.blockCompute
    case 9 => c.growth >= l.blockGrowth
    case _ => false
  }

  /** The limit a refusal is about and the figures it carries. */
  predicate Explains(r: Refusal, l: Limits, c: Counters, tx: Tx, k: nat) {
    match r
    case TxGasLimit(hash, asked, limit) => k == 0 && hash == tx.hash && asked == tx.gasLimit && limit == l.txGas
    case BlockGasLimit(asked, available) =>
      k == 1 && asked == tx.gasLimit && available + Min(c.gas, l.blockGas) == l.blockGas
    case TxSizeLimit(hash, asked, limit) => k == 2 && hash == tx.hash && asked == tx.size && limit == l.txSize
    case BlockSizeLimit(hash, used, asked, limit) =>
      k == 3 && hash == tx.hash && used == c.size && asked == tx.size && limit == l.blockSize
    case TxDaLimit(hash, asked, limit) => k == 4 && hash == tx.hash && asked == tx.daSize && limit == l.txDa
    case BlockDaLimit(hash, used, asked, limit) =>
      k == 5 && hash == tx.hash && used == c.da && asked == tx.daSize && limit == l.blockDa
    case BlockDataLimit(hash, used, limit) => k == 6 && hash == tx.hash && used == c.data && limit == l.blockData
    case BlockKvLimit(hash, used, limit) => k == 7 && hash == tx.hash && used == c.kv && limit == l.blockKv
    case BlockComputeLimit(hash, used, limit) =>
      k == 8 && hash == tx.hash && used == c.compute && limit == l.blockCompute
    case BlockGrowthLimit(hash, used, limit) =>
      k == 9 && hash == tx.hash && used == c.growth && limit == l.blockGrowth
  }

  /** A refusal names the first violated limit, with the figures of that limit. */
  lemma {:induction false} RefusalIsFirstViolated(l: Limits, c: Counters, tx: Tx, k: nat)
    ensures Check(l, c, tx).Some? && Explains(Check(l, c, tx).value, l, c, tx, k) <==>
            Violates(l, c, tx, k) && forall j :: 0 <= j < k ==> !Violates(l, c, tx, j)
  {
    if Violates(l, c, tx, k) {
      assert Violates(l, c, tx, 0) || Violates(l, c, tx, 1) || Violates(l, c, tx, 2) || Violates(l, c, tx, 3)
             || Violates(l, c, tx, 4) || Violates(l, c, tx, 5) || Violates(l, c, tx, 6) || Violates(l, c, tx, 7)
             || Violates(l, c, tx, 8) || Violates(l, c, tx, 9);
    }
  }

  /** Pointwise order of counters: every later state of a block is above every earlier one. */
  predicate Below(c: Counters, d: Counters) {
    && c.gas <= d.gas && c.size <= d.size && c.da <= d.da
    && c.data <= d.data && c.kv <= d.kv && c.compute <= d.compute && c.growth <= d.growth
  }

  predicate IsTxLevel(r: Refusal) {
    r.TxGasLimit? || r.TxSizeLimit? || r.TxDaLimit?
  }

  /** Refusals are permanent, and a tx-level refusal does not depend on the block at all. */
  lemma RefusalIsPermanent(l: Limits, c: Counters, d: Counters, tx: Tx)
    ensures Below(c, d) && Check(l, c, tx).Some? ==> Check(l, d, tx).Some?
    ensures Check(l, c, tx).Some? && IsTxLevel(Check(l, c, tx).value) ==> Check(l, d, tx).Some?
    ensures Below(c, d) && Reached(l, c) ==> Reached(l, d)
  {
  }

  predicate Bounded(l: Limits) {
    && l.blockGas < U64_MAX && l.blockSize < U64_MAX && l.blockDa < U64_MAX
  }

  /** Every transaction that is not a deposit and asks for some gas, size and DA size is refused. */
  ghost predicate RefusesAll(l: Limits, c: Counters) {
    forall tx: Tx :: !tx.isDeposit && tx.gasLimit > 0 && tx.size > 0 && tx.daSize > 0 ==> Check(l, c, tx).Some?
  }

  /**
   What the builder asks is exactly whether the block is full: under real block limits and positive
   per-transaction limits, the limit is reached if and only if no such transaction would be admitted.
   */
  lemma {:induction false} ReachedExact(l: Limits, c: Counters)
    requires Bounded(l) && l.txGas > 0 && l.txSize > 0 && l.txDa > 0
    ensures Reached(l, c) <==> RefusesAll(l, c)
  {
    if !Reached(l, c) {
      var smallest := Tx(0, 1, 1, 1, false);
      assert Check(l, c, smallest).None?;
    }
  }

  /**
   A reached block refuses every non-deposit transaction with nonzero gas, size and DA size, and a
   block that is not reached admits everything within the per-transaction limits that still fits.
   */
  lemma ReachedDecides(l: Limits, c: Counters, tx: Tx)
    ensures Bounded(l) && Reached(l, c) && !tx.isDeposit && tx.gasLimit > 0 && tx.size > 0 && tx.daSize > 0
            ==> Check(l, c, tx).Some?
    ensures !Reached(l, c) ==>
              (Check(l, c, tx).None? <==>
               && WithinTxLimits(l, tx)
               && Fits(c.gas, tx.gasLimit, l.blockGas)
               && Fits(c.size, tx.size, l.blockSize)
               && (!tx.isDeposit ==> Fits(c.da, tx.daSize, l.blockDa)))
  {
  }

  // ---------------------------------------------------------------------------------------------
  // Runs: a block is the list of transactions committed so far, with what each of them used
  // ---------------------------------------------------------------------------------------------

  datatype Committed = Committed(tx: Tx, usage: Usage)

  function CountersOf(run: seq<Committed>): Counters {
    if run == [] then ZERO
    else
      var last := run[|run| - 1];
      Advance(CountersOf(run[..|run| - 1]), last.tx, last.usage)
  }

  /** Every transaction passed the check in the state it was committed in. */
  ghost predicate Admitted(l: Limits, run: seq<Committed>) {
    forall i :: 0 <= i < |run| ==> Check(l, CountersOf(run[..i]), run[i].tx).None?
  }

  /** The assumption on the EVM: a transaction uses at most the gas it declared. */
  ghost predicate GasBounded(run: seq<Committed>) {
    forall i :: 0 <= i < |run| ==> run[i].usage.gas <= run[i].tx.gasLimit
  }

  lemma AdmittedPrefix(l: Limits, run: seq<Committed>, n: nat)
    requires Admitted(l, run) && n <= |run|
    ensures Admitted(l, run[..n])
    ensures GasBounded(run) ==> GasBounded(run[..n])
  {
    forall i | 0 <= i < n
      ensures Check(l, CountersOf(run[..n][..i]), run[..n][i].tx).None?
    {
      assert run[..n][..i] == run[..i];
    }
  }

  lemma AdmittedExtend(l: Limits, run: seq<Committed>, e: Committed)
    requires Admitted(l, run)
    requires Check(l, CountersOf(run), e.tx).None?
    ensures Admitted(l, run + [e])
    ensures CountersOf(run + [e]) == Advance(CountersOf(run), e.tx, e.usage)
  {
    var longer := run + [e];
    assert longer[..|run|] == run;
    forall i | 0 <= i < |longer|
      ensures Check(l, CountersOf(longer[..i]), longer[i].tx).None?
    {
      if i < |run| {
        assert longer[..i] == run[..i];
      }
    }
  }

  /** Counters only grow along a run. */
  lemma {:induction false} CountersGrow(run: seq<Committed>, i: nat)
    requires i <= |run|
    ensures Below(CountersOf(run[..i]), CountersOf(run))
    decreases |run|
  {
    if i == |run| {
      assert run[..i] == run;
    } else {
      var front := run[..|run| - 1];
      assert front[..i] == run[..i];
      CountersGrow(front, i);
    }
  }

  /** What was admitted at position `i` would have been admitted in every earlier state too. */
  lemma AdmittedEarlier(l: Limits, run: seq<Committed>, j: nat, i: nat)
    requires Admitted(l, run)
    requires j <= i < |run|
    ensures Check(l, CountersOf(run[..j]), run[i].tx).None?
  {
    CountersGrow(run[..i], j);
    assert run[..i][..j] == run[..j];
    RefusalIsPermanent(l, CountersOf(run[..j]), CountersOf(run[..i]), run[i].tx);
  }

  /** Hard caps: gas, encoded size and DA size never pass their block limits. */
  lemma {:induction false} HardCaps(l: Limits, run: seq<Committed>)
    requires Admitted(l, run) && GasBounded(run)
    ensures CountersOf(run).gas <= l.blockGas
    ensures CountersOf(run).size <= l.blockSize
    ensures CountersOf(run).da <= l.blockDa
  {
    if run != [] {
      var n := |run| - 1;
      AdmittedPrefix(l, run, n);
      HardCaps(l, run[..n]);
      assert Check(l, CountersOf(run[..n]), run[n].tx).None?;
    }
  }

  /** Open before every commit, and crossed by the last one by less than its own usage. */
  ghost predicate SoftSafe(l: Limits, run: seq<Committed>) {
    && (forall i :: 0 <= i < |run| ==> SoftOpen(l, CountersOf(run[..i])))
    && (run != [] ==>
          var c, u := CountersOf(run), run[|run| - 1].usage;
          && c.data < l.blockData + u.data && c.kv < l.blockKv + u.kv
          && c.compute < l.blockCompute + u.compute && c.growth < l.blockGrowth + u.growth)
  }

  /**
   Soft caps: before every commit all four soft counters are strictly below their limits, so only
   the last transaction can cross one, by less than its own usage; once one is crossed every
   transaction whatsoever is refused.
   */
  lemma SoftCaps(l: Limits, run: seq<Committed>)
    requires Admitted(l, run)
    ensures SoftSafe(l, run)
    ensures forall tx :: !SoftOpen(l, CountersOf(run)) ==> Check(l, CountersOf(run), tx).Some?
  {
    forall i | 0 <= i < |run|
      ensures SoftOpen(l, CountersOf(run[..i]))
    {
      CheckExact(l, CountersOf(run[..i]), run[i].tx);
    }
    if run != [] {
      Overshoot(l, CountersOf(run[..|run| - 1]), run[|run| - 1]);
    }
    forall tx ensures !SoftOpen(l, CountersOf(run)) ==> Check(l, CountersOf(run), tx).Some? {
      CheckExact(l, CountersOf(run), tx);
    }
  }

  lemma Overshoot(l: Limits, c: Counters, e: Committed)
    requires SoftOpen(l, c)
    ensures var d, u := Advance(c, e.tx, e.usage), e.usage;
            && d.data < l.blockData + u.data && d.kv < l.blockKv + u.kv
            && d.compute < l.blockCompute + u.compute && d.growth < l.blockGrowth + u.growth
  {
  }

  // What each counter is supposed to count, without any saturation.

  function Gas(run: seq<Committed>): seq<nat> { seq(|run|, i requires 0 <= i < |run| => run[i].usage.gas) }
  function Size(run: seq<Committed>): seq<nat> { seq(|run|, i requires 0 <= i < |run| => run[i].tx.size) }
  function Da(run: seq<Committed>): seq<nat> {
    seq(|run|, i requires 0 <= i < |run| => if run[i].tx.isDeposit then 0 else run[i].tx.daSize)
  }
  function Data(run: seq<Committed>): seq<nat> { seq(|run|, i requires 0 <= i < |run| => run[i].usage.data) }
  function Kv(run: seq<Committed>): seq<nat> { seq(|run|, i requires 0 <= i < |run| => run[i].usage.kv) }
  function Compute(run: seq<Committed>): seq<nat> { seq(|run|, i requires 0 <= i < |run| => run[i].usage.compute) }
  function Growth(run: seq<Committed>): seq<nat> { seq(|run|, i requires 0 <= i < |run| => run[i].usage.growth) }

  /** Saturation is exact: every counter is the unbounded sum, capped once at `u64::MAX`. */
  lemma {:induction false} SaturationExact(run: seq<Committed>)
    ensures CountersOf(run) == Counters(
                                 Min(U64_MAX, Sum(Gas(run))), Min(U64_MAX, Sum(Size(run))),
                                 Min(U64_MAX, Sum(Da(run))), Min(U64_MAX, Sum(Data(run))),
                                 Min(U64_MAX, Sum(Kv(run))), Min(U64_MAX, Sum(Compute(run))),
                                 Min(U64_MAX, Sum(Growth(run))))
  {
    if run != [] {
      SaturationExact(run[..|run| - 1]);
      SumsOfFront(run);
    }
  }

  lemma SumsOfFront(run: seq<Committed>)
    requires run != []
    ensures var n := |run| - 1;
            var front, last := run[..n], run[n];
            && Sum(Gas(run)) == Sum(Gas(front)) + last.usage.gas
            && Sum(Size(run)) == Sum(Size(front)) + last.tx.size
            && Sum(Da(run)) == Sum(Da(front)) + (if last.tx.isDeposit then 0 else last.tx.daSize)
            && Sum(Data(run)) == Sum(Data(front)) + last.usage.data
            && Sum(Kv(run)) == Sum(Kv(front)) + last.usage.kv
            && Sum(Compute(run)) == Sum(Compute(front)) + last.usage.compute
            && Sum(Growth(run)) == Sum(Growth(front)) + last.usage.growth
  {
    var n := |run| - 1;
    assert Gas(run)[..n] == Gas(run[..n]);
    assert Size(run)[..n] == Size(run[..n]);
    assert Da(run)[..n] == Da(run[..n]);
    assert Data(run)[..n] == Data(run[..n]);
    assert Kv(run)[..n] == Kv(run[..n]);
    assert Compute(run)[..n] == Compute(run[..n]);
    assert Growth(run)[..n] == Growth(run[..n]);
  }

  /** Every additive check decides as the unbounded sums of the run would. */
  lemma CheckDecidesOnSums(l: Limits, run: seq<Committed>, tx: Tx)
    ensures Check(l, CountersOf(run), tx).None? <==>
            && WithinTxLimits(l, tx)
            && Fits(Sum(Gas(run)), tx.gasLimit, l.blockGas)
            && Fits(Sum(Size(run)), tx.size, l.blockSize)
            && (!tx.isDeposit ==> Fits(Sum(Da(run)), tx.daSize, l.blockDa))
            && Sum(Data(run)) < l.blockData && Sum(Kv(run)) < l.blockKv
            && Sum(Compute(run)) < l.blockCompute && Sum(Growth(run)) < l.blockGrowth
  {
    SaturationExact(run);
    CheckExact(l, CountersOf(run), tx);
    CappedFits(Sum(Gas(run)), tx.gasLimit, l.blockGas);
    CappedFits(Sum(Size(run)), tx.size, l.blockSize);
    CappedFits(Sum(Da(run)), tx.daSize, l.blockDa);
  }

  /** Capping the sum at the largest counter value does not change whether an amount still fits. */
  lemma CappedFits(sum: nat, amount: u64, limit: u64)
    ensures Fits(Min(U64_MAX, sum), amount, limit) <==> Fits(sum, amount, limit)
  {
  }

  /** With a real block gas limit the gas counter never loses a unit. */
  lemma GasNeverLost(l: Limits, run: seq<Committed>)
    requires Admitted(l, run) && GasBounded(run) && l.blockGas < U64_MAX
    ensures CountersOf(run).gas == Sum(Gas(run)) <= l.blockGas
  {
    HardCaps(l, run);
    SaturationExact(run);
  }
}
