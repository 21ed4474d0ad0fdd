/**
 The sequencer registry over a whole chain of blocks: role changes are scheduled, replaced and
 cancelled by transactions, applied before a block, and recorded in a history that the contract's
 lookups search (`crates/system-contracts/contracts/SequencerRegistry.sol`, version 2.0.0).
 */
module RegistryHistory {
  import opened Common
  import opened StateDb
  import opened SequencerRegistry

  type Storage = map<Slot, Word>

  const PENDING_ADMIN := Flat(3)
  const U96_MODULUS: nat := 0x1_0000_0000_0000_0000_0000_0000

  /** The activation block that cancels: the largest 256-bit number. */
  const CANCEL: nat := 0xFFFF_FFFF_FFFF_FFFF_FFFF_FFFF_FFFF_FFFF_FFFF_FFFF_FFFF_FFFF_FFFF_FFFF_FFFF_FFFF

  // ---------------------------------------------------------------------------------------------
  // The contract's entry points
  // ---------------------------------------------------------------------------------------------

  datatype Call =
    | ScheduleSystem(caller: Address, addr: Address, activation: nat)
    | ScheduleSequencer(caller: Address, addr: Address, activation: nat, proven: bool)
    | ApplyPending
    | TransferAdmin(caller: Address, newAdmin: Address)
    | AcceptAdmin(caller: Address)

  /** Scheduling one role, after the caller has been checked; a revert leaves the storage alone. */
  function Schedule(st: Storage, r: Role, number: nat, addr: Address, activation: nat, allowed: bool): Storage {
    if activation <= number then st
    else if activation == CANCEL then (if addr != 0 then st else st[r.pending := 0][r.activation := 0])
    else if activation >= U96_MODULUS || addr == 0 || !allowed then st
    else st[r.pending := addr][r.activation := activation]
  }

  function Invoke(st: Storage, number: nat, call: Call): Storage {
    match call
    case ScheduleSystem(caller, addr, activation) =>
      if caller != ReadSlot(st, ADMIN) then st else Schedule(st, SYSTEM_ROLE, number, addr, activation, true)
    case ScheduleSequencer(caller, addr, activation, proven) =>
      if caller != ReadSlot(st, ADMIN) then st
      else
        var inTime := activation >= number + ReadSlot(st, MIN_ROTATION_DELAY);
        Schedule(st, SEQUENCER_ROLE, number, addr, activation, inTime && proven)
    case ApplyPending => ApplyPendingChanges(st, number)
    case TransferAdmin(caller, newAdmin) =>
      if caller != ReadSlot(st, ADMIN) then st else st[PENDING_ADMIN := newAdmin]
    case AcceptAdmin(caller) =>
      if caller != ReadSlot(st, PENDING_ADMIN) then st else st[ADMIN := caller][PENDING_ADMIN := 0]
  }

  // ---------------------------------------------------------------------------------------------
  // One role
  // ---------------------------------------------------------------------------------------------

  datatype Record = Record(fromBlock: nat, addr: Address)

  datatype View = View(
    current: Address, pending: Address, activation: nat, initial: Address, initialFrom: nat, history: seq<Record>)

  function Unpacked(w: Word): Record {
    Record(w % U96_MODULUS, w / U96_MODULUS)
  }

  function InitialSlot(r: Role): Slot {
    if r == SYSTEM_ROLE then INITIAL_SYSTEM_ADDRESS else INITIAL_SEQUENCER
  }

  /** What the storage says about a role. */
  function ViewOf(st: Storage, r: Role): View {
    View(ReadSlot(st, r.current), ReadSlot(st, r.pending), ReadSlot(st, r.activation),
         ReadSlot(st, InitialSlot(r)), ReadSlot(st, INITIAL_FROM_BLOCK),
         seq(ReadSlot(st, Flat(r.history)), i requires i >= 0 => Unpacked(ReadSlot(st, Element(r.history, i)))))
  }

  function ApplyView(v: View, number: nat): View {
    if v.pending != 0 && number >= v.activation then
      v.(current := v.pending, pending := 0, activation := 0,
         history := v.history + [Record(v.activation % U96_MODULUS, v.pending)])
    else v
  }

  /** What a call in block `number` may do to a role. */
  ghost predicate Allowed(v: View, number: nat, v': View) {
    || v' == v
    || v' == v.(pending := 0, activation := 0)
    || v' == ApplyView(v, number)
    || (v' == v.(pending := v'.pending, activation := v'.activation) && number < v'.activation < U96_MODULUS)
  }

  predicate IsRole(r: Role) {
    r == SYSTEM_ROLE || r == SEQUENCER_ROLE
  }

  /** A packed record has the block in its low 96 bits and the address above, and reading it back gives both. */
  lemma PackedUnpacked(fromBlock: Word, addr: Word)
    ensures Packed(fromBlock, addr) % 0x1_0000_0000_0000_0000_0000_0000 ==
            fromBlock % 0x1_0000_0000_0000_0000_0000_0000
    ensures Packed(fromBlock, addr) / 0x1_0000_0000_0000_0000_0000_0000 == addr
    ensures Unpacked(Packed(fromBlock, addr)) == Record(fromBlock % U96_MODULUS, addr)
  {
  }

  /** Two storages that agree on a role's slots say the same about it. */
  lemma {:induction false} SameView(st: Storage, t: Storage, r: Role)
    requires forall s :: s in {r.current, r.pending, r.activation, InitialSlot(r), INITIAL_FROM_BLOCK, Flat(r.history)}
                         ==> ReadSlot(st, s) == ReadSlot(t, s)
    requires forall i: nat :: ReadSlot(st, Element(r.history, i)) == ReadSlot(t, Element(r.history, i))
    ensures ViewOf(st, r) == ViewOf(t, r)
  {
    assert ViewOf(st, r).history == ViewOf(t, r).history;
  }

  lemma {:induction false} ApplyOwnRole(st: Storage, r: Role, number: nat)
    requires IsRole(r)
    ensures ViewOf(ApplyRole(st, r, number), r) == ApplyView(ViewOf(st, r), number)
  {
    if RoleApplies(st, r, number) {
      var t, v := ApplyRole(st, r, number), ViewOf(st, r);
      PackedUnpacked(v.activation, v.pending);
      assert ViewOf(t, r).history == v.history + [Record(v.activation % U96_MODULUS, v.pending)];
    }
  }

  lemma {:induction false} ApplyOtherRole(st: Storage, r: Role, other: Role, number: nat)
    requires IsRole(r) && IsRole(other) && r != other
    ensures ViewOf(ApplyRole(st, other, number), r) == ViewOf(st, r)
  {
    SameView(ApplyRole(st, other, number), st, r);
  }

  lemma {:induction false} ApplyViewed(st: Storage, r: Role, number: nat)
    requires IsRole(r)
    ensures ViewOf(ApplyPendingChanges(st, number), r) == ApplyView(ViewOf(st, r), number)
  {
    var t := ApplyRole(st, SYSTEM_ROLE, number);
    if r == SYSTEM_ROLE {
      ApplyOwnRole(st, r, number);
      ApplyOtherRole(t, r, SEQUENCER_ROLE, number);
    } else {
      ApplyOtherRole(st, r, SYSTEM_ROLE, number);
      ApplyOwnRole(t, r, number);
    }
  }

  lemma {:induction false} ScheduleViewed(
    st: Storage, r: Role, other: Role, number: nat, addr: Address, activation: nat, allowed: bool)
    requires IsRole(r) && IsRole(other)
    ensures Allowed(ViewOf(st, r), number, ViewOf(Schedule(st, other, number, addr, activation, allowed), r))
  {
    var t := Schedule(st, other, number, addr, activation, allowed);
    if r != other {
      SameView(t, st, r);
    } else {
      assert ViewOf(t, r).history == ViewOf(st, r).history;
    }
  }

  lemma {:induction false} InvokeViewed(st: Storage, r: Role, number: nat, call: Call)
    requires IsRole(r)
    ensures Allowed(ViewOf(st, r), number, ViewOf(Invoke(st, number, call), r))
  {
    match call
    case ScheduleSystem(caller, addr, activation) =>
      ScheduleViewed(st, r, SYSTEM_ROLE, number, addr, activation, true);
    case ScheduleSequencer(caller, addr, activation, proven) =>
      var inTime := activation >= number + ReadSlot(st, MIN_ROTATION_DELAY);
      ScheduleViewed(st, r, SEQUENCER_ROLE, number, addr, activation, inTime && proven);
    case ApplyPending => ApplyViewed(st, r, number);
    case TransferAdmin(_, _) => SameView(Invoke(st, number, call), st, r);
    case AcceptAdmin(_) => SameView(Invoke(st, number, call), st, r);
  }

  // ---------------------------------------------------------------------------------------------
  // Who may change what
  // ---------------------------------------------------------------------------------------------

  /** `t` is `st` with a request for `addr` from block `activation` in two slots; a cancel clears both. */
  ghost predicate Requested(st: Storage, t: Storage, pending: Slot, from: Slot, addr: Address, activation: nat) {
    forall s :: ReadSlot(t, s) ==
                (if s == pending then addr
                 else if s == from then (if activation == CANCEL then 0 else activation)
                 else ReadSlot(st, s))
  }

  /**
   Scheduling the system address: a legal request of the admin is recorded in slots 7 and 8, and so is a legal
   cancellation; anything else, by anybody else, changes nothing.
   */
  lemma {:induction false} SystemScheduled(st: Storage, number: nat, caller: Address, addr: Address, activation: nat)
    ensures var t := Invoke(st, number, ScheduleSystem(caller, addr, activation));
            if caller == ReadSlot(st, Flat(2)) && number < activation
               && (if addr == 0 then activation == CANCEL else activation < U96_MODULUS)
            then Requested(st, t, Flat(7), Flat(8), addr, activation)
            else t == st
  {
  }

  /** Scheduling the sequencer, in slots 9 and 10: a new one must also be proven and keep the rotation delay. */
  lemma {:induction false} SequencerScheduled(
    st: Storage, number: nat, caller: Address, addr: Address, activation: nat, proven: bool)
    ensures var t := Invoke(st, number, ScheduleSequencer(caller, addr, activation, proven));
            if caller == ReadSlot(st, Flat(2)) && number < activation
               && (if addr == 0 then activation == CANCEL
                   else activation < U96_MODULUS && proven && activation - number >= ReadSlot(st, Flat(13)))
            then Requested(st, t, Flat(9), Flat(10), addr, activation)
            else t == st
  {
  }

  /** The admin changes only when the one the admin named accepts; naming somebody changes nothing else. */
  lemma {:induction false} AdminHandover(st: Storage, number: nat, call: Call)
    ensures var t := Invoke(st, number, call);
            && (ReadSlot(t, Flat(2)) != ReadSlot(st, Flat(2)) ==>
                  call == AcceptAdmin(ReadSlot(st, Flat(3))) && ReadSlot(t, Flat(2)) == ReadSlot(st, Flat(3)))
            && (ReadSlot(t, Flat(3)) != ReadSlot(st, Flat(3)) ==>
                  || call == TransferAdmin(ReadSlot(st, Flat(2)), ReadSlot(t, Flat(3)))
                  || (call == AcceptAdmin(ReadSlot(st, Flat(3))) && ReadSlot(t, Flat(3)) == 0))
            && (call == AcceptAdmin(ReadSlot(st, Flat(3))) ==> ReadSlot(t, Flat(2)) == ReadSlot(st, Flat(3)))
            && (call.TransferAdmin? && call.caller == ReadSlot(st, Flat(2)) ==> ReadSlot(t, Flat(3)) == call.newAdmin)
  {
  }

  /** A call by somebody who is not the admin; the zero address calls nobody. */
  predicate ByOutsider(call: Call, admin: Address) {
    call.ApplyPending? || (call.caller != admin && call.caller != 0)
  }

  /** Nothing is requested and nobody is about to become admin. */
  predicate Settled(st: Storage, admin: Address) {
    && ReadSlot(st, Flat(2)) == admin && ReadSlot(st, Flat(3)) == 0
    && ReadSlot(st, Flat(7)) == 0 && ReadSlot(st, Flat(9)) == 0
  }

  lemma {:induction false} OutsiderCall(st: Storage, number: nat, call: Call, admin: Address)
    requires Settled(st, admin) && ByOutsider(call, admin)
    ensures Invoke(st, number, call) == st
  {
  }

  // ---------------------------------------------------------------------------------------------
  // Looking up a past block
  // ---------------------------------------------------------------------------------------------

  /** The newest record not after the block, or the initial holder. */
  function HolderAt(history: seq<Record>, initial: Address, number: nat): Address {
    if history == [] then initial
    else
      var last := history[|history| - 1];
      if last.fromBlock <= number then last.addr else HolderAt(history[..|history| - 1], initial, number)
  }

  datatype LookupError = FutureBlock | BeforeInitialBlock

  /** `systemAddressAt` and `sequencerAt`: a scan of the history from its end. */
  method RoleAt(st: Storage, r: Role, now: nat, number: nat) returns (result: Result<Address, LookupError>)
    ensures number > now ==> result == Err(FutureBlock)
    ensures number <= now && number < ViewOf(st, r).initialFrom ==> result == Err(BeforeInitialBlock)
    ensures ViewOf(st, r).initialFrom <= number <= now ==>
              result == Ok(HolderAt(ViewOf(st, r).history, ViewOf(st, r).initial, number))
  {
    if number > now {
      return Err(FutureBlock);
    }
    if number < ReadSlot(st, INITIAL_FROM_BLOCK) {
      return Err(BeforeInitialBlock);
    }
    ghost var v := ViewOf(st, r);
    var i := ReadSlot(st, Flat(r.history));
    assert v.history[..i] == v.history;
    while i > 0
      invariant 0 <= i <= |v.history|
      invariant HolderAt(v.history, v.initial, number) == HolderAt(v.history[..i], v.initial, number)
    {
      var record := Unpacked(ReadSlot(st, Element(r.history, i - 1)));
      assert v.history[..i][..i - 1] == v.history[..i - 1];
      if record.fromBlock <= number {
        return Ok(record.addr);
      }
      i := i - 1;
    }
    return Ok(ReadSlot(st, InitialSlot(r)));
  }

  /** Records strictly increase and lie after the first block, up to the last. */
  ghost predicate Ordered(history: seq<Record>, first: nat, last: nat) {
    && (forall i :: 0 <= i < |history| ==> first < history[i].fromBlock <= last)
    && (forall i, j :: 0 <= i < j < |history| ==> history[i].fromBlock < history[j].fromBlock)
  }

  /** With all records in the past, the newest holder is the current one from then on. */
  lemma {:induction false} NothingSince(history: seq<Record>, initial: Address, first: nat, last: nat)
    requires Ordered(history, first, last)
    ensures HolderAt(history, initial, last + 1) == HolderAt(history, initial, last)
  {
  }

  /** A record of the next block does not change the past. */
  lemma {:induction false} PastStays(history: seq<Record>, record: Record, initial: Address, number: nat)
    requires number < record.fromBlock
    ensures HolderAt(history + [record], initial, number) == HolderAt(history, initial, number)
  {
    assert (history + [record])[..|history|] == history;
  }

  // ---------------------------------------------------------------------------------------------
  // Chains of blocks
  // ---------------------------------------------------------------------------------------------

  /** A block: the delay written if it upgrades the registry, and its calls to the registry. */
  datatype BlockData = BlockData(delay: Option<Word>, calls: seq<Call>)

  function AfterPreBlock(st: Storage, number: nat, delay: Option<Word>): Storage {
    var applied := ApplyPendingChanges(st, number);
    if delay.Some? then applied[MIN_ROTATION_DELAY := delay.value] else applied
  }

  /** How a state is read and moved; the registry is `Registry(role)`. */
  datatype Machine<!S(!new)> = Machine(
    view: S -> View, invoke: (S, nat, Call) -> S, preBlock: (S, nat, Option<Word>) -> S)

  function Registry(r: Role): Machine<Storage> {
    Machine(st => ViewOf(st, r), Invoke, AfterPreBlock)
  }

  function AfterCalls<S(!new)>(m: Machine<S>, st: S, number: nat, calls: seq<Call>): S {
    if calls == [] then st
    else m.invoke(AfterCalls(m, st, number, calls[..|calls| - 1]), number, calls[|calls| - 1])
  }

  /** The state after consecutive blocks starting at `first`. */
  function Chain<S(!new)>(m: Machine<S>, st: S, first: nat, blocks: seq<BlockData>): S {
    if blocks == [] then st
    else
      var n := |blocks| - 1;
      var before := Chain(m, st, first, blocks[..n]);
      AfterCalls(m, m.preBlock(before, first + n, blocks[n].delay), first + n, blocks[n].calls)
  }

  /** The holder in block `first + i`, read right after the pre-block phase. */
  function HolderIn<S(!new)>(m: Machine<S>, st: S, first: nat, blocks: seq<BlockData>, i: nat): Address
    requires i < |blocks|
  {
    m.view(m.preBlock(Chain(m, st, first, blocks[..i]), first + i, blocks[i].delay)).current
  }

  function Holders<S(!new)>(m: Machine<S>, st: S, first: nat, blocks: seq<BlockData>): seq<Address> {
    seq(|blocks|, i requires 0 <= i < |blocks| => HolderIn(m, st, first, blocks, i))
  }

  /** Calls do what they may, and the pre-block phase applies what is due. */
  ghost predicate Lawful<S(!new)>(m: Machine<S>) {
    && (forall st, number: nat, call :: Allowed(m.view(st), number, m.view(m.invoke(st, number, call))))
    && (forall st, number: nat, delay :: m.view(m.preBlock(st, number, delay)) == ApplyView(m.view(st), number))
  }

  lemma {:induction false} PreBlockViewed(st: Storage, r: Role, number: nat, delay: Option<Word>)
    requires IsRole(r)
    ensures ViewOf(AfterPreBlock(st, number, delay), r) == ApplyView(ViewOf(st, r), number)
  {
    ApplyViewed(st, r, number);
    SameView(AfterPreBlock(st, number, delay), ApplyPendingChanges(st, number), r);
  }

  lemma {:induction false} RegistryLawful(r: Role)
    requires IsRole(r)
    ensures Lawful(Registry(r))
  {
    var m := Registry(r);
    forall st, number: nat, call ensures Allowed(m.view(st), number, m.view(m.invoke(st, number, call))) {
      InvokeViewed(st, r, number, call);
    }
    forall st, number: nat, delay ensures m.view(m.preBlock(st, number, delay)) == ApplyView(m.view(st), number) {
      PreBlockViewed(st, r, number, delay);
    }
  }

  /** The history answers for every block so far, and what is pending lies ahead. */
  ghost predicate Answers(v: View, first: nat, holders: seq<Address>) {
    && holders != [] && v.initialFrom == first
    && Ordered(v.history, first, first + |holders| - 1)
    && (v.pending != 0 ==> first + |holders| - 1 < v.activation < U96_MODULUS)
    && (forall i :: 0 <= i < |holders| ==> HolderAt(v.history, v.initial, first + i) == holders[i])
    && v.current == holders[|holders| - 1]
  }

  lemma {:induction false} FirstAnswers(v: View, first: nat)
    requires v.pending == 0 && v.history == [] && v.current == v.initial && v.initialFrom == first
    ensures ApplyView(v, first) == v && Answers(v, first, [v.current])
  {
  }

  lemma {:induction false} CallKeepsAnswers(v: View, v': View, first: nat, holders: seq<Address>)
    requires Answers(v, first, holders) && Allowed(v, first + |holders| - 1, v')
    ensures Answers(v', first, holders)
  {
  }

  /** A block in which nothing is due. */
  lemma {:induction false} QuietBlock(v: View, first: nat, holders: seq<Address>)
    requires Answers(v, first, holders) && (v.pending == 0 || first + |holders| < v.activation)
    ensures Answers(v, first, holders + [v.current])
  {
    NothingSince(v.history, v.initial, first, first + |holders| - 1);
    assert HolderAt(v.history, v.initial, first + (|holders| - 1)) == holders[|holders| - 1];
  }

  /** A block whose number is the activation block of the pending change. */
  lemma {:induction false} ChangingBlock(v: View, first: nat, holders: seq<Address>)
    requires Answers(v, first, holders) && v.pending != 0 && first + |holders| == v.activation
    ensures var v' := ApplyView(v, first + |holders|); Answers(v', first, holders + [v'.current])
  {
    var n := first + |holders|;
    var record := Record(n, v.pending);
    var longer, more := v.history + [record], holders + [v.pending];
    assert ApplyView(v, n).history == longer;
    forall i | 0 <= i < |more| ensures HolderAt(longer, v.initial, first + i) == more[i] {
      if i < |holders| {
        PastStays(v.history, record, v.initial, first + i);
      }
    }
  }

  lemma {:induction false} BlockKeepsAnswers(v: View, first: nat, holders: seq<Address>)
    requires Answers(v, first, holders)
    ensures var v' := ApplyView(v, first + |holders|); Answers(v', first, holders + [v'.current])
  {
    if v.pending != 0 && first + |holders| >= v.activation {
      ChangingBlock(v, first, holders);
    } else {
      QuietBlock(v, first, holders);
    }
  }

  /** The start, or a chain that answers for every block so far. */
  ghost predicate Ready(v: View, first: nat, holders: seq<Address>) {
    if holders == [] then v.pending == 0 && v.history == [] && v.current == v.initial && v.initialFrom == first
    else Answers(v, first, holders)
  }

  /** A registry as deployed in block `first`: nothing pending, no history. */
  ghost predicate Bootstrapped(st: Storage, first: nat, r: Role) {
    Ready(ViewOf(st, r), first, [])
  }

  lemma {:induction false} CallsKeepAnswers<S(!new)>(
    m: Machine<S>, st: S, first: nat, holders: seq<Address>, calls: seq<Call>)
    requires Lawful(m) && Answers(m.view(st), first, holders)
    ensures Answers(m.view(AfterCalls(m, st, first + |holders| - 1, calls)), first, holders)
  {
    if calls != [] {
      var n, number := |calls| - 1, first + |holders| - 1;
      CallsKeepAnswers(m, st, first, holders, calls[..n]);
      var t := AfterCalls(m, st, number, calls[..n]);
      CallKeepsAnswers(m.view(t), m.view(m.invoke(t, number, calls[n])), first, holders);
    }
  }

  lemma {:induction false} HoldersFront<S(!new)>(m: Machine<S>, st: S, first: nat, blocks: seq<BlockData>)
    requires blocks != []
    ensures var n := |blocks| - 1;
            Holders(m, st, first, blocks) == Holders(m, st, first, blocks[..n]) + [HolderIn(m, st, first, blocks, n)]
  {
    var n := |blocks| - 1;
    forall i | 0 <= i < n ensures HolderIn(m, st, first, blocks, i) == HolderIn(m, st, first, blocks[..n], i) {
      assert blocks[..n][..i] == blocks[..i];
    }
  }

  lemma {:induction false} BlockStep<S(!new)>(
    m: Machine<S>, st: S, first: nat, holders: seq<Address>, block: BlockData)
    requires Lawful(m) && Ready(m.view(st), first, holders)
    ensures var number := first + |holders|;
            var after := m.preBlock(st, number, block.delay);
            Answers(m.view(AfterCalls(m, after, number, block.calls)), first, holders + [m.view(after).current])
  {
    var number := first + |holders|;
    var after := m.preBlock(st, number, block.delay);
    if holders == [] {
      FirstAnswers(m.view(st), first);
      assert [] + [m.view(st).current] == [m.view(st).current];
    } else {
      BlockKeepsAnswers(m.view(st), first, holders);
    }
    CallsKeepAnswers(m, after, first, holders + [m.view(after).current], block.calls);
  }

  lemma {:induction false} ChainReady<S(!new)>(m: Machine<S>, st: S, first: nat, blocks: seq<BlockData>)
    requires Lawful(m) && Ready(m.view(st), first, [])
    ensures Ready(m.view(Chain(m, st, first, blocks)), first, Holders(m, st, first, blocks))
  {
    if blocks != [] {
      var n := |blocks| - 1;
      ChainReady(m, st, first, blocks[..n]);
      HoldersFront(m, st, first, blocks);
      BlockStep(m, Chain(m, st, first, blocks[..n]), first, Holders(m, st, first, blocks[..n]), blocks[n]);
    }
  }

  /**
   Over every chain of consecutive blocks since the deploy, with any calls by anyone in between, the
   history of each role is strictly increasing, and looking up any of those blocks gives the holder
   that was in force in it.
   */
  lemma {:induction false} HistoryIsExact(r: Role, st: Storage, first: nat, blocks: seq<BlockData>, i: nat)
    requires IsRole(r) && Bootstrapped(st, first, r) && i < |blocks|
    ensures var m := Registry(r);
            var v := m.view(Chain(m, st, first, blocks));
            && HolderAt(v.history, v.initial, first + i) == HolderIn(m, st, first, blocks, i)
            && Ordered(v.history, first, first + |blocks| - 1)
            && v.current == HolderIn(m, st, first, blocks, |blocks| - 1) && v.initialFrom == first
  {
    RegistryLawful(r);
    ChainExact(Registry(r), st, first, blocks, i);
  }

  lemma {:induction false} ChainExact<S(!new)>(m: Machine<S>, st: S, first: nat, blocks: seq<BlockData>, i: nat)
    requires Lawful(m) && Ready(m.view(st), first, []) && i < |blocks|
    ensures var v := m.view(Chain(m, st, first, blocks));
            && HolderAt(v.history, v.initial, first + i) == HolderIn(m, st, first, blocks, i)
            && Ordered(v.history, first, first + |blocks| - 1)
            && v.current == HolderIn(m, st, first, blocks, |blocks| - 1) && v.initialFrom == first
  {
    ChainReady(m, st, first, blocks);
    assert Holders(m, st, first, blocks)[i] == HolderIn(m, st, first, blocks, i);
  }

  lemma {:induction false} OutsiderCalls(st: Storage, r: Role, number: nat, calls: seq<Call>, admin: Address)
    requires Settled(st, admin) && forall i :: 0 <= i < |calls| ==> ByOutsider(calls[i], admin)
    ensures AfterCalls(Registry(r), st, number, calls) == st
  {
    if calls != [] {
      OutsiderCalls(st, r, number, calls[..|calls| - 1], admin);
      OutsiderCall(st, number, calls[|calls| - 1], admin);
    }
  }

  ghost predicate OnlyOutsiders(blocks: seq<BlockData>, admin: Address) {
    forall i :: 0 <= i < |blocks| ==> forall j :: 0 <= j < |blocks[i].calls| ==> ByOutsider(blocks[i].calls[j], admin)
  }

  /**
   Without the admin nothing rotates: over any chain of blocks whose calls to the registry all come from
   others, both roles keep their holder, nothing is ever requested, and the admin stays.
   */
  lemma {:induction false} OutsidersRotateNothing(
    st: Storage, r: Role, first: nat, blocks: seq<BlockData>, admin: Address)
    requires IsRole(r) && Settled(st, admin) && OnlyOutsiders(blocks, admin)
    ensures var t := Chain(Registry(r), st, first, blocks);
            Settled(t, admin) && ViewOf(t, r) == ViewOf(st, r)
  {
    if blocks != [] {
      var n := |blocks| - 1;
      OutsidersRotateNothing(st, r, first, blocks[..n], admin);
      var before := Chain(Registry(r), st, first, blocks[..n]);
      var after := AfterPreBlock(before, first + n, blocks[n].delay);
      assert ApplyPendingChanges(before, first + n) == before;
      SameView(after, before, r);
      OutsiderCalls(after, r, first + n, blocks[n].calls, admin);
    }
  }

  // ---------------------------------------------------------------------------------------------
  // The chain as the executor sees it
  // ---------------------------------------------------------------------------------------------

  /** A fresh deploy in block `number` is such a start. */
  lemma {:induction false} DeployBootstraps(env: Env, db: Database, st: Storage, r: Role)
    requires env.rex5 && Configured(env) && InfoOf(db, REGISTRY).code == NoCode && IsRole(r)
    requires forall s :: ReadSlot(st, s) == ExpectedSlot(env, db, s)
    ensures Bootstrapped(st, env.number, r)
  {
  }

  /** The delay an upgrade writes. */
  function UpgradeDelay(env: Env, db: Database): Option<Word> {
    if env.rex6 && InfoOf(db, REGISTRY).code == RegistryV1 && env.minRotationDelay.Some?
    then Some(env.minRotationDelay.value) else None
  }

  /** The pre-block phase moves a deployed registry as a chain does, and resolves the holder it records. */
  lemma {:induction false} PhaseIsChainStep(env: Env, db: Database, s: Slot)
    requires env.rex5 && Configured(env) && InfoOf(db, REGISTRY).code != NoCode
    ensures var after := AfterPreBlock(StorageOf(db, REGISTRY), env.number, UpgradeDelay(env, db));
            && ExpectedSlot(env, db, s) == ReadSlot(after, s)
            && ExpectedSystemAddress(env, db) == ReadSlot(after, SYSTEM_ROLE.current)
  {
    SystemAddressAfterApply(StorageOf(db, REGISTRY), env.number);
  }
}
