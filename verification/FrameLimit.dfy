/**
 Frame-aware resource accounting (`crates/mega-evm/src/limit/frame_limit.rs`) and the key-value
 update tracker built on it (`crates/mega-evm/src/limit/kv_update.rs`).

 Usage is recorded on the running frame and moves to the parent when the frame returns; a revert
 drops what is discardable. The net usage is kept in two cached totals. From Rex4 a frame also has a
 budget, 98% of what its parent has left. From Rex5 a frame's own account update is charged once.
 */
module FrameLimit {
  import opened Common

  datatype Spec = Spec(rex4: bool, rex5: bool, rex6: bool)

  /** The account-update bookkeeping of a frame. */
  datatype Info = Info(target: Option<Address>, updated: bool, chargedParent: bool)

  const NO_INFO := Info(None, false, false)

  datatype Entry = Entry(limit: nat, persistent: nat, discardable: nat, refund: nat, info: Info) {
    function Used(): nat { persistent + discardable }

    /** Usage net of refunds, clamped at zero. */
    function Net(): nat { if Used() >= refund then Used() - refund else 0 }

    function Remaining(): nat { if Net() <= limit then limit - Net() else 0 }
  }

  /** The transaction entry and the stack of frames; the last frame is the running one. */
  datatype Stack = Stack(tx: Entry, frames: seq<Entry>) {
    predicate Active() { frames != [] }

    function Top(): Entry
      requires Active()
    {
      frames[|frames| - 1]
    }

    function Below(): seq<Entry>
      requires Active()
    {
      frames[..|frames| - 1]
    }

    function SetTop(e: Entry): Stack
      requires Active()
    {
      this.(frames := Below() + [e])
    }
  }

  // ---------------------------------------------------------------------------------------------
  // The operations, without any cache
  // ---------------------------------------------------------------------------------------------

  /** What the running frame may forward: 98% of its rest, or the whole rest of the transaction. */
  function Forward(s: Stack): nat {
    if s.Active() then s.Top().Remaining() * 98 / 100 else s.tx.Remaining()
  }

  function Push(s: Stack, limit: nat, info: Info): Stack {
    s.(frames := s.frames + [Entry(limit, 0, 0, 0, info)])
  }

  function Merge(parent: Entry, child: Entry, success: bool): Entry {
    parent.(persistent := parent.persistent + child.persistent,
            discardable := parent.discardable + (if success then child.discardable else 0),
            refund := parent.refund + (if success then child.refund else 0))
  }

  function Pop(s: Stack, success: bool): Stack {
    if !s.Active() then s
    else if |s.frames| == 1 then Stack(Merge(s.tx, s.Top(), success), [])
    else
      var below := Stack(s.tx, s.Below());
      below.SetTop(Merge(below.Top(), s.Top(), success))
  }

  function AddDiscardable(s: Stack, n: nat): Stack {
    if s.Active() then s.SetTop(s.Top().(discardable := s.Top().discardable + n)) else s
  }

  function AddRefund(s: Stack, n: nat): Stack {
    if s.Active() then s.SetTop(s.Top().(refund := s.Top().refund + n)) else s
  }

  function AddPersistent(s: Stack, n: nat): Stack {
    if s.Active() then s.SetTop(s.Top().(persistent := s.Top().persistent + n)) else s
  }

  function AddTx(s: Stack, n: nat): Stack {
    s.(tx := s.tx.(persistent := s.tx.persistent + n))
  }

  /** Charge the frame below the running one, if there is one. */
  function AddToParent(s: Stack, n: nat): Stack {
    if |s.frames| < 2 then s
    else
      var below := Stack(s.tx, s.Below());
      Stack(s.tx, AddDiscardable(below, n).frames + [s.Top()])
  }

  function SetUpdated(s: Stack, b: bool): Stack {
    if s.Active() then s.SetTop(s.Top().(info := s.Top().info.(updated := b))) else s
  }

  function SetTarget(s: Stack, a: Address): Stack {
    if s.Active() then s.SetTop(s.Top().(info := s.Top().info.(target := Some(a)))) else s
  }

  function SpecLimit(spec: Spec, s: Stack): nat {
    if spec.rex4 then Forward(s) else U64_MAX
  }

  /** The parent's account update is still to be charged. */
  predicate ParentDue(s: Stack) {
    s.Active() && !s.Top().info.updated
  }

  function PushCall(spec: Spec, s: Stack, target: Address, transfer: bool): Stack {
    var due := transfer && ParentDue(s);
    var marked := if due && spec.rex5 then SetUpdated(s, true) else s;
    Push(marked, SpecLimit(spec, marked), Info(Some(target), transfer, spec.rex5 && due))
  }

  function PushCreate(spec: Spec, s: Stack): Stack {
    var due := ParentDue(s);
    var marked := if due && spec.rex5 then SetUpdated(s, true) else s;
    Push(marked, SpecLimit(spec, marked), Info(None, true, spec.rex5 && due && !spec.rex6))
  }

  function PopUnwind(s: Stack, success: bool): Stack {
    if s.Active() && !success && s.Top().info.chargedParent then SetUpdated(Pop(s, success), false)
    else Pop(s, success)
  }

  /** What an entry has left of its limit after its usage net of refunds. */
  function Left(e: Entry): int {
    Max(0, e.limit - Max(0, e.persistent + e.discardable - e.refund))
  }

  /**
   98 parts in 100 of what the running frame has left, rounded down; without a frame, everything the
   transaction has left.
   */
  predicate Allots(s: Stack, limit: int) {
    if s.Active() then 100 * limit <= 98 * Left(s.Top()) < 100 * (limit + 1) else limit == Left(s.tx)
  }

  /** The limit of a frame started on `s`; there are no frame budgets before Rex4. */
  predicate GetsLimit(spec: Spec, s: Stack, limit: int) {
    if spec.rex4 then Allots(s, limit) else limit == 0xFFFF_FFFF_FFFF_FFFF
  }

  lemma ForwardAllots(s: Stack, limit: int)
    ensures Allots(s, limit) <==> limit == Forward(s)
  {
  }

  /** Marking the running frame does not change what it forwards. */
  lemma {:induction false} SpecLimitMeaning(spec: Spec, s: Stack, mark: bool)
    ensures GetsLimit(spec, s, SpecLimit(spec, if mark then SetUpdated(s, true) else s))
  {
    ForwardAllots(s, Forward(s));
    if mark && s.Active() {
      assert SetUpdated(s, true).Top() == s.Top().(info := s.Top().info.(updated := true));
      assert Forward(SetUpdated(s, true)) == Forward(s);
    }
  }

  // ---------------------------------------------------------------------------------------------
  // Totals
  // ---------------------------------------------------------------------------------------------

  function TotalUsed(frames: seq<Entry>): nat {
    if frames == [] then 0 else TotalUsed(frames[..|frames| - 1]) + frames[|frames| - 1].Used()
  }

  function TotalRefund(frames: seq<Entry>): nat {
    if frames == [] then 0 else TotalRefund(frames[..|frames| - 1]) + frames[|frames| - 1].refund
  }

  /** The reference walk over the transaction entry and all frames. */
  function NetUsage(s: Stack): nat {
    var used, refund := s.tx.Used() + TotalUsed(s.frames), s.tx.refund + TotalRefund(s.frames);
    if used >= refund then used - refund else 0
  }

  lemma TotalsAppend(frames: seq<Entry>, e: Entry)
    ensures TotalUsed(frames + [e]) == TotalUsed(frames) + e.Used()
    ensures TotalRefund(frames + [e]) == TotalRefund(frames) + e.refund
  {
    assert (frames + [e])[..|frames|] == frames;
  }

  /** A pop moves usage; only a revert changes the totals. */
  lemma {:induction false} PopTotals(s: Stack, success: bool)
    requires s.Active()
    ensures var t, c := Pop(s, success), s.Top();
            && t.tx.Used() + TotalUsed(t.frames) ==
                s.tx.Used() + TotalUsed(s.frames) - (if success then 0 else c.discardable)
            && t.tx.refund + TotalRefund(t.frames) ==
                s.tx.refund + TotalRefund(s.frames) - (if success then 0 else c.refund)
  {
    TotalsTop(s);
    if |s.frames| > 1 {
      var below := Stack(s.tx, s.Below());
      TotalsTop(below);
      TotalsAppend(below.Below(), Merge(below.Top(), s.Top(), success));
    }
  }

  lemma TotalsTop(s: Stack)
    requires s.Active()
    ensures TotalUsed(s.frames) == TotalUsed(s.Below()) + s.Top().Used()
    ensures TotalRefund(s.frames) == TotalRefund(s.Below()) + s.Top().refund
  {
  }

  /** Charging the parent raises the walked usage by the charge. */
  lemma {:induction false} ChargedParent(tx: Entry, frames: seq<Entry>, n: nat)
    requires |frames| >= 2
    ensures var top, below := frames[|frames| - 1], frames[..|frames| - 1];
            var parent := below[|below| - 1];
            var charged := below[..|below| - 1] + [parent.(discardable := parent.discardable + n)];
            && AddToParent(Stack(tx, frames), n) == Stack(tx, charged + [top])
            && TotalUsed(charged + [top]) == TotalUsed(frames) + n
            && TotalRefund(charged + [top]) == TotalRefund(frames)
  {
    var top, below := frames[|frames| - 1], frames[..|frames| - 1];
    var parent := below[|below| - 1];
    var charged := below[..|below| - 1] + [parent.(discardable := parent.discardable + n)];
    TotalsTop(Stack(tx, frames));
    TotalsTop(Stack(tx, below));
    TotalsAppend(below[..|below| - 1], parent.(discardable := parent.discardable + n));
    TotalsAppend(charged, top);
  }

  // ---------------------------------------------------------------------------------------------
  // The tracker object with its cached totals
  // ---------------------------------------------------------------------------------------------

  class FrameLimitTracker {
    const spec: Spec
    var tx: Entry
    var frames: seq<Entry>
    var cachedUsed: nat
    var cachedRefund: nat

    function View(): Stack
      reads this
    {
      Stack(tx, frames)
    }

    /** The cache is in sync with the walk. */
    ghost predicate Valid()
      reads this
    {
      && cachedUsed == tx.Used() + TotalUsed(frames)
      && cachedRefund == tx.refund + TotalRefund(frames)
    }

    constructor (spec: Spec, limit: nat)
      ensures this.spec == spec && Valid()
      ensures View() == Stack(Entry(limit, 0, 0, 0, NO_INFO), [])
    {
      this.spec := spec;
      tx := Entry(limit, 0, 0, 0, NO_INFO);
      frames := [];
      cachedUsed, cachedRefund := 0, 0;
    }

    method Reset()
      modifies this
      ensures Valid() && View() == Stack(Entry(old(tx.limit), 0, 0, 0, old(tx.info)), [])
    {
      tx := tx.(persistent := 0, discardable := 0, refund := 0);
      frames := [];
      cachedUsed, cachedRefund := 0, 0;
    }

    /** The cached net usage is the reference walk. */
    method CachedNetUsage() returns (r: nat)
      requires Valid()
      ensures r == NetUsage(View())
    {
      return if cachedUsed >= cachedRefund then cachedUsed - cachedRefund else 0;
    }

    method PushFrame(limit: nat, info: Info)
      requires Valid()
      modifies this
      ensures Valid() && View() == Push(old(View()), limit, info)
    {
      TotalsAppend(frames, Entry(limit, 0, 0, 0, info));
      frames := frames + [Entry(limit, 0, 0, 0, info)];
    }

    /** The totals only lose what a revert discards. */
    method PopFrame(success: bool) returns (child: Option<Entry>)
      requires Valid()
      modifies this
      ensures Valid() && View() == Pop(old(View()), success)
      ensures child == if old(View()).Active() then Some(old(View()).Top()) else None
    {
      if frames == [] {
        return None;
      }
      PopTotals(View(), success);
      var c := frames[|frames| - 1];
      frames := frames[..|frames| - 1];
      if frames != [] {
        var parent := Merge(frames[|frames| - 1], c, success);
        frames := frames[..|frames| - 1] + [parent];
      } else {
        tx := Merge(tx, c, success);
      }
      if !success {
        cachedUsed := cachedUsed - c.discardable;
        cachedRefund := cachedRefund - c.refund;
      }
      return Some(c);
    }

    method AddTxPersistent(n: nat)
      requires Valid()
      modifies this
      ensures Valid() && View() == AddTx(old(View()), n)
    {
      tx := tx.(persistent := tx.persistent + n);
      cachedUsed := cachedUsed + n;
    }

    method AddFramePersistent(n: nat) returns (recorded: bool)
      requires Valid()
      modifies this
      ensures Valid() && View() == AddPersistent(old(View()), n)
      ensures recorded <==> old(View()).Active()
    {
      if frames == [] {
        return false;
      }
      var e := frames[|frames| - 1];
      TotalsAppend(frames[..|frames| - 1], e.(persistent := e.persistent + n));
      frames := frames[..|frames| - 1] + [e.(persistent := e.persistent + n)];
      cachedUsed := cachedUsed + n;
      return true;
    }

    method AddFrameDiscardable(n: nat)
      requires Valid()
      modifies this
      ensures Valid() && View() == AddDiscardable(old(View()), n)
    {
      if frames != [] {
        var e := frames[|frames| - 1];
        TotalsAppend(frames[..|frames| - 1], e.(discardable := e.discardable + n));
        frames := frames[..|frames| - 1] + [e.(discardable := e.discardable + n)];
        cachedUsed := cachedUsed + n;
      }
    }

    method AddFrameRefund(n: nat)
      requires Valid()
      modifies this
      ensures Valid() && View() == AddRefund(old(View()), n)
    {
      if frames != [] {
        var e := frames[|frames| - 1];
        TotalsAppend(frames[..|frames| - 1], e.(refund := e.refund + n));
        frames := frames[..|frames| - 1] + [e.(refund := e.refund + n)];
        cachedRefund := cachedRefund + n;
      }
    }

    method AddParentDiscardable(n: nat)
      requires Valid()
      modifies this
      ensures Valid() && View() == AddToParent(old(View()), n)
    {
      if |frames| >= 2 {
        var top, below := frames[|frames| - 1], frames[..|frames| - 1];
        var parent := below[|below| - 1];
        var charged := below[..|below| - 1] + [parent.(discardable := parent.discardable + n)];
        ChargedParent(tx, frames, n);
        frames := charged + [top];
        cachedUsed := cachedUsed + n;
      }
    }

    method MarkTop(b: bool)
      requires Valid()
      modifies this
      ensures Valid() && View() == SetUpdated(old(View()), b)
    {
      if frames != [] {
        var e := frames[|frames| - 1];
        TotalsAppend(frames[..|frames| - 1], e.(info := e.info.(updated := b)));
        frames := frames[..|frames| - 1] + [e.(info := e.info.(updated := b))];
      }
    }

    /** The source asserts that no address has been recorded yet. */
    method SetCreatedAddress(a: Address)
      requires Valid() && (View().Active() ==> View().Top().info.target.None?)
      modifies this
      ensures Valid() && View() == SetTarget(old(View()), a)
    {
      if frames != [] {
        var e := frames[|frames| - 1];
        TotalsAppend(frames[..|frames| - 1], e.(info := e.info.(target := Some(a))));
        frames := frames[..|frames| - 1] + [e.(info := e.info.(target := Some(a)))];
      }
    }

    method PushCallFrame(target: Address, transfer: bool) returns (due: bool)
      requires Valid()
      modifies this
      ensures Valid() && View() == PushCall(spec, old(View()), target, transfer)
      ensures due <==> transfer && ParentDue(old(View()))
      ensures View().Active() && GetsLimit(spec, old(View()), View().Top().limit)
    {
      due := transfer && frames != [] && !frames[|frames| - 1].info.updated;
      SpecLimitMeaning(spec, View(), due && spec.rex5);
      if due && spec.rex5 {
        MarkTop(true);
      }
      PushFrame(SpecLimit(spec, View()), Info(Some(target), transfer, spec.rex5 && due));
    }

    method PushCreateFrame() returns (due: bool)
      requires Valid()
      modifies this
      ensures Valid() && View() == PushCreate(spec, old(View()))
      ensures due <==> ParentDue(old(View()))
      ensures View().Active() && GetsLimit(spec, old(View()), View().Top().limit)
    {
      due := frames != [] && !frames[|frames| - 1].info.updated;
      SpecLimitMeaning(spec, View(), due && spec.rex5);
      if due && spec.rex5 {
        MarkTop(true);
      }
      PushFrame(SpecLimit(spec, View()), Info(None, true, spec.rex5 && due && !spec.rex6));
    }

    method PopFrameUnwindParent(success: bool)
      requires Valid()
      modifies this
      ensures Valid() && View() == PopUnwind(old(View()), success)
    {
      var child := PopFrame(success);
      if !success && child.Some? && child.value.info.chargedParent {
        MarkTop(false);
      }
    }
  }

  // ---------------------------------------------------------------------------------------------
  // The key-value update tracker
  // ---------------------------------------------------------------------------------------------

  /** How a frame starts. */
  datatype Kind =
    | Message(target: Address, transfer: bool, toSelf: bool)
    | Creation(created: Option<Address>)   // the created account, once the frame has been set up
    | Intercepted                          // answered by a system contract; keeps the stacks aligned

  function InitCall(spec: Spec, s: Stack, target: Address, transfer: bool, toSelf: bool): Stack {
    var pushed := PushCall(spec, s, target, transfer);
    if !transfer then pushed
    else
      var caller := if ParentDue(s) then AddDiscardable(pushed, 1) else pushed;
      if spec.rex6 && toSelf then caller else AddDiscardable(caller, 1)
  }

  function InitCreate(spec: Spec, s: Stack): Stack {
    var pushed := PushCreate(spec, s);
    if !ParentDue(s) then pushed
    else if spec.rex6 then AddToParent(pushed, 1)
    else AddDiscardable(pushed, 1)
  }

  /** The hook before a frame starts. */
  function InitFrame(spec: Spec, s: Stack, kind: Kind): Stack {
    match kind
    case Message(target, transfer, toSelf) => InitCall(spec, s, target, transfer, toSelf)
    case Creation(_) => InitCreate(spec, s)
    case Intercepted => Push(s, SpecLimit(spec, s), NO_INFO)
  }

  /** The hook after a creation's frame has been set up: the created account is known and charged. */
  function SetUp(s: Stack, created: Address): Stack {
    AddDiscardable(SetTarget(s, created), 1)
  }

  /** Both hooks. */
  function StartFrame(spec: Spec, s: Stack, kind: Kind): Stack {
    if kind.Creation? && kind.created.Some? then SetUp(InitFrame(spec, s, kind), kind.created.value)
    else InitFrame(spec, s, kind)
  }

  class KVUpdateTracker {
    const frameTracker: FrameLimitTracker

    constructor (spec: Spec, limit: nat)
      ensures fresh(frameTracker) && frameTracker.spec == spec && frameTracker.Valid()
      ensures frameTracker.View() == Stack(Entry(limit, 0, 0, 0, NO_INFO), [])
    {
      frameTracker := new FrameLimitTracker(spec, limit);
    }

    /** Pre-frame usage: the caller's account and, before Rex6, every recoverable authority. */
    method BeforeTxStart(authorities: nat)
      requires frameTracker.Valid()
      modifies frameTracker
      ensures frameTracker.Valid()
      ensures frameTracker.View() == AddTx(old(frameTracker.View()),
              1 + if frameTracker.spec.rex6 then 0 else authorities)
    {
      if !frameTracker.spec.rex6 {
        for i := 0 to authorities
          invariant frameTracker.Valid() && frameTracker.View() == AddTx(old(frameTracker.View()), i)
        {
          frameTracker.AddTxPersistent(1);
        }
      }
      frameTracker.AddTxPersistent(1);
    }

    method BeforeCall(target: Address, transfer: bool, toSelf: bool)
      requires frameTracker.Valid()
      modifies frameTracker
      ensures frameTracker.Valid()
      ensures frameTracker.View() == InitCall(frameTracker.spec, old(frameTracker.View()), target, transfer, toSelf)
    {
      var due := frameTracker.PushCallFrame(target, transfer);
      if transfer {
        if due {
          frameTracker.AddFrameDiscardable(1);
        }
        if !(frameTracker.spec.rex6 && toSelf) {
          frameTracker.AddFrameDiscardable(1);
        }
      }
    }

    method BeforeCreate()
      requires frameTracker.Valid()
      modifies frameTracker
      ensures frameTracker.Valid()
      ensures frameTracker.View() == InitCreate(frameTracker.spec, old(frameTracker.View()))
    {
      var due := frameTracker.PushCreateFrame();
      if due {
        if frameTracker.spec.rex6 {
          frameTracker.AddParentDiscardable(1);
        } else {
          frameTracker.AddFrameDiscardable(1);
        }
      }
    }

    method BeforeFrameInit(kind: Kind)
      requires frameTracker.Valid()
      modifies frameTracker
      ensures frameTracker.Valid()
      ensures frameTracker.View() == InitFrame(frameTracker.spec, old(frameTracker.View()), kind)
    {
      match kind {
        case Message(target, transfer, toSelf) => BeforeCall(target, transfer, toSelf);
        case Creation(_) => BeforeCreate();
        case Intercepted =>
          frameTracker.PushFrame(SpecLimit(frameTracker.spec, frameTracker.View()), NO_INFO);
      }
    }

    /** The frame of a creation was set up; other frames have nothing to record here. */
    method AfterFrameInitOnFrame(created: Option<Address>)
      requires frameTracker.Valid()
      requires created.Some? && frameTracker.View().Active() ==> frameTracker.View().Top().info.target.None?
      modifies frameTracker
      ensures frameTracker.Valid()
      ensures frameTracker.View() ==
              if created.Some? then SetUp(old(frameTracker.View()), created.value) else old(frameTracker.View())
    {
      if created.Some? {
        frameTracker.SetCreatedAddress(created.value);
        frameTracker.AddFrameDiscardable(1);
      }
    }

    /** `SSTORE`: the first write to a slot costs one update, restoring it refunds one. */
    method AfterSstore(originalIsPresent: bool, originalIsNew: bool)
      requires frameTracker.Valid()
      modifies frameTracker
      ensures frameTracker.Valid()
      ensures frameTracker.View() ==
              if originalIsPresent && !originalIsNew then AddDiscardable(old(frameTracker.View()), 1)
              else if !originalIsPresent && originalIsNew then AddRefund(old(frameTracker.View()), 1)
              else old(frameTracker.View())
    {
      if originalIsPresent {
        if !originalIsNew {
          frameTracker.AddFrameDiscardable(1);
        }
      } else if originalIsNew {
        frameTracker.AddFrameRefund(1);
      }
    }

    method BeforeFrameReturn(success: bool)
      requires frameTracker.Valid()
      modifies frameTracker
      ensures frameTracker.Valid()
      ensures frameTracker.View() == PopUnwind(old(frameTracker.View()), success)
    {
      frameTracker.PopFrameUnwindParent(success);
    }

    /** Frame budget first (Rex4), then the transaction limit. */
    method CheckLimit() returns (r: Verdict)
      requires frameTracker.Valid()
      ensures r == Checked(frameTracker.spec, frameTracker.View())
    {
      if frameTracker.spec.rex4 && frameTracker.frames != [] {
        var e := frameTracker.frames[|frameTracker.frames| - 1];
        if e.Net() > e.limit {
          return Exceeds(e.limit, e.Used(), true);
        }
      }
      var used := frameTracker.CachedNetUsage();
      if used > frameTracker.tx.limit {
        return Exceeds(frameTracker.tx.limit, used, false);
      }
      return Within;
    }
  }

  datatype Verdict = Within | Exceeds(limit: nat, used: nat, frameLocal: bool)

  function Checked(spec: Spec, s: Stack): Verdict {
    if spec.rex4 && s.Active() && s.Top().Net() > s.Top().limit then Exceeds(s.Top().limit, s.Top().Used(), true)
    else if NetUsage(s) > s.tx.limit then Exceeds(s.tx.limit, NetUsage(s), false)
    else Within
  }

  // ---------------------------------------------------------------------------------------------
  // What a call tree is charged
  // ---------------------------------------------------------------------------------------------

  /** A frame: how it starts, what it does, whether its result is kept. */
  datatype Call = Call(kind: Kind, ops: seq<Op>, ok: bool)

  datatype Op = Write | Restore | Child(call: Call)

  /** The tracker driven through the operations of the running frame. */
  function Exec(spec: Spec, s: Stack, ops: seq<Op>): Stack
    decreases ops, 0
  {
    if ops == [] then s
    else ExecOp(spec, Exec(spec, s, ops[..|ops| - 1]), ops[|ops| - 1])
  }

  function ExecOp(spec: Spec, s: Stack, op: Op): Stack
    decreases op, 1
  {
    match op
    case Write => AddDiscardable(s, 1)
    case Restore => AddRefund(s, 1)
    case Child(call) => PopUnwind(Exec(spec, StartFrame(spec, s, call.kind), call.ops), call.ok)
  }

  /** The frame's own account counts as updated already when it starts. */
  predicate StartsUpdated(kind: Kind) {
    kind.Creation? || (kind.Message? && kind.transfer)
  }

  /** The callee's side of starting a frame. */
  function TargetCharge(spec: Spec, kind: Kind): nat {
    match kind
    case Message(_, transfer, toSelf) => if transfer && !(spec.rex6 && toSelf) then 1 else 0
    case Creation(created) => if created.Some? then 1 else 0
    case Intercepted => 0
  }

  /**
   The call leaves a lasting update of the caller's account: a transfer that is kept, or a creation
   (whose nonce bump Rex6 recognises as surviving the creation's revert).
   */
  predicate UpdatesCaller(spec: Spec, call: Call) {
    match call.kind
    case Message(_, transfer, _) => transfer && call.ok
    case Creation(_) => call.ok || spec.rex6
    case Intercepted => false
  }

  function Updates(spec: Spec, ops: seq<Op>): nat {
    if ops == [] then 0
    else
      var last := ops[|ops| - 1];
      Updates(spec, ops[..|ops| - 1]) + (if last.Child? && UpdatesCaller(spec, last.call) then 1 else 0)
  }

  /** Charges for the frame's own account: once from Rex5 on, per call before. */
  function OwnCharge(spec: Spec, updated: bool, ops: seq<Op>): nat {
    if updated then 0
    else if spec.rex5 then (if Updates(spec, ops) > 0 then 1 else 0)
    else Updates(spec, ops)
  }

  /** What the operations cost, leaving out the frame's own account. */
  function OpsUsed(spec: Spec, ops: seq<Op>): nat
    decreases ops, 0
  {
    if ops == [] then 0 else OpsUsed(spec, ops[..|ops| - 1]) + OpUsed(spec, ops[|ops| - 1])
  }

  function OpUsed(spec: Spec, op: Op): nat
    decreases op, 1
  {
    match op
    case Write => 1
    case Restore => 0
    case Child(call) => if call.ok then TargetCharge(spec, call.kind) + FrameUsed(spec, call) else 0
  }

  function FrameUsed(spec: Spec, call: Call): nat
    decreases call, 2
  {
    OpsUsed(spec, call.ops) + OwnCharge(spec, StartsUpdated(call.kind), call.ops)
  }

  function OpsRefund(ops: seq<Op>): nat
    decreases ops, 0
  {
    if ops == [] then 0 else OpsRefund(ops[..|ops| - 1]) + OpRefund(ops[|ops| - 1])
  }

  function OpRefund(op: Op): nat
    decreases op, 1
  {
    match op
    case Write => 0
    case Restore => 1
    case Child(call) => if call.ok then OpsRefund(call.ops) else 0
  }

  predicate Consistent(spec: Spec) {
    spec.rex6 ==> spec.rex5
  }

  /** The running frame after its operations. */
  function TopAfter(spec: Spec, e: Entry, ops: seq<Op>): Entry {
    e.(discardable := e.discardable + OpsUsed(spec, ops) + OwnCharge(spec, e.info.updated, ops),
       refund := e.refund + OpsRefund(ops),
       info := e.info.(updated := e.info.updated || (spec.rex5 && Updates(spec, ops) > 0)))
  }

  /** The running frame after one operation. */
  function TopAfterOp(spec: Spec, e: Entry, op: Op): Entry {
    match op
    case Write => e.(discardable := e.discardable + 1)
    case Restore => e.(refund := e.refund + 1)
    case Child(call) =>
      var own := if UpdatesCaller(spec, call) && !e.info.updated then 1 else 0;
      e.(discardable := e.discardable + OpUsed(spec, op) + own,
         refund := e.refund + OpRefund(op),
         info := e.info.(updated := e.info.updated || (spec.rex5 && UpdatesCaller(spec, call))))
  }

  lemma {:induction false} TopAfterStep(spec: Spec, e: Entry, ops: seq<Op>)
    requires ops != []
    ensures TopAfter(spec, e, ops) == TopAfterOp(spec, TopAfter(spec, e, ops[..|ops| - 1]), ops[|ops| - 1])
  {
    var n := |ops| - 1;
    assert OpsUsed(spec, ops) == OpsUsed(spec, ops[..n]) + OpUsed(spec, ops[n]);
    assert OpsRefund(ops) == OpsRefund(ops[..n]) + OpRefund(ops[n]);
    match ops[n]
    case Write => assert OpUsed(spec, Write) == 1 && OpRefund(Write) == 0;
    case Restore => assert OpUsed(spec, Restore) == 0 && OpRefund(Restore) == 1;
    case Child(_) =>
  }

  /**
   Driving the tracker through any call tree charges the running frame exactly what the tree costs:
   reverted subtrees vanish (but for creations' nonce bumps under Rex6), every frame's own account
   is charged once from Rex5 on, and no frame further down changes.
   */
  lemma {:induction false} ExecMeaning(spec: Spec, s: Stack, ops: seq<Op>)
    requires s.Active() && Consistent(spec)
    ensures Exec(spec, s, ops) == s.SetTop(TopAfter(spec, s.Top(), ops))
    decreases ops, 0
  {
    if ops == [] {
      assert s.SetTop(s.Top()) == s;
    } else {
      var n := |ops| - 1;
      ExecMeaning(spec, s, ops[..n]);
      TopAfterStep(spec, s.Top(), ops);
      var top := TopAfter(spec, s.Top(), ops[..n]);
      SetTopTwice(s, top, TopAfter(spec, s.Top(), ops));
      OpMeaning(spec, s.SetTop(top), ops[n]);
    }
  }

  lemma {:induction false} OpMeaning(spec: Spec, s: Stack, op: Op)
    requires s.Active() && Consistent(spec)
    ensures ExecOp(spec, s, op) == s.SetTop(TopAfterOp(spec, s.Top(), op))
    decreases op, 1
  {
    match op
    case Write =>
    case Restore =>
    case Child(call) =>
      StartMeaning(spec, s, call.kind);
      var parent, child := ParentStarted(spec, s.Top(), call.kind), ChildStarted(spec, s, call.kind);
      var started := Two(s, parent, child);
      assert started.Below() == s.Below() + [parent] && started.Top() == child;
      ExecMeaning(spec, started, call.ops);
      assert started.SetTop(TopAfter(spec, child, call.ops)) == Two(s, parent, TopAfter(spec, child, call.ops));
      ReturnMeaning(s, parent, TopAfter(spec, child, call.ops), call.ok);
      ChildCharges(spec, s, call);
  }

  /** The entry a returning child leaves on its parent. */
  function Returned(parent: Entry, child: Entry, ok: bool): Entry {
    var m := Merge(parent, child, ok);
    if !ok && child.info.chargedParent then m.(info := m.info.(updated := false)) else m
  }

  lemma {:induction false} ChildCharges(spec: Spec, s: Stack, call: Call)
    requires s.Active() && Consistent(spec)
    ensures var parent, child := ParentStarted(spec, s.Top(), call.kind), ChildStarted(spec, s, call.kind);
            Returned(parent, TopAfter(spec, child, call.ops), call.ok) == TopAfterOp(spec, s.Top(), Child(call))
  {
    assert OpUsed(spec, Child(call)) == if call.ok then TargetCharge(spec, call.kind) + FrameUsed(spec, call) else 0;
    assert OpRefund(Child(call)) == if call.ok then OpsRefund(call.ops) else 0;
  }

  lemma SetTopTwice(s: Stack, e: Entry, f: Entry)
    requires s.Active()
    ensures s.SetTop(e).Active() && s.SetTop(e).Top() == e && s.SetTop(e).Below() == s.Below()
    ensures s.SetTop(e).SetTop(f) == s.SetTop(f)
  {
  }

  /** `s` with its running frame replaced by a parent and a child. */
  function Two(s: Stack, parent: Entry, child: Entry): Stack
    requires s.Active()
  {
    Stack(s.tx, s.Below() + [parent] + [child])
  }

  /** Starting the call charges the caller's account, on the parent frame or on the child's. */
  predicate Due(e: Entry, kind: Kind) {
    StartsUpdated(kind) && !e.info.updated
  }

  predicate OnParent(spec: Spec, kind: Kind) {
    spec.rex6 && kind.Creation?
  }

  function ParentStarted(spec: Spec, e: Entry, kind: Kind): Entry {
    e.(discardable := e.discardable + (if Due(e, kind) && OnParent(spec, kind) then 1 else 0),
       info := e.info.(updated := e.info.updated || (spec.rex5 && StartsUpdated(kind))))
  }

  function TargetOf(kind: Kind): Option<Address> {
    match kind
    case Message(target, _, _) => Some(target)
    case Creation(created) => created
    case Intercepted => None
  }

  function ChildStarted(spec: Spec, s: Stack, kind: Kind): Entry
    requires s.Active()
  {
    var due := Due(s.Top(), kind) && !OnParent(spec, kind);
    Entry(SpecLimit(spec, s), 0, TargetCharge(spec, kind) + (if due then 1 else 0), 0,
          Info(TargetOf(kind), StartsUpdated(kind), spec.rex5 && due))
  }

  lemma {:induction false} StartMeaning(spec: Spec, s: Stack, kind: Kind)
    requires s.Active() && Consistent(spec)
    ensures StartFrame(spec, s, kind) == Two(s, ParentStarted(spec, s.Top(), kind), ChildStarted(spec, s, kind))
  {
    match kind
    case Message(target, transfer, toSelf) => StartMessage(spec, s, target, transfer, toSelf);
    case Creation(created) => StartCreation(spec, s, created);
    case Intercepted => MarkedPush(s, false, ChildStarted(spec, s, kind));
  }

  /** Pushing a frame after marking, or not, the running one. */
  lemma {:induction false} MarkedPush(s: Stack, mark: bool, child: Entry)
    requires s.Active()
    requires child == Entry(child.limit, 0, 0, 0, child.info)
    ensures var marked := if mark then SetUpdated(s, true) else s;
            && Forward(marked) == Forward(s)
            && Push(marked, child.limit, child.info) ==
               Two(s, if mark then s.Top().(info := s.Top().info.(updated := true)) else s.Top(), child)
  {
    var top := s.Top().(info := s.Top().info.(updated := true));
    assert s.SetTop(s.Top()) == s;
    SetTopTwice(s, top, top);
  }

  lemma {:induction false} StartMessage(spec: Spec, s: Stack, target: Address, transfer: bool, toSelf: bool)
    requires s.Active() && Consistent(spec)
    ensures var kind := Message(target, transfer, toSelf);
            StartFrame(spec, s, kind) == Two(s, ParentStarted(spec, s.Top(), kind), ChildStarted(spec, s, kind))
  {
    var kind := Message(target, transfer, toSelf);
    var mark := spec.rex5 && Due(s.Top(), kind);
    var parent := if mark then s.Top().(info := s.Top().info.(updated := true)) else s.Top();
    var child := Entry(SpecLimit(spec, s), 0, 0, 0, ChildStarted(spec, s, kind).info);
    MarkedPush(s, mark, child);
    assert PushCall(spec, s, target, transfer) == Two(s, parent, child);
    ChargeMessage(s, parent, child, Due(s.Top(), kind), transfer && !(spec.rex6 && toSelf));
  }

  /** The charges of a call: the caller's account, then the callee's, both on the callee's frame. */
  lemma {:induction false} ChargeMessage(s: Stack, parent: Entry, child: Entry, due: bool, callee: bool)
    requires s.Active()
    ensures var pushed := Two(s, parent, child);
            var caller := if due then AddDiscardable(pushed, 1) else pushed;
            var own := (if due then 1 else 0) + (if callee then 1 else 0);
            (if callee then AddDiscardable(caller, 1) else caller) ==
            Two(s, parent, child.(discardable := child.discardable + own))
  {
    TwoAdd(s, parent, child, 1);
    TwoAdd(s, parent, child.(discardable := child.discardable + 1), 1);
  }

  /** The first hook of a creation. */
  lemma {:induction false} InitCreation(spec: Spec, s: Stack)
    requires s.Active() && Consistent(spec)
    ensures var kind := Creation(None);
            InitFrame(spec, s, kind) == Two(s, ParentStarted(spec, s.Top(), kind), ChildStarted(spec, s, kind))
  {
    var kind := Creation(None);
    var due := Due(s.Top(), kind);
    var mark := spec.rex5 && due;
    var parent := if mark then s.Top().(info := s.Top().info.(updated := true)) else s.Top();
    var child := Entry(SpecLimit(spec, s), 0, 0, 0, ChildStarted(spec, s, kind).info);
    PushedCreate(spec, s, parent, child);
    ChargeCreator(spec.rex6, s, parent, child, due);
  }

  lemma {:induction false} PushedCreate(spec: Spec, s: Stack, parent: Entry, child: Entry)
    requires s.Active()
    requires var mark := spec.rex5 && !s.Top().info.updated;
             && parent == (if mark then s.Top().(info := s.Top().info.(updated := true)) else s.Top())
             && child == Entry(SpecLimit(spec, s), 0, 0, 0, Info(None, true, mark && !spec.rex6))
    ensures PushCreate(spec, s) == Two(s, parent, child)
  {
    MarkedPush(s, spec.rex5 && !s.Top().info.updated, child);
  }

  /** The creator's account, on its own frame from Rex6 on. */
  lemma {:induction false} ChargeCreator(rex6: bool, s: Stack, parent: Entry, child: Entry, due: bool)
    requires s.Active()
    ensures var pushed := Two(s, parent, child);
            var up, own := if due && rex6 then 1 else 0, if due && !rex6 then 1 else 0;
            (if !due then pushed else if rex6 then AddToParent(pushed, 1) else AddDiscardable(pushed, 1)) ==
            Two(s, parent.(discardable := parent.discardable + up), child.(discardable := child.discardable + own))
  {
    TwoAdd(s, parent, child, 1);
  }

  lemma {:induction false} StartCreation(spec: Spec, s: Stack, created: Option<Address>)
    requires s.Active() && Consistent(spec)
    ensures var kind := Creation(created);
            StartFrame(spec, s, kind) == Two(s, ParentStarted(spec, s.Top(), kind), ChildStarted(spec, s, kind))
  {
    InitCreation(spec, s);
    if created.Some? {
      var parent, child := ParentStarted(spec, s.Top(), Creation(None)), ChildStarted(spec, s, Creation(None));
      TwoSetUp(s, parent, child, created.value);
    }
  }

  lemma {:induction false} TwoSetUp(s: Stack, parent: Entry, child: Entry, a: Address)
    requires s.Active()
    ensures SetUp(Two(s, parent, child), a) ==
            Two(s, parent, child.(discardable := child.discardable + 1, info := child.info.(target := Some(a))))
  {
    var two := Two(s, parent, child);
    assert two.Below() == s.Below() + [parent] && two.Top() == child;
    var named := child.(info := child.info.(target := Some(a)));
    SetTopTwice(two, named, named);
    TwoAdd(s, parent, named, 1);
  }

  /** Charging the child and charging the parent below it. */
  lemma {:induction false} TwoAdd(s: Stack, parent: Entry, child: Entry, n: nat)
    requires s.Active()
    ensures AddDiscardable(Two(s, parent, child), n) == Two(s, parent, child.(discardable := child.discardable + n))
    ensures AddToParent(Two(s, parent, child), n) == Two(s, parent.(discardable := parent.discardable + n), child)
  {
    var two := Two(s, parent, child);
    assert two.Below() == s.Below() + [parent] && two.Top() == child;
    assert two.Below()[..|two.Below()| - 1] == s.Below();
  }

  lemma {:induction false} ReturnMeaning(s: Stack, parent: Entry, child: Entry, ok: bool)
    requires s.Active()
    ensures PopUnwind(Two(s, parent, child), ok) ==
            s.SetTop(Returned(parent, child, ok))
  {
    var two := Two(s, parent, child);
    assert two.Below() == s.Below() + [parent] && two.Top() == child;
    var m := Merge(parent, child, ok);
    assert two.Below()[..|two.Below()| - 1] == s.Below();
    assert Pop(two, ok) == s.SetTop(m);
    assert s.SetTop(m).Below() == s.Below();
  }

  /** A whole transaction: the outermost frame has no parent to charge. */
  function ExecTransaction(spec: Spec, s: Stack, call: Call): Stack {
    PopUnwind(Exec(spec, StartFrame(spec, s, call.kind), call.ops), call.ok)
  }

  /** The outermost frame: nothing is due to a parent. */
  lemma {:induction false} FirstFrame(spec: Spec, s: Stack, kind: Kind)
    requires !s.Active()
    ensures StartFrame(spec, s, kind) ==
            Stack(s.tx, [Entry(SpecLimit(spec, s), 0, TargetCharge(spec, kind), 0,
                               Info(TargetOf(kind), StartsUpdated(kind), false))])
  {
    var bare := Entry(SpecLimit(spec, s), 0, 0, 0,
        Info(if kind.Message? then Some(kind.target) else None, StartsUpdated(kind), false));
    assert s.frames + [bare] == [bare];
    OneFrame(s.tx, bare);
    if kind.Creation? && kind.created.Some? {
      OneFrame(s.tx, bare.(info := bare.info.(target := kind.created)));
    }
  }

  lemma OneFrame(tx: Entry, e: Entry)
    ensures var s := Stack(tx, [e]);
            && (forall n: nat :: AddDiscardable(s, n) == Stack(tx, [e.(discardable := e.discardable + n)]))
            && (forall a: Address :: SetTarget(s, a) == Stack(tx, [e.(info := e.info.(target := Some(a)))]))
  {
    assert Stack(tx, [e]).Below() == [];
  }

  /** The transaction ends with its intrinsic usage plus, if it succeeded, what its tree costs. */
  lemma {:induction false} TransactionMeaning(spec: Spec, s: Stack, call: Call)
    requires !s.Active() && Consistent(spec)
    ensures ExecTransaction(spec, s, call) ==
            var used := if call.ok then TargetCharge(spec, call.kind) + FrameUsed(spec, call) else 0;
            var refund := if call.ok then OpsRefund(call.ops) else 0;
            Stack(s.tx.(discardable := s.tx.discardable + used, refund := s.tx.refund + refund), [])
  {
    var kind := call.kind;
    var info := Info(TargetOf(kind), StartsUpdated(kind), false);
    var child := Entry(SpecLimit(spec, s), 0, TargetCharge(spec, kind), 0, info);
    FirstFrame(spec, s, kind);
    OneFrameMeaning(spec, StartFrame(spec, s, kind), s.tx, child, call.ops, call.ok);
  }

  /** A single frame run to its end. */
  lemma {:induction false} OneFrameMeaning(
    spec: Spec, started: Stack, tx: Entry, child: Entry, ops: seq<Op>, ok: bool)
    requires started == Stack(tx, [child]) && Consistent(spec) && !child.info.chargedParent && child.persistent == 0
    ensures PopUnwind(Exec(spec, started, ops), ok) == Stack(Merge(tx, TopAfter(spec, child, ops), ok), [])
  {
    assert started.Below() == [] && started.Top() == child;
    ExecMeaning(spec, started, ops);
    var top := TopAfter(spec, child, ops);
    assert started.SetTop(top) == Stack(tx, [top]);
  }

  // ---------------------------------------------------------------------------------------------
  // Frame budgets (Rex4)
  // ---------------------------------------------------------------------------------------------

  /** One event of a transaction. */
  datatype BudgetStep =
    | Intrinsic(n: nat)         // pre-frame usage
    | Start(kind: Kind)         // the hook before a frame starts
    | Created(a: Address)       // the hook after a creation has been set up
    | Charge(n: nat)
    | Keep(n: nat)              // usage that survives a revert
    | Refund(n: nat)
    | Finish(ok: bool)

  /** Nothing starts once a limit is exceeded; everything else may happen at any time. */
  function BudgetNext(spec: Spec, s: Stack, step: BudgetStep): Stack {
    match step
    case Intrinsic(n) => if s.Active() then s else AddTx(s, n)
    case Start(kind) => if Checked(spec, s).Within? then InitFrame(spec, s, kind) else s
    case Created(a) => if s.Active() && s.Top().info.target.None? then SetUp(s, a) else s
    case Charge(n) => AddDiscardable(s, n)
    case Keep(n) => AddPersistent(s, n)
    case Refund(n) => AddRefund(s, n)
    case Finish(ok) => PopUnwind(s, ok)
  }

  function BudgetRun(spec: Spec, limit: nat, steps: seq<BudgetStep>): Stack {
    if steps == [] then Stack(Entry(limit, 0, 0, 0, NO_INFO), [])
    else BudgetNext(spec, BudgetRun(spec, limit, steps[..|steps| - 1]), steps[|steps| - 1])
  }

  /** One event on the tracker object. */
  method Perform(t: KVUpdateTracker, step: BudgetStep)
    requires t.frameTracker.Valid()
    modifies t.frameTracker
    ensures t.frameTracker.Valid()
    ensures t.frameTracker.View() == BudgetNext(t.frameTracker.spec, old(t.frameTracker.View()), step)
  {
    var f := t.frameTracker;
    match step {
      case Intrinsic(n) => if f.frames == [] { f.AddTxPersistent(n); }
      case Start(kind) =>
        var verdict := t.CheckLimit();
        if verdict.Within? { t.BeforeFrameInit(kind); }
      case Created(a) =>
        if f.frames != [] && f.frames[|f.frames| - 1].info.target.None? { t.AfterFrameInitOnFrame(Some(a)); }
      case Charge(n) => f.AddFrameDiscardable(n);
      case Keep(n) => var _ := f.AddFramePersistent(n);
      case Refund(n) => f.AddFrameRefund(n);
      case Finish(ok) => t.BeforeFrameReturn(ok);
    }
  }

  /** The tracker driven through any events: its cached usage and its check are those of the plain walk. */
  method Track(spec: Spec, limit: nat, steps: seq<BudgetStep>) returns (usage: nat, verdict: Verdict)
    ensures usage == NetUsage(BudgetRun(spec, limit, steps))
    ensures verdict == Checked(spec, BudgetRun(spec, limit, steps))
  {
    var t := new KVUpdateTracker(spec, limit);
    for i := 0 to |steps|
      invariant fresh(t.frameTracker) && t.frameTracker.Valid() && t.frameTracker.spec == spec
      invariant t.frameTracker.View() == BudgetRun(spec, limit, steps[..i])
    {
      RunStep(spec, limit, steps, i);
      Perform(t, steps[i]);
    }
    assert steps[..|steps|] == steps;
    usage := t.frameTracker.CachedNetUsage();
    verdict := t.CheckLimit();
  }

  /** The usage net of refunds of the transaction entry and the first `k` frames, not clamped. */
  function Base(s: Stack, k: nat): int
    requires k <= |s.frames|
  {
    s.tx.Used() - s.tx.refund + TotalUsed(s.frames[..k]) - TotalRefund(s.frames[..k])
  }

  /** What lies below each frame, together with that frame's limit, fits the transaction's limit. */
  ghost predicate Room(s: Stack) {
    forall k :: 0 <= k < |s.frames| ==> Base(s, k) + s.frames[k].limit <= s.tx.limit
  }

  /** The transaction-level check fires while a frame is running. */
  predicate TxFires(spec: Spec, s: Stack) {
    s.Active() && Checked(spec, s).Exceeds? && !Checked(spec, s).frameLocal
  }

  lemma BaseStep(s: Stack, k: nat)
    requires k < |s.frames|
    ensures Base(s, k + 1) == Base(s, k) + s.frames[k].Used() - s.frames[k].refund
  {
    assert s.frames[..k + 1][..k] == s.frames[..k];
  }

  /** With room below every frame, a frame over the transaction's limit is over its own. */
  lemma {:induction false} RoomIsQuiet(spec: Spec, s: Stack)
    requires spec.rex4 && Room(s)
    ensures !TxFires(spec, s)
  {
    if s.Active() {
      var n := |s.frames| - 1;
      BaseStep(s, n);
      assert s.frames[..n + 1] == s.frames;
      assert Base(s, n) + s.frames[n].limit <= s.tx.limit;
    }
  }

  /** Room depends on the frames below the running one and on the limits only. */
  lemma {:induction false} RoomFrame(s: Stack, t: Stack)
    requires Room(s) && t.tx == s.tx && |t.frames| <= |s.frames|
    requires forall k :: 0 <= k < |t.frames| - 1 ==> t.frames[k] == s.frames[k]
    requires t.Active() ==> t.Top().limit == s.frames[|t.frames| - 1].limit
    ensures Room(t)
  {
    forall k | 0 <= k < |t.frames| ensures Base(t, k) + t.frames[k].limit <= t.tx.limit {
      assert t.frames[..k] == s.frames[..k];
      assert Base(s, k) + s.frames[k].limit <= s.tx.limit;
    }
  }

  /** A child on a changed parent has room exactly when its base has. */
  lemma {:induction false} RoomForTwo(s: Stack, parent: Entry, child: Entry)
    requires s.Active() && Room(s) && parent.limit == s.Top().limit
    ensures Room(Two(s, parent, child)) <==>
            Base(s, |s.frames| - 1) + parent.Used() - parent.refund + child.limit <= s.tx.limit
  {
    var t, n := Two(s, parent, child), |s.frames| - 1;
    assert t.frames[n] == parent && t.frames[n + 1] == child;
    assert t.frames[..n] == s.frames[..n];
    BaseStep(t, n);
    assert Room(t) ==> Base(t, n + 1) + child.limit <= t.tx.limit;
    forall k | 0 <= k <= n ensures Base(t, k) + t.frames[k].limit <= t.tx.limit {
      RoomBelow(s, parent, child, k);
    }
  }

  lemma {:induction false} RoomBelow(s: Stack, parent: Entry, child: Entry, k: nat)
    requires s.Active() && Room(s) && parent.limit == s.Top().limit && k < |s.frames|
    ensures var t := Two(s, parent, child); Base(t, k) + t.frames[k].limit <= t.tx.limit
  {
    var t := Two(s, parent, child);
    assert t.frames[..k] == s.frames[..k];
    assert Base(s, k) + s.frames[k].limit <= s.tx.limit;
  }

  lemma ForwardLess(r: nat)
    ensures r * 98 / 100 <= r
    ensures r > 0 ==> r * 98 / 100 < r
  {
  }

  /** A creation charged to its creator, in a transaction that has used up its limit exactly. */
  predicate Trips(spec: Spec, s: Stack, step: BudgetStep) {
    && step.Start? && step.kind.Creation? && spec.rex6
    && s.Active() && !s.Top().info.updated
    && s.Top().Net() <= s.Top().limit
    && Base(s, |s.frames|) == s.tx.limit
  }

  lemma {:induction false} InitMeaning(spec: Spec, s: Stack, kind: Kind)
    requires s.Active() && Consistent(spec)
    ensures var k := if kind.Creation? then Creation(None) else kind;
            InitFrame(spec, s, kind) == Two(s, ParentStarted(spec, s.Top(), k), ChildStarted(spec, s, k))
  {
    if kind.Creation? {
      InitCreation(spec, s);
    } else {
      StartMeaning(spec, s, kind);
    }
  }

  /** Starting a frame keeps the room, or trips the transaction-level check, never both. */
  lemma {:induction false} StartKeepsRoom(spec: Spec, s: Stack, kind: Kind)
    requires spec.rex4 && Consistent(spec) && Room(s) && Checked(spec, s).Within? && s.Active()
    ensures Trips(spec, s, Start(kind)) <==> !Room(InitFrame(spec, s, kind))
    ensures Trips(spec, s, Start(kind)) <==> TxFires(spec, InitFrame(spec, s, kind))
    ensures Trips(spec, s, Start(kind)) ==>
              Checked(spec, InitFrame(spec, s, kind)) == Exceeds(s.tx.limit, s.tx.limit + 1, false)
  {
    var k := if kind.Creation? then Creation(None) else kind;
    var n := |s.frames| - 1;
    var parent, child := ParentStarted(spec, s.Top(), k), ChildStarted(spec, s, k);
    InitMeaning(spec, s, kind);
    RoomForTwo(s, parent, child);
    ForwardLess(s.Top().Remaining());
    BaseStep(s, n);
    assert s.frames[..n + 1] == s.frames;
    assert Base(s, n) + s.frames[n].limit <= s.tx.limit;
    if Trips(spec, s, Start(kind)) {
      TrippedFires(spec, s, parent, child);
    } else {
      RoomIsQuiet(spec, InitFrame(spec, s, kind));
    }
  }

  lemma {:induction false} TrippedFires(spec: Spec, s: Stack, parent: Entry, child: Entry)
    requires s.Active() && Base(s, |s.frames|) == s.tx.limit
    requires parent.Used() == s.Top().Used() + 1 && parent.refund == s.Top().refund
    requires child.Used() == child.refund == 0
    ensures TxFires(spec, Two(s, parent, child))
    ensures Checked(spec, Two(s, parent, child)) == Exceeds(s.tx.limit, s.tx.limit + 1, false)
  {
    var t := Two(s, parent, child);
    TotalsTop(s);
    TotalsAppend(s.Below(), parent);
    TotalsAppend(s.Below() + [parent], child);
    assert s.frames[..|s.frames|] == s.frames;
  }

  lemma {:induction false} WithinWhenTripping(spec: Spec, s: Stack, step: BudgetStep)
    ensures Trips(spec, s, step) ==> Checked(spec, s).Within?
  {
    assert s.frames[..|s.frames|] == s.frames;
  }

  lemma {:induction false} FirstHasRoom(spec: Spec, s: Stack, kind: Kind)
    requires spec.rex4 && !s.Active() && Checked(spec, s).Within?
    ensures Room(InitFrame(spec, s, kind))
  {
    InitFirst(spec, s, kind);
    var k := if kind.Creation? then Creation(None) else kind;
    FirstFrame(spec, s, k);
    var e := Entry(SpecLimit(spec, s), 0, TargetCharge(spec, k), 0, Info(TargetOf(k), StartsUpdated(k), false));
    RoomForOne(InitFrame(spec, s, kind), s.tx, e);
  }

  lemma InitFirst(spec: Spec, s: Stack, kind: Kind)
    ensures InitFrame(spec, s, kind) == StartFrame(spec, s, if kind.Creation? then Creation(None) else kind)
  {
  }

  lemma RoomForOne(t: Stack, tx: Entry, e: Entry)
    requires t == Stack(tx, [e]) && e.limit == tx.Remaining() && tx.Net() <= tx.limit
    ensures Room(t)
  {
  }

  /** One step keeps the room, or trips the transaction-level check, never both. */
  lemma {:induction false} StepKeepsRoom(spec: Spec, s: Stack, step: BudgetStep)
    requires spec.rex4 && Consistent(spec) && Room(s)
    ensures Trips(spec, s, step) <==> !Room(BudgetNext(spec, s, step))
    ensures Trips(spec, s, step) <==> TxFires(spec, BudgetNext(spec, s, step))
    ensures Trips(spec, s, step) ==>
              Checked(spec, BudgetNext(spec, s, step)) == Exceeds(s.tx.limit, s.tx.limit + 1, false)
  {
    var t := BudgetNext(spec, s, step);
    WithinWhenTripping(spec, s, step);
    if step.Start? {
      if Checked(spec, s).Within? && s.Active() {
        StartKeepsRoom(spec, s, step.kind);
      } else if Checked(spec, s).Within? {
        FirstHasRoom(spec, s, step.kind);
      }
    } else {
      OtherKeepsRoom(spec, s, step);
    }
    if Room(t) {
      RoomIsQuiet(spec, t);
    }
  }

  lemma {:induction false} OtherKeepsRoom(spec: Spec, s: Stack, step: BudgetStep)
    requires Room(s) && !step.Start?
    ensures Room(BudgetNext(spec, s, step))
  {
    if step.Finish? {
      FinishKeepsRoom(s, step.ok);
    } else if s.Active() {
      TopStepMeaning(spec, s, step);
      RoomSetTop(s, TopStep(s.Top(), step));
    }
  }

  /** What a step other than a start or a finish does to the running frame. */
  function TopStep(e: Entry, step: BudgetStep): Entry {
    match step
    case Created(a) =>
      if e.info.target.None? then e.(discardable := e.discardable + 1, info := e.info.(target := Some(a))) else e
    case Charge(n) => e.(discardable := e.discardable + n)
    case Keep(n) => e.(persistent := e.persistent + n)
    case Refund(n) => e.(refund := e.refund + n)
    case _ => e
  }

  lemma {:induction false} TopStepMeaning(spec: Spec, s: Stack, step: BudgetStep)
    requires s.Active() && !step.Start? && !step.Finish?
    ensures BudgetNext(spec, s, step) == s.SetTop(TopStep(s.Top(), step))
  {
    assert s.SetTop(s.Top()) == s;
    if step.Created? && s.Top().info.target.None? {
      var named := s.Top().(info := s.Top().info.(target := Some(step.a)));
      SetTopTwice(s, named, named.(discardable := named.discardable + 1));
    }
  }

  lemma {:induction false} RoomSetTop(s: Stack, e: Entry)
    requires s.Active() && Room(s) && e.limit == s.Top().limit
    ensures Room(s.SetTop(e))
  {
    RoomFrame(s, s.SetTop(e));
  }

  lemma {:induction false} FinishKeepsRoom(s: Stack, ok: bool)
    requires Room(s)
    ensures Room(PopUnwind(s, ok))
  {
    if |s.frames| > 1 {
      var below := Stack(s.tx, s.Below());
      RoomFrame(s, below);
      var merged := Merge(below.Top(), s.Top(), ok);
      RoomSetTop(below, merged);
      SetTopTwice(below, merged, merged.(info := merged.info.(updated := false)));
      RoomSetTop(below, merged.(info := merged.info.(updated := false)));
    }
  }

  ghost predicate FiresAt(spec: Spec, limit: nat, steps: seq<BudgetStep>, i: nat)
    requires i <= |steps|
  {
    TxFires(spec, BudgetRun(spec, limit, steps[..i]))
  }

  ghost predicate TripsAt(spec: Spec, limit: nat, steps: seq<BudgetStep>, i: nat)
    requires i < |steps|
  {
    Trips(spec, BudgetRun(spec, limit, steps[..i]), steps[i])
  }

  /** Without a tripping creation there is room in every state. */
  lemma {:induction false} RoomThroughout(spec: Spec, limit: nat, steps: seq<BudgetStep>, n: nat)
    requires spec.rex4 && Consistent(spec) && n <= |steps|
    requires forall i :: 0 <= i < n ==> !TripsAt(spec, limit, steps, i)
    ensures Room(BudgetRun(spec, limit, steps[..n]))
    decreases n
  {
    if n > 0 {
      RoomThroughout(spec, limit, steps, n - 1);
      assert !TripsAt(spec, limit, steps, n - 1);
      RoomNext(spec, limit, steps, n - 1);
    }
  }

  lemma {:induction false} RoomNext(spec: Spec, limit: nat, steps: seq<BudgetStep>, i: nat)
    requires spec.rex4 && Consistent(spec) && i < |steps| && Room(BudgetRun(spec, limit, steps[..i]))
    ensures TripsAt(spec, limit, steps, i) <==> !Room(BudgetRun(spec, limit, steps[..i + 1]))
    ensures TripsAt(spec, limit, steps, i) <==> FiresAt(spec, limit, steps, i + 1)
  {
    RunStep(spec, limit, steps, i);
    StepKeepsRoom(spec, BudgetRun(spec, limit, steps[..i]), steps[i]);
  }

  lemma RunStep(spec: Spec, limit: nat, steps: seq<BudgetStep>, i: nat)
    requires i < |steps|
    ensures BudgetRun(spec, limit, steps[..i + 1]) == BudgetNext(spec, BudgetRun(spec, limit, steps[..i]), steps[i])
  {
    assert steps[..i + 1][..i] == steps[..i];
  }

  /**
   In every run the transaction-level check fires while a frame is running if and only if some
   creation is charged to its creator when the transaction has used up its limit exactly. Until
   then a frame is always stopped by its own budget first.
   */
  lemma {:induction false} FrameCheckFirst(spec: Spec, limit: nat, steps: seq<BudgetStep>)
    requires spec.rex4 && Consistent(spec)
    ensures (exists i :: 0 <= i <= |steps| && FiresAt(spec, limit, steps, i)) <==>
            (exists i :: 0 <= i < |steps| && TripsAt(spec, limit, steps, i))
  {
    if i :| 0 <= i < |steps| && TripsAt(spec, limit, steps, i) {
      var first := FirstTrip(spec, limit, steps, i);
      RoomThroughout(spec, limit, steps, first);
      RoomNext(spec, limit, steps, first);
      assert FiresAt(spec, limit, steps, first + 1);
    } else {
      forall i | 0 <= i <= |steps| ensures !FiresAt(spec, limit, steps, i) {
        RoomThroughout(spec, limit, steps, i);
        RoomIsQuiet(spec, BudgetRun(spec, limit, steps[..i]));
      }
    }
  }

  lemma {:induction false} FirstTrip(spec: Spec, limit: nat, steps: seq<BudgetStep>, i: nat) returns (first: nat)
    requires i < |steps| && TripsAt(spec, limit, steps, i)
    ensures first <= i && TripsAt(spec, limit, steps, first)
    ensures forall j :: 0 <= j < first ==> !TripsAt(spec, limit, steps, j)
    decreases i
  {
    if j :| 0 <= j < i && TripsAt(spec, limit, steps, j) {
      first := FirstTrip(spec, limit, steps, j);
    } else {
      first := i;
    }
  }

  /** So before Rex6 the transaction-level check is only ever reached without a frame. */
  lemma {:induction false} QuietBeforeRex6(spec: Spec, limit: nat, steps: seq<BudgetStep>)
    requires spec.rex4 && !spec.rex6
    ensures !TxFires(spec, BudgetRun(spec, limit, steps))
  {
    FrameCheckFirst(spec, limit, steps);
    assert steps[..|steps|] == steps;
    assert !FiresAt(spec, limit, steps, |steps|);
  }

  /** The first frame spends its budget exactly and then creates a contract. */
  function SpendAndCreate(limit: nat, n: nat, target: Address): seq<BudgetStep>
    requires n <= limit
  {
    [Intrinsic(n), Start(Message(target, false, false)), Charge(limit - n), Start(Creation(None))]
  }

  /** From Rex6 on the check can fire, for every limit and intrinsic usage. */
  lemma {:induction false} Rex6CreateTrips(spec: Spec, limit: nat, n: nat, target: Address)
    requires spec.rex4 && spec.rex6 && Consistent(spec) && n <= limit
    ensures var s := BudgetRun(spec, limit, SpendAndCreate(limit, n, target));
            s.Active() && Checked(spec, s) == Exceeds(limit, limit + 1, false)
  {
    var e := Entry(limit - n, 0, limit - n, 0, Info(Some(target), false, false));
    var s := Stack(Entry(limit, n, 0, 0, NO_INFO), [e]);
    FourSteps(spec, limit, SpendAndCreate(limit, n, target));
    SpendBudget(spec, limit, n, target);
    SpentTrips(spec, s, e);
  }

  /** A creation in a single frame that has spent its budget exactly. */
  lemma {:induction false} SpentTrips(spec: Spec, s: Stack, e: Entry)
    requires spec.rex4 && spec.rex6 && Consistent(spec) && s.frames == [e] && !e.info.updated
    requires e.Used() == e.limit && e.refund == 0 && s.tx.refund == 0 && s.tx.Used() + e.limit == s.tx.limit
    ensures var t := BudgetNext(spec, s, Start(Creation(None)));
            t.Active() && Checked(spec, t) == Exceeds(s.tx.limit, s.tx.limit + 1, false)
  {
    BaseStep(s, 0);
    assert s.frames[..0] == [] && s.frames[..1] == s.frames;
    assert Room(s) && Trips(spec, s, Start(Creation(None)));
    StepKeepsRoom(spec, s, Start(Creation(None)));
  }

  lemma {:induction false} FourSteps(spec: Spec, limit: nat, steps: seq<BudgetStep>)
    requires |steps| == 4
    ensures var s0 := Stack(Entry(limit, 0, 0, 0, NO_INFO), []);
            var s2 := BudgetNext(spec, BudgetNext(spec, s0, steps[0]), steps[1]);
            BudgetRun(spec, limit, steps) == BudgetNext(spec, BudgetNext(spec, s2, steps[2]), steps[3])
  {
    RunStep(spec, limit, steps, 0);
    RunStep(spec, limit, steps, 1);
    RunStep(spec, limit, steps, 2);
    RunStep(spec, limit, steps, 3);
    assert steps[..0] == [] && steps[..4] == steps;
  }

  /** A first frame that spends the budget it got exactly. */
  lemma {:induction false} SpendBudget(spec: Spec, limit: nat, n: nat, target: Address)
    requires spec.rex4 && n <= limit
    ensures var s1 := BudgetNext(spec, Stack(Entry(limit, 0, 0, 0, NO_INFO), []), Intrinsic(n));
            var s2 := BudgetNext(spec, s1, Start(Message(target, false, false)));
            BudgetNext(spec, s2, Charge(limit - n)) ==
            Stack(Entry(limit, n, 0, 0, NO_INFO), [Entry(limit - n, 0, limit - n, 0, Info(Some(target), false, false))])
  {
    var s1 := Stack(Entry(limit, n, 0, 0, NO_INFO), []);
    assert BudgetNext(spec, Stack(Entry(limit, 0, 0, 0, NO_INFO), []), Intrinsic(n)) == s1;
    var bare := Entry(limit - n, 0, 0, 0, Info(Some(target), false, false));
    assert s1.frames + [bare] == [bare];
    assert BudgetNext(spec, s1, Start(Message(target, false, false))) == Stack(s1.tx, [bare]);
    OneFrame(s1.tx, bare);
  }

  /** What a started frame got fits its parent's limit, unless the parent was charged on top of a spent budget. */
  lemma {:induction false} ForwardFits(spec: Spec, e: Entry, s: Stack, kind: Kind)
    requires spec.rex4 && s.Active() && e == s.Top() && e.Net() <= e.limit
    ensures ParentStarted(spec, e, kind).Net() + ChildStarted(spec, s, kind).limit <= e.limit <==>
            !(Due(e, kind) && OnParent(spec, kind) && e.Used() == e.refund + e.limit)
  {
    ForwardLess(e.Remaining());
  }

  /** A child within its limit, on a parent its limit fits, leaves the parent within its own. */
  lemma ReturnStaysWithin(parent: Entry, child: Entry, success: bool)
    requires parent.Net() + child.limit <= parent.limit && child.Net() <= child.limit
    requires success || child.persistent == 0
    ensures Merge(parent, child, success).Net() <= parent.limit
  {
  }

  // ---------------------------------------------------------------------------------------------
  // The amounts stay small
  // ---------------------------------------------------------------------------------------------

  /** The most a step adds to the recorded usage. */
  function Cost(step: BudgetStep): nat {
    match step
    case Intrinsic(n) => n
    case Start(_) => 2
    case Created(_) => 1
    case Charge(n) => n
    case Keep(n) => n
    case Refund(_) => 0
    case Finish(_) => 0
  }

  function CostOf(steps: seq<BudgetStep>): nat {
    if steps == [] then 0 else CostOf(steps[..|steps| - 1]) + Cost(steps[|steps| - 1])
  }

  function RefundOf(steps: seq<BudgetStep>): nat {
    if steps == [] then 0
    else RefundOf(steps[..|steps| - 1]) + if steps[|steps| - 1].Refund? then steps[|steps| - 1].n else 0
  }

  function AllUsed(s: Stack): nat {
    s.tx.Used() + TotalUsed(s.frames)
  }

  function AllRefund(s: Stack): nat {
    s.tx.refund + TotalRefund(s.frames)
  }

  lemma {:induction false} SetTopTotals(s: Stack, e: Entry)
    requires s.Active()
    ensures AllUsed(s.SetTop(e)) == AllUsed(s) - s.Top().Used() + e.Used()
    ensures AllRefund(s.SetTop(e)) == AllRefund(s) - s.Top().refund + e.refund
  {
    TotalsTop(s);
    TotalsAppend(s.Below(), e);
  }

  lemma {:induction false} TwoTotals(s: Stack, parent: Entry, child: Entry)
    requires s.Active()
    ensures AllUsed(Two(s, parent, child)) == AllUsed(s) - s.Top().Used() + parent.Used() + child.Used()
    ensures AllRefund(Two(s, parent, child)) == AllRefund(s) - s.Top().refund + parent.refund + child.refund
  {
    TotalsTop(s);
    TotalsAppend(s.Below(), parent);
    TotalsAppend(s.Below() + [parent], child);
  }

  /** What a start adds to the stack, and how much it charges. */
  ghost predicate Started(s: Stack, t: Stack) {
    if s.Active() then exists parent, child :: t == Two(s, parent, child) && AddsTwo(s.Top(), parent, child)
    else exists e :: t == Stack(s.tx, [e]) && AddsOne(e)
  }

  predicate AddsTwo(top: Entry, parent: Entry, child: Entry) {
    parent.Used() + child.Used() <= top.Used() + 2 && parent.refund == top.refund && child.refund == 0
  }

  predicate AddsOne(e: Entry) {
    e.Used() <= 1 && e.refund == 0
  }

  lemma {:induction false} StartShape(spec: Spec, s: Stack, kind: Kind)
    requires Consistent(spec)
    ensures Started(s, InitFrame(spec, s, kind))
  {
    var k := if kind.Creation? then Creation(None) else kind;
    if s.Active() {
      InitMeaning(spec, s, kind);
      assert AddsTwo(s.Top(), ParentStarted(spec, s.Top(), k), ChildStarted(spec, s, k));
    } else {
      InitFirst(spec, s, kind);
      FirstFrame(spec, s, k);
      var info := Info(TargetOf(k), StartsUpdated(k), false);
      assert AddsOne(Entry(SpecLimit(spec, s), 0, TargetCharge(spec, k), 0, info));
    }
  }

  lemma {:induction false} StartTotals(s: Stack, t: Stack)
    requires Started(s, t)
    ensures AllUsed(t) <= AllUsed(s) + 2 && AllRefund(t) == AllRefund(s)
  {
    if s.Active() {
      var parent, child :| t == Two(s, parent, child) && AddsTwo(s.Top(), parent, child);
      TwoTotals(s, parent, child);
    } else {
      var e :| t == Stack(s.tx, [e]) && AddsOne(e);
      OneTotals(s, t, e);
    }
  }

  lemma {:induction false} OneTotals(s: Stack, t: Stack, e: Entry)
    requires !s.Active() && t == Stack(s.tx, [e])
    ensures AllUsed(t) == AllUsed(s) + e.Used() && AllRefund(t) == AllRefund(s) + e.refund
  {
    TotalsAppend([], e);
    assert [] + [e] == [e];
  }

  lemma {:induction false} FinishTotals(s: Stack, ok: bool)
    ensures AllUsed(PopUnwind(s, ok)) <= AllUsed(s) && AllRefund(PopUnwind(s, ok)) <= AllRefund(s)
  {
    if s.Active() {
      PopTotals(s, ok);
      var t := Pop(s, ok);
      if t.Active() {
        SetTopTotals(t, t.Top().(info := t.Top().info.(updated := false)));
      }
    }
  }

  lemma {:induction false} StepTotals(spec: Spec, s: Stack, step: BudgetStep)
    requires Consistent(spec)
    ensures AllUsed(BudgetNext(spec, s, step)) <= AllUsed(s) + Cost(step)
    ensures AllRefund(BudgetNext(spec, s, step)) <= AllRefund(s) + if step.Refund? then step.n else 0
  {
    if step.Start? {
      StartShape(spec, s, step.kind);
      StartTotals(s, InitFrame(spec, s, step.kind));
    } else if step.Finish? {
      FinishTotals(s, step.ok);
    } else if s.Active() {
      TopStepMeaning(spec, s, step);
      SetTopTotals(s, TopStep(s.Top(), step));
    }
  }

  lemma {:induction false} EntryBelowTotal(frames: seq<Entry>, i: nat)
    requires i < |frames|
    ensures frames[i].Used() <= TotalUsed(frames) && frames[i].refund <= TotalRefund(frames)
  {
    if i < |frames| - 1 {
      EntryBelowTotal(frames[..|frames| - 1], i);
    }
  }

  /**
   Every amount the tracker adds up, cached totals included, is at most what the steps of the
   transaction charged and refunded: the source's 64-bit additions are exact as long as those fit.
   */
  lemma {:induction false} AmountsBounded(spec: Spec, limit: nat, steps: seq<BudgetStep>)
    requires Consistent(spec)
    ensures var s := BudgetRun(spec, limit, steps);
            && AllUsed(s) <= CostOf(steps) && AllRefund(s) <= RefundOf(steps)
            && (forall i :: 0 <= i < |s.frames| ==>
                s.frames[i].Used() <= CostOf(steps) && s.frames[i].refund <= RefundOf(steps))
  {
    if steps != [] {
      AmountsBounded(spec, limit, steps[..|steps| - 1]);
      StepTotals(spec, BudgetRun(spec, limit, steps[..|steps| - 1]), steps[|steps| - 1]);
    }
    var s := BudgetRun(spec, limit, steps);
    forall i | 0 <= i < |s.frames|
      ensures s.frames[i].Used() <= CostOf(steps) && s.frames[i].refund <= RefundOf(steps)
    {
      EntryBelowTotal(s.frames, i);
    }
  }
}
