/**
 The volatile-data access tracker (`crates/mega-evm/src/access/tracker.rs`) and its resets and marks
 at transaction start (`crates/mega-evm/src/evm/context.rs`).

 One optional depth stands for all `disableVolatileDataAccess()` calls still in scope along the call
 stack, and one running minimum stands for the caps of everything accessed since the reset.
 */
module VolatileTracker {
  import opened Common

  const ORACLE_CONTRACT_ADDRESS: Address := 0x6342000000000000000000000000000000000001

  /** Kinds of volatile data; block environment fields are told apart by a number. */
  datatype Access = BlockEnv(field: nat) | BeneficiaryBalance | Oracle

  datatype State = State(accessed: set<Access>, cap: Option<u64>, disabledAt: Option<nat>)

  const FRESH := State({}, None, None)

  /** The two configured caps. */
  datatype Caps = Caps(blockEnv: u64, oracle: u64)

  function CapOf(caps: Caps, a: Access): u64 {
    if a.Oracle? then caps.oracle else caps.blockEnv
  }

  function Lower(cap: Option<u64>, limit: u64): Option<u64> {
    if cap.Some? then Some(Min(cap.value, limit)) else Some(limit)
  }

  function Mark(caps: Caps, s: State, a: Access): State {
    s.(accessed := s.accessed + {a}, cap := Lower(s.cap, CapOf(caps, a)))
  }

  function Disable(s: State, depth: nat): State {
    if s.disabledAt.Some? && depth >= s.disabledAt.value then s else s.(disabledAt := Some(depth))
  }

  predicate Disabled(s: State, depth: nat) {
    s.disabledAt.Some? && depth >= s.disabledAt.value
  }

  function Enable(s: State, depth: nat): (State, bool) {
    if s.disabledAt.None? then (s, true)
    else if depth <= s.disabledAt.value then (s.(disabledAt := None), true)
    else (s, false)
  }

  function Return(s: State, depth: nat): State {
    if s.disabledAt.Some? && depth < s.disabledAt.value then s.(disabledAt := None) else s
  }

  class Tracker {
    const caps: Caps
    var accessed: set<Access>
    var computeGasLimit: Option<u64>
    var disableDepth: Option<nat>

    function View(): State
      reads this
    {
      State(accessed, computeGasLimit, disableDepth)
    }

    constructor (caps: Caps)
      ensures this.caps == caps && View() == FRESH
    {
      this.caps := caps;
      accessed, computeGasLimit, disableDepth := {}, None, None;
    }

    method ApplyOrCreateLimit(limit: u64)
      modifies this`computeGasLimit
      ensures computeGasLimit == Lower(old(computeGasLimit), limit)
    {
      match computeGasLimit {
        case Some(current) => computeGasLimit := Some(Min(current, limit));
        case None => computeGasLimit := Some(limit);
      }
    }

    method MarkBlockEnvAccessed(field: nat)
      modifies this
      ensures View() == Mark(caps, old(View()), BlockEnv(field))
    {
      accessed := accessed + {BlockEnv(field)};
      ApplyOrCreateLimit(caps.blockEnv);
    }

    method MarkBeneficiaryBalanceAccessed()
      modifies this
      ensures View() == Mark(caps, old(View()), BeneficiaryBalance)
    {
      accessed := accessed + {BeneficiaryBalance};
      ApplyOrCreateLimit(caps.blockEnv);
    }

    method CheckAndMarkOracleAccess(address: Address) returns (marked: bool)
      modifies this
      ensures marked <==> address == ORACLE_CONTRACT_ADDRESS
      ensures View() == if marked then Mark(caps, old(View()), Oracle) else old(View())
    {
      if address == ORACLE_CONTRACT_ADDRESS {
        accessed := accessed + {Oracle};
        ApplyOrCreateLimit(caps.oracle);
        return true;
      }
      return false;
    }

    method MergeAccesses(other: set<Access>)
      modifies this
      ensures View() == old(View()).(accessed := old(accessed) + other)
    {
      accessed := accessed + other;
    }

    method DisableAccess(depth: nat)
      modifies this
      ensures View() == Disable(old(View()), depth)
    {
      match disableDepth {
        case Some(current) =>
          if depth < current {
            disableDepth := Some(depth);
          }
        case None =>
          disableDepth := Some(depth);
      }
    }

    method VolatileAccessDisabled(depth: nat) returns (r: bool)
      ensures r <==> Disabled(View(), depth)
    {
      return disableDepth.Some? && depth >= disableDepth.value;
    }

    method EnableAccess(depth: nat) returns (ok: bool)
      modifies this
      ensures (View(), ok) == Enable(old(View()), depth)
    {
      match disableDepth {
        case None => return true;
        case Some(d) =>
          if depth <= d {
            disableDepth := None;
            return true;
          }
          return false;
      }
    }

    method EnableAccessIfReturning(depth: nat)
      modifies this
      ensures View() == Return(old(View()), depth)
    {
      if disableDepth.Some? && depth < disableDepth.value {
        disableDepth := None;
      }
    }

    method Reset()
      modifies this
      ensures View() == FRESH
    {
      accessed, computeGasLimit, disableDepth := {}, None, None;
    }

    /** Transaction start: reset, then mark the beneficiary if it is the caller or the callee. */
    method OnNewTx(caller: Address, recipient: Option<Address>, beneficiary: Address)
      modifies this
      ensures View() == NewTx(caps, caller, recipient, beneficiary)
    {
      Reset();
      if caller == beneficiary {
        MarkBeneficiaryBalanceAccessed();
      }
      if recipient.Some? && recipient.value == beneficiary {
        MarkBeneficiaryBalanceAccessed();
      }
    }
  }

  /** The tracker at transaction start, from the transaction, the block and the caps alone. */
  function NewTx(caps: Caps, caller: Address, recipient: Option<Address>, beneficiary: Address): State {
    if caller == beneficiary || recipient == Some(beneficiary)
    then State({BeneficiaryBalance}, Some(caps.blockEnv), None)
    else FRESH
  }

  // ---------------------------------------------------------------------------------------------
  // The detention cap
  // ---------------------------------------------------------------------------------------------

  datatype Event = Marked(a: Access) | Merged(accesses: set<Access>)

  function Feed(caps: Caps, s: State, es: seq<Event>): State {
    if es == [] then s
    else
      var before := Feed(caps, s, es[..|es| - 1]);
      match es[|es| - 1]
      case Marked(a) => Mark(caps, before, a)
      case Merged(accesses) => before.(accessed := before.accessed + accesses)
  }

  /** `cap` is the least limit among the accesses marked (not merged), or none if there are none. */
  ghost predicate IsLeastCap(caps: Caps, es: seq<Event>, cap: Option<u64>) {
    match cap
    case None => forall i :: 0 <= i < |es| ==> !es[i].Marked?
    case Some(c) =>
      && (forall i :: 0 <= i < |es| && es[i].Marked? ==> c <= CapOf(caps, es[i].a))
      && (exists i :: 0 <= i < |es| && es[i].Marked? && CapOf(caps, es[i].a) == c)
  }

  ghost predicate WasAccessed(es: seq<Event>, a: Access) {
    exists i :: 0 <= i < |es| && (es[i] == Marked(a) || (es[i].Merged? && a in es[i].accesses))
  }

  /** After any marks and merges the cap is the least one marked and the bitmap everything seen. */
  lemma {:induction false} CapIsLeast(caps: Caps, es: seq<Event>)
    ensures IsLeastCap(caps, es, Feed(caps, FRESH, es).cap)
    ensures forall a :: a in Feed(caps, FRESH, es).accessed <==> WasAccessed(es, a)
    ensures Feed(caps, FRESH, es).disabledAt == None
  {
    if es != [] {
      var n := |es| - 1;
      var front := es[..n];
      CapIsLeast(caps, front);
      var before, after := Feed(caps, FRESH, front), Feed(caps, FRESH, es);
      forall a ensures a in after.accessed <==> WasAccessed(es, a) {
        assert WasAccessed(es, a) <==>
               WasAccessed(front, a) || es[n] == Marked(a) || (es[n].Merged? && a in es[n].accesses) by {
          if WasAccessed(front, a) {
            var i :| 0 <= i < n && (front[i] == Marked(a) || (front[i].Merged? && a in front[i].accesses));
            assert es[i] == front[i];
          }
          if WasAccessed(es, a) {
            var i :| 0 <= i < |es| && (es[i] == Marked(a) || (es[i].Merged? && a in es[i].accesses));
            assert i < n ==> front[i] == es[i];
          }
        }
      }
      if before.cap.Some? {
        var i :| 0 <= i < n && front[i].Marked? && CapOf(caps, front[i].a) == before.cap.value;
        assert es[i] == front[i];
      }
      forall i | 0 <= i < n ensures es[i] == front[i] {
      }
    }
  }

  ghost predicate MarkedEnv(es: seq<Event>) {
    exists i :: 0 <= i < |es| && es[i].Marked? && (es[i].a.BlockEnv? || es[i].a.BeneficiaryBalance?)
  }

  ghost predicate MarkedOracle(es: seq<Event>) {
    exists i :: 0 <= i < |es| && es[i] == Marked(Oracle)
  }

  /** In figures: the smaller of the two configured caps whose kind of data was marked, none if neither was. */
  lemma {:induction false} CapInFigures(caps: Caps, es: seq<Event>)
    ensures Feed(caps, FRESH, es).cap ==
            if MarkedEnv(es) && MarkedOracle(es) then Some(Min(caps.blockEnv, caps.oracle))
            else if MarkedEnv(es) then Some(caps.blockEnv)
            else if MarkedOracle(es) then Some(caps.oracle)
            else None
  {
    CapIsLeast(caps, es);
    var cap := Feed(caps, FRESH, es).cap;
    if cap.Some? {
      var i :| 0 <= i < |es| && es[i].Marked? && CapOf(caps, es[i].a) == cap.value;
      assert es[i].a.Oracle? ==> es[i] == Marked(Oracle);
    }
  }

  /** A transaction starts as if the beneficiary had been marked for each of its two ends that is the beneficiary. */
  lemma {:induction false} NewTxMeaning(caps: Caps, caller: Address, recipient: Option<Address>, beneficiary: Address)
    ensures var s := NewTx(caps, caller, recipient, beneficiary);
            var mark := [Marked(BeneficiaryBalance)];
            && s == Feed(caps, FRESH, (if caller == beneficiary then mark else [])
                                      + (if recipient == Some(beneficiary) then mark else []))
            && (s.accessed != {} <==> caller == beneficiary || recipient == Some(beneficiary))
            && s.accessed <= {BeneficiaryBalance} && s.disabledAt == None
            && (s.cap == None <==> s.accessed == {}) && (s.cap.Some? ==> s.cap.value == caps.blockEnv)
  {
    var mark := [Marked(BeneficiaryBalance)];
    var es := (if caller == beneficiary then mark else []) + (if recipient == Some(beneficiary) then mark else []);
    CapIsLeast(caps, es);
    CapInFigures(caps, es);
    var s := Feed(caps, FRESH, es);
    if es == [] {
      assert s == FRESH;
    } else {
      assert es[0] == Marked(BeneficiaryBalance);
      assert MarkedEnv(es) && !MarkedOracle(es);
      assert forall a :: a in s.accessed <==> a == BeneficiaryBalance;
      assert s.accessed == {BeneficiaryBalance};
    }
  }

  /** The least cap is determined by the events as a set. */
  lemma {:induction false} LeastCapUnique(caps: Caps, es: seq<Event>, fs: seq<Event>, c: Option<u64>, d: Option<u64>)
    requires forall e :: e in es <==> e in fs
    requires IsLeastCap(caps, es, c) && IsLeastCap(caps, fs, d)
    ensures c == d
  {
    if c.Some? {
      var i :| 0 <= i < |es| && es[i].Marked? && CapOf(caps, es[i].a) == c.value;
      assert es[i] in fs;
      var j :| 0 <= j < |fs| && fs[j] == es[i];
    }
    if d.Some? {
      var i :| 0 <= i < |fs| && fs[i].Marked? && CapOf(caps, fs[i].a) == d.value;
      assert fs[i] in es;
      var j :| 0 <= j < |es| && es[j] == fs[i];
    }
  }

  /** Order, and even repetition, of the accesses does not matter. */
  lemma {:induction false} OrderIndependent(caps: Caps, es: seq<Event>, fs: seq<Event>)
    requires forall e :: e in es <==> e in fs
    ensures Feed(caps, FRESH, es) == Feed(caps, FRESH, fs)
  {
    CapIsLeast(caps, es);
    CapIsLeast(caps, fs);
    LeastCapUnique(caps, es, fs, Feed(caps, FRESH, es).cap, Feed(caps, FRESH, fs).cap);
    forall a ensures a in Feed(caps, FRESH, es).accessed <==> a in Feed(caps, FRESH, fs).accessed {
      SameAccess(es, fs, a);
      SameAccess(fs, es, a);
    }
  }

  lemma {:induction false} SameAccess(es: seq<Event>, fs: seq<Event>, a: Access)
    requires forall e :: e in es ==> e in fs
    ensures WasAccessed(es, a) ==> WasAccessed(fs, a)
  {
    if WasAccessed(es, a) {
      var i :| 0 <= i < |es| && (es[i] == Marked(a) || (es[i].Merged? && a in es[i].accesses));
      assert es[i] in fs;
      var j :| 0 <= j < |fs| && fs[j] == es[i];
    }
  }

  /** In particular a transaction's events may be permuted freely. */
  lemma {:induction false} PermutationIndependent(caps: Caps, es: seq<Event>, fs: seq<Event>)
    requires multiset(es) == multiset(fs)
    ensures Feed(caps, FRESH, es) == Feed(caps, FRESH, fs)
  {
    forall e ensures e in es <==> e in fs {
      assert e in es <==> e in multiset(es);
      assert e in fs <==> e in multiset(fs);
    }
    OrderIndependent(caps, es, fs);
  }

  // ---------------------------------------------------------------------------------------------
  // Disable scopes along the call stack
  // ---------------------------------------------------------------------------------------------

  /** What a frame does that the tracker notices, in the order the EVM does it. */
  datatype Op =
    | OpDisable
    | OpEnable
    | OpMark(a: Access)
    | OpMerge(accesses: set<Access>)
    | OpCall(body: seq<Op>)

  /**
   A frame at journal depth `depth` executing its operations. The intercepted control calls return
   to the same frame; a call executes its body one deeper and then returns to `depth`.
   */
  function Frame(caps: Caps, s: State, depth: nat, ops: seq<Op>): State
    decreases ops, 0
  {
    if ops == [] then s
    else OpStep(caps, Frame(caps, s, depth, ops[..|ops| - 1]), depth, ops[|ops| - 1])
  }

  function OpStep(caps: Caps, s: State, depth: nat, op: Op): State
    decreases op, 1
  {
    match op
    case OpDisable => Return(Disable(s, depth), depth)
    case OpEnable => Return(Enable(s, depth).0, depth)
    case OpMark(a) => Mark(caps, s, a)
    case OpMerge(accesses) => s.(accessed := s.accessed + accesses)
    case OpCall(body) => Return(Frame(caps, s, depth + 1, body), depth)
  }

  predicate InScope(s: State, depth: nat) {
    s.disabledAt.None? || s.disabledAt.value <= depth
  }

  /**
   A frame never changes a disable it inherited; otherwise it ends with access enabled or disabled
   at its own depth.
   */
  lemma {:induction false} FrameScope(caps: Caps, s: State, depth: nat, ops: seq<Op>)
    requires InScope(s, depth)
    ensures var t := Frame(caps, s, depth, ops);
            if s.disabledAt.Some? && s.disabledAt.value < depth then t.disabledAt == s.disabledAt
            else t.disabledAt in {None, Some(depth)}
    decreases ops, 0
  {
    if ops != [] {
      var n := |ops| - 1;
      FrameScope(caps, s, depth, ops[..n]);
      var before := Frame(caps, s, depth, ops[..n]);
      if ops[n].OpCall? {
        CallRestores(caps, before, depth, ops[n].body);
      }
    }
  }

  /**
   Scoping over call trees: whatever a call does, at any nesting, the disable state after it returns
   is the one before it, so a descendant can neither lift an ancestor's disable nor leak its own to
   the caller or a sibling.
   */
  lemma {:induction false} CallRestores(caps: Caps, s: State, depth: nat, body: seq<Op>)
    requires InScope(s, depth)
    ensures OpStep(caps, s, depth, OpCall(body)).disabledAt == s.disabledAt
    decreases body, 1
  {
    FrameScope(caps, s, depth + 1, body);
  }

  // The specification: one flag per frame on the stack, the last one for the running frame.

  datatype Step = Enter | Leave | DoDisable | DoEnable | Query

  type Scopes = seq<bool>

  function SpecStep(st: Scopes, step: Step): (Scopes, Option<bool>)
    requires st != []
  {
    var top := |st| - 1;
    match step
    case Enter => (st + [false], None)
    case Leave => (if top == 0 then st else st[..top], None)
    case DoDisable => (st[top := true], None)
    case DoEnable => if true in st[..top] then (st, Some(false)) else (st[top := false], Some(true))
    case Query => (st, Some(true in st))
  }

  /** The tracker at a journal depth; every intercepted call returns to the same depth. */
  function ImplStep(s: State, depth: nat, step: Step): (State, nat, Option<bool>) {
    match step
    case Enter => (s, depth + 1, None)
    case Leave => if depth == 0 then (s, 0, None) else (Return(s, depth - 1), depth - 1, None)
    case DoDisable => (Return(Disable(s, depth), depth), depth, None)
    case DoEnable => var (t, ok) := Enable(s, depth); (Return(t, depth), depth, Some(ok))
    case Query => (s, depth, Some(Disabled(s, depth)))
  }

  /** The shallowest frame that disabled access. */
  function FirstSet(st: Scopes): Option<nat> {
    if st == [] then None
    else
      var f := FirstSet(st[..|st| - 1]);
      if f.Some? then f else if st[|st| - 1] then Some(|st| - 1) else None
  }

  lemma {:induction false} FirstSetMeaning(st: Scopes)
    ensures FirstSet(st).None? <==> true !in st
    ensures FirstSet(st).Some? ==>
              var i := FirstSet(st).value;
              i < |st| && st[i] && true !in st[..i]
  {
    if st != [] {
      var n := |st| - 1;
      FirstSetMeaning(st[..n]);
      assert st == st[..n] + [st[n]];
      if FirstSet(st[..n]).Some? {
        var i := FirstSet(st[..n]).value;
        assert st[..n][..i] == st[..i];
        assert st[i] in st;
      }
    }
  }

  /** Changing or adding the last flag. */
  lemma FirstSetLast(st: Scopes, b: bool)
    requires st != []
    ensures var top := |st| - 1;
            var below := FirstSet(st[..top]);
            && FirstSet(st[top := b]) == (if below.Some? then below else if b then Some(top) else None)
            && FirstSet(st + [false]) == FirstSet(st)
  {
    assert st[|st| - 1 := b][..|st| - 1] == st[..|st| - 1];
    assert (st + [false])[..|st|] == st;
  }

  ghost predicate Refines(st: Scopes, s: State, depth: nat) {
    |st| == depth + 1 && s.disabledAt == FirstSet(st)
  }

  /** One step of the tracker is one step of the scope stack, with the same answer. */
  lemma {:induction false} StepRefines(st: Scopes, s: State, depth: nat, step: Step)
    requires Refines(st, s, depth)
    ensures var (st', answer) := SpecStep(st, step);
            var (s', depth', answer') := ImplStep(s, depth, step);
            Refines(st', s', depth') && answer == answer'
    ensures InScope(s, depth)
  {
    FirstSetMeaning(st);
    FirstSetMeaning(st[..|st| - 1]);
    FirstSetLast(st, step.DoDisable?);
  }

  function SpecRun(st: Scopes, steps: seq<Step>): (r: (Scopes, seq<Option<bool>>))
    requires st != []
    ensures r.0 != []
  {
    if steps == [] then (st, [])
    else
      var (before, answers) := SpecRun(st, steps[..|steps| - 1]);
      var (after, answer) := SpecStep(before, steps[|steps| - 1]);
      (after, answers + [answer])
  }

  function ImplRun(s: State, depth: nat, steps: seq<Step>): (State, nat, seq<Option<bool>>) {
    if steps == [] then (s, depth, [])
    else
      var (before, d, answers) := ImplRun(s, depth, steps[..|steps| - 1]);
      var (after, d', answer) := ImplStep(before, d, steps[|steps| - 1]);
      (after, d', answers + [answer])
  }

  /**
   Refinement over every run from a reset tracker: all answers of queries and enables agree with the
   scope stack, and the single depth is the shallowest disable in scope, never below the current frame.
   */
  lemma {:induction false} RunRefines(steps: seq<Step>)
    ensures var (st, answers) := SpecRun([false], steps);
            var (s, depth, answers') := ImplRun(FRESH, 0, steps);
            Refines(st, s, depth) && InScope(s, depth) && answers == answers'
  {
    if steps == [] {
      assert [false][..0] == [];
    } else {
      var n := |steps| - 1;
      RunRefines(steps[..n]);
      var (st, _) := SpecRun([false], steps[..n]);
      var (s, depth, _) := ImplRun(FRESH, 0, steps[..n]);
      StepRefines(st, s, depth, steps[n]);
      var (st', _) := SpecStep(st, steps[n]);
      var (s', depth', _) := ImplStep(s, depth, steps[n]);
      StepRefines(st', s', depth', Query);
    }
  }
}
