/**
 How much a frame may use (`crates/mega-evm/src/limit/frame_limit.rs`) and what single calls cost
 (`crates/mega-evm/src/limit/kv_update.rs`), in figures.
 */
module FrameBudget {
  import opened Common
  import opened FrameLimit

  // ---------------------------------------------------------------------------------------------
  // Budgets
  // ---------------------------------------------------------------------------------------------

  /** The frames `t` has in common with `s` have the limits they had. */
  ghost predicate KeepsLimits(s: Stack, t: Stack) {
    && t.tx.limit == s.tx.limit
    && forall k :: 0 <= k < |s.frames| && k < |t.frames| ==> t.frames[k].limit == s.frames[k].limit
  }

  /** Limits are given once, when a frame starts, by what the frame starting it has left then. */
  lemma {:induction false} StartGetsLimit(spec: Spec, s: Stack, kind: Kind)
    requires Consistent(spec)
    ensures var t := InitFrame(spec, s, kind);
            && |t.frames| == |s.frames| + 1 && KeepsLimits(s, t)
            && GetsLimit(spec, s, t.Top().limit)
  {
    SpecLimitMeaning(spec, s, false);
    var k := if kind.Creation? then Creation(None) else kind;
    if s.Active() {
      InitMeaning(spec, s, kind);
      TwoLimits(s, ParentStarted(spec, s.Top(), k), ChildStarted(spec, s, k));
    } else {
      InitFirst(spec, s, kind);
      FirstFrame(spec, s, k);
    }
  }

  lemma {:induction false} TwoLimits(s: Stack, parent: Entry, child: Entry)
    requires s.Active() && parent.limit == s.Top().limit
    ensures var t := Two(s, parent, child);
            |t.frames| == |s.frames| + 1 && KeepsLimits(s, t) && t.Top() == child
  {
  }

  /** Any other step keeps the limits of the frames it leaves. */
  lemma {:induction false} OtherKeepsLimits(spec: Spec, s: Stack, step: BudgetStep)
    requires !step.Start?
    ensures |BudgetNext(spec, s, step).frames| <= |s.frames| && KeepsLimits(s, BudgetNext(spec, s, step))
  {
    if step.Finish? {
      FinishKeepsLimits(s, step.ok);
    } else if s.Active() {
      TopStepMeaning(spec, s, step);
      TopKeepsLimits(s, TopStep(s.Top(), step));
    }
  }

  lemma {:induction false} TopKeepsLimits(s: Stack, e: Entry)
    requires s.Active() && e.limit == s.Top().limit
    ensures |s.SetTop(e).frames| == |s.frames| && KeepsLimits(s, s.SetTop(e))
  {
  }

  lemma {:induction false} FinishKeepsLimits(s: Stack, ok: bool)
    ensures |PopUnwind(s, ok).frames| <= |s.frames| && KeepsLimits(s, PopUnwind(s, ok))
  {
    if |s.frames| > 1 {
      var below := Stack(s.tx, s.Below());
      var merged := Merge(below.Top(), s.Top(), ok);
      var unmarked := merged.(info := merged.info.(updated := false));
      SetTopTwice(below, merged, unmarked);
      TopKeepsLimits(below, merged);
      TopKeepsLimits(below, unmarked);
    }
  }

  /** The first frame is within the transaction's limit, every other one within 98% of the one below it. */
  ghost predicate Shrinking(s: Stack) {
    && (s.Active() ==> s.frames[0].limit <= s.tx.limit)
    && forall i, j :: 0 <= i < j < |s.frames| && j == i + 1 ==> 100 * s.frames[j].limit <= 98 * s.frames[i].limit
  }

  lemma {:induction false} StepShrinks(spec: Spec, s: Stack, step: BudgetStep)
    requires spec.rex4 && Consistent(spec) && Shrinking(s)
    ensures Shrinking(BudgetNext(spec, s, step)) && BudgetNext(spec, s, step).tx.limit == s.tx.limit
  {
    if step.Start? {
      StartGetsLimit(spec, s, step.kind);
    } else {
      OtherKeepsLimits(spec, s, step);
    }
  }

  function Power(b: nat, n: nat): nat {
    if n == 0 then 1 else b * Power(b, n - 1)
  }

  /**
   In every state of every run the budgets of the frames shrink geometrically: the frame at depth `k` has at
   most 98/100 to the `k`-th power of the transaction's limit.
   */
  lemma {:induction false} BudgetsShrink(spec: Spec, limit: nat, steps: seq<BudgetStep>, k: nat)
    requires spec.rex4 && Consistent(spec)
    ensures var s := BudgetRun(spec, limit, steps);
            && Shrinking(s) && s.tx.limit == limit
            && (k < |s.frames| ==> Power(100, k) * s.frames[k].limit <= Power(98, k) * limit)
  {
    if steps != [] {
      var n := |steps| - 1;
      BudgetsShrink(spec, limit, steps[..n], k);
      StepShrinks(spec, BudgetRun(spec, limit, steps[..n]), steps[n]);
    }
    var s := BudgetRun(spec, limit, steps);
    if k < |s.frames| {
      DepthBound(s, k);
    }
  }

  lemma {:induction false} DepthBound(s: Stack, k: nat)
    requires Shrinking(s) && k < |s.frames|
    ensures Power(100, k) * s.frames[k].limit <= Power(98, k) * s.tx.limit
  {
    if k > 0 {
      DepthBound(s, k - 1);
      Scaled(Power(100, k - 1), Power(98, k - 1) * s.tx.limit, s.frames[k - 1].limit, s.frames[k].limit);
      Regrouped(98, Power(98, k - 1), s.tx.limit);
      Regrouped(100, Power(100, k - 1), s.frames[k].limit);
    }
  }

  lemma Regrouped(a: nat, b: nat, c: nat)
    ensures (a * b) * c == a * (b * c)
  {
  }

  lemma {:induction false} Scaled(p: nat, bound: nat, outer: nat, inner: nat)
    requires p * outer <= bound && 100 * inner <= 98 * outer
    ensures 100 * (p * inner) <= 98 * bound
  {
    Monotone(p, 100 * inner, 98 * outer);
  }

  lemma Monotone(p: nat, x: nat, y: nat)
    requires x <= y
    ensures p * x <= p * y
  {
  }

  function Charged(amounts: seq<nat>): seq<BudgetStep> {
    seq(|amounts|, i requires 0 <= i < |amounts| => Intrinsic(amounts[i]))
  }

  lemma {:induction false} IntrinsicRun(spec: Spec, limit: nat, amounts: seq<nat>)
    ensures BudgetRun(spec, limit, Charged(amounts)) == Stack(Entry(limit, Sum(amounts), 0, 0, FrameLimit.NO_INFO), [])
  {
    if amounts != [] {
      var n := |amounts| - 1;
      IntrinsicRun(spec, limit, amounts[..n]);
      assert Charged(amounts)[..n] == Charged(amounts[..n]);
    }
  }

  /**
   The first frame of a transaction gets exactly what the intrinsic usage leaves of the transaction's limit;
   if nothing is left over because it exceeds the limit, no frame starts.
   */
  lemma {:induction false} FirstFrameBudget(spec: Spec, limit: nat, amounts: seq<nat>, kind: Kind)
    requires spec.rex4 && Consistent(spec)
    ensures var s := BudgetRun(spec, limit, Charged(amounts) + [Start(kind)]);
            if Sum(amounts) <= limit then |s.frames| == 1 && s.frames[0].limit == limit - Sum(amounts)
            else s.frames == []
  {
    var steps := Charged(amounts) + [Start(kind)];
    RunStep(spec, limit, steps, |amounts|);
    assert steps[..|amounts|] == Charged(amounts) && steps[..|amounts| + 1] == steps;
    IntrinsicRun(spec, limit, amounts);
    FirstStart(spec, Entry(limit, Sum(amounts), 0, 0, FrameLimit.NO_INFO), kind);
  }

  /** Starting the first frame on a transaction that has only used up something so far. */
  lemma {:induction false} FirstStart(spec: Spec, tx: Entry, kind: Kind)
    requires spec.rex4 && Consistent(spec) && tx.discardable == tx.refund == 0
    ensures var s := BudgetNext(spec, Stack(tx, []), Start(kind));
            if tx.persistent <= tx.limit then |s.frames| == 1 && s.frames[0].limit == tx.limit - tx.persistent
            else s.frames == []
  {
    var s := Stack(tx, []);
    assert TotalUsed(s.frames) == TotalRefund(s.frames) == 0;
    StartGetsLimit(spec, s, kind);
  }

  /**
   The check in plain arithmetic: from Rex4 on it stops a frame that used more than its limit and refunds, and
   reports the frame's gross usage; otherwise it stops a transaction whose total usage is more than its limit
   and all refunds, and reports the difference; otherwise nothing is exceeded.
   */
  lemma {:induction false} CheckedExact(spec: Spec, s: Stack)
    ensures var overFrame := spec.rex4 && s.Active()
                             && s.Top().persistent + s.Top().discardable > s.Top().refund + s.Top().limit;
            var overTx := AllUsed(s) > AllRefund(s) + s.tx.limit;
            Checked(spec, s) ==
            if overFrame then Exceeds(s.Top().limit, s.Top().persistent + s.Top().discardable, true)
            else if overTx then Exceeds(s.tx.limit, AllUsed(s) - AllRefund(s), false)
            else Within
  {
  }

  // ---------------------------------------------------------------------------------------------
  // What single calls cost
  // ---------------------------------------------------------------------------------------------

  /** The caller's frame after a call that does nothing itself. */
  ghost predicate LeafCosts(spec: Spec, e: Entry, kind: Kind, ok: bool, after: Entry) {
    var own := if e.info.updated then 0 else 1;
    && after.persistent == e.persistent && after.refund == e.refund && after.limit == e.limit
    && match kind
       case Message(_, transfer, toSelf) =>
         && (transfer && ok ==> after.discardable == e.discardable + own + if toSelf && spec.rex6 then 0 else 1)
         && (!transfer || !ok ==> after.discardable == e.discardable)
         && (after.info.updated <==> e.info.updated || (spec.rex5 && transfer && ok))
       case Creation(created) =>
         && (ok ==> after.discardable == e.discardable + own + if created.Some? then 1 else 0)
         && (!ok ==> after.discardable == e.discardable + if spec.rex6 then own else 0)
         && (after.info.updated <==> e.info.updated || (spec.rex5 && ok) || spec.rex6)
       case Intercepted => after.discardable == e.discardable && after.info == e.info
  }

  /**
   A call that does nothing itself, in figures. A kept transfer costs the caller's account, unless that was
   charged before, and the callee's; from Rex6 on a transfer to oneself costs only the former. A kept creation
   costs the creator's account and the created one. Of what is reverted nothing is charged, but from Rex6 on a
   creation still costs its creator's account. From Rex5 on a caller so charged is not charged again.
   */
  lemma {:induction false} LeafCharges(spec: Spec, s: Stack, kind: Kind, ok: bool)
    requires s.Active() && Consistent(spec)
    ensures exists e ::
              ExecOp(spec, s, Child(Call(kind, [], ok))) == s.SetTop(e) && LeafCosts(spec, s.Top(), kind, ok, e)
  {
    var op := Child(Call(kind, [], ok));
    OpMeaning(spec, s, op);
    LeafTop(spec, s.Top(), kind, ok, TopAfterOp(spec, s.Top(), op));
  }

  lemma {:induction false} LeafTop(spec: Spec, e: Entry, kind: Kind, ok: bool, after: Entry)
    requires Consistent(spec) && after == TopAfterOp(spec, e, Child(Call(kind, [], ok)))
    ensures LeafCosts(spec, e, kind, ok, after)
  {
    var call := Call(kind, [], ok);
    assert OpsUsed(spec, []) == 0 && Updates(spec, []) == 0 && OpsRefund([]) == 0;
    assert OpUsed(spec, Child(call)) == if ok then TargetCharge(spec, kind) else 0;
    assert OpRefund(Child(call)) == 0;
  }
}
