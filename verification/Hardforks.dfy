/**
 The hardfork schedule (`block/hardfork.rs`): a vector of fork entries used as a map by name, and the
 ladder that turns it into the active MegaETH fork and its spec at a timestamp.
 */
module Hardforks {
  import opened Common

  /** Fork names. `Other` stands for any foreign fork handed to `insert`. */
  datatype Fork =
    | Frontier | Homestead | Dao | Tangerine | SpuriousDragon | Byzantium | Constantinople | Petersburg
    | Istanbul | Berlin | London | Paris | Bedrock | Regolith | Shanghai | Canyon | Cancun | Ecotone
    | Fjord | Granite | Holocene | Prague | Isthmus
    | MiniRex | MiniRex1 | MiniRex2 | Rex | Rex1 | Rex2 | Rex3 | Rex4 | Rex5 | Rex6
    | Other(name: string)

  datatype Condition = AtBlock(number: nat) | Ttd | AtTimestamp(time: nat) | Never

  /** Parameters are pinned to one fork; `valid` is what their own validation answers. */
  datatype Params = Params(fork: Fork, valid: bool, data: nat)

  datatype Entry = Entry(fork: Fork, condition: Condition, params: Option<Params>)

  datatype Spec = EQUIVALENCE | MINI_REX | REX | REX1 | REX2 | REX3 | REX4 | REX5 | REX6

  // ---------------------------------------------------------------------------------------------
  // The vector of entries
  // ---------------------------------------------------------------------------------------------

  /** The first entry named `fork`, if there is one. */
  function Find(es: seq<Entry>, fork: Fork): Option<Entry> {
    if es == [] then None else if es[0].fork == fork then Some(es[0]) else Find(es[1..], fork)
  }

  /** `es` with the first entry named `e.fork` replaced, or `e` appended. */
  function Put(es: seq<Entry>, e: Entry): seq<Entry> {
    if es == [] then [e] else if es[0].fork == e.fork then [e] + es[1..] else [es[0]] + Put(es[1..], e)
  }

  function Retain(es: seq<Entry>, fork: Fork): seq<Entry> {
    if es == [] then []
    else if es[0].fork == fork then Retain(es[1..], fork)
    else [es[0]] + Retain(es[1..], fork)
  }

  ghost predicate UniqueNames(es: seq<Entry>) {
    forall i, j :: 0 <= i < j < |es| ==> es[i].fork != es[j].fork
  }

  function Fresh(forks: seq<(Fork, Condition)>): seq<Entry> {
    seq(|forks|, i requires 0 <= i < |forks| => Entry(forks[i].0, forks[i].1, None))
  }

  const DEFAULTS: seq<(Fork, Condition)> := [
    (Frontier, AtBlock(0)), (Homestead, AtBlock(0)), (Dao, AtBlock(0)), (Tangerine, AtBlock(0)),
    (SpuriousDragon, AtBlock(0)), (Byzantium, AtBlock(0)), (Constantinople, AtBlock(0)), (Petersburg, AtBlock(0)),
    (Istanbul, AtBlock(0)), (Berlin, AtBlock(0)), (London, AtBlock(0)), (Paris, Ttd), (Bedrock, AtBlock(0)),
    (Regolith, AtTimestamp(0)), (Shanghai, AtTimestamp(0)), (Canyon, AtTimestamp(0)), (Cancun, AtTimestamp(0)),
    (Ecotone, AtTimestamp(0)), (Fjord, AtTimestamp(0)), (Granite, AtTimestamp(0)), (Holocene, AtTimestamp(0)),
    (Prague, AtTimestamp(0)), (Isthmus, AtTimestamp(0))]

  /** The builder calls. */
  datatype Op = Insert(fork: Fork, condition: Condition) | Without(fork: Fork) | WithParams(params: Params)

  /** One builder call on the entries; `None` is a panic. */
  function Apply(es: seq<Entry>, op: Op): Option<seq<Entry>> {
    match op
    case Insert(fork, condition) =>
      var e := Find(es, fork);
      Some(Put(es, if e.Some? then e.value.(condition := condition) else Entry(fork, condition, None)))
    case Without(fork) => Some(Retain(es, fork))
    case WithParams(params) =>
      var e := Find(es, params.fork);
      if !params.valid || e.None? then None
      else Some(Put(es, e.value.(params := Some(params))))
  }

  class MegaHardforkConfig {
    var entries: seq<Entry>

    constructor ()
      ensures entries == Fresh(DEFAULTS)
    {
      entries := Fresh(DEFAULTS);
    }

    method Position(fork: Fork) returns (index: nat)
      ensures index <= |entries|
      ensures index < |entries| <==> Find(entries, fork).Some?
      ensures index < |entries| ==> entries[index].fork == fork && Find(entries, fork) == Some(entries[index])
      ensures forall i :: 0 <= i < index ==> entries[i].fork != fork
    {
      index := 0;
      while index < |entries| && entries[index].fork != fork
        invariant index <= |entries|
        invariant forall i :: 0 <= i < index ==> entries[i].fork != fork
        invariant Find(entries, fork) == Find(entries[index..], fork)
      {
        index := index + 1;
      }
    }

    method Get(fork: Fork) returns (condition: Option<Condition>)
      ensures condition == ConditionOf(Find(entries, fork))
    {
      var index := Position(fork);
      if index < |entries| {
        return Some(entries[index].condition);
      }
      return None;
    }

    method ForkParamsAny(fork: Fork) returns (params: Option<Params>)
      ensures params == ParamsOf(Find(entries, fork))
    {
      var index := Position(fork);
      if index < |entries| {
        return entries[index].params;
      }
      return None;
    }

    method Insert(fork: Fork, condition: Condition)
      modifies this
      ensures Apply(old(entries), Op.Insert(fork, condition)) == Some(entries)
    {
      var index := Position(fork);
      if index < |entries| {
        PutAt(entries, index, entries[index].(condition := condition));
        entries := entries[index := entries[index].(condition := condition)];
      } else {
        PutEnd(entries, Entry(fork, condition, None));
        entries := entries + [Entry(fork, condition, None)];
      }
    }

    /** `false` is a panic; the entries are then unchanged. */
    method WithParams(params: Params) returns (ok: bool)
      modifies this
      ensures ok <==> Apply(old(entries), Op.WithParams(params)).Some?
      ensures ok ==> Apply(old(entries), Op.WithParams(params)) == Some(entries)
      ensures !ok ==> entries == old(entries)
    {
      if !params.valid {
        return false;
      }
      var index := Position(params.fork);
      if index == |entries| {
        return false;
      }
      PutAt(entries, index, entries[index].(params := Some(params)));
      entries := entries[index := entries[index].(params := Some(params))];
      return true;
    }

    method Without(fork: Fork)
      modifies this
      ensures Apply(old(entries), Op.Without(fork)) == Some(entries)
    {
      var kept := [];
      for i := 0 to |entries|
        invariant entries == old(entries)
        invariant kept == Retain(entries[..i], fork)
      {
        RetainNext(entries, i, fork);
        if entries[i].fork != fork {
          kept := kept + [entries[i]];
        }
      }
      assert entries[..|entries|] == entries;
      entries := kept;
    }
  }

  lemma {:induction false} RetainNext(es: seq<Entry>, i: nat, fork: Fork)
    requires i < |es|
    ensures Retain(es[..i + 1], fork) == Retain(es[..i], fork) + if es[i].fork == fork then [] else [es[i]]
  {
    RetainLast(es[..i], es[i], fork);
    assert es[..i + 1] == es[..i] + [es[i]];
  }

  lemma {:induction false} RetainLast(es: seq<Entry>, e: Entry, fork: Fork)
    ensures Retain(es + [e], fork) == Retain(es, fork) + if e.fork == fork then [] else [e]
  {
    if es == [] {
      assert es + [e] == [e];
    } else {
      assert (es + [e])[1..] == es[1..] + [e];
      RetainLast(es[1..], e, fork);
    }
  }

  lemma {:induction false} PutAt(es: seq<Entry>, index: nat, e: Entry)
    requires index < |es| && es[index].fork == e.fork
    requires forall i :: 0 <= i < index ==> es[i].fork != e.fork
    ensures Put(es, e) == es[index := e]
  {
    if index > 0 {
      PutAt(es[1..], index - 1, e);
    }
  }

  lemma {:induction false} PutEnd(es: seq<Entry>, e: Entry)
    requires forall i :: 0 <= i < |es| ==> es[i].fork != e.fork
    ensures Put(es, e) == es + [e]
  {
    if es != [] {
      PutEnd(es[1..], e);
    }
  }

  // ---------------------------------------------------------------------------------------------
  // Builder runs are last-write-wins
  // ---------------------------------------------------------------------------------------------

  function Run(start: seq<Entry>, ops: seq<Op>): Option<seq<Entry>> {
    if ops == [] then Some(start)
    else
      var before := Run(start, ops[..|ops| - 1]);
      if before.None? then None else Apply(before.value, ops[|ops| - 1])
  }

  /** The condition most recently given to `fork` and not removed since. */
  function LastCondition(start: seq<Entry>, ops: seq<Op>, fork: Fork): Option<Condition> {
    if ops == [] then ConditionOf(Find(start, fork))
    else
      var op := ops[|ops| - 1];
      if op.Insert? && op.fork == fork then Some(op.condition)
      else if op.Without? && op.fork == fork then None
      else LastCondition(start, ops[..|ops| - 1], fork)
  }

  /** The parameters most recently given to `fork` and not removed since; inserting keeps them. */
  function LastParams(start: seq<Entry>, ops: seq<Op>, fork: Fork): Option<Params> {
    if ops == [] then ParamsOf(Find(start, fork))
    else
      var op := ops[|ops| - 1];
      if op.WithParams? && op.params.fork == fork then Some(op.params)
      else if op.Without? && op.fork == fork then None
      else LastParams(start, ops[..|ops| - 1], fork)
  }

  function ConditionOf(e: Option<Entry>): Option<Condition> {
    if e.Some? then Some(e.value.condition) else None
  }

  function ParamsOf(e: Option<Entry>): Option<Params> {
    if e.Some? then e.value.params else None
  }

  lemma {:induction false} FindPut(es: seq<Entry>, e: Entry, fork: Fork)
    ensures Find(Put(es, e), fork) == if fork == e.fork then Some(e) else Find(es, fork)
  {
    if es != [] {
      FindPut(es[1..], e, fork);
      assert ([es[0]] + Put(es[1..], e))[1..] == Put(es[1..], e);
      assert ([e] + es[1..])[1..] == es[1..];
    }
  }

  lemma {:induction false} FindRetain(es: seq<Entry>, gone: Fork, fork: Fork)
    ensures Find(Retain(es, gone), fork) == if fork == gone then None else Find(es, fork)
  {
    if es != [] {
      FindRetain(es[1..], gone, fork);
      assert ([es[0]] + Retain(es[1..], gone))[1..] == Retain(es[1..], gone);
    }
  }

  lemma {:induction false} FindNamed(es: seq<Entry>, fork: Fork)
    ensures Find(es, fork).Some? ==> Find(es, fork).value.fork == fork
  {
    if es != [] {
      FindNamed(es[1..], fork);
    }
  }

  /** Panics exactly when parameters are invalid or their fork is not registered at that point. */
  ghost predicate Accepted(start: seq<Entry>, ops: seq<Op>) {
    forall i :: 0 <= i < |ops| && ops[i].WithParams? ==>
      ops[i].params.valid && LastCondition(start, ops[..i], ops[i].params.fork).Some?
  }

  /** After any run of builder calls, every fork has the last condition and parameters written to it. */
  lemma {:induction false} LastWriteWins(start: seq<Entry>, ops: seq<Op>, fork: Fork)
    ensures Run(start, ops).Some? <==> Accepted(start, ops)
    ensures Run(start, ops).Some? ==>
              && ConditionOf(Find(Run(start, ops).value, fork)) == LastCondition(start, ops, fork)
              && ParamsOf(Find(Run(start, ops).value, fork)) == LastParams(start, ops, fork)
    decreases |ops|
  {
    if ops != [] {
      var front, op := ops[..|ops| - 1], ops[|ops| - 1];
      LastWriteWins(start, front, fork);
      LastWriteWins(start, front, Target(op));
      AcceptedFront(start, ops);
      if Run(start, front).Some? {
        ApplyAt(Run(start, front).value, op, fork);
      }
    }
  }

  function Target(op: Op): Fork {
    if op.WithParams? then op.params.fork else op.fork
  }

  lemma AcceptedFront(start: seq<Entry>, ops: seq<Op>)
    requires ops != []
    ensures var front, op := ops[..|ops| - 1], ops[|ops| - 1];
            Accepted(start, ops) <==>
            Accepted(start, front) && (op.WithParams? ==>
                op.params.valid && LastCondition(start, front, op.params.fork).Some?)
  {
    var front := ops[..|ops| - 1];
    assert forall i :: 0 <= i < |front| ==> front[..i] == ops[..i] && front[i] == ops[i];
  }

  /** The effect of one call, fork by fork. */
  lemma {:induction false} ApplyAt(es: seq<Entry>, op: Op, fork: Fork)
    ensures Apply(es, op).Some? ==>
              var was, now := Find(es, fork), Find(Apply(es, op).value, fork);
              && (fork != Target(op) ==> now == was)
              && (fork == Target(op) && op.Insert? ==> now == Some(Entry(fork, op.condition, ParamsOf(was))))
              && (fork == Target(op) && op.Without? ==> now == None)
              && (fork == Target(op) && op.WithParams? ==>
                  was.Some? && now == Some(was.value.(params := Some(op.params))))
  {
    FindNamed(es, Target(op));
    match op
    case Insert(f, c) =>
      var e := Find(es, f);
      FindPut(es, if e.Some? then e.value.(condition := c) else Entry(f, c, None), fork);
    case Without(f) =>
      FindRetain(es, f, fork);
    case WithParams(p) =>
      if Find(es, p.fork).Some? {
        FindPut(es, Find(es, p.fork).value.(params := Some(p)), fork);
      }
  }

  lemma {:induction false} FindNone(es: seq<Entry>, fork: Fork)
    ensures Find(es, fork).None? <==> forall i :: 0 <= i < |es| ==> es[i].fork != fork
  {
    if es != [] {
      FindNone(es[1..], fork);
      assert forall i :: 1 <= i < |es| ==> es[i] == es[1..][i - 1];
      if Find(es[1..], fork).Some? {
        var k :| 0 <= k < |es[1..]| && es[1..][k].fork == fork;
        assert es[k + 1].fork == fork;
      }
    }
  }

  lemma {:induction false} UniqueCons(e: Entry, es: seq<Entry>)
    ensures UniqueNames([e] + es) <==> UniqueNames(es) && Find(es, e.fork).None?
  {
    FindNone(es, e.fork);
    var all := [e] + es;
    assert forall i :: 0 <= i < |es| ==> all[i + 1] == es[i];
    if UniqueNames(all) {
      forall i, j | 0 <= i < j < |es| ensures es[i].fork != es[j].fork {
        assert all[i + 1].fork != all[j + 1].fork;
      }
      forall i | 0 <= i < |es| ensures es[i].fork != e.fork {
        assert all[0].fork != all[i + 1].fork;
      }
    }
  }

  lemma {:induction false} UniquePut(es: seq<Entry>, e: Entry)
    requires UniqueNames(es)
    ensures UniqueNames(Put(es, e))
  {
    if es != [] {
      assert es == [es[0]] + es[1..];
      UniqueCons(es[0], es[1..]);
      if es[0].fork == e.fork {
        UniqueCons(e, es[1..]);
      } else {
        UniquePut(es[1..], e);
        FindPut(es[1..], e, es[0].fork);
        UniqueCons(es[0], Put(es[1..], e));
      }
    }
  }

  lemma {:induction false} UniqueRetain(es: seq<Entry>, fork: Fork)
    requires UniqueNames(es)
    ensures UniqueNames(Retain(es, fork))
  {
    if es != [] {
      assert es == [es[0]] + es[1..];
      UniqueCons(es[0], es[1..]);
      UniqueRetain(es[1..], fork);
      FindRetain(es[1..], fork, es[0].fork);
      UniqueCons(es[0], Retain(es[1..], fork));
    }
  }

  /** Every builder run from the default configuration keeps fork names unique. */
  lemma {:induction false} NamesStayUnique(ops: seq<Op>)
    ensures var r := Run(Fresh(DEFAULTS), ops); r.Some? ==> UniqueNames(r.value)
  {
    if ops == [] {
      DefaultsUnique();
    } else {
      NamesStayUnique(ops[..|ops| - 1]);
      var before := Run(Fresh(DEFAULTS), ops[..|ops| - 1]);
      if before.Some? {
        UniqueApply(before.value, ops[|ops| - 1]);
      }
    }
  }

  lemma {:induction false} DefaultsUnique()
    ensures UniqueNames(Fresh(DEFAULTS))
  {
    assert forall i, j :: 0 <= i < j < |DEFAULTS| ==> DEFAULTS[i].0 != DEFAULTS[j].0;
  }

  lemma {:induction false} UniqueApply(es: seq<Entry>, op: Op)
    requires UniqueNames(es)
    ensures Apply(es, op).Some? ==> UniqueNames(Apply(es, op).value)
  {
    match op
    case Insert(f, c) =>
      var e := Find(es, f);
      UniquePut(es, if e.Some? then e.value.(condition := c) else Entry(f, c, None));
    case Without(f) =>
      UniqueRetain(es, f);
    case WithParams(p) =>
      if Find(es, p.fork).Some? {
        UniquePut(es, Find(es, p.fork).value.(params := Some(p)));
      }
  }

  // ---------------------------------------------------------------------------------------------
  // The ladder
  // ---------------------------------------------------------------------------------------------

  /** The MegaETH forks in declared order. */
  const LADDER: seq<Fork> := [MiniRex, MiniRex1, MiniRex2, Rex, Rex1, Rex2, Rex3, Rex4, Rex5, Rex6]

  predicate ActiveAt(es: seq<Entry>, fork: Fork, t: nat) {
    var e := Find(es, fork);
    e.Some? && e.value.condition.AtTimestamp? && e.value.condition.time <= t
  }

  /** Which rungs of the ladder are active. */
  function Rungs(es: seq<Entry>, t: nat): (a: seq<bool>)
    ensures |a| == |LADDER|
    ensures forall k :: 0 <= k < |a| ==> a[k] == ActiveAt(es, LADDER[k], t)
  {
    seq(|LADDER|, k requires 0 <= k < |LADDER| => ActiveAt(es, LADDER[k], t))
  }

  /** The chain of tests, newest fork first. */
  function Pick(a: seq<bool>): Option<Fork>
    requires |a| == |LADDER|
  {
    if a[9] then Some(Rex6)
    else if a[8] then Some(Rex5)
    else if a[7] then Some(Rex4)
    else if a[6] then Some(Rex3)
    else if a[5] then Some(Rex2)
    else if a[4] then Some(Rex1)
    else if a[3] then Some(Rex)
    else if a[2] then Some(MiniRex2)
    else if a[1] then Some(MiniRex1)
    else if a[0] then Some(MiniRex)
    else None
  }

  function Hardfork(es: seq<Entry>, t: nat): Option<Fork> {
    Pick(Rungs(es, t))
  }

  function SpecOf(fork: Fork): Spec {
    match fork
    case MiniRex => MINI_REX
    case MiniRex1 => EQUIVALENCE
    case MiniRex2 => MINI_REX
    case Rex => REX
    case Rex1 => REX1
    case Rex2 => REX2
    case Rex3 => REX3
    case Rex4 => REX4
    case Rex5 => REX5
    case Rex6 => REX6
    case _ => EQUIVALENCE
  }

  function SpecOn(fork: Option<Fork>): Spec {
    if fork.Some? then SpecOf(fork.value) else EQUIVALENCE
  }

  function SpecAt(es: seq<Entry>, t: nat): Spec {
    SpecOn(Hardfork(es, t))
  }

  /** Specs in release order. */
  function Level(s: Spec): nat {
    match s
    case EQUIVALENCE => 0
    case MINI_REX => 1
    case REX => 2
    case REX1 => 3
    case REX2 => 4
    case REX3 => 5
    case REX4 => 6
    case REX5 => 7
    case REX6 => 8
  }

  /** One more than the place of a fork on the ladder; 0 for no fork. */
  function Rung(fork: Option<Fork>): nat {
    if fork.None? then 0
    else
      match fork.value
      case MiniRex => 1
      case MiniRex1 => 2
      case MiniRex2 => 3
      case Rex => 4
      case Rex1 => 5
      case Rex2 => 6
      case Rex3 => 7
      case Rex4 => 8
      case Rex5 => 9
      case Rex6 => 10
      case _ => 0
  }

  /** The highest active rung; 0 if none is. */
  function Top(a: seq<bool>): (n: nat)
    ensures n <= |a|
    ensures n > 0 ==> a[n - 1]
    ensures forall k :: n <= k < |a| ==> !a[k]
  {
    if a == [] then 0 else if a[|a| - 1] then |a| else Top(a[..|a| - 1])
  }

  lemma TopUnique(a: seq<bool>, n: nat)
    requires n <= |a| && (n > 0 ==> a[n - 1]) && forall k :: n <= k < |a| ==> !a[k]
    ensures Top(a) == n
  {
  }

  /** The chain of tests finds the highest active rung. */
  lemma PickIsTop(a: seq<bool>)
    requires |a| == |LADDER|
    ensures Rung(Pick(a)) == Top(a)
    ensures Pick(a) == if Top(a) == 0 then None else Some(LADDER[Top(a) - 1])
  {
    TopUnique(a, Rung(Pick(a)));
  }

  lemma RungOf(k: nat)
    requires k < |LADDER|
    ensures Rung(Some(LADDER[k])) == k + 1
  {
  }

  /** The fork at `t` is the latest one, in declared order, that is active; none if none is. */
  lemma HighestActive(es: seq<Entry>, t: nat, k: nat)
    requires k < |LADDER|
    ensures Hardfork(es, t) == Some(LADDER[k]) <==>
            ActiveAt(es, LADDER[k], t) && forall later :: k < later < |LADDER| ==> !ActiveAt(es, LADDER[later], t)
    ensures Hardfork(es, t) == None <==> forall j :: 0 <= j < |LADDER| ==> !ActiveAt(es, LADDER[j], t)
  {
    var a := Rungs(es, t);
    TopPick(a, k);
    assert a[k] == ActiveAt(es, LADDER[k], t);
    assert (forall later :: k < later < |a| ==> !a[later]) <==>
        forall later :: k < later < |LADDER| ==> !ActiveAt(es, LADDER[later], t);
    assert (forall j :: 0 <= j < |a| ==> !a[j]) <==> forall j :: 0 <= j < |LADDER| ==> !ActiveAt(es, LADDER[j], t);
  }

  lemma TopPick(a: seq<bool>, k: nat)
    requires |a| == |LADDER| && k < |LADDER|
    ensures Pick(a) == Some(LADDER[k]) <==> a[k] && forall later :: k < later < |a| ==> !a[later]
    ensures Pick(a) == None <==> forall j :: 0 <= j < |a| ==> !a[j]
  {
    PickIsTop(a);
    RungOf(k);
    if a[k] && forall later :: k < later < |a| ==> !a[later] {
      TopUnique(a, k + 1);
    }
    if forall j :: 0 <= j < |a| ==> !a[j] {
      TopUnique(a, 0);
    }
  }

  lemma TopMonotone(a: seq<bool>, b: seq<bool>)
    requires |a| == |b| && forall k :: 0 <= k < |a| ==> a[k] ==> b[k]
    ensures Top(a) <= Top(b)
  {
  }

  /** The fork never goes back as time passes. */
  lemma NeverRegresses(es: seq<Entry>, t: nat, u: nat)
    requires t <= u
    ensures Rung(Hardfork(es, t)) <= Rung(Hardfork(es, u))
  {
    TopMonotone(Rungs(es, t), Rungs(es, u));
    PickIsTop(Rungs(es, t));
    PickIsTop(Rungs(es, u));
  }

  lemma PickOnLadder(a: seq<bool>)
    requires |a| == |LADDER|
    ensures Rung(Pick(a)) == 0 <==> Pick(a) == None
  {
  }

  lemma LevelsDrop(f: Option<Fork>, g: Option<Fork>)
    requires Rung(f) <= Rung(g) && (Rung(f) == 0 <==> f == None) && (Rung(g) == 0 <==> g == None)
    ensures Level(SpecOn(g)) < Level(SpecOn(f)) <==> f == Some(MiniRex) && g == Some(MiniRex1)
  {
  }

  /** The spec goes back exactly when the chain moves from the first fork to its first patch. */
  lemma SpecDecreases(es: seq<Entry>, t: nat, u: nat)
    requires t <= u
    ensures Level(SpecAt(es, u)) < Level(SpecAt(es, t)) <==>
            Hardfork(es, t) == Some(MiniRex) && Hardfork(es, u) == Some(MiniRex1)
  {
    NeverRegresses(es, t, u);
    PickOnLadder(Rungs(es, t));
    PickOnLadder(Rungs(es, u));
    LevelsDrop(Hardfork(es, t), Hardfork(es, u));
  }

  /** The specs in release order. */
  const RELEASES: seq<Spec> := [EQUIVALENCE, MINI_REX, REX, REX1, REX2, REX3, REX4, REX5, REX6]

  /** `fork` is active and no later fork is. */
  predicate Latest(es: seq<Entry>, t: nat, k: nat)
    requires k < |LADDER|
  {
    ActiveAt(es, LADDER[k], t) && forall later :: k < later < |LADDER| ==> !ActiveAt(es, LADDER[later], t)
  }

  /**
   The spec in force, from Rex on, is the release of the latest active fork; before that the first fork and
   its second patch run the first release, and the first patch runs the chain as if there had been no fork.
   */
  lemma {:induction false} SpecExact(es: seq<Entry>, t: nat, k: nat)
    requires 3 <= k < |LADDER|
    ensures SpecAt(es, t) == RELEASES[k - 1] <==> Latest(es, t, k)
    ensures SpecAt(es, t) == MINI_REX <==> Latest(es, t, 0) || Latest(es, t, 2)
    ensures SpecAt(es, t) == EQUIVALENCE <==>
            Latest(es, t, 1) || forall j :: 0 <= j < |LADDER| ==> !ActiveAt(es, LADDER[j], t)
  {
    LatestIsHardfork(es, t, k);
    LatestIsHardfork(es, t, 0);
    LatestIsHardfork(es, t, 1);
    LatestIsHardfork(es, t, 2);
    PickOnLadder(Rungs(es, t));
    SpecTable(Hardfork(es, t), k);
  }

  lemma {:induction false} LatestIsHardfork(es: seq<Entry>, t: nat, k: nat)
    requires k < |LADDER|
    ensures Hardfork(es, t) == Some(LADDER[k]) <==> Latest(es, t, k)
    ensures Hardfork(es, t) == None <==> forall j :: 0 <= j < |LADDER| ==> !ActiveAt(es, LADDER[j], t)
  {
    HighestActive(es, t, k);
  }

  /** Every release from Rex on belongs to one fork; the two before it to the first three, or to none. */
  lemma {:induction false} SpecTable(fork: Option<Fork>, k: nat)
    requires 3 <= k < |LADDER| && (Rung(fork) == 0 <==> fork == None)
    ensures SpecOn(fork) == RELEASES[k - 1] <==> fork == Some(LADDER[k])
    ensures SpecOn(fork) == MINI_REX <==> fork == Some(LADDER[0]) || fork == Some(LADDER[2])
    ensures SpecOn(fork) == EQUIVALENCE <==> fork == Some(LADDER[1]) || fork == None
  {
  }

  /** The default configuration activates no MegaETH fork, so it runs the base spec at any time. */
  lemma {:induction false} DefaultIsBase(t: nat)
    ensures Hardfork(Fresh(DEFAULTS), t) == None && SpecAt(Fresh(DEFAULTS), t) == EQUIVALENCE
  {
    forall k | 0 <= k < |LADDER| ensures !ActiveAt(Fresh(DEFAULTS), LADDER[k], t) {
      NotDefault(k);
    }
    HighestActive(Fresh(DEFAULTS), t, 0);
  }

  lemma {:induction false} NotDefault(k: nat)
    requires k < |LADDER|
    ensures Find(Fresh(DEFAULTS), LADDER[k]) == None
  {
    RungOf(k);
    forall i | 0 <= i < |DEFAULTS| ensures Fresh(DEFAULTS)[i].fork != LADDER[k] {
      DefaultRung(i);
    }
    FindNone(Fresh(DEFAULTS), LADDER[k]);
  }

  lemma {:induction false} DefaultRung(i: nat)
    requires i < |DEFAULTS|
    ensures Rung(Some(DEFAULTS[i].0)) == 0
  {
  }

  /** Removing a fork is, for the ladder, the same as setting its condition to `Never`. */
  lemma WithoutIsNever(es: seq<Entry>, fork: Fork, t: nat)
    ensures Hardfork(Apply(es, Op.Without(fork)).value, t) == Hardfork(Apply(es, Op.Insert(fork, Never)).value, t)
  {
    var a, b := Apply(es, Op.Without(fork)).value, Apply(es, Op.Insert(fork, Never)).value;
    forall k | 0 <= k < |LADDER| ensures Rungs(a, t)[k] == Rungs(b, t)[k] {
      ApplyAt(es, Op.Without(fork), LADDER[k]);
      ApplyAt(es, Op.Insert(fork, Never), LADDER[k]);
    }
    assert Rungs(a, t) == Rungs(b, t);
  }

  /** With the builder's meaning: the fork at `t` is decided by the last conditions written. */
  lemma {:induction false} LadderOfRun(ops: seq<Op>, fork: Fork, t: nat)
    requires Accepted(Fresh(DEFAULTS), ops)
    ensures Run(Fresh(DEFAULTS), ops).Some?
    ensures ActiveAt(Run(Fresh(DEFAULTS), ops).value, fork, t) <==>
            var c := LastCondition(Fresh(DEFAULTS), ops, fork); c.Some? && c.value.AtTimestamp? && c.value.time <= t
  {
    LastWriteWins(Fresh(DEFAULTS), ops, fork);
  }
}
