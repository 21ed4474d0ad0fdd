/**
 The streaming per-opcode gas aggregator (`scripts/trace_opcode_gas.py`): `(index, key, value)`
 lines arrive one at a time, records are completed in `pending` and folded into per-opcode
 statistics as soon as their last key is seen.
 */
module OpcodeGas {
  import opened Common

  datatype Key = OpKey | CostKey | DepthKey

  /** A field's text, and what `int(text)` makes of it; `None` is a `ValueError`. */
  datatype Value = Value(text: string, number: Option<int>)

  datatype Event = Event(index: int, key: Key, value: Value)

  type Fields = map<Key, Value>

  const INITIAL_MIN: int := 0x4000_0000_0000_0000

  datatype Stats = Stats(count: nat, total: int, minCost: int, maxCost: int)

  const EMPTY := Stats(0, 0, INITIAL_MIN, 0)

  function Plus(s: Stats, cost: int): Stats {
    Stats(s.count + 1, s.total + cost, Min(cost, s.minCost), Max(s.maxCost, cost))
  }

  /** The mutable statistics object. */
  class StatsCell {
    var count: nat
    var total: int
    var minCost: int
    var maxCost: int

    function View(): Stats
      reads this
    {
      Stats(count, total, minCost, maxCost)
    }

    constructor ()
      ensures View() == EMPTY
    {
      count, total, minCost, maxCost := 0, 0, INITIAL_MIN, 0;
    }

    method Add(cost: int)
      modifies this
      ensures View() == Plus(old(View()), cost)
    {
      count := count + 1;
      total := total + cost;
      if cost < minCost {
        minCost := cost;
      }
      if cost > maxCost {
        maxCost := cost;
      }
    }
  }

  type PerOp = map<string, Stats>

  function Required(depth: Option<int>): set<Key> {
    if depth.Some? then {OpKey, CostKey, DepthKey} else {OpKey, CostKey}
  }

  predicate Complete(depth: Option<int>, f: Fields) {
    Required(depth) <= f.Keys
  }

  /** A depth that `int` rejects ends the program; a cost it rejects only drops the record. */
  predicate BadDepth(depth: Option<int>, f: Fields) {
    depth.Some? && Complete(depth, f) && f[DepthKey].number.None?
  }

  predicate Relevant(depth: Option<int>, f: Fields) {
    && Complete(depth, f)
    && (depth.Some? ==> f[DepthKey].number == depth)
    && f[CostKey].number.Some?
  }

  function StatsAt(p: PerOp, op: string): Stats {
    if op in p then p[op] else EMPTY
  }

  function Count(p: PerOp, op: string, cost: int): PerOp {
    p[op := Plus(StatsAt(p, op), cost)]
  }

  function AddRecord(depth: Option<int>, p: PerOp, f: Fields): PerOp {
    if Relevant(depth, f) then
      Count(p, f[OpKey].text, f[CostKey].number.value)
    else p
  }

  datatype State = Crashed | Live(pending: map<int, Fields>, perOp: PerOp)

  function FieldsAt(m: map<int, Fields>, i: int): Fields {
    if i in m then m[i] else map[]
  }

  /** One line of input. */
  function Next(depth: Option<int>, s: State, e: Event): State {
    if s.Crashed? then Crashed
    else
      var f := FieldsAt(s.pending, e.index)[e.key := e.value];
      if !Complete(depth, f) then s.(pending := s.pending[e.index := f])
      else if BadDepth(depth, f) then Crashed
      else Live(s.pending - {e.index}, AddRecord(depth, s.perOp, f))
  }

  function Stream(depth: Option<int>, es: seq<Event>): State {
    if es == [] then Live(map[], map[]) else Next(depth, Stream(depth, es[..|es| - 1]), es[|es| - 1])
  }

  /** The streaming loop over the two dictionaries. */
  method Aggregate(
    depth: Option<int>, lines: seq<Event>) returns (crashed: bool, pending: map<int, Fields>, perOp: PerOp)
    ensures crashed <==> Stream(depth, lines).Crashed?
    ensures !crashed ==> Stream(depth, lines) == Live(pending, perOp)
  {
    crashed, pending, perOp := false, map[], map[];
    for i := 0 to |lines|
      invariant !crashed && Stream(depth, lines[..i]) == Live(pending, perOp)
    {
      assert lines[..i + 1][..i] == lines[..i];
      var e := lines[i];
      var state: Fields := map[];
      if e.index in pending {
        state := pending[e.index];
      }
      state := state[e.key := e.value];
      pending := pending[e.index := state];
      if !(Required(depth) <= state.Keys) {
        continue;
      }
      if depth.Some? {
        if state[DepthKey].number.None? {
          CrashedPrefix(depth, lines, i + 1);
          return true, pending, perOp;
        }
        if state[DepthKey].number != depth {
          pending := pending - {e.index};
          continue;
        }
      }
      var op := state[OpKey].text;
      if state[CostKey].number.None? {
        pending := pending - {e.index};
        continue;
      }
      var stats := if op in perOp then perOp[op] else EMPTY;
      perOp := perOp[op := Plus(stats, state[CostKey].number.value)];
      pending := pending - {e.index};
    }
    assert lines[..|lines|] == lines;
  }

  lemma {:induction false} CrashedPrefix(depth: Option<int>, es: seq<Event>, n: nat)
    requires n <= |es| && Stream(depth, es[..n]).Crashed?
    ensures Stream(depth, es).Crashed?
    decreases |es|
  {
    if n == |es| {
      assert es[..n] == es;
    } else {
      assert es[..|es| - 1][..n] == es[..n];
      CrashedPrefix(depth, es[..|es| - 1], n);
    }
  }

  // ---------------------------------------------------------------------------------------------
  // The batch meaning
  // ---------------------------------------------------------------------------------------------

  /** All records of the trace, complete or not. */
  function Gather(es: seq<Event>): map<int, Fields> {
    if es == [] then map[]
    else
      var e := es[|es| - 1];
      var before := Gather(es[..|es| - 1]);
      before[e.index := FieldsAt(before, e.index)[e.key := e.value]]
  }

  /** Each key of each record arrives at most once, and only keys that are asked for. */
  ghost predicate WellFormed(depth: Option<int>, es: seq<Event>) {
    && (forall i :: 0 <= i < |es| ==> es[i].key in Required(depth))
    && (forall i, j :: 0 <= i < j < |es| ==> es[i].index != es[j].index || es[i].key != es[j].key)
  }

  /** The complete records. */
  function CompleteSet(depth: Option<int>, rec: map<int, Fields>): set<int> {
    set i | i in rec && Complete(depth, rec[i])
  }

  /** A batch over the records named by `order`. */
  function Batch(depth: Option<int>, rec: map<int, Fields>, order: seq<int>): PerOp {
    if order == [] then map[]
    else AddRecord(depth, Batch(depth, rec, order[..|order| - 1]), FieldsAt(rec, order[|order| - 1]))
  }

  lemma AddCommutes(depth: Option<int>, p: PerOp, f: Fields, g: Fields)
    ensures AddRecord(depth, AddRecord(depth, p, f), g) == AddRecord(depth, AddRecord(depth, p, g), f)
  {
    if Relevant(depth, f) && Relevant(depth, g) {
      CountCommutes(p, f[OpKey].text, f[CostKey].number.value, g[OpKey].text, g[CostKey].number.value);
    }
  }

  lemma CountCommutes(p: PerOp, x: string, m: int, y: string, n: int)
    ensures Count(Count(p, x, m), y, n) == Count(Count(p, y, n), x, m)
  {
    if x == y {
      assert Count(Count(p, x, m), x, n) == p[x := Plus(Plus(StatsAt(p, x), m), n)];
      assert Count(Count(p, x, n), x, m) == p[x := Plus(Plus(StatsAt(p, x), n), m)];
    } else {
      assert StatsAt(Count(p, x, m), y) == StatsAt(p, y) && StatsAt(Count(p, y, n), x) == StatsAt(p, x);
    }
  }

  lemma BatchAppend(depth: Option<int>, rec: map<int, Fields>, order: seq<int>, i: int)
    ensures Batch(depth, rec, order + [i]) == AddRecord(depth, Batch(depth, rec, order), FieldsAt(rec, i))
  {
    assert (order + [i])[..|order|] == order;
  }

  /** Moving one record to the end of the batch. */
  lemma {:induction false} MoveLast(depth: Option<int>, rec: map<int, Fields>, a: seq<int>, x: int, b: seq<int>)
    ensures Batch(depth, rec, a + [x] + b) == Batch(depth, rec, a + b + [x])
    decreases |b|
  {
    if b == [] {
      assert a + [x] + b == a + b + [x];
    } else {
      var y, c := b[|b| - 1], b[..|b| - 1];
      MoveLast(depth, rec, a, x, c);
      assert a + [x] + b == (a + [x] + c) + [y];
      assert a + b == (a + c) + [y];
      BatchAppend(depth, rec, a + [x] + c, y);
      BatchAppend(depth, rec, a + c, x);
      BatchAppend(depth, rec, a + c, y);
      BatchAppend(depth, rec, a + b, x);
      AddCommutes(depth, Batch(depth, rec, a + c), FieldsAt(rec, x), FieldsAt(rec, y));
    }
  }

  lemma Cancel(a: multiset<int>, b: multiset<int>, x: int)
    requires a + multiset{x} == b + multiset{x}
    ensures a == b
  {
    forall y ensures a[y] == b[y] {
      assert (a + multiset{x})[y] == (b + multiset{x})[y];
    }
  }

  /** The batch does not depend on the order of the records. */
  lemma {:induction false} BatchOrder(depth: Option<int>, rec: map<int, Fields>, a: seq<int>, b: seq<int>)
    requires multiset(a) == multiset(b)
    ensures Batch(depth, rec, a) == Batch(depth, rec, b)
    decreases |a|
  {
    if a == [] {
      assert |multiset(b)| == 0;
    } else {
      var x := a[|a| - 1];
      assert a == a[..|a| - 1] + [x];
      assert x in multiset(b);
      var k :| 0 <= k < |b| && b[k] == x;
      var l, r := b[..k], b[k + 1..];
      assert b == l + [x] + r;
      assert multiset(a) == multiset(a[..|a| - 1]) + multiset{x};
      assert multiset(b) == multiset(l) + multiset{x} + multiset(r);
      Cancel(multiset(a[..|a| - 1]), multiset(l + r), x);
      MoveLast(depth, rec, l, x, r);
      BatchAppend(depth, rec, l + r, x);
      BatchOrder(depth, rec, a[..|a| - 1], l + r);
    }
  }

  /** Only the named records matter. */
  lemma {:induction false} BatchAgree(
    depth: Option<int>, rec: map<int, Fields>, rec': map<int, Fields>, order: seq<int>)
    requires forall k :: 0 <= k < |order| ==> FieldsAt(rec, order[k]) == FieldsAt(rec', order[k])
    ensures Batch(depth, rec, order) == Batch(depth, rec', order)
  {
    if order != [] {
      BatchAgree(depth, rec, rec', order[..|order| - 1]);
    }
  }

  // ---------------------------------------------------------------------------------------------
  // Streaming equals batch
  // ---------------------------------------------------------------------------------------------

  /** The order in which the stream completes records. */
  function Finished(depth: Option<int>, es: seq<Event>): seq<int> {
    if es == [] then []
    else
      var i := es[|es| - 1].index;
      Finished(depth, es[..|es| - 1]) + (if Complete(depth, FieldsAt(Gather(es), i)) then [i] else [])
  }

  function Incomplete(depth: Option<int>, rec: map<int, Fields>): map<int, Fields> {
    map i | i in rec && !Complete(depth, rec[i]) :: rec[i]
  }

  ghost predicate SomeBadDepth(depth: Option<int>, rec: map<int, Fields>) {
    exists i :: i in rec && BadDepth(depth, rec[i])
  }

  /** A field is gathered exactly when its event was seen. */
  lemma {:induction false} GatherMeaning(depth: Option<int>, es: seq<Event>, i: int, k: Key)
    requires WellFormed(depth, es)
    ensures k in FieldsAt(Gather(es), i) <==> exists v :: Event(i, k, v) in es
    ensures k in FieldsAt(Gather(es), i) ==> Event(i, k, FieldsAt(Gather(es), i)[k]) in es
  {
    if es != [] {
      var n := |es| - 1;
      var front, last := es[..n], es[n];
      assert es == front + [last];
      WellFormedFront(depth, es);
      GatherMeaning(depth, front, i, k);
      if last.index == i && last.key == k {
        assert Event(i, k, last.value) in es;
      } else {
        forall v ensures Event(i, k, v) in es <==> Event(i, k, v) in front {
        }
      }
    }
  }

  lemma WellFormedFront(depth: Option<int>, es: seq<Event>)
    requires es != [] && WellFormed(depth, es)
    ensures WellFormed(depth, es[..|es| - 1])
  {
  }

  /** The last event adds a new key to a record that was still incomplete. */
  lemma {:induction false} NewKey(depth: Option<int>, es: seq<Event>)
    requires es != [] && WellFormed(depth, es)
    ensures var front, last := es[..|es| - 1], es[|es| - 1];
            last.key !in FieldsAt(Gather(front), last.index) && !Complete(depth, FieldsAt(Gather(front), last.index))
  {
    var front, last := es[..|es| - 1], es[|es| - 1];
    WellFormedFront(depth, es);
    GatherMeaning(depth, front, last.index, last.key);
    forall v ensures Event(last.index, last.key, v) !in front {
      assert forall m :: 0 <= m < |front| ==> front[m] == es[m];
    }
  }

  /** The state the records determine. */
  ghost function Summary(depth: Option<int>, rec: map<int, Fields>, order: seq<int>): State {
    if SomeBadDepth(depth, rec) then Crashed else Live(Incomplete(depth, rec), Batch(depth, rec, order))
  }

  ghost predicate StreamIs(depth: Option<int>, es: seq<Event>) {
    var rec := Gather(es);
    && Stream(depth, es) == Summary(depth, rec, Finished(depth, es))
    && multiset(Finished(depth, es)) == multiset(CompleteSet(depth, rec))
  }

  /**
   Streaming equals batch: after any trace the pending dictionary holds exactly the incomplete
   records and the statistics are the batch over the complete ones; the stream crashes exactly when
   a complete record has an unreadable depth.
   */
  lemma {:induction false} StreamMeaning(depth: Option<int>, es: seq<Event>)
    requires WellFormed(depth, es)
    ensures StreamIs(depth, es)
  {
    if es != [] {
      var front, last := es[..|es| - 1], es[|es| - 1];
      WellFormedFront(depth, es);
      StreamMeaning(depth, front);
      NewKey(depth, es);
      var rec, f := Gather(front), FieldsAt(Gather(front), last.index)[last.key := last.value];
      StreamStep(depth, Stream(depth, front), rec, last, Gather(es), Finished(depth, front));
      ListedStep(depth, rec, last.index, f, Gather(es), Finished(depth, front));
    }
  }

  /** `rec'` is `rec` with record `i` changed to `f`; `i` was incomplete before. */
  ghost predicate Changed(depth: Option<int>, rec: map<int, Fields>, i: int, f: Fields, rec': map<int, Fields>) {
    rec' == rec[i := f] && !Complete(depth, FieldsAt(rec, i))
  }

  lemma {:induction false} CompleteStep(
    depth: Option<int>, rec: map<int, Fields>, i: int, f: Fields, rec': map<int, Fields>)
    requires Changed(depth, rec, i, f, rec')
    ensures i !in CompleteSet(depth, rec)
    ensures CompleteSet(depth, rec') == CompleteSet(depth, rec) + if Complete(depth, f) then {i} else {}
  {
  }

  lemma {:induction false} IncompleteStep(
    depth: Option<int>, rec: map<int, Fields>, i: int, f: Fields, rec': map<int, Fields>)
    requires Changed(depth, rec, i, f, rec')
    ensures FieldsAt(Incomplete(depth, rec), i) == FieldsAt(rec, i)
    ensures Incomplete(depth, rec') ==
            if Complete(depth, f) then Incomplete(depth, rec) - {i} else Incomplete(depth, rec)[i := f]
  {
  }

  lemma {:induction false} BadDepthStep(
    depth: Option<int>, rec: map<int, Fields>, i: int, f: Fields, rec': map<int, Fields>)
    requires Changed(depth, rec, i, f, rec')
    ensures SomeBadDepth(depth, rec') <==> SomeBadDepth(depth, rec) || BadDepth(depth, f)
  {
    if SomeBadDepth(depth, rec) {
      var j :| j in rec && BadDepth(depth, rec[j]);
      assert j in rec' && rec'[j] == rec[j];
    }
    if BadDepth(depth, f) {
      assert i in rec' && BadDepth(depth, rec'[i]);
    }
  }

  /** The set grows by the new element exactly when the list does. */
  lemma ListedOnce(done: seq<int>, all: set<int>, i: int)
    requires multiset(done) == multiset(all) && i !in all
    ensures multiset(done + [i]) == multiset(all + {i})
  {
  }

  lemma {:induction false} ListedStep(
    depth: Option<int>, rec: map<int, Fields>, i: int, f: Fields, rec': map<int, Fields>, done: seq<int>)
    requires Changed(depth, rec, i, f, rec') && multiset(done) == multiset(CompleteSet(depth, rec))
    ensures multiset(done + if Complete(depth, f) then [i] else []) == multiset(CompleteSet(depth, rec'))
  {
    CompleteStep(depth, rec, i, f, rec');
    if Complete(depth, f) {
      ListedOnce(done, CompleteSet(depth, rec), i);
    } else {
      assert done + [] == done;
      assert CompleteSet(depth, rec') == CompleteSet(depth, rec);
    }
  }

  lemma {:induction false} BatchStep(
    depth: Option<int>, rec: map<int, Fields>, i: int, f: Fields, rec': map<int, Fields>, done: seq<int>)
    requires Changed(depth, rec, i, f, rec') && multiset(done) == multiset(CompleteSet(depth, rec))
    ensures Batch(depth, rec', done) == Batch(depth, rec, done)
    ensures Batch(depth, rec', done + [i]) == AddRecord(depth, Batch(depth, rec, done), f)
  {
    forall k | 0 <= k < |done| ensures FieldsAt(rec, done[k]) == FieldsAt(rec', done[k]) {
      assert done[k] in multiset(done);
      assert done[k] in CompleteSet(depth, rec);
    }
    BatchAgree(depth, rec, rec', done);
    BatchAppend(depth, rec', done, i);
  }

  /** One line keeps the correspondence. */
  lemma {:induction false} StreamStep(
    depth: Option<int>, s: State, rec: map<int, Fields>, e: Event, rec': map<int, Fields>, done: seq<int>)
    requires s == Summary(depth, rec, done)
    requires Changed(depth, rec, e.index, FieldsAt(rec, e.index)[e.key := e.value], rec')
    requires multiset(done) == multiset(CompleteSet(depth, rec))
    ensures Next(depth, s, e) == Summary(depth, rec', done + if Complete(depth, rec'[e.index]) then [e.index] else [])
  {
    var f := FieldsAt(rec, e.index)[e.key := e.value];
    IncompleteStep(depth, rec, e.index, f, rec');
    BadDepthStep(depth, rec, e.index, f, rec');
    BatchStep(depth, rec, e.index, f, rec', done);
    assert done + [] == done;
  }

  /** Any list naming every complete record once gives the streamed statistics. */
  lemma {:induction false} StreamingEqualsBatch(depth: Option<int>, es: seq<Event>, order: seq<int>)
    requires WellFormed(depth, es)
    requires multiset(order) == multiset(CompleteSet(depth, Gather(es)))
    ensures Stream(depth, es) == Summary(depth, Gather(es), order)
  {
    StreamMeaning(depth, es);
    BatchOrder(depth, Gather(es), Finished(depth, es), order);
  }

  /** Any interleaving of the same events gives the same result. */
  lemma {:induction false} InterleavingIrrelevant(depth: Option<int>, es: seq<Event>, fs: seq<Event>)
    requires WellFormed(depth, es) && WellFormed(depth, fs)
    requires multiset(es) == multiset(fs)
    ensures Stream(depth, es) == Stream(depth, fs)
  {
    GatherSame(depth, es, fs);
    StreamMeaning(depth, es);
    StreamMeaning(depth, fs);
    BatchOrder(depth, Gather(es), Finished(depth, es), Finished(depth, fs));
  }

  lemma {:induction false} GatherKeys(es: seq<Event>, i: int)
    ensures i in Gather(es) <==> FieldsAt(Gather(es), i) != map[]
  {
    if es != [] {
      GatherKeys(es[..|es| - 1], i);
      var e := es[|es| - 1];
      assert e.key in Gather(es)[e.index];
    }
  }

  lemma {:induction false} GatherSame(depth: Option<int>, es: seq<Event>, fs: seq<Event>)
    requires WellFormed(depth, es) && WellFormed(depth, fs)
    requires multiset(es) == multiset(fs)
    ensures Gather(es) == Gather(fs)
  {
    forall e ensures e in es <==> e in fs {
      assert e in es <==> e in multiset(es);
      assert e in fs <==> e in multiset(fs);
    }
    forall i ensures FieldsAt(Gather(es), i) == FieldsAt(Gather(fs), i) {
      SameFields(depth, es, fs, i);
    }
    forall i ensures i in Gather(es) <==> i in Gather(fs) {
      GatherKeys(es, i);
      GatherKeys(fs, i);
    }
    forall i | i in Gather(es) ensures Gather(es)[i] == Gather(fs)[i] {
      assert FieldsAt(Gather(es), i) == FieldsAt(Gather(fs), i);
    }
  }

  lemma {:induction false} SameFields(depth: Option<int>, es: seq<Event>, fs: seq<Event>, i: int)
    requires WellFormed(depth, es) && WellFormed(depth, fs)
    requires forall e :: e in es <==> e in fs
    ensures FieldsAt(Gather(es), i) == FieldsAt(Gather(fs), i)
  {
    var f, g := FieldsAt(Gather(es), i), FieldsAt(Gather(fs), i);
    forall k ensures k in f <==> k in g {
      GatherMeaning(depth, es, i, k);
      GatherMeaning(depth, fs, i, k);
    }
    forall k | k in f ensures f[k] == g[k] {
      GatherMeaning(depth, es, i, k);
      GatherMeaning(depth, fs, i, k);
      OneValue(depth, fs, Event(i, k, f[k]), Event(i, k, g[k]));
    }
  }

  lemma OneValue(depth: Option<int>, es: seq<Event>, d: Event, e: Event)
    requires WellFormed(depth, es) && d in es && e in es
    requires d.index == e.index && d.key == e.key
    ensures d == e
  {
    var i :| 0 <= i < |es| && es[i] == d;
    var j :| 0 <= j < |es| && es[j] == e;
  }

  // ---------------------------------------------------------------------------------------------
  // What the statistics are
  // ---------------------------------------------------------------------------------------------

  function StatsOf(costs: seq<int>): Stats {
    if costs == [] then EMPTY else Plus(StatsOf(costs[..|costs| - 1]), costs[|costs| - 1])
  }

  /** The costs of one opcode, in batch order. */
  function CostsOf(depth: Option<int>, rec: map<int, Fields>, order: seq<int>, op: string): seq<int> {
    if order == [] then []
    else
      var f := FieldsAt(rec, order[|order| - 1]);
      CostsOf(depth, rec, order[..|order| - 1], op)
      + (if Relevant(depth, f) && f[OpKey].text == op then [f[CostKey].number.value] else [])
  }

  /** Every opcode's row summarises exactly the costs of its relevant records. */
  lemma {:induction false} BatchRows(depth: Option<int>, rec: map<int, Fields>, order: seq<int>, op: string)
    ensures op in Batch(depth, rec, order) <==> CostsOf(depth, rec, order, op) != []
    ensures StatsAt(Batch(depth, rec, order), op) == StatsOf(CostsOf(depth, rec, order, op))
  {
    if order != [] {
      BatchRows(depth, rec, order[..|order| - 1], op);
      var front := CostsOf(depth, rec, order[..|order| - 1], op);
      var f := FieldsAt(rec, order[|order| - 1]);
      if Relevant(depth, f) && f[OpKey].text == op {
        assert (front + [f[CostKey].number.value])[..|front|] == front;
      } else {
        assert front + [] == front;
      }
    }
  }

  /** A record counts for `op`: it names it, its cost is a number and, if a depth is asked for, its depth is that. */
  predicate CountsFor(depth: Option<int>, f: Fields, op: string) {
    && OpKey in f && f[OpKey].text == op
    && CostKey in f && f[CostKey].number.Some?
    && (depth.Some? ==> DepthKey in f && f[DepthKey].number == depth)
  }

  /** The costs of one opcode are those of the records that count for it, each once, in order. */
  lemma {:induction false} CostsExact(depth: Option<int>, rec: map<int, Fields>, order: seq<int>, op: string)
    returns (from: seq<nat>)
    ensures |from| == |CostsOf(depth, rec, order, op)|
    ensures forall j :: 0 <= j < |from| ==>
                          && from[j] < |order| && CountsFor(depth, FieldsAt(rec, order[from[j]]), op)
                          && CostsOf(depth, rec, order, op)[j] ==
                              FieldsAt(rec, order[from[j]])[CostKey].number.value
    ensures forall i, j :: 0 <= i < j < |from| ==> from[i] < from[j]
    ensures forall k: nat :: k < |order| && CountsFor(depth, FieldsAt(rec, order[k]), op) ==> k in from
  {
    from := [];
    if order != [] {
      var n := |order| - 1;
      var front := CostsExact(depth, rec, order[..n], op);
      var f := FieldsAt(rec, order[n]);
      from := front + if CountsFor(depth, f, op) then [n] else [];
      forall k: nat | k < |order| && CountsFor(depth, FieldsAt(rec, order[k]), op) ensures k in from {
        if k < n {
          assert order[..n][k] == order[k] && k in front;
        }
      }
    }
  }

  function Total(costs: seq<int>): int {
    if costs == [] then 0 else Total(costs[..|costs| - 1]) + costs[|costs| - 1]
  }

  ghost predicate IsMin(m: int, costs: seq<int>) {
    m in costs && forall i :: 0 <= i < |costs| ==> m <= costs[i]
  }

  ghost predicate IsMax(m: int, costs: seq<int>) {
    m in costs && forall i :: 0 <= i < |costs| ==> costs[i] <= m
  }

  lemma {:induction false} StatsBounds(costs: seq<int>)
    ensures var s := StatsOf(costs);
            && s.count == |costs| && s.total == Total(costs)
            && s.minCost <= INITIAL_MIN && (forall i :: 0 <= i < |costs| ==> s.minCost <= costs[i])
            && (s.minCost == INITIAL_MIN || s.minCost in costs)
            && s.maxCost >= 0 && (forall i :: 0 <= i < |costs| ==> costs[i] <= s.maxCost)
            && (s.maxCost == 0 || s.maxCost in costs)
  {
    if costs != [] {
      var n := |costs| - 1;
      StatsBounds(costs[..n]);
      assert costs == costs[..n] + [costs[n]];
    }
  }

  /**
   Count and total are exact; the reported minimum is the minimum exactly when some cost is at most
   2^62, and the reported maximum is the maximum exactly when some cost is not negative.
   */
  lemma {:induction false} StatsExact(costs: seq<int>)
    requires costs != []
    ensures StatsOf(costs).count == |costs| && StatsOf(costs).total == Total(costs)
    ensures IsMin(StatsOf(costs).minCost, costs) <==>
            exists i :: 0 <= i < |costs| && costs[i] <= 0x4000_0000_0000_0000
    ensures IsMax(StatsOf(costs).maxCost, costs) <==> exists i :: 0 <= i < |costs| && costs[i] >= 0
  {
    StatsBounds(costs);
    var s := StatsOf(costs);
    if s.minCost in costs {
      var i :| 0 <= i < |costs| && costs[i] == s.minCost;
    }
    if s.maxCost in costs {
      var i :| 0 <= i < |costs| && costs[i] == s.maxCost;
    }
  }
}
