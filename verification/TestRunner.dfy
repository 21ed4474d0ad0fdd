/**
 The parallel state-test runner (`crates/mega-state-test/src/runner.rs`): workers share a queue
 index behind a mutex, an atomic error count and the process-wide `FAILED` flag. Every access to
 shared state is one step; steps of any number of workers interleave freely.
 */
module TestRunner {
  import opened Common

  /** What executing one test file amounts to. */
  datatype Verdict =
    | Pass
    | Broken      // an error before any test ran (unreadable file, bad fixture)
    | Failing     // a test of the file failed
    | Panics

  predicate IsFail(v: Verdict) {
    v.Broken? || v.Failing?
  }

  datatype Worker =
    | Top                        // about to look at the error count
    | Ready                      // about to take a file
    | Running(file: nat)
    | Deciding(file: nat)        // a test failed; about to swap `FAILED`
    | Debugging(file: nat)       // re-running the failed test with a trace
    | Counting(file: nat)        // about to add to the error count
    | Returned(error: Option<nat>)
    | Panicked(afterFailure: bool)

  datatype Config = Config(files: nat, keepGoing: bool, printOutcome: bool)

  datatype State = State(
    index: nat, errors: nat, failedFlag: bool, debugRuns: nat,
    results: map<nat, Verdict>, workers: seq<Worker>)

  function Init(workers: nat, failedFlag: bool): State {
    State(0, 0, failedFlag, 0, map[], seq(workers, _ => Top))
  }

  datatype Step =
    | Load(w: nat)
    | Take(w: nat)
    | Execute(w: nat, verdict: Verdict)
    | Decide(w: nat)
    | Debug(w: nat, panics: bool)
    | Add(w: nat)

  predicate Enabled(s: State, step: Step) {
    step.w < |s.workers| &&
    match step
    case Load(w) => s.workers[w].Top?
    case Take(w) => s.workers[w].Ready?
    case Execute(w, _) => s.workers[w].Running?
    case Decide(w) => s.workers[w].Deciding?
    case Debug(w, _) => s.workers[w].Debugging?
    case Add(w) => s.workers[w].Counting?
  }

  function AfterExecute(file: nat, v: Verdict): Worker {
    match v
    case Pass => Top
    case Broken => Counting(file)
    case Failing => Deciding(file)
    case Panics => Panicked(false)
  }

  function At(s: State, w: nat, x: Worker): State
    requires w < |s.workers|
  {
    s.(workers := s.workers[w := x])
  }

  function Next(c: Config, s: State, step: Step): State {
    if !Enabled(s, step) then s
    else
      var w := step.w;
      match step
      case Load(_) => At(s, w, if !c.keepGoing && s.errors > 0 then Returned(None) else Ready)
      case Take(_) =>
        if s.index < c.files then At(s, w, Running(s.index)).(index := s.index + 1)
        else At(s, w, Returned(None))
      case Execute(_, v) =>
        var f := s.workers[w].file;
        At(s, w, AfterExecute(f, v)).(results := s.results[f := v])
      case Decide(_) =>
        var f := s.workers[w].file;
        if c.printOutcome || s.failedFlag then At(s, w, Counting(f))
        else At(s, w, Debugging(f)).(failedFlag := true, debugRuns := s.debugRuns + 1)
      case Debug(_, panics) =>
        At(s, w, if panics then Panicked(true) else Counting(s.workers[w].file))
      case Add(_) =>
        At(s, w, if c.keepGoing then Top else Returned(Some(s.workers[w].file))).(errors := s.errors + 1)
  }

  function Run(c: Config, s: State, steps: seq<Step>): State {
    if steps == [] then s else Next(c, Run(c, s, steps[..|steps| - 1]), steps[|steps| - 1])
  }

  // ---------------------------------------------------------------------------------------------
  // The sequential pieces
  // ---------------------------------------------------------------------------------------------

  /** The mutex-guarded pair of index and file list. */
  class Queue {
    var index: nat
    const files: seq<nat>

    constructor (files: seq<nat>)
      ensures this.files == files && index == 0
    {
      this.files := files;
      index := 0;
    }

    /** Hands out the files in order, each once. */
    method NextTest() returns (r: Option<nat>)
      modifies this
      ensures old(index) < |files| ==> r == Some(files[old(index)]) && index == old(index) + 1
      ensures old(index) >= |files| ==> r == None && index == old(index)
    {
      if index >= |files| {
        return None;
      }
      r := Some(files[index]);
      index := index + 1;
    }
  }

  /** The worker does not go on after this file. */
  predicate Ends(v: Verdict, keepGoing: bool) {
    v.Panics? || (!keepGoing && IsFail(v))
  }

  /** How many files a worker alone on the queue executes: up to the first that ends it, or all. */
  function StopAt(verdicts: seq<Verdict>, keepGoing: bool): nat {
    if verdicts == [] then 0
    else if Ends(verdicts[0], keepGoing) then 1
    else 1 + StopAt(verdicts[1..], keepGoing)
  }

  function Failures(verdicts: seq<Verdict>): nat {
    if verdicts == [] then 0
    else Failures(verdicts[..|verdicts| - 1]) + if IsFail(verdicts[|verdicts| - 1]) then 1 else 0
  }

  /** A stop before the end means the last file executed is the first that ends the worker. */
  lemma {:induction false} StopAtMeaning(verdicts: seq<Verdict>, keepGoing: bool)
    ensures StopAt(verdicts, keepGoing) <= |verdicts|
    ensures var k := StopAt(verdicts, keepGoing);
            && (forall i :: 0 <= i < k - 1 ==> !Ends(verdicts[i], keepGoing))
            && (k < |verdicts| ==> k > 0 && Ends(verdicts[k - 1], keepGoing))
  {
    if verdicts != [] {
      StopAtMeaning(verdicts[1..], keepGoing);
    }
  }

  ghost function Verdicts(files: seq<nat>, from: nat, verdict: nat -> Verdict): (v: seq<Verdict>)
    ensures |v| == if from <= |files| then |files| - from else 0
  {
    var rest := if from <= |files| then files[from..] else [];
    seq(|rest|, i requires 0 <= i < |rest| => verdict(rest[i]))
  }

  /** The last file taken from the queue, and it failed. */
  predicate BlamesLast(files: seq<nat>, index: nat, verdict: nat -> Verdict, file: nat) {
    0 < index <= |files| && file == files[index - 1] && IsFail(verdict(file))
  }

  /** The worker loop on its own, as in single-threaded mode; `errors` is the shared count. */
  method RunTestWorker(queue: Queue, verdict: nat -> Verdict, keepGoing: bool)
    returns (errors: nat, end: Worker, executed: nat)
    modifies queue
    ensures var verdicts := Verdicts(queue.files, old(queue.index), verdict);
            && executed == StopAt(verdicts, keepGoing) <= |verdicts|
            && errors == Failures(verdicts[..executed])
            && (end == Panicked(false) <==> executed > 0 && verdicts[executed - 1].Panics?)
            && (end.Returned? && end.error.Some? <==> !keepGoing && errors > 0)
            && (end == Returned(None) ==> executed == |verdicts|)
            && (end.Returned? && end.error.Some? ==> BlamesLast(queue.files, queue.index, verdict, end.error.value))
            && (end.Returned? || end == Panicked(false))
            && queue.index == old(queue.index) + executed
  {
    ghost var verdicts := Verdicts(queue.files, queue.index, verdict);
    errors, end, executed := 0, Returned(None), 0;
    while true
      invariant executed <= |verdicts| && queue.index == old(queue.index) + executed && end == Returned(None)
      invariant errors == Failures(verdicts[..executed]) && (!keepGoing ==> errors == 0)
      invariant NoneEnds(verdicts, executed, keepGoing)
      decreases |verdicts| - executed
    {
      if !keepGoing && errors > 0 {
        return;
      }
      var test := queue.NextTest();
      if test.None? {
        StopsAt(verdicts, executed, keepGoing);
        return;
      }
      var result := verdict(test.value);
      NextVerdict(queue.files, old(queue.index), verdict, executed);
      FailuresNext(verdicts, executed);
      executed := executed + 1;
      if result.Panics? {
        end := Panicked(false);
        StopsAt(verdicts, executed, keepGoing);
        return;
      }
      if IsFail(result) {
        errors := errors + 1;
        if !keepGoing {
          end := Returned(test);
          StopsAt(verdicts, executed, keepGoing);
          return;
        }
      }
    }
  }

  /** The first `n` files do not end the worker. */
  ghost predicate NoneEnds(verdicts: seq<Verdict>, n: nat, keepGoing: bool)
    requires n <= |verdicts|
  {
    forall i :: 0 <= i < n ==> !Ends(verdicts[i], keepGoing)
  }

  lemma NextVerdict(files: seq<nat>, from: nat, verdict: nat -> Verdict, n: nat)
    requires from + n < |files|
    ensures Verdicts(files, from, verdict)[n] == verdict(files[from + n])
  {
  }

  lemma FailuresNext(verdicts: seq<Verdict>, n: nat)
    requires n < |verdicts|
    ensures Failures(verdicts[..n + 1]) == Failures(verdicts[..n]) + if IsFail(verdicts[n]) then 1 else 0
  {
    assert verdicts[..n + 1][..n] == verdicts[..n];
  }

  /** A worker that got past all but the last of `n` files stops there if that one ends it or is the last. */
  lemma {:induction false} StopsAt(verdicts: seq<Verdict>, n: nat, keepGoing: bool)
    requires n <= |verdicts| && (n > 0 ==> NoneEnds(verdicts, n - 1, keepGoing))
    requires n == |verdicts| || (n > 0 && Ends(verdicts[n - 1], keepGoing))
    ensures StopAt(verdicts, keepGoing) == n
  {
    if n > 1 {
      assert !Ends(verdicts[0], keepGoing);
      StopsAt(verdicts[1..], n - 1, keepGoing);
    }
  }

  /** One thread per available core, but no more threads than files; one if forced or unknown. */
  function ThreadCount(singleThread: bool, available: Option<nat>, files: nat): (n: nat)
    requires available.Some? ==> available.value > 0
    ensures files > 0 ==> n > 0
    ensures !singleThread && available.Some? ==>
              n <= available.value && n <= files && (n == available.value || n == files)
    ensures singleThread || available.None? ==> n == 1
  {
    if singleThread || available.None? then 1
    else if available.value <= files then available.value else files
  }

  // ---------------------------------------------------------------------------------------------
  // Ownership: every file below the index is executed once or being executed by one worker
  // ---------------------------------------------------------------------------------------------

  ghost predicate Owned(c: Config, s: State) {
    && s.index <= c.files
    && (forall f :: f in s.results ==> f < s.index)
    && (forall w :: 0 <= w < |s.workers| && s.workers[w].Running? ==>
                      s.workers[w].file < s.index && s.workers[w].file !in s.results)
    && (forall v, w :: 0 <= v < w < |s.workers| && s.workers[v].Running? && s.workers[w].Running? ==>
                         s.workers[v].file != s.workers[w].file)
    && (forall f :: 0 <= f < s.index && f !in s.results ==>
                      exists w :: 0 <= w < |s.workers| && s.workers[w] == Running(f))
  }

  lemma {:induction false} NextOwned(c: Config, s: State, step: Step)
    requires Owned(c, s)
    ensures Owned(c, Next(c, s, step))
  {
    if Enabled(s, step) {
      var t := Next(c, s, step);
      if step.Take? && s.index < c.files {
        TakeOwned(c, s, step.w);
      } else if step.Execute? {
        ExecuteOwned(c, s, step.w, step.verdict);
      } else {
        OtherOwned(c, s, step.w, t.workers[step.w], t);
      }
    }
  }

  lemma {:induction false} TakeOwned(c: Config, s: State, w: nat)
    requires Owned(c, s) && Enabled(s, Take(w)) && s.index < c.files
    ensures Owned(c, Next(c, s, Take(w)))
  {
    var t := Next(c, s, Take(w));
    forall f | 0 <= f < t.index && f !in t.results
      ensures exists v :: 0 <= v < |t.workers| && t.workers[v] == Running(f)
    {
      if f == s.index {
        assert t.workers[w] == Running(f);
      } else {
        var v :| 0 <= v < |s.workers| && s.workers[v] == Running(f);
        assert t.workers[v] == Running(f);
      }
    }
  }

  lemma {:induction false} ExecuteOwned(c: Config, s: State, w: nat, verdict: Verdict)
    requires Owned(c, s) && Enabled(s, Execute(w, verdict))
    ensures Owned(c, Next(c, s, Execute(w, verdict)))
  {
    var t := Next(c, s, Execute(w, verdict));
    assert !t.workers[w].Running?;
    forall f | 0 <= f < t.index && f !in t.results
      ensures exists v :: 0 <= v < |t.workers| && t.workers[v] == Running(f)
    {
      var v :| 0 <= v < |s.workers| && s.workers[v] == Running(f);
      assert t.workers[v] == Running(f);
    }
  }

  lemma {:induction false} OtherOwned(c: Config, s: State, w: nat, x: Worker, t: State)
    requires Owned(c, s) && w < |s.workers|
    requires !s.workers[w].Running? && !x.Running?
    requires t.workers == s.workers[w := x] && t.index == s.index && t.results == s.results
    ensures Owned(c, t)
  {
    forall f | 0 <= f < t.index && f !in t.results
      ensures exists v :: 0 <= v < |t.workers| && t.workers[v] == Running(f)
    {
      var v :| 0 <= v < |s.workers| && s.workers[v] == Running(f);
      assert t.workers[v] == Running(f);
    }
  }

  /** Results are never withdrawn. */
  lemma {:induction false} ResultsGrow(c: Config, s: State, steps: seq<Step>, m: nat)
    requires m <= |steps|
    ensures Run(c, s, steps[..m]).results.Keys <= Run(c, s, steps).results.Keys
    decreases |steps|
  {
    if m == |steps| {
      assert steps[..m] == steps;
    } else {
      var n := |steps| - 1;
      assert steps[..n][..m] == steps[..m];
      ResultsGrow(c, s, steps[..n], m);
    }
  }

  ghost predicate Executes(c: Config, s: State, steps: seq<Step>, i: nat, file: nat) {
    && i < |steps| && steps[i].Execute?
    && steps[i].w < |Run(c, s, steps[..i]).workers|
    && Run(c, s, steps[..i]).workers[steps[i].w] == Running(file)
  }

  lemma {:induction false} ExecutedShows(c: Config, s: State, steps: seq<Step>, i: nat, file: nat)
    requires Executes(c, s, steps, i, file)
    ensures i < |steps| && file in Run(c, s, steps[..i + 1]).results
  {
    assert steps[..i + 1][..i] == steps[..i];
  }

  /** No file is executed twice, whichever workers try. */
  lemma {:induction false} ExecutedOnce(c: Config, n: nat, flag0: bool, steps: seq<Step>, i: nat, j: nat, file: nat)
    requires i < j
    ensures !(Executes(c, Init(n, flag0), steps, i, file) && Executes(c, Init(n, flag0), steps, j, file))
  {
    var s := Init(n, flag0);
    if Executes(c, s, steps, i, file) && j <= |steps| {
      ExecutedShows(c, s, steps, i, file);
      ResultsGrow(c, s, steps[..j], i + 1);
      assert steps[..j][..i + 1] == steps[..i + 1];
      Reachable(c, n, flag0, steps[..j]);
    }
  }

  // ---------------------------------------------------------------------------------------------
  // Counting
  // ---------------------------------------------------------------------------------------------

  /** A failure a worker has seen and not yet added to the shared count. */
  predicate Holds(x: Worker) {
    x.Deciding? || x.Debugging? || x.Counting? || x == Panicked(true)
  }

  function Held(ws: seq<Worker>): nat {
    if ws == [] then 0 else Held(ws[..|ws| - 1]) + if Holds(ws[|ws| - 1]) then 1 else 0
  }

  lemma {:induction false} HeldUpdate(ws: seq<Worker>, w: nat, x: Worker)
    requires w < |ws|
    ensures Held(ws[w := x]) == Held(ws) - (if Holds(ws[w]) then 1 else 0) + (if Holds(x) then 1 else 0)
  {
    var n := |ws| - 1;
    if w == n {
      assert ws[w := x][..n] == ws[..n];
    } else {
      assert ws[w := x][..n] == ws[..n][w := x];
      HeldUpdate(ws[..n], w, x);
    }
  }

  lemma {:induction false} HeldNone(ws: seq<Worker>)
    requires forall w :: 0 <= w < |ws| ==> !Holds(ws[w])
    ensures Held(ws) == 0
  {
    if ws != [] {
      HeldNone(ws[..|ws| - 1]);
    }
  }

  function FailedFiles(results: map<nat, Verdict>): set<nat> {
    set f | f in results && IsFail(results[f])
  }

  lemma FailedFilesAdd(results: map<nat, Verdict>, f: nat, v: Verdict)
    requires f !in results
    ensures |FailedFiles(results[f := v])| == |FailedFiles(results)| + if IsFail(v) then 1 else 0
  {
    assert FailedFiles(results[f := v]) == FailedFiles(results) + if IsFail(v) then {f} else {};
  }

  ghost predicate Counted(s: State) {
    s.errors + Held(s.workers) == |FailedFiles(s.results)|
  }

  lemma {:induction false} NextCounted(c: Config, s: State, step: Step)
    requires Owned(c, s) && Counted(s)
    ensures Counted(Next(c, s, step))
  {
    if Enabled(s, step) {
      HeldUpdate(s.workers, step.w, Next(c, s, step).workers[step.w]);
      if step.Execute? {
        FailedFilesAdd(s.results, s.workers[step.w].file, step.verdict);
      }
    }
  }

  // ---------------------------------------------------------------------------------------------
  // How workers end
  // ---------------------------------------------------------------------------------------------

  ghost predicate Ended(c: Config, s: State) {
    && (forall w :: 0 <= w < |s.workers| && s.workers[w] == Returned(None) ==>
                      s.index == c.files || (!c.keepGoing && s.errors > 0))
    && (forall w :: 0 <= w < |s.workers| && s.workers[w].Returned? && s.workers[w].error.Some? ==>
                      !c.keepGoing && s.errors > 0)
    && (s.errors > 0 && !c.keepGoing ==>
          exists w :: 0 <= w < |s.workers| && s.workers[w].Returned? && s.workers[w].error.Some?)
    && (forall f :: f in s.results && s.results[f].Panics? ==>
                      exists w :: 0 <= w < |s.workers| && s.workers[w].Panicked?)
  }

  lemma {:induction false} NextEnded(c: Config, s: State, step: Step)
    requires Owned(c, s) && Ended(c, s)
    ensures Ended(c, Next(c, s, step))
  {
    if Enabled(s, step) {
      var t := Next(c, s, step);
      StepFrame(c, s, step);
      if t.errors > 0 && !c.keepGoing {
        ErrorReported(c, s, step);
      }
      forall f | f in t.results && t.results[f].Panics?
        ensures exists w :: 0 <= w < |t.workers| && t.workers[w].Panicked?
      {
        PanicShown(c, s, step, f);
      }
    }
  }

  /** A step moves one running worker; counters never go back. */
  lemma {:induction false} StepFrame(c: Config, s: State, step: Step)
    requires Enabled(s, step)
    ensures var t := Next(c, s, step);
            && |t.workers| == |s.workers|
            && (forall w :: 0 <= w < |s.workers| && w != step.w ==> t.workers[w] == s.workers[w])
            && !s.workers[step.w].Returned? && !s.workers[step.w].Panicked?
            && s.index <= t.index && s.errors <= t.errors && (s.index == c.files ==> t.index == c.files)
            && (t.workers[step.w] == Returned(None) ==> s.index >= c.files || (!c.keepGoing && s.errors > 0))
            && (t.workers[step.w].Returned? && t.workers[step.w].error.Some? ==> !c.keepGoing && t.errors > 0)
  {
  }

  lemma {:induction false} ErrorReported(c: Config, s: State, step: Step)
    requires Enabled(s, step) && Next(c, s, step).errors > 0 && !c.keepGoing
    requires s.errors > 0 ==> exists w :: 0 <= w < |s.workers| && s.workers[w].Returned? && s.workers[w].error.Some?
    ensures var t := Next(c, s, step);
            exists w :: 0 <= w < |t.workers| && t.workers[w].Returned? && t.workers[w].error.Some?
  {
    var t := Next(c, s, step);
    if s.errors > 0 {
      var w :| 0 <= w < |s.workers| && s.workers[w].Returned? && s.workers[w].error.Some?;
      StepFrame(c, s, step);
      assert t.workers[w] == s.workers[w];
    } else {
      assert t.workers[step.w].Returned? && t.workers[step.w].error.Some?;
    }
  }

  lemma {:induction false} PanicShown(c: Config, s: State, step: Step, f: nat)
    requires Enabled(s, step) && f in Next(c, s, step).results && Next(c, s, step).results[f].Panics?
    requires f in s.results && s.results[f].Panics? ==> exists w :: 0 <= w < |s.workers| && s.workers[w].Panicked?
    ensures var t := Next(c, s, step); exists w :: 0 <= w < |t.workers| && t.workers[w].Panicked?
  {
    var t := Next(c, s, step);
    if f in s.results && s.results[f].Panics? {
      var w :| 0 <= w < |s.workers| && s.workers[w].Panicked?;
      StepFrame(c, s, step);
      assert t.workers[w] == s.workers[w];
    } else {
      assert t.workers[step.w].Panicked?;
    }
  }

  /** The debug re-run happens at most once, and only for the run that flipped the flag. */
  ghost predicate DebuggedOnce(flag0: bool, s: State) {
    && (flag0 ==> s.failedFlag)
    && s.debugRuns == if s.failedFlag && !flag0 then 1 else 0
  }

  /** A worker past a failure holds a file that was executed and failed. */
  predicate Blames(results: map<nat, Verdict>, x: Worker) {
    match x
    case Deciding(f) => f in results && results[f].Failing?
    case Debugging(f) => f in results && results[f].Failing?
    case Counting(f) => f in results && IsFail(results[f])
    case Returned(error) => error.Some? ==> error.value in results && IsFail(results[error.value])
    case _ => true
  }

  ghost predicate Blamed(s: State) {
    forall w :: 0 <= w < |s.workers| ==> Blames(s.results, s.workers[w])
  }

  lemma {:induction false} NextBlamed(c: Config, s: State, step: Step)
    requires Owned(c, s) && Blamed(s)
    ensures Blamed(Next(c, s, step))
  {
    if Enabled(s, step) {
      var t := Next(c, s, step);
      ResultsStay(c, s, step);
      forall w | 0 <= w < |t.workers| ensures Blames(t.results, t.workers[w]) {
        assert Blames(s.results, s.workers[w]);
        if w == step.w {
          OwnBlame(c, s, step);
        } else {
          assert t.workers[w] == s.workers[w];
        }
      }
    }
  }

  lemma {:induction false} OwnBlame(c: Config, s: State, step: Step)
    requires Enabled(s, step) && Blames(s.results, s.workers[step.w])
    ensures Blames(Next(c, s, step).results, Next(c, s, step).workers[step.w])
  {
  }

  /** A result is never overwritten. */
  lemma {:induction false} ResultsStay(c: Config, s: State, step: Step)
    requires Owned(c, s)
    ensures var t := Next(c, s, step);
            forall f :: f in s.results ==> f in t.results && t.results[f] == s.results[f]
  {
  }

  /**
   Who flips the flag: nobody when outcomes are printed, otherwise the first worker to decide on a file
   with a failing test; until then such a file is still with the worker that will decide on it.
   */
  ghost predicate Flagged(c: Config, flag0: bool, s: State) {
    && (c.printOutcome ==> s.failedFlag == flag0)
    && (s.failedFlag && !flag0 ==> exists f :: f in s.results && s.results[f].Failing?)
    && (!c.printOutcome && !s.failedFlag ==>
          forall f :: f in s.results && s.results[f].Failing? ==>
                        exists w :: 0 <= w < |s.workers| && s.workers[w] == Deciding(f))
  }

  lemma {:induction false} NextFlagged(c: Config, flag0: bool, s: State, step: Step)
    requires Owned(c, s) && Blamed(s) && Flagged(c, flag0, s)
    ensures Flagged(c, flag0, Next(c, s, step))
  {
    if Enabled(s, step) {
      var t := Next(c, s, step);
      ResultsStay(c, s, step);
      assert Blames(s.results, s.workers[step.w]);
      if t.failedFlag && !flag0 {
        var f := if s.failedFlag then FailingIn(s.results) else s.workers[step.w].file;
        assert f in t.results && t.results[f].Failing?;
      }
      if !c.printOutcome && !t.failedFlag {
        forall f | f in t.results && t.results[f].Failing?
          ensures exists w :: 0 <= w < |t.workers| && t.workers[w] == Deciding(f)
        {
          StillDeciding(c, s, step, f);
        }
      }
    }
  }

  ghost function FailingIn(results: map<nat, Verdict>): (f: nat)
    requires exists f :: f in results && results[f].Failing?
    ensures f in results && results[f].Failing?
  {
    var f :| f in results && results[f].Failing?;
    f
  }

  lemma {:induction false} StillDeciding(c: Config, s: State, step: Step, f: nat)
    requires Enabled(s, step) && !c.printOutcome && !Next(c, s, step).failedFlag
    requires f in Next(c, s, step).results && Next(c, s, step).results[f].Failing?
    requires f in s.results && s.results[f].Failing? ==>
               exists w :: 0 <= w < |s.workers| && s.workers[w] == Deciding(f)
    ensures var t := Next(c, s, step); exists w :: 0 <= w < |t.workers| && t.workers[w] == Deciding(f)
  {
    var t := Next(c, s, step);
    if f in s.results && s.results[f].Failing? {
      var w :| 0 <= w < |s.workers| && s.workers[w] == Deciding(f);
      assert t.workers[w] == s.workers[w];
    } else {
      assert t.workers[step.w] == Deciding(f);
    }
  }

  ghost predicate Inv(c: Config, flag0: bool, s: State) {
    && Owned(c, s) && Counted(s) && Ended(c, s) && DebuggedOnce(flag0, s)
    && Blamed(s) && Flagged(c, flag0, s)
  }

  lemma {:induction false} InitInv(c: Config, n: nat, flag0: bool)
    ensures Inv(c, flag0, Init(n, flag0))
  {
    HeldNone(Init(n, flag0).workers);
    assert FailedFiles(map[]) == {};
  }

  lemma {:induction false} NextInv(c: Config, flag0: bool, s: State, step: Step)
    requires Inv(c, flag0, s)
    ensures Inv(c, flag0, Next(c, s, step))
    ensures |Next(c, s, step).workers| == |s.workers|
  {
    NextOwned(c, s, step);
    NextCounted(c, s, step);
    NextEnded(c, s, step);
    NextDebugged(c, flag0, s, step);
    NextBlamed(c, s, step);
    NextFlagged(c, flag0, s, step);
  }

  lemma {:induction false} NextDebugged(c: Config, flag0: bool, s: State, step: Step)
    requires DebuggedOnce(flag0, s)
    ensures DebuggedOnce(flag0, Next(c, s, step))
    ensures |Next(c, s, step).workers| == |s.workers|
  {
  }

  /** Every state any interleaving can reach. */
  lemma {:induction false} Reachable(c: Config, n: nat, flag0: bool, steps: seq<Step>)
    ensures Inv(c, flag0, Run(c, Init(n, flag0), steps))
    ensures |Run(c, Init(n, flag0), steps).workers| == n
  {
    if steps == [] {
      InitInv(c, n, flag0);
    } else {
      Reachable(c, n, flag0, steps[..|steps| - 1]);
      NextInv(c, flag0, Run(c, Init(n, flag0), steps[..|steps| - 1]), steps[|steps| - 1]);
    }
  }

  // ---------------------------------------------------------------------------------------------
  // The verdict of the whole run
  // ---------------------------------------------------------------------------------------------

  predicate Stopped(x: Worker) {
    x.Returned? || x.Panicked?
  }

  predicate AllStopped(s: State) {
    forall w :: 0 <= w < |s.workers| ==> Stopped(s.workers[w])
  }

  datatype RunResult = AllPassed | TestsFailed(failed: nat,
      total: nat) | FileError(file: nat) | ThreadPanicked(worker: nat)

  predicate ThreadError(x: Worker) {
    x.Panicked? || (x.Returned? && x.error.Some?)
  }

  /** The first thread error in join order. */
  function FirstError(ws: seq<Worker>): Option<nat> {
    if ws == [] then None
    else
      var f := FirstError(ws[..|ws| - 1]);
      if f.Some? then f else if ThreadError(ws[|ws| - 1]) then Some(|ws| - 1) else None
  }

  lemma {:induction false} FirstErrorMeaning(ws: seq<Worker>)
    ensures FirstError(ws).None? <==> forall w :: 0 <= w < |ws| ==> !ThreadError(ws[w])
    ensures FirstError(ws).Some? ==> FirstError(ws).value < |ws| && ThreadError(ws[FirstError(ws).value])
    ensures FirstError(ws).Some? ==> forall w :: 0 <= w < FirstError(ws).value ==> !ThreadError(ws[w])
  {
    if ws != [] {
      FirstErrorMeaning(ws[..|ws| - 1]);
    }
  }

  function Outcome(c: Config, s: State): (r: RunResult) {
    var first := FirstError(s.workers);
    if s.errors == 0 && first.None? then AllPassed
    else if first.None? then TestsFailed(s.errors, c.files)
    else if first.value < |s.workers| && s.workers[first.value].Returned? && s.workers[first.value].error.Some?
    then FileError(s.workers[first.value].error.value)
    else ThreadPanicked(first.value)
  }

  ghost predicate EveryFilePassed(c: Config, s: State) {
    forall f :: 0 <= f < c.files ==> f in s.results && s.results[f] == Pass
  }

  /** When everybody has stopped and nobody panicked, every taken file has a result. */
  lemma {:induction false} StoppedExecuted(c: Config, flag0: bool, s: State)
    requires Inv(c, flag0, s) && AllStopped(s)
    ensures forall f :: 0 <= f < s.index ==> f in s.results
    ensures FirstError(s.workers).None? ==> s.errors == |FailedFiles(s.results)|
    ensures FirstError(s.workers).None? && |s.workers| > 0 ==> s.index == c.files || (!c.keepGoing && s.errors > 0)
  {
    FirstErrorMeaning(s.workers);
    if FirstError(s.workers).None? {
      forall w | 0 <= w < |s.workers| ensures s.workers[w] == Returned(None) {
        assert !ThreadError(s.workers[w]) && Stopped(s.workers[w]);
      }
      HeldNone(s.workers);
    }
  }

  /**
   Soundness and completeness of the verdict, for any number of workers and any interleaving: the
   run reports success exactly when every file was executed and passed and no worker panicked.
   */
  lemma {:induction false} VerdictExact(c: Config, n: nat, flag0: bool, steps: seq<Step>)
    requires c.files > 0 ==> n > 0
    requires AllStopped(Run(c, Init(n, flag0), steps))
    ensures var s := Run(c, Init(n, flag0), steps);
            Outcome(c, s) == AllPassed <==>
            EveryFilePassed(c, s) && forall w :: 0 <= w < |s.workers| ==> !s.workers[w].Panicked?
  {
    Reachable(c, n, flag0, steps);
    var s := Run(c, Init(n, flag0), steps);
    StoppedExecuted(c, flag0, s);
    FirstErrorMeaning(s.workers);
    if Outcome(c, s) == AllPassed {
      forall f | 0 <= f < c.files ensures f in s.results && s.results[f] == Pass {
        PassedFile(c, s, f);
      }
      forall w | 0 <= w < |s.workers| ensures !s.workers[w].Panicked? {
        assert !ThreadError(s.workers[w]);
      }
    }
    if EveryFilePassed(c, s) && forall w :: 0 <= w < |s.workers| ==> !s.workers[w].Panicked? {
      assert forall f :: f in s.results ==> s.results[f] == Pass;
      assert FailedFiles(s.results) == {};
      forall w | 0 <= w < |s.workers| ensures !ThreadError(s.workers[w]) {
      }
    }
  }

  lemma {:induction false} PassedFile(c: Config, s: State, f: nat)
    requires Ended(c, s) && s.errors == 0 && |FailedFiles(s.results)| == 0
    requires forall w :: 0 <= w < |s.workers| ==> !ThreadError(s.workers[w])
    requires f in s.results
    ensures s.results[f] == Pass
  {
    assert f in FailedFiles(s.results) <==> IsFail(s.results[f]);
  }

  /** `w` is the first worker, in join order, that ended with an error. */
  ghost predicate FirstToFail(ws: seq<Worker>, w: nat) {
    w < |ws| && ThreadError(ws[w]) && forall v :: 0 <= v < w ==> !ThreadError(ws[v])
  }

  /**
   What an error result says is true: in every reachable state, a reported file was executed and failed
   and is the one the first worker in join order to end with an error returned; a reported panic is that
   of the first such worker.
   */
  lemma {:induction false} ReportTrue(c: Config, n: nat, flag0: bool, steps: seq<Step>)
    ensures var s := Run(c, Init(n, flag0), steps);
            match Outcome(c, s)
            case FileError(f) =>
              && f in s.results && IsFail(s.results[f])
              && exists w: nat :: FirstToFail(s.workers, w) && s.workers[w] == Returned(Some(f))
            case ThreadPanicked(w) => FirstToFail(s.workers, w) && s.workers[w].Panicked?
            case _ => forall w :: 0 <= w < |s.workers| ==> !ThreadError(s.workers[w])
  {
    Reachable(c, n, flag0, steps);
    var s := Run(c, Init(n, flag0), steps);
    FirstErrorMeaning(s.workers);
    if FirstError(s.workers).Some? {
      var w := FirstError(s.workers).value;
      assert FirstToFail(s.workers, w);
      assert Blames(s.results, s.workers[w]);
    }
  }

  /**
   The failing test is traced exactly once or not at all: once everybody has stopped, there was one debug
   run if and only if outcomes are not printed, the flag was clear at the start and some file had a
   failing test; otherwise there was none.
   */
  lemma {:induction false} DebugRunExact(c: Config, n: nat, flag0: bool, steps: seq<Step>)
    requires AllStopped(Run(c, Init(n, flag0), steps))
    ensures var s := Run(c, Init(n, flag0), steps);
            var failing := exists f :: f in s.results && s.results[f].Failing?;
            s.debugRuns == if !c.printOutcome && !flag0 && failing then 1 else 0
  {
    Reachable(c, n, flag0, steps);
    var s := Run(c, Init(n, flag0), steps);
    assert forall w :: 0 <= w < |s.workers| ==> Stopped(s.workers[w]);
  }

  /**
   With `keep_going` and no panics the reported count is exactly the number of failing files, and
   all files were executed; without `keep_going` a run with failures always reports a file's error.
   */
  lemma {:induction false} CountExact(c: Config, n: nat, flag0: bool, steps: seq<Step>)
    requires c.files > 0 ==> n > 0
    requires AllStopped(Run(c, Init(n, flag0), steps))
    requires var s := Run(c, Init(n, flag0), steps);
             forall w :: 0 <= w < |s.workers| ==> !s.workers[w].Panicked?
    ensures var s := Run(c, Init(n, flag0), steps);
            && s.errors == |FailedFiles(s.results)|
            && (c.keepGoing ==>
                  && (forall f :: f in s.results <==> 0 <= f < c.files)
                  && Outcome(c, s) == if s.errors ==
                      0 then AllPassed else TestsFailed(|FailedFiles(s.results)|, c.files))
            && (!c.keepGoing && s.errors > 0 ==>
                  Outcome(c, s).FileError? && Outcome(c, s).file in FailedFiles(s.results))
  {
    Reachable(c, n, flag0, steps);
    ReportTrue(c, n, flag0, steps);
    var s := Run(c, Init(n, flag0), steps);
    StoppedExecuted(c, flag0, s);
    FirstErrorMeaning(s.workers);
    HeldNone(s.workers);
    if c.keepGoing {
      forall w | 0 <= w < |s.workers| ensures !ThreadError(s.workers[w]) {
      }
    } else if s.errors > 0 {
      var w :| 0 <= w < |s.workers| && s.workers[w].Returned? && s.workers[w].error.Some?;
      assert ThreadError(s.workers[w]);
    }
  }

  // ---------------------------------------------------------------------------------------------
  // Termination
  // ---------------------------------------------------------------------------------------------

  function Rank(x: Worker): nat {
    match x
    case Top => 2
    case Ready => 1
    case Running(_) => 6
    case Deciding(_) => 5
    case Debugging(_) => 4
    case Counting(_) => 3
    case Returned(_) => 0
    case Panicked(_) => 0
  }

  function Ranks(ws: seq<Worker>): nat {
    if ws == [] then 0 else Ranks(ws[..|ws| - 1]) + Rank(ws[|ws| - 1])
  }

  lemma {:induction false} RanksUpdate(ws: seq<Worker>, w: nat, x: Worker)
    requires w < |ws|
    ensures Ranks(ws[w := x]) == Ranks(ws) - Rank(ws[w]) + Rank(x)
  {
    var n := |ws| - 1;
    if w == n {
      assert ws[w := x][..n] == ws[..n];
    } else {
      assert ws[w := x][..n] == ws[..n][w := x];
      RanksUpdate(ws[..n], w, x);
    }
  }

  function Measure(c: Config, s: State): int {
    6 * (c.files - s.index) + Ranks(s.workers)
  }

  /** Every step makes progress, and as long as somebody is running there is a step to make. */
  lemma {:induction false} Progress(c: Config, s: State, step: Step)
    requires Owned(c, s)
    ensures Measure(c, s) >= 0
    ensures Enabled(s, step) ==> Measure(c, Next(c, s, step)) < Measure(c, s)
    ensures !AllStopped(s) ==> exists other :: Enabled(s, other)
  {
    if Enabled(s, step) {
      RankDrops(c, s, step);
      RanksUpdate(s.workers, step.w, Next(c, s, step).workers[step.w]);
    }
    if !AllStopped(s) {
      var w :| 0 <= w < |s.workers| && !Stopped(s.workers[w]);
      assert Enabled(s, StepOf(s.workers[w], w));
    }
  }

  /** A step for a worker that has not stopped. */
  function StepOf(x: Worker, w: nat): Step {
    if x.Top? then Load(w)
    else if x.Ready? then Take(w)
    else if x.Running? then Execute(w, Pass)
    else if x.Deciding? then Decide(w)
    else if x.Debugging? then Debug(w, false)
    else Add(w)
  }

  /** What a step does to the worker's rank and the queue. */
  lemma {:induction false} RankDrops(c: Config, s: State, step: Step)
    requires Enabled(s, step) && s.index <= c.files
    ensures var t := Next(c, s, step);
            && t.workers == s.workers[step.w := t.workers[step.w]]
            && 6 * (c.files - t.index) + Rank(t.workers[step.w]) < 6 * (c.files - s.index) + Rank(s.workers[step.w])
  {
  }

  /** How many workers have got past the look at the error count and not yet taken a file. */
  function Readies(ws: seq<Worker>): nat {
    if ws == [] then 0 else Readies(ws[..|ws| - 1]) + if ws[|ws| - 1].Ready? then 1 else 0
  }

  lemma {:induction false} ReadiesUpdate(ws: seq<Worker>, w: nat, x: Worker)
    requires w < |ws|
    ensures Readies(ws[w := x]) == Readies(ws) - (if ws[w].Ready? then 1 else 0) + (if x.Ready? then 1 else 0)
  {
    var n := |ws| - 1;
    if w == n {
      assert ws[w := x][..n] == ws[..n];
    } else {
      assert ws[w := x][..n] == ws[..n][w := x];
      ReadiesUpdate(ws[..n], w, x);
    }
  }

  lemma {:induction false} ReadiesAtMost(ws: seq<Worker>)
    ensures Readies(ws) <= |ws|
  {
    if ws != [] {
      ReadiesAtMost(ws[..|ws| - 1]);
    }
  }

  lemma {:induction false} NoNewReady(c: Config, s: State, step: Step)
    requires !c.keepGoing && s.errors > 0
    ensures Next(c, s, step).errors > 0
    ensures Next(c, s, step).index + Readies(Next(c, s, step).workers) <= s.index + Readies(s.workers)
  {
    if Enabled(s, step) {
      ReadiesUpdate(s.workers, step.w, Next(c, s, step).workers[step.w]);
    }
  }

  /**
   Without `keep_going` a run ends soon after its first counted failure: from then on, however the steps
   interleave, each worker takes at most one more file, and only if it was already about to.
   */
  lemma {:induction false} StopsSoon(c: Config, s: State, steps: seq<Step>)
    requires !c.keepGoing && s.errors > 0
    ensures Run(c, s, steps).errors > 0
    ensures Run(c, s, steps).index + Readies(Run(c, s, steps).workers) <= s.index + Readies(s.workers)
    ensures Run(c, s, steps).index <= s.index + |s.workers|
  {
    ReadiesAtMost(s.workers);
    if steps != [] {
      StopsSoon(c, s, steps[..|steps| - 1]);
      NoNewReady(c, Run(c, s, steps[..|steps| - 1]), steps[|steps| - 1]);
    }
  }

  /** So no run is longer than the initial measure: every worker stops. */
  lemma {:induction false} BoundedRuns(c: Config, n: nat, flag0: bool, steps: seq<Step>)
    requires forall i :: 0 <= i < |steps| ==> Enabled(Run(c, Init(n, flag0), steps[..i]), steps[i])
    ensures |steps| + Measure(c, Run(c, Init(n, flag0), steps)) <= 6 * c.files + 2 * n
    ensures |steps| <= 6 * c.files + 2 * n
  {
    Reachable(c, n, flag0, steps);
    Progress(c, Run(c, Init(n, flag0), steps), Load(0));
    if steps == [] {
      RanksInit(n);
    } else {
      var front := steps[..|steps| - 1];
      forall i | 0 <= i < |front| ensures Enabled(Run(c, Init(n, flag0), front[..i]), front[i]) {
        assert front[..i] == steps[..i];
      }
      BoundedRuns(c, n, flag0, front);
      Reachable(c, n, flag0, front);
      Progress(c, Run(c, Init(n, flag0), front), steps[|steps| - 1]);
    }
  }

  lemma {:induction false} RanksInit(n: nat)
    ensures Ranks(seq(n, _ => Top)) == 2 * n
  {
    if n > 0 {
      RanksInit(n - 1);
      assert seq(n, _ => Top)[..n - 1] == seq(n - 1, _ => Top);
    }
  }
}
