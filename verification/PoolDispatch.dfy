/** What one dispatch of the pool of src/pthreads.c guarantees, and exactly from which
    states of the pool it does. */
module PoolDispatch {
  import opened ThreadPool

  // ----------------------------------------------------------------------- runs

  ghost predicate Steps(r: seq<State>) {
    |r| >= 1 && forall k :: 0 <= k < |r| - 1 ==> Step(r[k], r[k + 1])
  }

  /** A dispatch from s, seen as one step by all workers, and the steps after it. */
  ghost predicate Run(r: seq<State>, s: State, start: int, end: int) {
    Steps(r) && Dispatch(s, r[0], start, end)
  }

  /** A dispatch from s store by store, with the workers in between. */
  ghost predicate FineRun(r: seq<State>, s: State, start: int, end: int) {
    Steps(r) && Lock(s, r[0], start, end)
  }

  ghost predicate AllGood(r: seq<State>, start: int, end: int) {
    forall k :: 0 <= k < |r| ==> Good(r[k], start, end)
  }

  /** Whatever the interleaving. */
  ghost predicate Guaranteed(s: State, start: int, end: int) {
    forall r :: Run(r, s, start, end) ==> AllGood(r, start, end)
  }

  ghost predicate FineGuaranteed(s: State, start: int, end: int) {
    forall r :: FineRun(r, s, start, end) ==> AllGood(r, start, end)
  }

  lemma {:induction false} StepsInv(r: seq<State>, lo: nat, k: nat)
    requires Steps(r) && lo <= k < |r| && Inv(r[lo])
    ensures Inv(r[k]) && r[k].start == r[lo].start && r[k].end == r[lo].end
    decreases k
  {
    hide Inv, Step;
    if lo < k {
      StepsInv(r, lo, k - 1);
      StepInv(r[k - 1], r[k]);
    }
  }

  // ------------------------------------- the stores seen as one step

  /** Under every interleaving, if no worker holds an index below the new end: no index
      outside [start, end) is ever run and none twice, none with an old function or
      argument; when the caller has returned, each has been run and has completed exactly
      once, and current has passed end. */
  lemma EachIndexOnce(r: seq<State>, s: State, start: int, end: int, k: nat)
    requires Idle(s) && Past(s, end) && Run(r, s, start, end) && k < |r|
    ensures Good(r[k], start, end)
  {
    hide Inv, Good, Idle, Past, Step;
    DispatchInv(s, r[0], start, end);
    StepsInv(r, 0, k);
    InvGood(r[k]);
  }

  /** After the return no straggler starts another index before the next dispatch. */
  lemma NothingAfterReturn(r: seq<State>, s: State, start: int, end: int, k: nat, l: nat)
    requires Idle(s) && Past(s, end) && Run(r, s, start, end) && k <= l < |r| && r[k].caller.Returned?
    ensures r[l].caller.Returned?
    ensures forall i :: r[l].started[i] == r[k].started[i] && r[l].finished[i] == r[k].finished[i]
  {
    hide Idle, Past, Step;
    StaysReturned(r, k, l);
    EachIndexOnce(r, s, start, end, k);
    EachIndexOnce(r, s, start, end, l);
  }

  lemma {:induction false} StaysReturned(r: seq<State>, k: nat, l: nat)
    requires Steps(r) && k <= l < |r| && r[k].caller.Returned?
    ensures r[l].caller.Returned?
    decreases l
  {
    if k < l {
      StaysReturned(r, k, l - 1);
      assert Step(r[l - 1], r[l]);
    }
  }

  lemma Extend(r: seq<State>, s': State)
    requires Steps(r) && Step(r[|r| - 1], s')
    ensures Steps(r + [s'])
  {
    hide Step;
  }

  /** Worker w takes its next step. */
  lemma Move(r: seq<State>, w: nat) returns (r': seq<State>)
    requires Steps(r) && w < |r[|r| - 1].workers| && CanMove(r[|r| - 1], w)
    ensures Steps(r') && r' == r + [Next(r[|r| - 1], w)]
  {
    var s := r[|r| - 1];
    assert WorkerStep(s, Next(s, w), w);
    r' := r + [Next(s, w)];
    Extend(r, Next(s, w));
  }

  /** Worker w runs the index it holds and is at the top of its loop again. */
  lemma RunHeld(r: seq<State>, w: nat, i: int) returns (r': seq<State>)
    requires Steps(r) && var s := r[|r| - 1]; w < |s.workers| && s.workers[w] == Claimed(i) && i < s.end
    requires r[|r| - 1].work && r[|r| - 1].arg
    ensures Steps(r') && r <= r'
    ensures var s, s' := r[|r| - 1], r'[|r'| - 1];
            s' == At(s, w, Claiming).(doneWork := s.doneWork + 1, started := More(s.started, i),
                                      finished := More(s.finished, i), counted := More(s.counted, i))
  {
    var s := r[|r| - 1];
    r' := Move(r, w);
    r' := Move(r', w);
    r' := Move(r', w);
    assert s.workers[w := Running(i)][w := Ran(i)][w := Claiming] == s.workers[w := Claiming];
  }

  /** Worker w claims the index in current and runs it. */
  lemma RunOne(r: seq<State>, w: nat) returns (r': seq<State>)
    requires Steps(r)
    requires var s := r[|r| - 1]; w < |s.workers| && s.workers[w] == Claiming && s.current < s.end && s.work && s.arg
    ensures Steps(r') && r <= r'
    ensures var s, s' := r[|r| - 1], r'[|r'| - 1]; var i := s.current;
            s' == s.(current := i + 1, doneWork := s.doneWork + 1, started := More(s.started, i),
                     finished := More(s.finished, i), counted := More(s.counted, i))
  {
    var s := r[|r| - 1];
    r' := Move(r, w);
    r' := Move(r', w);
    assert s.workers[w := Read(s.current)][w := Claimed(s.current)] == s.workers[w := Claimed(s.current)];
    r' := RunHeld(r', w, s.current);
    assert s.workers[w := Claimed(s.current)][w := Claiming] == s.workers;
  }

  /** Only the counters and histories of s have changed. */
  ghost predicate SamePlaces(s: State, s': State) {
    s'.start == s.start && s'.end == s.end && s'.work == s.work && s'.arg == s.arg
    && s'.caller == s.caller && s'.workers == s.workers
  }

  /** Worker w runs every index from current up to i. */
  lemma {:induction false} RunUpTo(r: seq<State>, w: nat, i: int) returns (r': seq<State>)
    requires Steps(r)
    requires var s := r[|r| - 1];
             w < |s.workers| && s.workers[w] == Claiming && s.current <= i < s.end && s.work && s.arg
    ensures Steps(r') && r <= r' && SamePlaces(r[|r| - 1], r'[|r'| - 1])
    ensures var s, s' := r[|r| - 1], r'[|r'| - 1];
            && s'.started[i] > s.started[i] && s'.current == i + 1
            && s'.doneWork == s.doneWork + (i + 1 - s.current) && s'.doneCount == s.doneCount
    decreases i - r[|r| - 1].current
  {
    r' := RunOne(r, w);
    if r[|r| - 1].current < i { r' := RunUpTo(r', w, i); }
  }

  lemma IdleReturned(s: State)
    requires Idle(s)
    ensures s.caller.Returned?
  {
  }

  /** A worker that holds an index below the new end runs it, and when the claims of the
      dispatch come to that index it is run once more. */
  lemma StragglerRuns(s: State, start: int, end: int, w: nat) returns (r: seq<State>)
    requires Idle(s) && start < end && w < |s.workers| && s.workers[w].Claimed? && s.workers[w].i < end
    ensures Run(r, s, start, end) && !AllGood(r, start, end)
  {
    hide Idle;
    IdleReturned(s);
    var i := s.workers[w].i;
    var s0 := Reset(s).(start := start, end := end, current := start, doneCount := 0, doneWork := start,
                        work := true, arg := true, caller := Waiting);
    r := RunHeld([s0], w, i);
    if start <= i { r := RunUpTo(r, w, i); }
    assert r[0] == s0;
    assert !Good(r[|r| - 1], start, end);
  }

  /** The exact condition, over all pools between two dispatches. */
  lemma GuaranteedExactly(s: State, start: int, end: int)
    requires Idle(s) && start < end
    ensures Guaranteed(s, start, end) <==> Past(s, end)
  {
    hide Idle, Run, Good;
    if Past(s, end) {
      forall r | Run(r, s, start, end) ensures AllGood(r, start, end) {
        forall k | 0 <= k < |r| ensures Good(r[k], start, end) { EachIndexOnce(r, s, start, end, k); }
      }
    } else {
      var p :| p in s.workers && p.Claimed? && p.i < end;
      var w :| 0 <= w < |s.workers| && s.workers[w] == p;
      var r := StragglerRuns(s, start, end, w);
    }
  }

  // ------------------------------------------------ dispatches one after the other

  /** A pool as pthreads_create leaves it. */
  ghost predicate Created(s: State) {
    s.caller.Returned? && !s.work && |s.workers| >= 1 && forall p :: p in s.workers ==> p.AtLock?
  }

  /** A first dispatch, and later ones whose ends never rise. */
  ghost predicate Falling(r: seq<State>) {
    && |r| >= 2 && Created(r[0]) && Dispatch(r[0], r[1], r[1].start, r[1].end)
    && forall k :: 1 <= k < |r| - 1 ==> Step(r[k], r[k + 1]) || FallingDispatch(r[k], r[k + 1])
  }

  ghost predicate FallingDispatch(s: State, s': State) {
    Dispatch(s, s', s'.start, s'.end) && s'.end <= s.end
  }

  /** While the ends do not rise, every dispatch keeps its promise, stragglers or not. */
  lemma {:induction false} FallingEnds(r: seq<State>, k: nat)
    requires Falling(r) && 1 <= k < |r|
    ensures Inv(r[k]) && Good(r[k], r[k].start, r[k].end)
  {
    hide Inv, Step, Good;
    if k == 1 {
      DispatchInv(r[0], r[1], r[1].start, r[1].end);
    } else {
      FallingEnds(r, k - 1);
      if Step(r[k - 1], r[k]) {
        StepInv(r[k - 1], r[k]);
      } else {
        IdleAfter(r[k - 1]);
        DispatchInv(r[k - 1], r[k], r[k].start, r[k].end);
      }
    }
    InvGood(r[k]);
  }

  /** A state in which the first dispatch of a pool of n workers has just returned, or has
      some time ago. */
  ghost predicate After(n: nat, start: int, end: int, t: State) {
    |t.workers| == n && t.caller.Returned? && exists s, r :: Reached(s, r, start, end, t)
  }

  ghost predicate Reached(s: State, r: seq<State>, start: int, end: int, t: State) {
    Created(s) && Run(r, s, start, end) && r[|r| - 1] == t
  }

  /** Worker w finds the work done, reports and looks again, m times. */
  lemma {:induction false} ReportTimes(r: seq<State>, w: nat, m: nat) returns (r': seq<State>)
    requires Steps(r)
    requires var s := r[|r| - 1];
             w < |s.workers| && s.workers[w] == Claiming && s.current >= s.end && s.work && s.caller.Waiting?
    ensures Steps(r') && r <= r' && SamePlaces(r[|r| - 1], r'[|r'| - 1])
    ensures var s, s' := r[|r| - 1], r'[|r'| - 1];
            s'.current == s.current + m && s'.doneCount == s.doneCount + m && s'.doneWork == s.doneWork
    decreases m
  {
    r' := r;
    if m > 0 {
      r' := Move(r', w);
      r' := Move(r', w);
      r' := Move(r', w);
      r' := Move(r', w);
      r' := Move(r', w);
      var s := r[|r| - 1];
      var c := s.current;
      assert s.workers[w := Read(c)][w := Claimed(c)][w := Reporting][w := AtLock][w := Claiming] == s.workers;
      r' := ReportTimes(r', w, m - 1);
    }
  }

  /** A pool of n workers, the last of which has run the whole range. */
  lemma AllRun(n: nat, start: int, end: int) returns (s: State, r: seq<State>)
    requires n >= 1 && start < end
    ensures Created(s) && Run(r, s, start, end)
    ensures var t := r[|r| - 1];
            && t.workers == seq(n, _ => AtLock)[n - 1 := Claiming] && t.caller.Waiting? && t.work && t.arg
            && t.start == start && t.end == t.current == t.doneWork == end && t.doneCount == 0
  {
    var e: multiset<int> := multiset{};
    var ws := seq(n, _ => AtLock);
    s := State(0, 0, 0, 0, 0, false, false, ws, Returned, e, e, e, e);
    var s0 := State(start, end, start, 0, start, true, true, ws, Waiting, e, e, e, e);
    r := Move([s0], n - 1);
    r := RunUpTo(r, n - 1, end - 1);
    assert r[0] == s0;
  }

  /** The caller returns. */
  lemma Return(s: State, r: seq<State>, start: int, end: int) returns (t: State)
    requires Created(s) && Run(r, s, start, end)
    requires var u := r[|r| - 1]; u.caller.Waiting? && u.doneCount >= |u.workers| && u.doneWork >= u.end
    ensures t == r[|r| - 1].(work := false, caller := Returned) && After(|t.workers|, start, end, t)
  {
    var u := r[|r| - 1];
    t := u.(work := false, caller := Returned);
    assert CallerReturns(u, t);
    Extend(r, t);
    assert Reached(s, r + [t], start, end, t);
  }

  /** With two workers, one of them can be left holding the old end; a single worker has
      reported first, and holds the index after it. */
  lemma StragglerLeft(n: nat, start: int, end: int) returns (t: State)
    requires n >= 1 && start < end
    ensures After(n, start, end, t) && Claimed(Spare(n, end)) in t.workers
  {
    var s, r := AllRun(n, start, end);
    if n == 1 {
      r := ReportTimes(r, 0, 1);
      r := Move(r, 0);
      r := Move(r, 0);
      assert r[|r| - 1].workers[0] == Claimed(end + 1);
    } else {
      r := Move(r, 0);
      r := Move(r, 0);
      r := Move(r, 0);
      assert r[|r| - 1].workers[0] == Claimed(end);
      r := ReportTimes(r, n - 1, n);
    }
    t := Return(s, r, start, end);
    assert t.workers[0] in t.workers;
  }

  /** The least index a straggler can be left with. */
  function Spare(n: nat, end: int): int {
    if n == 1 then end + 1 else end
  }

  /** A single worker: the indices claimed beyond the end are those reported, about to be
      reported or held. */
  ghost predicate Solo(s: State) {
    && |s.workers| == 1 && (s.workers[0].Claimed? ==> s.current == s.workers[0].i + 1)
    && s.doneCount + (if s.workers[0].Reporting? || (s.workers[0].Claimed? && s.workers[0].i >= s.end) then 1 else 0)
       == (if s.current > s.end then s.current - s.end else 0)
  }

  lemma SoloWorker(s: State, s': State)
    requires Solo(s) && WorkerStep(s, s', 0)
    ensures Solo(s')
  {
    hide Reset;
    assert s'.workers == [s'.workers[0]];
    match s.workers[0] {
      case Read(i) => assert s'.workers[0] == if s.current == i then Claimed(i) else Claiming;
      case Claimed(i) => assert s'.workers[0] == if i >= s.end then Reporting else Running(i);
      case _ => assert !s'.workers[0].Claimed? && !s'.workers[0].Reporting?;
    }
  }

  lemma SoloNumber(s: State)
    requires Solo(s)
    ensures |s.workers| == 1
  {
  }

  lemma SoloReturn(s: State, s': State)
    requires Solo(s) && CallerReturns(s, s')
    ensures Solo(s')
  {
  }

  lemma SoloStep(s: State, s': State)
    requires Solo(s) && !s.caller.Storing? && Step(s, s')
    ensures Solo(s')
  {
    hide Solo, WorkerStep, CallerReturns;
    SoloNumber(s);
    if CallerReturns(s, s') {
      SoloReturn(s, s');
    } else {
      var w :| 0 <= w < |s.workers| && WorkerStep(s, s', w);
      SoloWorker(s, s');
    }
  }

  lemma {:induction false} SoloRun(r: seq<State>, s: State, start: int, end: int, k: nat)
    requires Created(s) && |s.workers| == 1 && Run(r, s, start, end) && k < |r|
    ensures Solo(r[k]) && Inv(r[k])
  {
    hide Inv, Step;
    DispatchInv(s, r[0], start, end);
    StepsInv(r, 0, k);
    if k == 0 {
      assert s.workers[0] in s.workers;
    } else {
      SoloRun(r, s, start, end, k - 1);
      InvGood(r[k - 1]);
      SoloStep(r[k - 1], r[k]);
    }
  }

  lemma SoloPast(t: State)
    requires Solo(t) && Inv(t) && t.caller.Returned? && t.doneCount >= 1
    ensures Past(t, t.end + 1)
  {
    IdleAfter(t);
  }

  /** Once the caller has returned, at least as many reports as workers were made. */
  lemma ReportedStep(s: State, s': State)
    requires Step(s, s') && s'.caller.Returned?
    ensures s'.doneCount >= |s'.workers| || (s.caller.Returned? && s'.doneCount >= s.doneCount)
  {
    if !CallerReturns(s, s') && !Store(s, s') {
      var w :| 0 <= w < |s.workers| && WorkerStep(s, s', w);
      WorkerReports(s, s', w);
    }
  }

  lemma WorkerReports(s: State, s': State, w: nat)
    requires w < |s.workers| && WorkerStep(s, s', w)
    ensures |s'.workers| == |s.workers| && s'.caller == s.caller && s'.doneCount >= s.doneCount
  {
  }

  lemma {:induction false} Reported(r: seq<State>, s: State, start: int, end: int, k: nat)
    requires Run(r, s, start, end) && k < |r| && r[k].caller.Returned?
    ensures r[k].doneCount >= |r[k].workers|
  {
    hide Step;
    assert k > 0;
    assert Step(r[k - 1], r[k]);
    ReportedStep(r[k - 1], r[k]);
    StepNumber(r[k - 1], r[k]);
    if r[k - 1].caller.Returned? { Reported(r, s, start, end, k - 1); }
  }

  lemma StepNumber(s: State, s': State)
    requires Step(s, s')
    ensures |s'.workers| == |s.workers|
  {
    if !CallerReturns(s, s') && !Store(s, s') {
      var w :| 0 <= w < |s.workers| && WorkerStep(s, s', w);
      WorkerReports(s, s', w);
    }
  }

  lemma {:induction false} SameNumber(r: seq<State>, k: nat)
    requires Steps(r) && k < |r|
    ensures |r[k].workers| == |r[0].workers|
  {
    hide Step;
    if k > 0 {
      SameNumber(r, k - 1);
      StepNumber(r[k - 1], r[k]);
    }
  }

  /** What a caller can check after the first dispatch, up to end: the promise of the next
      one holds whatever happened if and only if its end is not greater than the old one,
      or than the old one plus one for a single worker. */
  lemma SecondDispatchExactly(n: nat, start: int, end: int, start': int, end': int)
    requires n >= 1 && start < end && start' < end'
    ensures (forall t :: After(n, start, end, t) ==> Guaranteed(t, start', end')) <==> end' <= Spare(n, end)
  {
    hide Guaranteed, After, Idle;
    if end' <= Spare(n, end) {
      forall t | After(n, start, end, t) ensures Guaranteed(t, start', end') {
        AfterPast(n, start, end, t);
        GuaranteedExactly(t, start', end');
      }
    } else {
      var t := StragglerLeft(n, start, end);
      AfterPast(n, start, end, t);
      GuaranteedExactly(t, start', end');
    }
  }

  lemma AfterPast(n: nat, start: int, end: int, t: State)
    requires n >= 1 && start < end && After(n, start, end, t)
    ensures Idle(t) && Past(t, Spare(n, end))
  {
    hide Inv, Solo, Step;
    var s, r :| Reached(s, r, start, end, t);
    var k := |r| - 1;
    DispatchInv(s, r[0], start, end);
    StepsInv(r, 0, k);
    IdleAfter(t);
    if n == 1 {
      SameNumber(r, k);
      Reported(r, s, start, end, k);
      SoloRun(r, s, start, end, k);
      SoloPast(t);
    }
  }

  // ------------------------------------------------------ after any history

  /** A first dispatch of a created pool, and any later ones that were each safe to make. */
  ghost predicate History(r: seq<State>) {
    && |r| >= 2 && Created(r[0]) && Dispatch(r[0], r[1], r[1].start, r[1].end)
    && forall k :: 1 <= k < |r| - 1 ==> Step(r[k], r[k + 1]) || SafeDispatch(r[k], r[k + 1])
  }

  ghost predicate SafeDispatch(s: State, s': State) {
    Dispatch(s, s', s'.start, s'.end) && Guaranteed(s, s'.start, s'.end)
  }

  lemma DispatchRange(s: State, s': State, start: int, end: int)
    requires Dispatch(s, s', start, end)
    ensures start < end && s.caller.Returned?
  {
  }

  lemma {:induction false} HistoryInv(r: seq<State>, k: nat)
    requires History(r) && 1 <= k < |r|
    ensures Inv(r[k])
  {
    hide Inv, Step, Guaranteed, Dispatch, Idle, Past;
    if k == 1 {
      CreatedIdle(r[0], r[1].end);
      DispatchInv(r[0], r[1], r[1].start, r[1].end);
    } else {
      HistoryInv(r, k - 1);
      if Step(r[k - 1], r[k]) {
        StepInv(r[k - 1], r[k]);
      } else {
        DispatchRange(r[k - 1], r[k], r[k].start, r[k].end);
        IdleAfter(r[k - 1]);
        GuaranteedExactly(r[k - 1], r[k].start, r[k].end);
        DispatchInv(r[k - 1], r[k], r[k].start, r[k].end);
      }
    }
  }

  lemma CreatedIdle(s: State, end: int)
    requires Created(s)
    ensures Idle(s) && Past(s, end)
  {
  }

  /** A pool of n workers whose last dispatch, up to end, has returned. */
  ghost predicate AfterAny(n: nat, end: int, t: State) {
    |t.workers| == n && t.end == end && t.caller.Returned? && exists r :: Ends(r, t)
  }

  ghost predicate Ends(r: seq<State>, t: State) {
    History(r) && r[|r| - 1] == t
  }

  lemma ReturnedPast(n: nat, end: int, t: State)
    requires AfterAny(n, end, t)
    ensures Idle(t) && Past(t, end)
  {
    hide History, Inv;
    var r :| Ends(r, t);
    assert |r| >= 2 by { HistoryLong(r); }
    HistoryInv(r, |r| - 1);
    IdleAfter(t);
    IdlePast(t);
  }

  /** Dispatches whose ends do not rise are such a history. */
  lemma FallingIsHistory(r: seq<State>)
    requires Falling(r)
    ensures History(r)
  {
    hide Step, Inv, Good, Idle, Guaranteed;
    forall k | 1 <= k < |r| - 1 ensures Step(r[k], r[k + 1]) || SafeDispatch(r[k], r[k + 1]) {
      if !Step(r[k], r[k + 1]) {
        FallingEnds(r, k);
        DispatchRange(r[k], r[k + 1], r[k + 1].start, r[k + 1].end);
        IdleAfter(r[k]);
        IdlePast(r[k]);
        GuaranteedExactly(r[k], r[k + 1].start, r[k + 1].end);
      }
    }
  }

  lemma HistoryLong(r: seq<State>)
    requires History(r)
    ensures |r| >= 2
  {
  }

  lemma IdlePast(t: State)
    requires Idle(t)
    ensures Past(t, t.end)
  {
  }

  /** A first dispatch and its steps are a history. */
  lemma FirstHistory(s: State, r: seq<State>, start: int, end: int)
    requires Created(s) && Run(r, s, start, end)
    ensures History([s] + r)
  {
    hide Step, Guaranteed;
    var h := [s] + r;
    assert h[1] == r[0] && r[0].start == start && r[0].end == end;
    forall k | 1 <= k < |h| - 1 ensures Step(h[k], h[k + 1]) || SafeDispatch(h[k], h[k + 1]) {
      assert h[k] == r[k - 1] && h[k + 1] == r[k];
    }
  }

  /** So is a history, a safe dispatch, and its steps. */
  lemma NextHistory(h: seq<State>, r: seq<State>, start: int, end: int)
    requires History(h) && Run(r, h[|h| - 1], start, end) && Guaranteed(h[|h| - 1], start, end)
    ensures History(h + r)
  {
    hide Step, Guaranteed, Created;
    var q, n := h + r, |h|;
    assert r[0].start == start && r[0].end == end;
    forall k | 1 <= k < |q| - 1 ensures Step(q[k], q[k + 1]) || SafeDispatch(q[k], q[k + 1]) {
      if k < n - 1 {
        assert q[k] == h[k] && q[k + 1] == h[k + 1];
      } else if k == n - 1 {
        assert q[k] == h[n - 1] && q[k + 1] == r[0];
      } else {
        assert q[k] == r[k - n] && q[k + 1] == r[k - n + 1];
      }
    }
  }

  /** One dispatch can leave the only worker with the index after the end. */
  lemma SoloFirst(end: int) returns (h: seq<State>)
    ensures History(h) && var u := h[|h| - 1]; u.caller.Returned? && u.workers == [Claimed(end + 1)]
  {
    hide History;
    var s, r := AllRun(1, end - 1, end);
    r := ReportTimes(r, 0, 1);
    r := Move(r, 0);
    r := Move(r, 0);
    assert r[|r| - 1].workers == [Claimed(end + 1)];
    var u := r[|r| - 1].(work := false, caller := Returned);
    assert CallerReturns(r[|r| - 1], u);
    Extend(r, u);
    FirstHistory(s, r + [u], end - 1, end);
    h := [s] + (r + [u]);
  }

  /** In the next one it reports that index as done, so that the caller of that one can
      return while the worker holds the end itself. */
  lemma SoloLeft(end: int) returns (t: State)
    ensures AfterAny(1, end, t) && Claimed(end) in t.workers
  {
    hide Inv, Idle, Guaranteed, Run, History;
    var h := SoloFirst(end);
    HistoryLong(h);
    var u := h[|h| - 1];
    HistoryInv(h, |h| - 1);
    IdleAfter(u);
    GuaranteedExactly(u, end - 1, end);
    var q := SoloAgain(u, end);
    NextHistory(h, q, end - 1, end);
    t := q[|q| - 1];
    assert (h + q)[|h + q| - 1] == t;
    assert Ends(h + q, t);
    assert t.workers[0] in t.workers;
  }

  /** The second dispatch. */
  lemma SoloAgain(u: State, end: int) returns (q: seq<State>)
    requires u.caller.Returned? && u.workers == [Claimed(end + 1)]
    ensures Run(q, u, end - 1, end) && |q| >= 1
    ensures var t := q[|q| - 1]; t.caller.Returned? && t.workers == [Claimed(end)] && t.end == end
  {
    var s0 := Reset(u).(start := end - 1, end := end, current := end - 1, doneCount := 0, doneWork := end - 1,
                        work := true, arg := true, caller := Waiting);
    q := Move([s0], 0);
    q := Move(q, 0);
    q := Move(q, 0);
    assert q[|q| - 1].workers == [Claiming];
    q := RunOne(q, 0);
    q := Move(q, 0);
    q := Move(q, 0);
    assert q[|q| - 1].workers == [Claimed(end)];
    var t := q[|q| - 1].(work := false, caller := Returned);
    assert CallerReturns(q[|q| - 1], t);
    Extend(q, t);
    q := q + [t];
    assert q[0] == s0;
  }

  lemma ManyLeft(n: nat, end: int) returns (t: State)
    requires n >= 2
    ensures AfterAny(n, end, t) && Claimed(end) in t.workers
  {
    t := StragglerLeft(n, end - 1, end);
    var s, r :| Reached(s, r, end - 1, end, t);
    FirstHistory(s, r, end - 1, end);
    assert ([s] + r)[|[s] + r| - 1] == t;
    assert Ends([s] + r, t);
    DispatchInv(s, r[0], end - 1, end);
    StepsInv(r, 0, |r| - 1);
  }

  /** What a caller can check after any dispatch up to end, whatever safe dispatches came
      before it: the promise of the next one holds in every case if and only if its end is
      not greater. */
  lemma NextDispatchExactly(n: nat, end: int, start': int, end': int)
    requires n >= 1 && start' < end'
    ensures (forall t :: AfterAny(n, end, t) ==> Guaranteed(t, start', end')) <==> end' <= end
  {
    hide Guaranteed, AfterAny, Idle;
    if end' <= end {
      forall t | AfterAny(n, end, t) ensures Guaranteed(t, start', end') {
        ReturnedPast(n, end, t);
        GuaranteedExactly(t, start', end');
      }
    } else {
      var t := NextLeft(n, end);
      ReturnedPast(n, end, t);
      GuaranteedExactly(t, start', end');
    }
  }

  lemma NextLeft(n: nat, end: int) returns (t: State)
    requires n >= 1
    ensures AfterAny(n, end, t) && Claimed(end) in t.workers
  {
    if n == 1 { t := SoloLeft(end); } else { t := ManyLeft(n, end); }
  }

  // ------------------------------------------- the stores seen one by one

  /** Every worker waits for the mutex, or holds an index at or beyond the new end. */
  ghost predicate Clear(s: State, end: int) {
    forall p :: p in s.workers ==> p.AtLock? || p.Reporting? || (p.Claimed? && p.i >= end)
  }

  /** In the middle of the stores: what has been stored, and that nobody can claim. */
  ghost predicate Pending(s: State, start: int, end: int) {
    && s.caller.Storing? && s.caller.first == start && s.caller.last == end && start < end && s.caller.next <= 6
    && |s.workers| >= 1 && s == Reset(s) && Clear(s, end) && Past(s, s.end)
    && (s.caller.next >= 1 ==> s.start == start) && (s.caller.next >= 2 ==> s.end == end)
    && (s.caller.next >= 3 ==> s.current == start) && (s.caller.next >= 5 ==> s.doneWork == start)
    && (s.caller.next >= 6 ==> s.work)
  }

  lemma PendingWorker(s: State, s': State, start: int, end: int, w: nat)
    requires Pending(s, start, end) && w < |s.workers| && WorkerStep(s, s', w)
    ensures Pending(s', start, end)
  {
    var p := s.workers[w];
    assert p in s.workers;
    assert s'.workers == s.workers[w := Reporting];
  }

  lemma PendingStore(s: State, s': State, start: int, end: int)
    requires Pending(s, start, end) && Store(s, s')
    ensures Pending(s', start, end) || (Inv(s') && s'.start == start && s'.end == end)
  {
    if s.caller.next == 6 { FreshInv(s'); }
  }

  lemma {:induction false} FineStepsGood(r: seq<State>, s: State, start: int, end: int, k: nat)
    requires Idle(s) && Clear(s, end) && FineRun(r, s, start, end) && k < |r|
    ensures Pending(r[k], start, end) || (Inv(r[k]) && r[k].start == start && r[k].end == end)
  {
    hide Inv;
    if k > 0 {
      FineStepsGood(r, s, start, end, k - 1);
      var p, q := r[k - 1], r[k];
      assert Step(p, q);
      if !Pending(p, start, end) {
        StepInv(p, q);
      } else if Store(p, q) {
        PendingStore(p, q, start, end);
      } else {
        var w :| 0 <= w < |p.workers| && WorkerStep(p, q, w);
        PendingWorker(p, q, start, end, w);
      }
    }
  }

  /** The caller makes m stores. */
  lemma {:induction false} StoreTimes(r: seq<State>, m: nat) returns (r': seq<State>)
    requires Steps(r) && var s := r[|r| - 1]; s.caller.Storing? && s.caller.next + m <= 6
    ensures Steps(r') && r <= r'
    ensures var s, s' := r[|r| - 1], r'[|r'| - 1]; var n := s.caller.next;
            && s'.caller == s.caller.(next := n + m) && s'.workers == s.workers && s'.stale == s.stale && s'.arg == s.arg
            && s'.end == (if n <= 1 < n + m then s.caller.last else s.end)
            && s'.current == (if n <= 2 < n + m then s.caller.first else s.current)
    decreases m
  {
    r' := r;
    if m > 0 {
      var s := r[|r| - 1];
      var c := s.caller;
      var t := s.(caller := c.(next := c.next + 1));
      t := if c.next == 0 then t.(start := c.first) else if c.next == 1 then t.(end := c.last)
           else if c.next == 2 then t.(current := c.first) else if c.next == 3 then t.(doneCount := 0)
           else if c.next == 4 then t.(doneWork := c.first) else t.(work := true);
      assert Store(s, t);
      Extend(r, t);
      r' := StoreTimes(r + [t], m - 1);
    }
  }

  /** A worker that holds an index below the end calls it before the argument is stored. */
  lemma CallsStale(r: seq<State>, w: nat) returns (r': seq<State>)
    requires Steps(r) && var s := r[|r| - 1];
             w < |s.workers| && s.workers[w].Claimed? && s.workers[w].i < s.end && !s.arg
    ensures Steps(r') && r <= r' && r'[|r'| - 1].stale != multiset{}
  {
    var i := r[|r| - 1].workers[w].i;
    r' := Move(r, w);
    assert r'[|r'| - 1].stale[i] > 0;
  }

  /** A worker inside the claim loop can take the first index of the new range, or start
      the one it holds, before the function and its argument are stored. */
  lemma EarlyClaim(s: State, start: int, end: int, w: nat) returns (r: seq<State>)
    requires Idle(s) && start < end && w < |s.workers|
    requires var p := s.workers[w]; p.Claiming? || p.Read? || (p.Claimed? && p.i < end)
    ensures FineRun(r, s, start, end) && !AllGood(r, start, end)
  {
    var s0 := Reset(s).(arg := false, caller := Storing(0, start, end));
    r := StoreTimes([s0], 3);
    if s.workers[w].Read? { r := Move(r, w); }
    if r[|r| - 1].workers[w].Claiming? {
      r := Move(r, w);
      r := Move(r, w);
    }
    r := CallsStale(r, w);
    assert r[0] == s0;
    assert !Good(r[|r| - 1], start, end);
  }

  /** The exact condition when the stores are seen one by one. */
  lemma FineGuaranteedExactly(s: State, start: int, end: int)
    requires Idle(s) && start < end
    ensures FineGuaranteed(s, start, end) <==> Clear(s, end)
  {
    hide Idle, FineRun, Good, Inv, Pending;
    if Clear(s, end) {
      forall r | FineRun(r, s, start, end) ensures AllGood(r, start, end) {
        forall k | 0 <= k < |r| ensures Good(r[k], start, end) {
          FineStepsGood(r, s, start, end, k);
          if Pending(r[k], start, end) { PendingGood(r[k], start, end); } else { InvGood(r[k]); }
        }
      }
    } else {
      var p :| p in s.workers && !(p.AtLock? || p.Reporting? || (p.Claimed? && p.i >= end));
      var w :| 0 <= w < |s.workers| && s.workers[w] == p;
      NotRunning(s, p);
      var r := EarlyClaim(s, start, end, w);
    }
  }

  lemma NotRunning(s: State, p: Phase)
    requires Idle(s) && p in s.workers
    ensures !p.Running? && !p.Ran?
  {
  }

  lemma PendingGood(s: State, start: int, end: int)
    requires Pending(s, start, end)
    ensures Good(s, start, end)
  {
    assert s.stale == s.started == s.finished == multiset{};
  }

  /** A created pool keeps its promise even so; after a first dispatch no later one does,
      whatever its range: a worker may be back at the top of its loop when the caller
      returns. */
  lemma OnlyFirstDispatch(n: nat, start: int, end: int, start': int, end': int) returns (t: State)
    requires n >= 1 && start < end && start' < end'
    ensures forall s :: Created(s) ==> FineGuaranteed(s, start, end)
    ensures After(n, start, end, t) && !FineGuaranteed(t, start', end')
  {
    hide FineGuaranteed, After;
    forall s | Created(s) ensures FineGuaranteed(s, start, end) {
      FineGuaranteedExactly(s, start, end);
    }
    var s, r := AllRun(n, start, end);
    r := ReportTimes(r, n - 1, n);
    t := Return(s, r, start, end);
    AfterPast(n, start, end, t);
    assert t.workers[n - 1] in t.workers;
    FineGuaranteedExactly(t, start', end');
  }

  // --------------------------------------------- how far current can run

  /** A worker that has taken an index beyond the end and not reported it. */
  predicate Spent(p: Phase, end: int) {
    p.Reporting? || (p.Claimed? && p.i >= end)
  }

  function SpentOf(ps: seq<Phase>, end: int): (r: nat)
    ensures r <= |ps|
  {
    if ps == [] then 0 else (if Spent(ps[0], end) then 1 else 0) + SpentOf(ps[1..], end)
  }

  lemma {:induction false} SpentUpdate(ps: seq<Phase>, end: int, w: nat, p: Phase)
    requires w < |ps|
    ensures SpentOf(ps[w := p], end) == SpentOf(ps, end) - (if Spent(ps[w], end) then 1 else 0) + (if Spent(p, end) then 1 else 0)
  {
    if w == 0 {
      assert ps[w := p][1..] == ps[1..];
    } else {
      assert ps[w := p][1..] == ps[1..][w - 1 := p];
      SpentUpdate(ps[1..], end, w - 1, p);
    }
  }

  /** Every index taken beyond the end has been reported or is about to be. */
  ghost predicate Accounted(s: State) {
    s.doneCount >= 0 && s.current <= s.end + s.doneCount + SpentOf(s.workers, s.end)
  }

  lemma AccountedStep(s: State, s': State)
    requires Accounted(s) && !s.caller.Storing? && Step(s, s')
    ensures Accounted(s')
  {
    hide SpentOf, Reset, More;
    if !CallerReturns(s, s') {
      var w :| 0 <= w < |s.workers| && WorkerStep(s, s', w);
      WorkerMoves(s, s', w);
      SpentUpdate(s.workers, s.end, w, s'.workers[w]);
    }
  }

  lemma {:induction false} AccountedRun(r: seq<State>, s: State, start: int, end: int, k: nat)
    requires Idle(s) && Past(s, end) && Run(r, s, start, end) && k < |r|
    ensures Accounted(r[k]) && Inv(r[k]) && r[k].end == end && |r[k].workers| == |s.workers|
  {
    hide Inv, Step, Idle, Past, SpentOf;
    DispatchInv(s, r[0], start, end);
    StepsInv(r, 0, k);
    if k > 0 {
      AccountedRun(r, s, start, end, k - 1);
      InvGood(r[k - 1]);
      AccountedStep(r[k - 1], r[k]);
      StepNumber(r[k - 1], r[k]);
    }
  }

  /** In every run current exceeds the end by no more than the reports made and one per
      worker: until then an int of C is wide enough for it. */
  lemma CurrentBound(r: seq<State>, s: State, start: int, end: int, k: nat)
    requires Idle(s) && Past(s, end) && Run(r, s, start, end) && k < |r|
    ensures r[k].current <= end + r[k].doneCount + |s.workers|
  {
    hide Inv, Step, Idle, Past, Run;
    AccountedRun(r, s, start, end, k);
  }

  /** But while the caller has not woken up, a worker can report over and over, so that
      current passes any number. */
  lemma CurrentUnbounded(n: nat, start: int, end: int, m: int) returns (s: State, r: seq<State>)
    requires n >= 1 && start < end
    ensures Created(s) && |s.workers| == n && Run(r, s, start, end)
    ensures var t := r[|r| - 1]; t.caller.Waiting? && t.current >= m
  {
    s, r := AllRun(n, start, end);
    SameNumber(r, |r| - 1);
    r := ReportTimes(r, n - 1, if m > end then m - end else 0);
  }
}
