/** The parallel-for pool of src/pthreads.c as a step relation: workers claim
    indices by compare-and-swap, the caller waits on two counters. The mutex covers
    the waiting loops and the caller's stores, but the claim loop takes no mutex, so
    that a worker still in it can see the stores of the next dispatch one by one.
    Everything interleaves freely, and a waiting thread may wake whenever its
    condition holds. */
module ThreadPool {

  /** Where a worker is in worker_loop. */
  datatype Phase =
    | AtLock              // about to re-check work under the mutex
    | Claiming            // at the top of the claim loop
    | Read(i: int)        // has read current, before the compare-and-swap
    | Claimed(i: int)     // has incremented current, before comparing with end
    | Running(i: int)     // inside work(arg, tid, i)
    | Ran(i: int)         // before the fetch-and-add on done_work
    | Reporting           // found i >= end, before done_count++ under the mutex

  /** Where the caller is: outside, at one of its stores, or waiting. */
  datatype Caller = Returned | Storing(next: nat, first: int, last: int) | Waiting

  /** The shared fields, the threads, and a history of the dispatch: the indices on
      which a function was called, on which it has returned, which done_work has
      counted, and those called with no function or with an argument of before.
      work and arg say whether the function and the argument of the dispatch are
      stored. */
  datatype State = State(
    start: int, end: int, current: int, doneCount: int, doneWork: int, work: bool, arg: bool,
    workers: seq<Phase>, caller: Caller,
    started: multiset<int>, finished: multiset<int>, counted: multiset<int>, stale: multiset<int>)

  function Reset(s: State): State {
    s.(started := multiset{}, finished := multiset{}, counted := multiset{}, stale := multiset{})
  }

  /** pthreads_parallel_for takes the mutex for its first critical section. */
  ghost predicate Lock(s: State, s': State, start: int, end: int) {
    s.caller.Returned? && start < end && s' == Reset(s).(arg := false, caller := Storing(0, start, end))
  }

  /** The next store of that section; the last one also gives the mutex back. */
  ghost predicate Store(s: State, s': State) {
    && s.caller.Storing?
    && var Storing(k, a, e) := s.caller;
    var t := s.(caller := Storing(k + 1, a, e));
    match k
    case 0 => s' == t.(start := a)
    case 1 => s' == t.(end := e)
    case 2 => s' == t.(current := a)
    case 3 => s' == t.(doneCount := 0)
    case 4 => s' == t.(doneWork := a)
    case 5 => s' == t.(work := true)
    case 6 => s' == s.(arg := true, caller := Waiting)
    case _ => false
  }

  /** The whole section at once: what the stores amount to when no worker sees them
      one by one. */
  ghost predicate Dispatch(s: State, s': State, start: int, end: int) {
    && s.caller.Returned? && start < end
    && s' == Reset(s).(start := start, end := end, current := start, doneCount := 0, doneWork := start,
                       work := true, arg := true, caller := Waiting)
  }

  /** One step of worker w. */
  ghost predicate WorkerStep(s: State, s': State, w: nat)
    requires w < |s.workers|
  {
    CanMove(s, w) && s' == Next(s, w)
  }

  /** Only two places need the mutex, and the first of them work. */
  predicate CanMove(s: State, w: nat)
    requires w < |s.workers|
  {
    && (s.workers[w].AtLock? ==> s.work && !s.caller.Storing?)
    && (s.workers[w].Reporting? ==> !s.caller.Storing?)
  }

  function Next(s: State, w: nat): State
    requires w < |s.workers|
  {
    match s.workers[w]
    case AtLock => At(s, w, Claiming)
    case Claiming => At(s, w, Read(s.current))
    case Read(i) => if s.current == i then At(s, w, Claimed(i)).(current := i + 1) else At(s, w, Claiming)
    case Claimed(i) => if i >= s.end then At(s, w, Reporting) else Called(At(s, w, Running(i)), i)
    case Running(i) => At(s, w, Ran(i)).(finished := More(s.finished, i))
    case Ran(i) => At(s, w, Claiming).(doneWork := s.doneWork + 1, counted := More(s.counted, i))
    case Reporting => At(s, w, AtLock).(doneCount := s.doneCount + 1)
  }

  function More(m: multiset<int>, i: int): multiset<int> { m + multiset{i} }

  function At(s: State, w: nat, p: Phase): State
    requires w < |s.workers|
  {
    s.(workers := s.workers[w := p])
  }

  /** work(work_arg, tid, i) is called with what the fields hold at that moment. */
  function Called(s: State, i: int): State {
    s.(started := More(s.started, i), stale := if s.work && s.arg then s.stale else More(s.stale, i))
  }

  /** pthreads_parallel_for, second critical section. */
  ghost predicate CallerReturns(s: State, s': State) {
    && s.caller.Waiting? && s.doneCount >= |s.workers| && s.doneWork >= s.end
    && s' == s.(work := false, caller := Returned)
  }

  ghost predicate Step(s: State, s': State) {
    (exists w :: 0 <= w < |s.workers| && WorkerStep(s, s', w)) || CallerReturns(s, s') || Store(s, s')
  }

  /** What a caller may rely on at any moment of a dispatch of [start, end). */
  ghost predicate Good(s: State, start: int, end: int) {
    && s.stale == multiset{}
    && (forall i :: s.finished[i] <= s.started[i] <= if start <= i < end then 1 else 0)
    && (s.caller.Returned? ==> s.current >= end)
    && (s.caller.Returned? ==> forall i :: s.started[i] == s.finished[i] == if start <= i < end then 1 else 0)
  }

  // -------------------------------------------------------------- the invariant

  /** How many workers are in phase p. */
  ghost function InPhase(s: State, p: Phase): nat {
    multiset(s.workers)[p]
  }

  /** Index i is in exactly one place if current has passed it: claimed, running,
      run but not counted, or counted; the histories follow. */
  ghost predicate InvAt(s: State, i: int) {
    Placed(s, i) && Recorded(s, i)
  }

  ghost predicate Placed(s: State, i: int) {
    if i < s.end then
      InPhase(s, Claimed(i)) + InPhase(s, Running(i)) + InPhase(s, Ran(i)) + s.counted[i]
      == (if s.start <= i < s.current then 1 else 0)
    else InPhase(s, Running(i)) == InPhase(s, Ran(i)) == s.counted[i] == 0
  }

  ghost predicate Recorded(s: State, i: int) {
    && s.started[i] == InPhase(s, Running(i)) + InPhase(s, Ran(i)) + s.counted[i]
    && s.finished[i] == InPhase(s, Ran(i)) + s.counted[i]
  }

  ghost predicate Inv(s: State) {
    && s.start < s.end && s.start <= s.current && |s.workers| >= 1
    && !s.caller.Storing? && s.arg && s.stale == multiset{} && (s.work <==> s.caller.Waiting?)
    && (forall i :: InvAt(s, i))
    && s.doneWork == s.start + |s.counted|
    && (s.caller.Returned? ==> forall i :: s.start <= i < s.end ==> s.counted[i] == 1)
  }

  /** The pool between two dispatches: nothing runs, and a worker that has claimed an
      index will find it at or beyond the old end. */
  ghost predicate Idle(s: State) {
    && s.caller.Returned? && !s.work && |s.workers| >= 1
    && (forall p :: p in s.workers ==> !p.Running? && !p.Ran? && (p.Claimed? ==> p.i >= s.end))
  }

  /** No worker holds an index below end. */
  ghost predicate Past(s: State, end: int) {
    forall p :: p in s.workers && p.Claimed? ==> p.i >= end
  }

  /** All stores done, nothing run yet. */
  lemma FreshInv(s: State)
    requires s.start < s.end && s.current == s.start == s.doneWork && |s.workers| >= 1
    requires s.work && s.arg && s.caller.Waiting? && s == Reset(s) && Past(s, s.end)
    requires forall p :: p in s.workers ==> !p.Running? && !p.Ran?
    ensures Inv(s)
  {
    forall i ensures InvAt(s, i) {
      assert i < s.end ==> Claimed(i) !in s.workers;
      assert Running(i) !in s.workers && Ran(i) !in s.workers;
    }
  }

  lemma DispatchInv(s: State, s': State, start: int, end: int)
    requires Idle(s) && Past(s, end) && Dispatch(s, s', start, end)
    ensures Inv(s') && s'.start == start && s'.end == end
  {
    FreshInv(s');
  }

  /** A pool that was just created is idle, and so is one whose caller has returned. */
  lemma IdleAfter(s: State)
    requires Inv(s) && s.caller.Returned?
    ensures Idle(s)
  {
    forall p | p in s.workers ensures !p.Running? && !p.Ran? && (p.Claimed? ==> p.i >= s.end) {
      assert InPhase(s, p) >= 1;
      if p.Running? || p.Ran? || p.Claimed? { assert InvAt(s, p.i); }
    }
  }

  lemma PhaseChange(s: State, w: nat, p: Phase, q: Phase)
    requires w < |s.workers|
    ensures InPhase(At(s, w, p), q)
         == InPhase(s, q) - (if q == s.workers[w] then 1 else 0) + (if q == p then 1 else 0)
    ensures InPhase(s, s.workers[w]) >= 1
  {
    assert s.workers[w] in s.workers;
  }

  /** How a worker's step changes the number of workers in each phase. */
  lemma PhaseCounts(s: State, s': State, w: nat, i: int)
    requires w < |s.workers| && WorkerStep(s, s', w)
    ensures |s'.workers| == |s.workers|
    ensures var p, p' := s.workers[w], s'.workers[w];
            && InPhase(s', Claimed(i)) == InPhase(s, Claimed(i)) - (if p == Claimed(i) then 1 else 0) + (if p' == Claimed(i) then 1 else 0)
            && InPhase(s', Running(i)) == InPhase(s, Running(i)) - (if p == Running(i) then 1 else 0) + (if p' == Running(i) then 1 else 0)
            && InPhase(s', Ran(i)) == InPhase(s, Ran(i)) - (if p == Ran(i) then 1 else 0) + (if p' == Ran(i) then 1 else 0)
  {
    hide InPhase, WorkerStep;
    WorkerMoves(s, s', w);
    var p' := s'.workers[w];
    PhaseChange(s, w, p', Claimed(i));
    PhaseChange(s, w, p', Running(i));
    PhaseChange(s, w, p', Ran(i));
    SameWorkers(s', At(s, w, p'));
  }

  lemma WorkerMoves(s: State, s': State, w: nat)
    requires w < |s.workers| && WorkerStep(s, s', w)
    ensures w < |s'.workers| && s'.workers == At(s, w, s'.workers[w]).workers
  {
    hide More;
  }

  lemma WorkerPlaced(s: State, s': State, w: nat, i: int)
    requires Placed(s, i) && s.start <= s.current && w < |s.workers| && WorkerStep(s, s', w)
    ensures Placed(s', i)
  {
    hide InPhase;
    PhaseCounts(s, s', w, i);
  }

  lemma MoreAt(m: multiset<int>, j: int, i: int)
    ensures More(m, j)[i] == m[i] + (if i == j then 1 else 0)
  {
  }

  /** What a worker's step adds to the histories. */
  lemma HistoryCounts(s: State, s': State, w: nat, i: int)
    requires w < |s.workers| && WorkerStep(s, s', w)
    ensures |s'.workers| == |s.workers|
    ensures var p, p' := s.workers[w], s'.workers[w];
            && (p == Running(i) <==> p' == Ran(i))
            && s'.started[i] == s.started[i] + (if p' == Running(i) then 1 else 0)
            && s'.finished[i] == s.finished[i] + (if p' == Ran(i) then 1 else 0)
            && s'.counted[i] == s.counted[i] + (if p == Ran(i) then 1 else 0)
  {
    hide More;
    match s.workers[w] {
      case Claimed(j) => MoreAt(s.started, j, i);
      case Running(j) => MoreAt(s.finished, j, i);
      case Ran(j) => MoreAt(s.counted, j, i);
      case _ =>
    }
  }

  lemma WorkerRecorded(s: State, s': State, w: nat, i: int)
    requires Recorded(s, i) && w < |s.workers| && WorkerStep(s, s', w)
    ensures Recorded(s', i)
  {
    hide InPhase, WorkerStep;
    HistoryCounts(s, s', w, i);
    PhaseCounts(s, s', w, i);
  }

  lemma SameWorkers(s: State, s': State)
    requires s.workers == s'.workers
    ensures forall q :: InPhase(s, q) == InPhase(s', q)
  {
  }

  lemma InvAtStep(s: State, s': State, w: nat, i: int)
    requires InvAt(s, i) && s.start <= s.current && w < |s.workers| && WorkerStep(s, s', w)
    ensures InvAt(s', i)
  {
    WorkerPlaced(s, s', w, i);
    WorkerRecorded(s, s', w, i);
  }

  lemma WorkerStepFrame(s: State, s': State, w: nat)
    requires w < |s.workers| && WorkerStep(s, s', w)
    ensures s'.start == s.start && s'.end == s.end && s'.caller == s.caller && |s'.workers| == |s.workers|
    ensures s'.current >= s.current
  {
  }

  lemma WorkerStepCounts(s: State, s': State, w: nat)
    requires w < |s.workers| && WorkerStep(s, s', w)
    ensures s.counted <= s'.counted && s'.doneWork - s.doneWork == |s'.counted| - |s.counted|
  {
    if s.workers[w].Ran? {
      assert s'.counted == More(s.counted, s.workers[w].i);
    } else {
      assert s'.counted == s.counted;
    }
  }

  lemma WorkerStepCalls(s: State, s': State, w: nat)
    requires w < |s.workers| && WorkerStep(s, s', w)
    ensures s'.work == s.work && s'.arg == s.arg
    ensures s'.stale == s.stale || (s.workers[w].Claimed? && s.workers[w].i < s.end && !(s.work && s.arg))
  {
  }

  lemma WorkerInv(s: State, s': State, w: nat)
    requires Inv(s) && w < |s.workers| && WorkerStep(s, s', w)
    ensures Inv(s')
  {
    hide InvAt, WorkerStep;
    WorkerStepFrame(s, s', w);
    WorkerStepCounts(s, s', w);
    WorkerStepCalls(s, s', w);
    if s.caller.Returned? {
      IdleAfter(s);
      assert s.workers[w] in s.workers;
    }
    forall i ensures InvAt(s', i) {
      assert InvAt(s, i);
      InvAtStep(s, s', w, i);
    }
    if s'.caller.Returned? {
      forall i | s'.start <= i < s'.end ensures s'.counted[i] == 1 {
        CountedOnce(s', i);
        assert s.counted[i] == 1;
      }
    }
  }

  lemma CountedOnce(s: State, i: int)
    requires InvAt(s, i)
    ensures s.counted[i] <= if s.start <= i < s.end then 1 else 0
    ensures s.counted[i] == 1 ==> s.started[i] == s.finished[i] == 1 && i < s.current
    ensures s.finished[i] <= s.started[i] <= if s.start <= i < s.end then 1 else 0
  {
  }

  /** As many counted indices as there are in the range, each at most once. */
  lemma {:induction false} AllCounted(counted: multiset<int>, start: int, end: int)
    requires start <= end && |counted| >= end - start
    requires forall i :: counted[i] <= if start <= i < end then 1 else 0
    ensures forall i :: start <= i < end ==> counted[i] == 1
    decreases end - start
  {
    if start < end {
      var e := end - 1;
      if counted[e] == 0 {
        AtMost(counted, start, e);
        assert false;
      }
      var rest := counted - multiset{e};
      AllCounted(rest, start, e);
      forall i | start <= i < end ensures counted[i] == 1 {
        assert i < e ==> rest[i] == 1;
      }
    }
  }

  lemma {:induction false} AtMost(counted: multiset<int>, start: int, end: int)
    requires start <= end
    requires forall i :: counted[i] <= if start <= i < end then 1 else 0
    ensures |counted| <= end - start
    decreases end - start
  {
    if start == end {
      forall i: int ensures i !in counted {
        assert counted[i] <= 0;
      }
    } else {
      AtMost(counted[end - 1 := 0], start, end - 1);
    }
  }

  lemma ReturnInv(s: State, s': State)
    requires Inv(s) && CallerReturns(s, s')
    ensures Inv(s')
  {
    hide InPhase;
    forall i ensures s.counted[i] <= if s.start <= i < s.end then 1 else 0 {
      CountedOnce(s, i);
    }
    AllCounted(s.counted, s.start, s.end);
    SameWorkers(s, s');
    forall i ensures InvAt(s', i) {
      assert InvAt(s, i);
    }
  }

  lemma StepInv(s: State, s': State)
    requires Inv(s) && Step(s, s')
    ensures Inv(s') && s'.start == s.start && s'.end == s.end
  {
    hide Inv, WorkerStep;
    if CallerReturns(s, s') {
      ReturnInv(s, s');
    } else if Store(s, s') {
      InvGood(s);
      assert false;
    } else {
      var w :| 0 <= w < |s.workers| && WorkerStep(s, s', w);
      WorkerInv(s, s', w);
      WorkerStepFrame(s, s', w);
    }
  }

  lemma InvGood(s: State)
    requires Inv(s)
    ensures Good(s, s.start, s.end) && !s.caller.Storing?
  {
    hide InPhase;
    forall i
      ensures s.finished[i] <= s.started[i] <= if s.start <= i < s.end then 1 else 0
      ensures s.caller.Returned? ==> s.started[i] == s.finished[i] == if s.start <= i < s.end then 1 else 0
    {
      assert InvAt(s, i);
      CountedOnce(s, i);
    }
    assert InvAt(s, s.end - 1);
    CountedOnce(s, s.end - 1);
  }
}
