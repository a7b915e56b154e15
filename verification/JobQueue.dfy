/** The request queue of src/server.c: a ring of 256 jobs filled by the event loop
    and drained by workers, also after shutdown has been requested. The critical
    sections are methods on the ring; each is a step of an abstract pool, and the
    theorems are about every sequence of such steps. */
module JobQueue {

  const JOB_QUEUE_CAP: nat := 256

  datatype Job = Job(fd: int, body: int)

  datatype Worker = Idle | Busy(job: Job) | Exited

  // ------------------------------------------------------------ the abstract pool

  /** Every job accepted so far in order, how many have been dequeued, and those
      whose request has been handled. */
  datatype Pool = Pool(accepted: seq<Job>, taken: nat, handled: multiset<Job>, stop: bool, workers: seq<Worker>)

  datatype Event = Submit(job: Job, ok: bool) | Take(w: nat) | Finish(w: nat) | Exit(w: nat) | Shutdown

  function Pending(p: Pool): seq<Job> {
    if p.taken <= |p.accepted| then p.accepted[p.taken..] else []
  }

  ghost predicate Step(p: Pool, e: Event, p': Pool) {
    match e
    case Submit(job, ok) =>
      && ok == !(p.stop || |Pending(p)| == JOB_QUEUE_CAP)
      && p' == if ok then p.(accepted := p.accepted + [job]) else p
    case Take(w) =>
      && w < |p.workers| && p.workers[w].Idle? && Pending(p) != []
      && p' == p.(taken := p.taken + 1, workers := p.workers[w := Busy(Pending(p)[0])])
    case Finish(w) =>
      && w < |p.workers| && p.workers[w].Busy?
      && p' == p.(handled := p.handled + multiset{p.workers[w].job}, workers := p.workers[w := Idle])
    case Exit(w) =>
      && w < |p.workers| && p.workers[w].Idle? && Pending(p) == [] && p.stop
      && p' == p.(workers := p.workers[w := Exited])
    case Shutdown => p' == p.(stop := true)
  }

  ghost predicate Start(p: Pool) {
    && p.accepted == [] && p.taken == 0 && p.handled == multiset{} && !p.stop && |p.workers| >= 1
    && forall w :: 0 <= w < |p.workers| ==> p.workers[w].Idle?
  }

  /** Any interleaving of submissions, workers and shutdown. */
  ghost predicate Run(ps: seq<Pool>, es: seq<Event>) {
    && |ps| == |es| + 1 && Start(ps[0])
    && forall k :: 0 <= k < |es| ==> Step(ps[k], es[k], ps[k + 1])
  }

  ghost function Hand(w: Worker): multiset<Job> {
    if w.Busy? then multiset{w.job} else multiset{}
  }

  /** The jobs being handled right now. */
  ghost function InHand(ws: seq<Worker>): multiset<Job> {
    if ws == [] then multiset{} else Hand(ws[0]) + InHand(ws[1..])
  }

  lemma {:induction false} InHandUpdate(ws: seq<Worker>, w: nat, x: Worker)
    requires w < |ws|
    ensures InHand(ws[w := x]) + Hand(ws[w]) == InHand(ws) + Hand(x)
  {
    hide Hand;
    if w == 0 {
      assert ws[0 := x][1..] == ws[1..];
      Swap(Hand(x), InHand(ws[1..]), Hand(ws[0]));
    } else {
      InHandUpdate(ws[1..], w - 1, x);
      assert ws[w := x][1..] == ws[1..][w - 1 := x];
      AddBoth(Hand(ws[0]), InHand(ws[1..][w - 1 := x]), Hand(ws[w]), InHand(ws[1..]), Hand(x));
    }
  }

  lemma Swap<T>(a: multiset<T>, m: multiset<T>, b: multiset<T>)
    ensures (a + m) + b == (b + m) + a
  {
  }

  lemma AddBoth<T>(h: multiset<T>, a: multiset<T>, b: multiset<T>, c: multiset<T>, d: multiset<T>)
    requires a + b == c + d
    ensures (h + a) + b == (h + c) + d
  {
    assert (h + a) + b == h + (a + b);
    assert (h + c) + d == h + (c + d);
  }

  /** A worker takes the next job, or hands one in. */
  lemma Taken<T>(done: multiset<T>, handled: multiset<T>, hand: multiset<T>, hand': multiset<T>, x: multiset<T>)
    requires done == handled + hand && hand' + multiset{} == hand + x
    ensures done + x == handled + hand'
  {
    assert handled + (hand + x) == (handled + hand) + x;
  }

  lemma HandedIn<T>(done: multiset<T>, handled: multiset<T>, hand: multiset<T>, hand': multiset<T>, x: multiset<T>)
    requires done == handled + hand && hand' + x == hand + multiset{}
    ensures done == (handled + x) + hand'
  {
    assert (handled + x) + hand' == handled + (hand' + x);
  }

  /** Each dequeued job is in exactly one hand or handled once; a worker only
      leaves a stopped, empty pool, and such a pool takes nothing more. */
  ghost predicate Inv(p: Pool) {
    && p.taken <= |p.accepted| && |Pending(p)| <= JOB_QUEUE_CAP && |p.workers| >= 1
    && multiset(p.accepted[..p.taken]) == p.handled + InHand(p.workers)
    && ((exists w :: 0 <= w < |p.workers| && p.workers[w].Exited?) ==> p.stop && Pending(p) == [])
  }

  lemma {:induction false} NobodyBusy(ws: seq<Worker>)
    requires forall w :: 0 <= w < |ws| ==> !ws[w].Busy?
    ensures InHand(ws) == multiset{}
  {
    if ws != [] { NobodyBusy(ws[1..]); }
  }

  lemma Accept(p: Pool, job: Job)
    requires p.taken <= |p.accepted|
    ensures Pending(p.(accepted := p.accepted + [job])) == Pending(p) + [job]
    ensures (p.accepted + [job])[..p.taken] == p.accepted[..p.taken]
  {
  }

  lemma Dequeue(p: Pool)
    requires p.taken < |p.accepted|
    ensures Pending(p) != [] && Pending(p.(taken := p.taken + 1)) == Pending(p)[1..]
    ensures p.accepted[..p.taken + 1] == p.accepted[..p.taken] + [Pending(p)[0]]
    ensures multiset(p.accepted[..p.taken + 1]) == multiset(p.accepted[..p.taken]) + multiset{Pending(p)[0]}
  {
    assert p.accepted[..p.taken + 1] == p.accepted[..p.taken] + [Pending(p)[0]];
  }

  lemma TakeInv(p: Pool, w: nat, p': Pool)
    requires Inv(p) && Step(p, Take(w), p')
    ensures Inv(p')
  {
    hide InHand;
    InHandUpdate(p.workers, w, Busy(Pending(p)[0]));
    Dequeue(p);
    Taken(multiset(p.accepted[..p.taken]), p.handled, InHand(p.workers), InHand(p'.workers), multiset{Pending(p)[0]});
    Leavers(p, p');
  }

  lemma FinishInv(p: Pool, w: nat, p': Pool)
    requires Inv(p) && Step(p, Finish(w), p')
    ensures Inv(p')
  {
    hide InHand;
    InHandUpdate(p.workers, w, Idle);
    HandedIn(multiset(p.accepted[..p.taken]), p.handled, InHand(p.workers), InHand(p'.workers),
             multiset{p.workers[w].job});
    Leavers(p, p');
  }

  lemma ExitInv(p: Pool, w: nat, p': Pool)
    requires Inv(p) && Step(p, Exit(w), p')
    ensures Inv(p')
  {
    hide InHand;
    InHandUpdate(p.workers, w, Exited);
    assert InHand(p'.workers) + multiset{} == InHand(p'.workers) && InHand(p.workers) + multiset{} == InHand(p.workers);
  }

  lemma StepInv(p: Pool, e: Event, p': Pool)
    requires Inv(p) && Step(p, e, p')
    ensures Inv(p')
  {
    match e
    case Submit(job, ok) => Accept(p, job);
    case Take(w) => TakeInv(p, w, p');
    case Finish(w) => FinishInv(p, w, p');
    case Exit(w) => ExitInv(p, w, p');
    case Shutdown =>
  }

  lemma Leavers(p: Pool, p': Pool)
    requires |p.workers| == |p'.workers|
    requires forall w :: 0 <= w < |p.workers| ==> p'.workers[w] == p.workers[w] || !p'.workers[w].Exited?
    ensures (exists w :: 0 <= w < |p'.workers| && p'.workers[w].Exited?) ==>
              exists w :: 0 <= w < |p.workers| && p.workers[w].Exited?
  {
    if w :| 0 <= w < |p'.workers| && p'.workers[w].Exited? {
      assert p.workers[w].Exited?;
    }
  }

  lemma {:induction false} RunInv(ps: seq<Pool>, es: seq<Event>, k: nat)
    requires Run(ps, es) && k < |ps|
    ensures Inv(ps[k])
  {
    if k == 0 {
      NobodyBusy(ps[0].workers);
    } else {
      RunInv(ps, es, k - 1);
      assert Step(ps[k - 1], es[k - 1], ps[k]);
      StepInv(ps[k - 1], es[k - 1], ps[k]);
    }
  }

  /** The jobs taken in a run, in the order of the Take events. */
  ghost function TakenJobs(ps: seq<Pool>, es: seq<Event>): seq<Job>
    requires |ps| == |es| + 1
  {
    if es == [] then []
    else
      var k := |es| - 1;
      TakenJobs(ps[..k + 1], es[..k]) +
      (if es[k].Take? && Pending(ps[k]) != [] then [Pending(ps[k])[0]] else [])
  }

  /** The jobs accepted in a run, in order. */
  ghost function AcceptedJobs(es: seq<Event>): seq<Job> {
    if es == [] then []
    else AcceptedJobs(es[..|es| - 1]) +
         (if es[|es| - 1].Submit? && es[|es| - 1].ok then [es[|es| - 1].job] else [])
  }

  /** First in, first out: at any moment the jobs dequeued so far are the first
      ones accepted, in the order of acceptance. */
  lemma {:induction false} FirstInFirstOut(ps: seq<Pool>, es: seq<Event>)
    requires Run(ps, es)
    ensures ps[|es|].accepted == AcceptedJobs(es)
    ensures ps[|es|].taken <= |AcceptedJobs(es)|
    ensures TakenJobs(ps, es) == AcceptedJobs(es)[..ps[|es|].taken]
    decreases |es|
  {
    hide Inv, Step;
    if es != [] {
      var k := |es| - 1;
      RunPrefix(ps, es);
      FirstInFirstOut(ps[..k + 1], es[..k]);
      FifoStep(ps[k], es[k], ps[k + 1]);
    }
  }

  lemma RunPrefix(ps: seq<Pool>, es: seq<Event>)
    requires Run(ps, es) && es != []
    ensures var k := |es| - 1; Run(ps[..k + 1], es[..k]) && Step(ps[k], es[k], ps[k + 1])
  {
  }

  lemma FifoStep(p: Pool, e: Event, p': Pool)
    requires Step(p, e, p') && p.taken <= |p.accepted|
    ensures p'.accepted == p.accepted + (if e.Submit? && e.ok then [e.job] else [])
    ensures p'.taken <= |p'.accepted|
    ensures p'.accepted[..p'.taken]
         == p.accepted[..p.taken] + (if e.Take? && Pending(p) != [] then [Pending(p)[0]] else [])
  {
    if e.Take? { Dequeue(p); }
  }

  /** A job is never handled more often than it was accepted. */
  lemma AtMostOnce(ps: seq<Pool>, es: seq<Event>)
    requires Run(ps, es)
    ensures ps[|es|].handled <= multiset(AcceptedJobs(es))
  {
    RunInv(ps, es, |es|);
    FirstInFirstOut(ps, es);
    AcceptedSplit(ps[|es|]);
  }

  lemma AcceptedSplit(p: Pool)
    requires p.taken <= |p.accepted|
    ensures multiset(p.accepted) == multiset(p.accepted[..p.taken]) + multiset(Pending(p))
  {
    assert p.accepted == p.accepted[..p.taken] + p.accepted[p.taken..];
  }

  /** Once all workers have left, every accepted job has been handled, exactly once. */
  lemma DrainedOnExit(ps: seq<Pool>, es: seq<Event>)
    requires Run(ps, es)
    requires forall w :: 0 <= w < |ps[|es|].workers| ==> ps[|es|].workers[w].Exited?
    ensures ps[|es|].handled == multiset(AcceptedJobs(es))
  {
    RunInv(ps, es, |es|);
    FirstInFirstOut(ps, es);
    var p := ps[|es|];
    NobodyBusy(p.workers);
    assert p.workers[0].Exited?;
    AcceptedSplit(p);
  }

  // -------------------------------------------------------------------- the ring

  function Slot(head: nat, k: nat): (r: nat)
    requires head < JOB_QUEUE_CAP && k <= JOB_QUEUE_CAP
    ensures r == if head + k < JOB_QUEUE_CAP then head + k else head + k - JOB_QUEUE_CAP
  {
    (head + k) % JOB_QUEUE_CAP
  }

  lemma SlotFirst(head: nat)
    requires head < JOB_QUEUE_CAP
    ensures Slot(head, 0) == head
  {
  }

  /** The slots after the first, seen from the next head. */
  lemma SlotNext(head: nat, k: nat)
    requires head < JOB_QUEUE_CAP && k < JOB_QUEUE_CAP
    ensures Slot((head + 1) % JOB_QUEUE_CAP, k) == Slot(head, k + 1)
  {
  }

  /** The ring without its first job. */
  lemma RingNext(ring: seq<Job>, head: nat, jobs: seq<Job>)
    requires |ring| == JOB_QUEUE_CAP && head < JOB_QUEUE_CAP && 0 < |jobs| <= JOB_QUEUE_CAP
    requires forall k :: 0 <= k < |jobs| ==> ring[Slot(head, k)] == jobs[k]
    ensures Slot((head + 1) % JOB_QUEUE_CAP, |jobs| - 1) == Slot(head, |jobs|)
    ensures forall k :: 0 <= k < |jobs| - 1 ==> ring[Slot((head + 1) % JOB_QUEUE_CAP, k)] == jobs[1..][k]
  {
    hide Slot;
    SlotNext(head, |jobs| - 1);
    forall k | 0 <= k < |jobs| - 1 ensures ring[Slot((head + 1) % JOB_QUEUE_CAP, k)] == jobs[1..][k] {
      SlotNext(head, k);
      assert ring[Slot(head, k + 1)] == jobs[k + 1];
    }
  }

  lemma PendingSame(p: Pool, p': Pool)
    requires p'.accepted == p.accepted && p'.taken == p.taken
    ensures Pending(p') == Pending(p)
  {
  }

  lemma PendingNext(p: Pool, p': Pool)
    requires p.taken < |p.accepted| && p'.accepted == p.accepted && p'.taken == p.taken + 1
    ensures Pending(p) != [] && Pending(p') == Pending(p)[1..]
  {
  }

  lemma TakenInRange(p: Pool)
    requires Inv(p)
    ensures p.taken <= |p.accepted| && (Pending(p) != [] ==> p.taken < |p.accepted|)
  {
  }

  datatype Fetched = Wait | Leave | Got(job: Job)

  class WorkerPool {
    const queue: array<Job>
    var head: nat
    var tail: nat
    var count: nat
    var stop: bool
    ghost var pool: Pool

    ghost predicate Valid()
      reads this, queue
    {
      && queue.Length == JOB_QUEUE_CAP && head < JOB_QUEUE_CAP && count <= JOB_QUEUE_CAP
      && tail == Slot(head, count)
      && Inv(pool) && pool.stop == stop && |Pending(pool)| == count
      && forall k :: 0 <= k < count ==> queue[Slot(head, k)] == Pending(pool)[k]
    }

    constructor (n: nat)
      requires n >= 1
      ensures Valid() && Start(pool) && |pool.workers| == n && fresh(queue)
    {
      queue := new Job[JOB_QUEUE_CAP](_ => Job(0, 0));
      head, tail, count, stop := 0, 0, 0, false;
      var ws := seq(n, _ => Idle);
      NobodyBusy(ws);
      pool := Pool([], 0, multiset{}, false, ws);
    }

    /** worker_pool_submit. */
    method SubmitJob(job: Job) returns (ok: bool)
      requires Valid()
      modifies this, queue
      ensures Valid() && Step(old(pool), Submit(job, ok), pool)
      ensures ok <==> !old(stop) && old(count) < 256
    {
      hide Inv;
      ok := true;
      if stop || count == JOB_QUEUE_CAP {
        ok := false;
      } else {
        ghost var p := pool;
        TakenInRange(p);
        pool := pool.(accepted := pool.accepted + [job]);
        StepInv(p, Submit(job, true), pool);
        Accept(p, job);
        queue[tail] := job;
        tail := (tail + 1) % JOB_QUEUE_CAP;
        count := count + 1;
      }
    }

    /** The critical section of worker_main: wait, leave, or dequeue. */
    method Fetch(w: nat) returns (r: Fetched)
      requires Valid() && w < |pool.workers| && pool.workers[w].Idle?
      modifies this
      ensures Valid()
      ensures r.Wait? ==> pool == old(pool) && Pending(pool) == [] && !pool.stop
      ensures r.Leave? ==> Step(old(pool), Exit(w), pool)
      ensures r.Got? ==> Step(old(pool), Take(w), pool) && r.job == Pending(old(pool))[0]
    {
      hide Inv, Slot, Pending;
      ghost var p := pool;
      TakenInRange(p);
      SlotFirst(head);
      if count == 0 && !stop { return Wait; }
      if count == 0 && stop {
        pool := pool.(workers := pool.workers[w := Exited]);
        StepInv(p, Exit(w), pool);
        PendingSame(p, pool);
        return Leave;
      }
      var job := queue[head];
      assert queue[Slot(head, 0)] == Pending(p)[0];
      pool := pool.(taken := pool.taken + 1, workers := pool.workers[w := Busy(job)]);
      StepInv(p, Take(w), pool);
      PendingNext(p, pool);
      RingNext(queue[..], head, Pending(p));
      head := (head + 1) % JOB_QUEUE_CAP;
      count := count - 1;
      return Got(job);
    }

    /** handle_request has returned. */
    ghost method Handled(w: nat)
      requires Valid() && w < |pool.workers| && pool.workers[w].Busy?
      modifies this
      ensures Valid() && Step(old(pool), Finish(w), pool)
    {
      ghost var p := pool;
      pool := pool.(handled := pool.handled + multiset{pool.workers[w].job}, workers := pool.workers[w := Idle]);
      StepInv(p, Finish(w), pool);
    }

    /** worker_pool_destroy, up to the join. */
    method RequestStop()
      requires Valid()
      modifies this
      ensures Valid() && Step(old(pool), Shutdown, pool)
    {
      ghost var p := pool;
      stop := true;
      pool := pool.(stop := true);
      StepInv(p, Shutdown, pool);
    }
  }
}
