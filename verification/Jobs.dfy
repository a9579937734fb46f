/** The job queue on two Redis lists, its workers and their crashes (app/queue.py, app/worker.py). */
module Jobs {
  import opened Base

  /** A serialised job. JSON text is never empty, so a popped job never reads as the end of a list. */
  type Job = string

  // ---------------------------------------------------------------- Redis list commands, head first

  function LPush(list: seq<Job>, j: Job): seq<Job> {
    [j] + list
  }

  /** LREM list 1 value: the first copy from the head goes, if there is one. */
  function LRem1(list: seq<Job>, j: Job): seq<Job> {
    if list == [] then []
    else if list[0] == j then list[1..]
    else [list[0]] + LRem1(list[1..], j)
  }

  lemma {:induction false} LRem1Removes(list: seq<Job>, gone: Job, j: Job)
    ensures multiset(LRem1(list, gone))[j] == multiset(list)[j] - (if j == gone && j in list then 1 else 0)
    decreases |list|
  {
    if list == [] {
    } else {
      assert list == [list[0]] + list[1..];
      LRem1Removes(list[1..], gone, j);
    }
  }

  lemma {:induction false} LRem1SkipsOthers(list: seq<Job>, j: Job, n: nat)
    requires n <= |list| && forall i :: 0 <= i < n ==> list[i] != j
    ensures n == |list| ==> LRem1(list, j) == list
    ensures n < |list| && list[n] == j ==> LRem1(list, j) == list[..n] + list[n + 1..]
    decreases |list|
  {
    if n == 0 {
    } else {
      LRem1SkipsOthers(list[1..], j, n - 1);
      assert list == [list[0]] + list[1..];
      assert list[..n] == [list[0]] + list[1..][..n - 1];
    }
  }

  // ---------------------------------------------------------------- the commands the application issues

  class JobQueue {
    var ready: seq<Job>
    var busy: seq<Job>

    constructor ()
      ensures ready == [] && busy == []
    {
      ready, busy := [], [];
    }

    method Enqueue(j: Job)
      modifies `ready
      ensures ready == LPush(old(ready), j)
    {
      ready := [j] + ready;
    }

    /** RPOPLPUSH ready busy: the oldest ready job becomes the newest busy one. */
    method Reserve() returns (j: Option<Job>)
      modifies this
      ensures old(ready) == [] ==> j == None && ready == [] && busy == old(busy)
      ensures old(ready) != [] ==>
                && j == Some(old(ready)[|old(ready)| - 1])
                && ready == old(ready)[..|old(ready)| - 1]
                && busy == LPush(old(busy), j.value)
    {
      if ready == [] {
        return None;
      }
      var last := ready[|ready| - 1];
      ready := ready[..|ready| - 1];
      busy := [last] + busy;
      return Some(last);
    }

    method Acknowledge(j: Job)
      modifies `busy
      ensures busy == LRem1(old(busy), j)
    {
      var n := 0;
      while n < |busy| && busy[n] != j
        invariant 0 <= n <= |busy|
        invariant forall i :: 0 <= i < n ==> busy[i] != j
      {
        n := n + 1;
      }
      LRem1SkipsOthers(busy, j, n);
      if n < |busy| {
        busy := busy[..n] + busy[n + 1..];
      }
    }

    /** The worker's side of a job: whether the handler succeeds, fails and is abandoned, or does not exist,
        one copy is acknowledged. */
    method Handle(j: Job, known: bool, fails: bool) returns (ran: bool, abandoned: bool)
      modifies `busy
      ensures busy == LRem1(old(busy), j)
      ensures (ran <==> known) && (abandoned <==> known && fails)
    {
      ran, abandoned := known, false;
      if !known {
        Acknowledge(j);
        return;
      }
      if fails {
        abandoned := true;
      }
      Acknowledge(j);
    }

    /** At start-up everything a previous worker left busy goes back, keeping its order, behind whatever
        is already waiting; the loop ends with nothing busy. */
    method RequeueStale() returns (moved: nat)
      modifies this
      ensures busy == [] && ready == old(busy) + old(ready) && moved == |old(busy)|
    {
      moved := 0;
      while busy != []
        invariant busy + ready == old(busy) + old(ready)
        invariant moved + |busy| == |old(busy)|
        decreases |busy|
      {
        var last := busy[|busy| - 1];
        assert busy == busy[..|busy| - 1] + [last];
        assert busy[..|busy| - 1] + ([last] + ready) == busy + ready;
        busy := busy[..|busy| - 1];
        ready := [last] + ready;
        moved := moved + 1;
      }
      assert busy + ready == ready;
    }
  }

  // ---------------------------------------------------------------- any interleaving of clients, workers and crashes

  /** A worker waits, runs the handler of a job, or has run it and still owes the acknowledgement. */
  datatype Worker = Idle | Running(job: Job) | Owing(job: Job)

  /** The two lists, the workers, and what happened so far: jobs put in, copies acknowledged away, copies
      moved back by a requeue, and handler runs that came to their end or were cut off by a crash. */
  datatype State = State(
    ready: seq<Job>, busy: seq<Job>, workers: seq<Worker>, enqueued: multiset<Job>, removed: multiset<Job>,
    requeued: multiset<Job>, completed: multiset<Job>, cutOff: multiset<Job>)

  datatype Op =
    | EnqueueOp(job: Job)
    | ReserveOp(worker: nat)
    | CompleteOp(worker: nat)
    | AcknowledgeOp(worker: nat)
    | CrashOp(worker: nat)
    | RequeueOneOp

  function Step(s: State, op: Op): State {
    match op
    case EnqueueOp(j) => s.(ready := LPush(s.ready, j), enqueued := s.enqueued + multiset{j})
    case ReserveOp(w) =>
      if w < |s.workers| && s.workers[w] == Idle && s.ready != [] then
        var j := s.ready[|s.ready| - 1];
        s.(ready := s.ready[..|s.ready| - 1], busy := LPush(s.busy, j), workers := s.workers[w := Running(j)])
      else s
    case CompleteOp(w) =>
      if w < |s.workers| && s.workers[w].Running? then
        s.(workers := s.workers[w := Owing(s.workers[w].job)], completed := s.completed + multiset{s.workers[w].job})
      else s
    case AcknowledgeOp(w) =>
      if w < |s.workers| && s.workers[w].Owing? then
        var j := s.workers[w].job;
        s.(busy := LRem1(s.busy, j), workers := s.workers[w := Idle],
           removed := if j in s.busy then s.removed + multiset{j} else s.removed)
      else s
    case CrashOp(w) =>
      if w < |s.workers| then
        s.(workers := s.workers[w := Idle],
           cutOff := if s.workers[w].Running? then s.cutOff + multiset{s.workers[w].job} else s.cutOff)
      else s
    case RequeueOneOp =>
      if s.busy == [] then s
      else
        var j := s.busy[|s.busy| - 1];
        s.(busy := s.busy[..|s.busy| - 1], ready := LPush(s.ready, j), requeued := s.requeued + multiset{j})
  }

  function Run(s: State, ops: seq<Op>): State
    decreases |ops|
  {
    if ops == [] then s else Run(Step(s, ops[0]), ops[1..])
  }

  /** How many workers are in the given state. */
  function Count(workers: seq<Worker>, x: Worker): nat {
    if workers == [] then 0 else (if workers[0] == x then 1 else 0) + Count(workers[1..], x)
  }

  lemma {:induction false} CountAfterUpdate(workers: seq<Worker>, w: nat, y: Worker, x: Worker)
    requires w < |workers|
    ensures Count(workers[w := y], x)
            == Count(workers, x) - (if workers[w] == x then 1 else 0) + (if y == x then 1 else 0)
    decreases |workers|
  {
    if w == 0 {
      assert workers[w := y][1..] == workers[1..];
    } else {
      assert workers[w := y][1..] == workers[1..][w - 1 := y];
      CountAfterUpdate(workers[1..], w - 1, y, x);
    }
  }

  /** The books of one job. What was put in is queued or gone, and goes only for an ended run. And every copy
      that was put in or moved back is waiting or accounts for one run: ended, cut off, or still going on. */
  ghost predicate Balanced(s: State, j: Job) {
    && s.enqueued[j] == multiset(s.ready)[j] + multiset(s.busy)[j] + s.removed[j]
    && s.removed[j] + Count(s.workers, Owing(j)) <= s.completed[j]
    && s.enqueued[j] + s.requeued[j]
       == multiset(s.ready)[j] + s.completed[j] + s.cutOff[j] + Count(s.workers, Running(j))
  }

  lemma UpdateWorkers(workers: seq<Worker>, w: nat, y: Worker, j: Job)
    requires w < |workers|
    ensures var after := workers[w := y];
            && Count(after, Owing(j)) == Count(workers, Owing(j)) - (if workers[w] == Owing(j) then 1 else 0)
                                         + (if y == Owing(j) then 1 else 0)
            && Count(after, Running(j)) == Count(workers, Running(j)) - (if workers[w] == Running(j) then 1 else 0)
                                           + (if y == Running(j) then 1 else 0)
  {
    CountAfterUpdate(workers, w, y, Owing(j));
    CountAfterUpdate(workers, w, y, Running(j));
  }

  lemma TailIsLast(list: seq<Job>)
    requires list != []
    ensures multiset(list) == multiset(list[..|list| - 1]) + multiset{list[|list| - 1]}
  {
    assert list == list[..|list| - 1] + [list[|list| - 1]];
  }

  lemma ReserveKeepsBalance(s: State, w: nat, j: Job)
    requires Balanced(s, j) && w < |s.workers| && s.workers[w] == Idle && s.ready != []
    ensures Balanced(Step(s, ReserveOp(w)), j)
  {
    TailIsLast(s.ready);
    UpdateWorkers(s.workers, w, Running(s.ready[|s.ready| - 1]), j);
  }

  lemma AcknowledgeKeepsBalance(s: State, w: nat, j: Job)
    requires Balanced(s, j) && w < |s.workers| && s.workers[w].Owing?
    ensures Balanced(Step(s, AcknowledgeOp(w)), j)
  {
    LRem1Removes(s.busy, s.workers[w].job, j);
    UpdateWorkers(s.workers, w, Idle, j);
  }

  lemma CompleteKeepsBalance(s: State, w: nat, j: Job)
    requires Balanced(s, j) && w < |s.workers| && s.workers[w].Running?
    ensures Balanced(Step(s, CompleteOp(w)), j)
  {
    UpdateWorkers(s.workers, w, Owing(s.workers[w].job), j);
  }

  lemma CrashKeepsBalance(s: State, w: nat, j: Job)
    requires Balanced(s, j) && w < |s.workers|
    ensures Balanced(Step(s, CrashOp(w)), j)
  {
    UpdateWorkers(s.workers, w, Idle, j);
  }

  lemma StepKeepsBalance(s: State, op: Op, j: Job)
    requires Balanced(s, j)
    ensures Balanced(Step(s, op), j)
  {
    if Step(s, op) != s {
      match op
      case EnqueueOp(_) =>
      case ReserveOp(w) => ReserveKeepsBalance(s, w, j);
      case CompleteOp(w) => CompleteKeepsBalance(s, w, j);
      case AcknowledgeOp(w) => AcknowledgeKeepsBalance(s, w, j);
      case CrashOp(w) => CrashKeepsBalance(s, w, j);
      case RequeueOneOp => TailIsLast(s.busy);
    }
  }

  lemma {:induction false} RunKeepsBalance(s: State, ops: seq<Op>, j: Job)
    requires Balanced(s, j)
    ensures Balanced(Run(s, ops), j)
    decreases |ops|
  {
    if ops == [] {
    } else {
      StepKeepsBalance(s, ops[0], j);
      RunKeepsBalance(Step(s, ops[0]), ops[1..], j);
    }
  }

  function Start(workers: nat): State {
    State([], [], seq(workers, _ => Idle), multiset{}, multiset{}, multiset{}, multiset{}, multiset{})
  }

  lemma {:induction false} IdleCountsNothing(workers: seq<Worker>, x: Worker)
    requires x != Idle && forall i :: 0 <= i < |workers| ==> workers[i] == Idle
    ensures Count(workers, x) == 0
    decreases |workers|
  {
    if workers == [] {
    } else {
      IdleCountsNothing(workers[1..], x);
    }
  }

  lemma StartBalances(workers: nat, j: Job)
    ensures Balanced(Start(workers), j)
  {
    IdleCountsNothing(Start(workers).workers, Owing(j));
    IdleCountsNothing(Start(workers).workers, Running(j));
  }

  /** No job is ever lost or invented: what was enqueued is ready, busy or acknowledged away, copy for
      copy; copies go away at most as often as a handler run of the job came to its end; so a job
      none of whose runs ended is still queued in full. */
  lemma JobsAreConserved(workers: nat, ops: seq<Op>, j: Job)
    ensures var s := Run(Start(workers), ops);
            && s.enqueued[j] == multiset(s.ready)[j] + multiset(s.busy)[j] + s.removed[j]
            && s.removed[j] <= s.completed[j]
            && (s.completed[j] == 0 ==> multiset(s.ready)[j] + multiset(s.busy)[j] == s.enqueued[j])
  {
    StartBalances(workers, j);
    RunKeepsBalance(Start(workers), ops, j);
  }

  lemma {:induction false} NothingMovedBack(s: State, ops: seq<Op>, j: Job)
    requires forall i :: 0 <= i < |ops| ==> !ops[i].RequeueOneOp?
    ensures Run(s, ops).requeued[j] == s.requeued[j]
    decreases |ops|
  {
    if ops == [] {
    } else {
      NothingMovedBack(Step(s, ops[0]), ops[1..], j);
    }
  }

  /** A job runs exactly as often as its copies were handed out: runs ended, cut off and going on, with the
      copies still waiting, are the copies enqueued and moved back. So without a requeue no copy runs twice. */
  lemma RunsAreCounted(workers: nat, ops: seq<Op>, j: Job)
    ensures var s := Run(Start(workers), ops);
            && s.completed[j] + s.cutOff[j] + Count(s.workers, Running(j)) + multiset(s.ready)[j]
               == s.enqueued[j] + s.requeued[j]
            && ((forall i :: 0 <= i < |ops| ==> !ops[i].RequeueOneOp?) ==>
                  s.completed[j] + s.cutOff[j] + Count(s.workers, Running(j)) <= s.enqueued[j])
  {
    StartBalances(workers, j);
    RunKeepsBalance(Start(workers), ops, j);
    if forall i :: 0 <= i < |ops| ==> !ops[i].RequeueOneOp? {
      NothingMovedBack(Start(workers), ops, j);
    }
  }

  // ---------------------------------------------------------------- order

  function Reversed(list: seq<Job>): seq<Job> {
    if list == [] then [] else Reversed(list[1..]) + [list[0]]
  }

  lemma {:induction false} ReversedLast(list: seq<Job>)
    requires list != []
    ensures Reversed(list) == [list[|list| - 1]] + Reversed(list[..|list| - 1])
    decreases |list|
  {
    if |list| == 1 {
      assert list[1..] == [] && list[..0] == [];
    } else {
      ReversedLast(list[1..]);
      assert list[1..][..|list| - 2] == list[..|list| - 1][1..];
    }
  }

  function PutBy(op: Op): seq<Job> {
    if op.EnqueueOp? then [op.job] else []
  }

  function HandedBy(s: State, op: Op): seq<Job> {
    if op.ReserveOp? && op.worker < |s.workers| && s.workers[op.worker] == Idle && s.ready != []
    then [s.ready[|s.ready| - 1]] else []
  }

  /** The jobs a run puts in, in order. */
  function PutIn(ops: seq<Op>): seq<Job> {
    if ops == [] then [] else PutBy(ops[0]) + PutIn(ops[1..])
  }

  /** The jobs a run hands to workers, in order. */
  function HandedOut(s: State, ops: seq<Op>): seq<Job>
    decreases |ops|
  {
    if ops == [] then [] else HandedBy(s, ops[0]) + HandedOut(Step(s, ops[0]), ops[1..])
  }

  lemma OneServed(s: State, op: Op)
    requires !op.RequeueOneOp?
    ensures HandedBy(s, op) + Reversed(Step(s, op).ready) == Reversed(s.ready) + PutBy(op)
  {
    match op
    case EnqueueOp(j) => assert LPush(s.ready, j)[1..] == s.ready;
    case ReserveOp(_) => if s.ready != [] { ReversedLast(s.ready); }
    case _ =>
  }

  lemma Splice(h: seq<Job>, rest: seq<Job>, last: seq<Job>, middle: seq<Job>, start: seq<Job>, p: seq<Job>,
               put: seq<Job>)
    requires h + middle == start + p && rest + last == middle + put
    ensures (h + rest) + last == start + (p + put)
  {
    assert (h + rest) + last == h + (rest + last);
    assert h + (middle + put) == (h + middle) + put;
    assert (start + p) + put == start + (p + put);
  }

  /** First come, first served: until something is moved back, jobs are handed out in the order they were put
      in, and those still waiting wait in that order. */
  lemma {:induction false} ServedInOrder(s: State, ops: seq<Op>)
    requires forall i :: 0 <= i < |ops| ==> !ops[i].RequeueOneOp?
    ensures HandedOut(s, ops) + Reversed(Run(s, ops).ready) == Reversed(s.ready) + PutIn(ops)
    decreases |ops|
  {
    if ops == [] {
    } else {
      var next := Step(s, ops[0]);
      OneServed(s, ops[0]);
      ServedInOrder(next, ops[1..]);
      Splice(HandedBy(s, ops[0]), HandedOut(next, ops[1..]), Reversed(Run(next, ops[1..]).ready),
             Reversed(next.ready), Reversed(s.ready), PutBy(ops[0]), PutIn(ops[1..]));
    }
  }

  /** What a requeue moves back waits behind everything that is waiting already, in its own order. */
  lemma {:induction false} MovedBackWaits(busy: seq<Job>, ready: seq<Job>)
    ensures Reversed(busy + ready) == Reversed(ready) + Reversed(busy)
    decreases |busy|
  {
    if busy == [] {
      assert busy + ready == ready;
    } else {
      assert (busy + ready)[1..] == busy[1..] + ready;
      MovedBackWaits(busy[1..], ready);
    }
  }
}
