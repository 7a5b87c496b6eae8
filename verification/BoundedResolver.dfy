/** Two daemon workers behind a six-permit semaphore and a six-place queue, as interleaved atomic steps. */
module BoundedResolver {
  const SLOTS := 6
  const WORKERS := 2

  /** The states of a concurrent future; Notified is a cancellation that a worker has seen. */
  datatype FutureState = Pending | Running | Finished | Cancelled | Notified

  /** Where a worker is in its loop: blocked on get, holding an item, executing it, or about to release. */
  datatype Worker = Waiting | Took(f: nat) | Executing(f: nat) | Leaving(f: nat)

  /** permits and overflow describe the bounded semaphore; entering holds the callers between acquire and put. */
  datatype State = State(
    permits: nat,
    overflow: bool,
    entering: set<nat>,
    queue: seq<nat>,
    workers: seq<Worker>,
    futures: seq<FutureState>)

  /** Future f is the f-th one ever created; Work is the next step in the loop of worker w. */
  datatype Action =
    | Acquire(caller: nat)
    | Put(caller: nat)
    | PutRaises(caller: nat)
    | Cancel(f: nat)
    | Work(w: nat)

  const INITIAL := State(SLOTS, false, {}, [], [Waiting, Waiting], [])

  /** A bounded semaphore refuses a release beyond its initial value. */
  function Released(s: State): State {
    if s.permits < SLOTS then s.(permits := s.permits + 1) else s.(overflow := true)
  }

  function Next(s: State, a: Action): State {
    match a
    case Acquire(c) =>
      if s.permits > 0 && c !in s.entering then s.(permits := s.permits - 1, entering := s.entering + {c}) else s
    case Put(c) =>
      if c !in s.entering then s
      else
        var created := s.(entering := s.entering - {c}, futures := s.futures + [Pending]);
        if |s.queue| < SLOTS then created.(queue := s.queue + [|s.futures|]) else Released(created)
    case PutRaises(c) => if c in s.entering then Released(s.(entering := s.entering - {c})) else s
    case Cancel(f) =>
      if f < |s.futures| && s.futures[f] == Pending then s.(futures := s.futures[f := Cancelled]) else s
    case Work(w) => if w < |s.workers| then WorkStep(s, w) else s
  }

  function WorkStep(s: State, w: nat): State
    requires w < |s.workers|
  {
    match s.workers[w]
    case Waiting =>
      if s.queue == [] then s else s.(queue := s.queue[1..], workers := s.workers[w := Took(s.queue[0])])
    case Took(f) =>
      if f >= |s.futures| then s
      else if s.futures[f] == Cancelled
      then s.(futures := s.futures[f := Notified], workers := s.workers[w := Leaving(f)])
      else s.(futures := s.futures[f := Running], workers := s.workers[w := Executing(f)])
    case Executing(f) =>
      if f >= |s.futures| then s else s.(futures := s.futures[f := Finished], workers := s.workers[w := Leaving(f)])
    case Leaving(f) => Released(s.(workers := s.workers[w := Waiting]))
  }

  /** The executor; each method is one atomic step of a caller or of a worker thread. */
  class Resolver {
    var permits: nat
    var overflow: bool
    var entering: set<nat>
    var queue: seq<nat>
    var workers: seq<Worker>
    var futures: seq<FutureState>

    function View(): State reads this { State(permits, overflow, entering, queue, workers, futures) }

    constructor ()
      ensures View() == INITIAL
    {
      permits, overflow, entering, queue, workers, futures := SLOTS, false, {}, [], [Waiting, Waiting], [];
    }

    /** False is the admission timeout. */
    method AcquireSlot(caller: nat) returns (admitted: bool)
      requires caller !in entering
      modifies this
      ensures View() == Next(old(View()), Acquire(caller))
      ensures admitted <==> old(permits) > 0
    {
      if permits == 0 {
        return false;
      }
      permits, entering := permits - 1, entering + {caller};
      return true;
    }

    method ReleaseSlot()
      modifies this`permits, this`overflow
      ensures View() == Released(old(View()))
    {
      if permits < SLOTS {
        permits := permits + 1;
      } else {
        overflow := true;
      }
    }

    /** None is queue.Full, after the slot has been given back. */
    method PutNowait(caller: nat) returns (queued: bool)
      requires caller in entering
      modifies this
      ensures View() == Next(old(View()), Put(caller))
      ensures queued <==> old(|queue|) < SLOTS
    {
      entering, futures := entering - {caller}, futures + [Pending];
      queued := |queue| < SLOTS;
      if queued {
        queue := queue + [|futures| - 1];
      } else {
        ReleaseSlot();
      }
    }

    method CancelFuture(f: nat) returns (cancelled: bool)
      requires f < |futures|
      modifies this`futures
      ensures View() == Next(old(View()), Cancel(f))
      ensures cancelled <==> futures[f] in {Cancelled, Notified}
      ensures cancelled <==> old(futures)[f] in {Pending, Cancelled, Notified}
    {
      if futures[f] == Pending {
        futures := futures[f := Cancelled];
      }
      cancelled := futures[f] == Cancelled || futures[f] == Notified;
    }

    method Get(w: nat)
      requires w < |workers| && workers[w].Waiting? && queue != []
      modifies this
      ensures View() == Next(old(View()), Work(w))
    {
      workers, queue := workers[w := Took(queue[0])], queue[1..];
    }

    method SetRunningOrNotifyCancel(w: nat) returns (run: bool)
      requires w < |workers| && workers[w].Took? && workers[w].f < |futures|
      modifies this
      ensures View() == Next(old(View()), Work(w))
      ensures run <==> old(futures[workers[w].f]) != Cancelled
    {
      var f := workers[w].f;
      run := futures[f] != Cancelled;
      if run {
        futures, workers := futures[f := Running], workers[w := Executing(f)];
      } else {
        futures, workers := futures[f := Notified], workers[w := Leaving(f)];
      }
    }

    /** The call returned or raised; either way the future is done. */
    method SetOutcome(w: nat)
      requires w < |workers| && workers[w].Executing? && workers[w].f < |futures|
      modifies this
      ensures View() == Next(old(View()), Work(w))
      ensures futures == old(futures)[old(workers)[w].f := Finished] && workers[w].Leaving?
    {
      futures := futures[workers[w].f := Finished];
      workers := workers[w := Leaving(workers[w].f)];
    }

    method TaskDone(w: nat)
      requires w < |workers| && workers[w].Leaving?
      modifies this
      ensures View() == Next(old(View()), Work(w))
    {
      workers := workers[w := Waiting];
      ReleaseSlot();
    }
  }

  // ---------------------------------------------------------------- the invariant

  function Busy(w: Worker): nat { if w.Waiting? then 0 else 1 }

  /** Work items that hold a slot: being put, queued (also when cancelled), or with a worker. */
  function Admitted(s: State): nat
    requires |s.workers| == WORKERS
  {
    |s.entering| + |s.queue| + Busy(s.workers[0]) + Busy(s.workers[1])
  }

  ghost predicate WorkerOk(s: State, w: Worker) {
    match w
    case Waiting => true
    case Took(f) => f < |s.futures| && (s.futures[f] == Pending || s.futures[f] == Cancelled)
    case Executing(f) => f < |s.futures| && s.futures[f] == Running
    case Leaving(f) => f < |s.futures| && (s.futures[f] == Finished || s.futures[f] == Notified)
  }

  ghost predicate Conserved(s: State) {
    |s.workers| == WORKERS && !s.overflow && s.permits + Admitted(s) == SLOTS
  }

  ghost predicate Lined(queue: seq<nat>, futures: seq<FutureState>) {
    && (forall i, j :: 0 <= i < j < |queue| ==> queue[i] < queue[j])
    && (forall i :: 0 <= i < |queue| ==>
          queue[i] < |futures| && (futures[queue[i]] == Pending || futures[queue[i]] == Cancelled))
  }

  /** Futures move through the queue in order of submission, each through one worker. */
  ghost predicate InOrder(s: State) {
    && Lined(s.queue, s.futures)
    && (forall w, i :: 0 <= w < |s.workers| && !s.workers[w].Waiting? && 0 <= i < |s.queue| ==>
          s.workers[w].f < s.queue[i])
    && (forall w, x :: 0 <= w < x < |s.workers| && !s.workers[w].Waiting? && !s.workers[x].Waiting? ==>
          s.workers[w].f != s.workers[x].f)
    && (forall w :: 0 <= w < |s.workers| ==> WorkerOk(s, s.workers[w]))
  }

  /** A future that runs is the one some worker executes. */
  ghost predicate RunningIsExecuting(s: State) {
    forall f :: 0 <= f < |s.futures| && s.futures[f] == Running ==>
      exists w :: 0 <= w < |s.workers| && s.workers[w] == Executing(f)
  }

  ghost predicate Inv(s: State) { Conserved(s) && InOrder(s) && RunningIsExecuting(s) }

  lemma WorkConserved(s: State, w: nat)
    requires Conserved(s) && w < WORKERS
    ensures Conserved(WorkStep(s, w))
  {
    var t := WorkStep(s, w);
    assert t.workers[1 - w] == s.workers[1 - w];
  }

  lemma NextConserved(s: State, a: Action)
    requires Conserved(s)
    ensures Conserved(Next(s, a))
  {
    if a.Work? && a.w < |s.workers| {
      WorkConserved(s, a.w);
    }
  }

  lemma GetInOrder(s: State, w: nat)
    requires InOrder(s) && w < |s.workers| && s.workers[w].Waiting? && s.queue != []
    ensures InOrder(WorkStep(s, w))
  {
    var t := WorkStep(s, w);
    assert forall i :: 0 <= i < |t.queue| ==> t.queue[i] == s.queue[i + 1];
    forall x | 0 <= x < |t.workers| ensures WorkerOk(t, t.workers[x]) {
      assert x != w ==> WorkerOk(s, s.workers[x]);
    }
  }

  /** A worker that moves its own future on leaves the queue and the other workers' futures alone. */
  lemma MovedInOrder(s: State, t: State, w: nat, to: FutureState, after: Worker)
    requires InOrder(s) && w < |s.workers| && !s.workers[w].Waiting? && s.workers[w].f < |s.futures|
    requires after.Waiting? || after.f == s.workers[w].f
    requires t.queue == s.queue && t.workers == s.workers[w := after]
    requires t.futures == s.futures[s.workers[w].f := to] && WorkerOk(t, after)
    ensures InOrder(t)
  {
    LinedChange(s.queue, s.futures, s.workers[w].f, to);
    forall x | 0 <= x < |t.workers| ensures WorkerOk(t, t.workers[x]) {
      assert WorkerOk(s, s.workers[x]);
    }
  }

  lemma WorkInOrder(s: State, w: nat)
    requires InOrder(s) && w < |s.workers| && !s.workers[w].Waiting?
    ensures InOrder(WorkStep(s, w))
  {
    var t := WorkStep(s, w);
    assert WorkerOk(s, s.workers[w]);
    var f := s.workers[w].f;
    assert t.queue == s.queue && t.futures == s.futures[f := t.futures[f]];
    MovedInOrder(s, t, w, t.futures[f], t.workers[w]);
  }

  lemma LinedPut(queue: seq<nat>, futures: seq<FutureState>)
    requires Lined(queue, futures)
    ensures Lined(queue, futures + [Pending]) && Lined(queue + [|futures|], futures + [Pending])
  {
  }

  lemma LinedChange(queue: seq<nat>, futures: seq<FutureState>, f: nat, to: FutureState)
    requires Lined(queue, futures) && f < |futures|
    requires to == Cancelled || forall i :: 0 <= i < |queue| ==> queue[i] != f
    ensures Lined(queue, futures[f := to])
  {
  }

  /** InOrder looks at the queue, the workers and the futures only. */
  lemma PutInOrder(s: State, t: State)
    requires InOrder(s) && t.workers == s.workers && t.futures == s.futures + [Pending]
    requires t.queue == s.queue || t.queue == s.queue + [|s.futures|]
    ensures InOrder(t)
  {
    LinedPut(s.queue, s.futures);
    forall x | 0 <= x < |t.workers| ensures WorkerOk(t, t.workers[x]) {
      assert WorkerOk(s, s.workers[x]);
    }
    forall w, i | 0 <= w < |t.workers| && !t.workers[w].Waiting? && 0 <= i < |t.queue|
      ensures t.workers[w].f < t.queue[i]
    {
      assert WorkerOk(s, s.workers[w]);
    }
  }

  lemma CancelInOrder(s: State, f: nat)
    requires InOrder(s) && f < |s.futures| && s.futures[f] == Pending
    ensures InOrder(s.(futures := s.futures[f := Cancelled]))
  {
    LinedChange(s.queue, s.futures, f, Cancelled);
    forall x | 0 <= x < |s.workers| ensures WorkerOk(s.(futures := s.futures[f := Cancelled]), s.workers[x]) {
      assert WorkerOk(s, s.workers[x]);
    }
  }

  lemma SameInOrder(s: State, t: State)
    requires InOrder(s) && t.workers == s.workers && t.futures == s.futures && t.queue == s.queue
    ensures InOrder(t)
  {
    forall x | 0 <= x < |t.workers| ensures WorkerOk(t, t.workers[x]) {
      assert WorkerOk(s, s.workers[x]);
    }
  }

  lemma CallerInOrder(s: State, a: Action)
    requires InOrder(s) && !a.Work?
    ensures InOrder(Next(s, a))
  {
    var t := Next(s, a);
    if a.Put? && a.caller in s.entering {
      PutInOrder(s, t);
    } else if a.Cancel? && a.f < |s.futures| && s.futures[a.f] == Pending {
      CancelInOrder(s, a.f);
    } else {
      SameInOrder(s, t);
    }
  }

  lemma NextInOrder(s: State, a: Action)
    requires InOrder(s)
    ensures InOrder(Next(s, a))
  {
    if !a.Work? {
      CallerInOrder(s, a);
    } else if a.w < |s.workers| {
      if !s.workers[a.w].Waiting? {
        WorkInOrder(s, a.w);
      } else if s.queue != [] {
        GetInOrder(s, a.w);
      }
    }
  }

  lemma NextRunning(s: State, a: Action)
    requires RunningIsExecuting(s)
    ensures RunningIsExecuting(Next(s, a))
  {
    var t := Next(s, a);
    forall f | 0 <= f < |t.futures| && t.futures[f] == Running
      ensures exists w :: 0 <= w < |t.workers| && t.workers[w] == Executing(f)
    {
      if f < |s.futures| && s.futures[f] == Running {
        var w :| 0 <= w < |s.workers| && s.workers[w] == Executing(f);
        assert t.workers[w] == Executing(f);
      } else {
        assert t.workers[a.w] == Executing(f);
      }
    }
  }

  // ---------------------------------------------------------------- every run

  function Run(s: State, actions: seq<Action>): State
    decreases |actions|
  {
    if actions == [] then s else Run(Next(s, actions[0]), actions[1..])
  }

  lemma {:induction false} RunKeepsInv(s: State, actions: seq<Action>)
    requires Inv(s)
    ensures Inv(Run(s, actions))
    decreases |actions|
  {
    if actions != [] {
      NextConserved(s, actions[0]);
      NextInOrder(s, actions[0]);
      NextRunning(s, actions[0]);
      RunKeepsInv(Next(s, actions[0]), actions[1..]);
    }
  }

  lemma RunningSet(s: State)
    requires Inv(s)
    ensures |set f: nat | f < |s.futures| && s.futures[f] == Running| <= WORKERS
  {
    var running := set f: nat | f < |s.futures| && s.futures[f] == Running;
    var of := (w: Worker) => if w.Executing? then {w.f} else {};
    var first, second := of(s.workers[0]), of(s.workers[1]);
    forall f | f in running ensures f in first + second {
      var w :| 0 <= w < |s.workers| && s.workers[w] == Executing(f);
    }
    Smaller(running, first + second);
  }

  lemma {:induction false} Smaller(a: set<nat>, b: set<nat>)
    requires a <= b
    ensures |a| <= |b|
  {
    if a != {} {
      var x :| x in a;
      Smaller(a - {x}, b - {x});
    }
  }

  /** In every reachable state free permits and admitted items add up to six, no release overflows the
      semaphore, a permit holder finds room in the queue, and at most two items run. */
  lemma SlotsAreConserved(actions: seq<Action>)
    ensures var s := Run(INITIAL, actions);
            && |s.workers| == WORKERS && s.permits + Admitted(s) == SLOTS
            && !s.overflow
            && (s.entering != {} ==> |s.queue| < SLOTS)
            && |set f: nat | f < |s.futures| && s.futures[f] == Running| <= WORKERS
            && (s.entering == {} && s.queue == [] && s.workers == [Waiting, Waiting] ==> s.permits == SLOTS)
  {
    RunKeepsInv(INITIAL, actions);
    RunningSet(Run(INITIAL, actions));
  }

  /** The only ways a future changes. */
  predicate Moves(before: FutureState, after: FutureState) {
    || before == after
    || (before == Pending && (after == Running || after == Cancelled))
    || (before == Running && after == Finished)
    || (before == Cancelled && after == Notified)
  }

  lemma NextMoves(s: State, a: Action)
    requires InOrder(s)
    ensures |s.futures| <= |Next(s, a).futures|
    ensures forall f :: 0 <= f < |s.futures| ==> Moves(s.futures[f], Next(s, a).futures[f])
  {
    if a.Work? && a.w < |s.workers| {
      assert WorkerOk(s, s.workers[a.w]);
    }
  }

  /** A cancelled item keeps its slot but is never executed. */
  lemma {:induction false} CancelledNeverRuns(s: State, actions: seq<Action>, f: nat)
    requires Inv(s) && f < |s.futures| && s.futures[f] in {Cancelled, Notified}
    ensures f < |Run(s, actions).futures| && Run(s, actions).futures[f] in {Cancelled, Notified}
    decreases |actions|
  {
    if actions != [] {
      NextConserved(s, actions[0]);
      NextInOrder(s, actions[0]);
      NextRunning(s, actions[0]);
      NextMoves(s, actions[0]);
      CancelledNeverRuns(Next(s, actions[0]), actions[1..], f);
    }
  }

  // ---------------------------------------------------------------- workers always free every slot

  /** What is left for the workers to do once nobody submits. */
  function Left(s: State): nat
    requires |s.workers| == WORKERS
  {
    4 * |s.queue| + Share(s.workers[0]) + Share(s.workers[1])
  }

  function Share(w: Worker): nat {
    match w
    case Waiting => 0
    case Took(_) => 3
    case Executing(_) => 2
    case Leaving(_) => 1
  }

  /** A worker that is not blocked. */
  function Turn(s: State): Action
    requires |s.workers| == WORKERS
  {
    Work(if s.workers[0].Waiting? && (s.queue == [] || !s.workers[1].Waiting?) then 1 else 0)
  }

  lemma TurnAdvances(s: State)
    requires Inv(s) && Left(s) > 0
    ensures Inv(Next(s, Turn(s))) && Left(Next(s, Turn(s))) < Left(s) && Next(s, Turn(s)).entering == s.entering
  {
    assert WorkerOk(s, s.workers[0]) && WorkerOk(s, s.workers[1]);
    NextConserved(s, Turn(s));
    NextInOrder(s, Turn(s));
    NextRunning(s, Turn(s));
  }

  /** From every reachable state with no caller mid-submit, worker steps alone lead to six free permits:
      cancellation never leaks a slot. */
  lemma {:induction false} EverySlotComesBack(s: State) returns (actions: seq<Action>)
    requires Inv(s) && s.entering == {}
    ensures forall a :: a in actions ==> a.Work?
    ensures Run(s, actions).permits == SLOTS
    decreases Left(s)
  {
    if Left(s) == 0 {
      actions := [];
    } else {
      TurnAdvances(s);
      var rest := EverySlotComesBack(Next(s, Turn(s)));
      actions := [Turn(s)] + rest;
      assert actions[1..] == rest;
    }
  }
}
