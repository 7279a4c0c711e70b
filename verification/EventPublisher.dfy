/**
  The gateway's event publisher: a bounded queue between callers and a pool of workers. Enqueueing never blocks; what
  finds no room, or comes after the queue was closed, is dropped and counted. One step is one atomic channel operation
  or one finished publish attempt.
*/
module EventPublisher {
  import opened Common

  /** A job is the encoded event; equal events are equal jobs, so jobs are counted rather than named. */
  type Job = nat

  /** The configuration is refused unless the queue has room for at least one job; a channel without room is another thing. */
  type Size = n: nat | n >= 1 witness 1
  datatype Config = Config(workers: nat, capacity: Size)

  /** The last four fields record the past: what was offered, accepted, refused, taken by a worker and attempted. */
  datatype State = State(
    queue: seq<Job>, inHand: seq<Option<Job>>, closed: bool, dropped: nat,
    offered: seq<Job>, accepted: seq<Job>, refused: seq<Job>, taken: seq<Job>, attempted: seq<Job>)

  datatype Step = Enqueue(job: Job) | Take(worker: nat) | Finish(worker: nat) | Cancel

  function Start(cfg: Config): State {
    State([], seq(cfg.workers, _ => None), false, 0, [], [], [], [], [])
  }

  function Enqueued(y: State, cfg: Config, j: Job): State {
    if y.closed || |y.queue| >= cfg.capacity
    then y.(dropped := y.dropped + 1, offered := y.offered + [j], refused := y.refused + [j])
    else y.(queue := y.queue + [j], offered := y.offered + [j], accepted := y.accepted + [j])
  }

  predicate CanTake(y: State, w: nat) {
    w < |y.inHand| && y.inHand[w].None? && y.queue != []
  }

  function Taken(y: State, w: nat): State
    requires CanTake(y, w)
  {
    y.(queue := y.queue[1..], inHand := y.inHand[w := Some(y.queue[0])], taken := y.taken + [y.queue[0]])
  }

  predicate CanFinish(y: State, w: nat) {
    w < |y.inHand| && y.inHand[w].Some?
  }

  /** The attempt is over, whether or not it succeeded. */
  function Finished(y: State, w: nat): State
    requires CanFinish(y, w)
  {
    y.(inHand := y.inHand[w := None], attempted := y.attempted + [y.inHand[w].value])
  }

  function Next(y: State, cfg: Config, step: Step): State {
    match step
    case Enqueue(j) => Enqueued(y, cfg, j)
    case Take(w) => if CanTake(y, w) then Taken(y, w) else y
    case Finish(w) => if CanFinish(y, w) then Finished(y, w) else y
    case Cancel => y.(closed := true)
  }

  function Run(y: State, cfg: Config, steps: seq<Step>): State
    decreases |steps|
  {
    if steps == [] then y else Run(Next(y, cfg, steps[0]), cfg, steps[1..])
  }

  // ---- Conservation ----

  function InHand(slots: seq<Option<Job>>): multiset<Job> {
    if slots == [] then multiset{}
    else (if slots[0].Some? then multiset{slots[0].value} else multiset{}) + InHand(slots[1..])
  }

  lemma {:induction false} InHandAfter(slots: seq<Option<Job>>, w: nat, j: Job)
    requires w < |slots| && slots[w].None?
    ensures InHand(slots[w := Some(j)]) == InHand(slots) + multiset{j}
    ensures slots[w := Some(j)][w := None] == slots
  {
    if w > 0 {
      InHandAfter(slots[1..], w - 1, j);
      assert slots[w := Some(j)][1..] == slots[1..][w - 1 := Some(j)];
    } else {
      assert slots[w := Some(j)][1..] == slots[1..];
    }
  }

  ghost predicate Conserved(y: State) {
    && multiset(y.offered) == multiset(y.accepted) + multiset(y.refused)
    && y.dropped == |y.refused|
    && y.accepted == y.taken + y.queue
    && multiset(y.taken) == multiset(y.attempted) + InHand(y.inHand)
  }

  ghost predicate Inv(y: State, cfg: Config) {
    && |y.queue| <= cfg.capacity && |y.inHand| == cfg.workers
    && Conserved(y)
  }

  lemma TakeKeepsConserved(y: State, w: nat)
    requires Conserved(y) && CanTake(y, w)
    ensures Conserved(Taken(y, w))
  {
    assert y.queue == [y.queue[0]] + y.queue[1..];
    InHandAfter(y.inHand, w, y.queue[0]);
  }

  lemma FinishKeepsConserved(y: State, w: nat)
    requires Conserved(y) && CanFinish(y, w)
    ensures Conserved(Finished(y, w))
  {
    var idle := y.inHand[w := None];
    InHandAfter(idle, w, y.inHand[w].value);
    assert idle[w := y.inHand[w]] == y.inHand;
  }

  lemma CountOneMore(xs: seq<Job>, j: Job)
    ensures multiset(xs + [j]) == multiset(xs) + multiset{j}
  {
  }

  lemma EnqueueKeepsConserved(y: State, cfg: Config, j: Job)
    requires Conserved(y)
    ensures Conserved(Enqueued(y, cfg, j))
  {
    var y' := Enqueued(y, cfg, j);
    CountOneMore(y.offered, j);
    if y.closed || |y.queue| >= cfg.capacity {
      CountOneMore(y.refused, j);
      assert y'.accepted == y.accepted && y'.taken == y.taken && y'.inHand == y.inHand && y'.attempted == y.attempted;
      assert multiset(y'.offered) == multiset(y'.accepted) + multiset(y'.refused);
    } else {
      CountOneMore(y.accepted, j);
      assert y.taken + (y.queue + [j]) == (y.taken + y.queue) + [j];
      assert y'.refused == y.refused && y'.taken == y.taken && y'.inHand == y.inHand && y'.attempted == y.attempted;
      assert multiset(y'.offered) == multiset(y'.accepted) + multiset(y'.refused);
    }
  }

  lemma NextKeepsConserved(y: State, cfg: Config, step: Step)
    requires Conserved(y)
    ensures Conserved(Next(y, cfg, step))
  {
    match step
    case Enqueue(j) => EnqueueKeepsConserved(y, cfg, j);
    case Take(w) =>
      if CanTake(y, w) { TakeKeepsConserved(y, w); }
    case Finish(w) =>
      if CanFinish(y, w) { FinishKeepsConserved(y, w); }
    case Cancel => CancelKeepsConserved(y);
  }

  lemma CancelKeepsConserved(y: State)
    requires Conserved(y)
    ensures Conserved(y.(closed := true))
  {
  }

  lemma NextKeepsSizes(y: State, cfg: Config, step: Step)
    requires |y.queue| <= cfg.capacity && |y.inHand| == cfg.workers
    ensures |Next(y, cfg, step).queue| <= cfg.capacity && |Next(y, cfg, step).inHand| == cfg.workers
  {
  }

  lemma NextKeepsInv(y: State, cfg: Config, step: Step)
    requires Inv(y, cfg)
    ensures Inv(Next(y, cfg, step), cfg)
  {
    NextKeepsConserved(y, cfg, step);
    NextKeepsSizes(y, cfg, step);
  }

  lemma {:induction false} RunKeepsInv(y: State, cfg: Config, steps: seq<Step>)
    requires Inv(y, cfg)
    ensures Inv(Run(y, cfg, steps), cfg)
    decreases |steps|
  {
    if steps != [] {
      NextKeepsInv(y, cfg, steps[0]);
      RunKeepsInv(Next(y, cfg, steps[0]), cfg, steps[1..]);
    }
  }

  lemma {:induction false} NothingInHand(slots: seq<Option<Job>>)
    requires forall i :: 0 <= i < |slots| ==> slots[i].None?
    ensures InHand(slots) == multiset{}
  {
    if slots != [] {
      NothingInHand(slots[1..]);
    }
  }

  /** In every reachable state: jobs offered = jobs dropped + queued + in flight + attempted, each as often as offered. */
  lemma JobsAreConserved(cfg: Config, steps: seq<Step>)
    ensures var y := Run(Start(cfg), cfg, steps);
            && multiset(y.offered) == multiset(y.refused) + multiset(y.queue) + InHand(y.inHand) + multiset(y.attempted)
            && y.dropped == |y.refused|
            && |y.queue| <= cfg.capacity
  {
    NothingInHand(Start(cfg).inHand);
    RunKeepsInv(Start(cfg), cfg, steps);
    var y := Run(Start(cfg), cfg, steps);
    assert multiset(y.accepted) == multiset(y.taken) + multiset(y.queue);
  }

  lemma {:induction false} ClosedByCancel(y: State, cfg: Config, steps: seq<Step>)
    ensures Run(y, cfg, steps).closed <==> y.closed || Cancel in steps
    decreases |steps|
  {
    if steps != [] {
      ClosedByCancel(Next(y, cfg, steps[0]), cfg, steps[1..]);
    }
  }

  /**
    In every reachable state an offer is accepted, behind all others, if and only if the publisher has not been cancelled
    and the jobs accepted and not yet taken are fewer than the capacity; otherwise it is dropped and counted.
  */
  lemma AcceptedIffRoom(cfg: Config, steps: seq<Step>, j: Job)
    ensures var y, y' := Run(Start(cfg), cfg, steps), Next(Run(Start(cfg), cfg, steps), cfg, Enqueue(j));
            && y'.offered == y.offered + [j] && y'.taken == y.taken && y'.attempted == y.attempted
            && (Cancel !in steps && |y.accepted| - |y.taken| < cfg.capacity ==>
                  y'.accepted == y.accepted + [j] && y'.queue == y.queue + [j] && y'.dropped == y.dropped && y'.refused == y.refused)
            && (Cancel in steps || |y.accepted| - |y.taken| >= cfg.capacity ==>
                  y'.accepted == y.accepted && y'.queue == y.queue && y'.dropped == y.dropped + 1 && y'.refused == y.refused + [j])
  {
    NothingInHand(Start(cfg).inHand);
    RunKeepsInv(Start(cfg), cfg, steps);
    ClosedByCancel(Start(cfg), cfg, steps);
  }

  // ---- Shutdown ----

  /** Run returns once the queue is closed and empty and every worker has come back. */
  ghost predicate Returned(y: State) {
    y.closed && y.queue == [] && forall w :: 0 <= w < |y.inHand| ==> y.inHand[w].None?
  }

  /** When Run returns, every accepted job was attempted, exactly as often as it was accepted, and no other job was. */
  lemma EveryAcceptedJobIsAttempted(cfg: Config, steps: seq<Step>)
    ensures var y := Run(Start(cfg), cfg, steps);
            Returned(y) ==> multiset(y.attempted) == multiset(y.accepted)
  {
    NothingInHand(Start(cfg).inHand);
    RunKeepsInv(Start(cfg), cfg, steps);
    var y := Run(Start(cfg), cfg, steps);
    if Returned(y) {
      NothingInHand(y.inHand);
      assert y.taken + [] == y.taken;
    }
  }

  /** How many worker steps are left: two for a queued job, one for a job in hand. */
  function Busy(slots: seq<Option<Job>>): nat {
    if slots == [] then 0 else (if slots[0].Some? then 1 else 0) + Busy(slots[1..])
  }

  function WorkLeft(y: State): nat { 2 * |y.queue| + Busy(y.inHand) }

  lemma {:induction false} BusyAfter(slots: seq<Option<Job>>, w: nat, j: Job)
    requires w < |slots| && slots[w].None?
    ensures Busy(slots[w := Some(j)]) == Busy(slots) + 1
  {
    if w > 0 {
      BusyAfter(slots[1..], w - 1, j);
      assert slots[w := Some(j)][1..] == slots[1..][w - 1 := Some(j)];
    } else {
      assert slots[w := Some(j)][1..] == slots[1..];
    }
  }

  /** After the close nothing is accepted any more, and every step a worker can take leaves less work. */
  lemma ClosedQueueDrains(y: State, cfg: Config, step: Step)
    requires y.closed
    ensures var y' := Next(y, cfg, step);
            && y'.closed && y'.accepted == y.accepted && WorkLeft(y') <= WorkLeft(y)
            && (step.Take? && CanTake(y, step.worker) ==> WorkLeft(y') < WorkLeft(y))
            && (step.Finish? && CanFinish(y, step.worker) ==> WorkLeft(y') < WorkLeft(y))
  {
    match step
    case Take(w) =>
      if CanTake(y, w) { BusyAfter(y.inHand, w, y.queue[0]); }
    case Finish(w) =>
      if CanFinish(y, w) {
        var idle := y.inHand[w := None];
        BusyAfter(idle, w, y.inHand[w].value);
        assert idle[w := y.inHand[w]] == y.inHand;
      }
    case _ =>
  }

  /** Shutdown never gets stuck: with at least one worker, some worker can move until Run returns. */
  lemma ShutdownIsNotStuck(y: State, cfg: Config)
    requires Inv(y, cfg) && y.closed && cfg.workers > 0 && !Returned(y)
    ensures exists w: nat :: CanTake(y, w) || CanFinish(y, w)
  {
    if w: nat :| w < |y.inHand| && y.inHand[w].Some? {
      assert CanFinish(y, w);
    } else {
      assert CanTake(y, 0);
    }
  }

  // ---- One worker ----

  function InOrder(slot: Option<Job>): seq<Job> { if slot.Some? then [slot.value] else [] }

  ghost predicate OrderKept(y: State) {
    |y.inHand| == 1 && y.taken == y.attempted + InOrder(y.inHand[0])
  }

  lemma NextKeepsOrder(y: State, cfg: Config, step: Step)
    requires OrderKept(y)
    ensures OrderKept(Next(y, cfg, step))
  {
    match step
    case Take(w) =>
      if CanTake(y, w) {
        assert w == 0;
        assert y.attempted + [] == y.attempted;
      }
    case Finish(w) =>
      if CanFinish(y, w) {
        assert w == 0;
        assert y.attempted + [y.inHand[0].value] + [] == y.taken;
      }
    case _ =>
  }

  /** A single worker attempts jobs in the order they were accepted. */
  lemma {:induction false} OneWorkerKeepsOrder(y: State, cfg: Config, steps: seq<Step>)
    requires Inv(y, cfg) && cfg.workers == 1 && OrderKept(y)
    ensures OrderKept(Run(y, cfg, steps)) && Inv(Run(y, cfg, steps), cfg)
    ensures Run(y, cfg, steps).attempted <= Run(y, cfg, steps).accepted
    decreases |steps|
  {
    if steps != [] {
      NextKeepsInv(y, cfg, steps[0]);
      NextKeepsOrder(y, cfg, steps[0]);
      OneWorkerKeepsOrder(Next(y, cfg, steps[0]), cfg, steps[1..]);
    }
  }

  lemma RunTwo(y: State, cfg: Config, steps: seq<Step>)
    requires |steps| >= 2
    ensures Run(y, cfg, steps) == Run(Next(Next(y, cfg, steps[0]), cfg, steps[1]), cfg, steps[2..])
  {
    assert steps[1..][1..] == steps[2..];
  }

  /** Two jobs, each in the hands of a worker, and the later one is finished first. */
  function Overtaking(a: Job, b: Job): seq<Step> {
    [Enqueue(a), Take(0), Enqueue(b), Take(1), Finish(1), Finish(0)]
  }

  /** With two workers or more, any two jobs can be attempted in the opposite order. */
  lemma WorkersMayReorder(cfg: Config, a: Job, b: Job)
    requires cfg.workers >= 2
    ensures Run(Start(cfg), cfg, Overtaking(a, b)).accepted == [a, b]
    ensures Run(Start(cfg), cfg, Overtaking(a, b)).attempted == [b, a]
  {
    var steps, y0 := Overtaking(a, b), Start(cfg);
    var y2 := y0.(inHand := y0.inHand[0 := Some(a)], offered := [a], accepted := [a], taken := [a]);
    assert Next(Next(y0, cfg, steps[0]), cfg, steps[1]) == y2;
    var y4 := y2.(inHand := y2.inHand[1 := Some(b)], offered := [a, b], accepted := [a, b], taken := [a, b]);
    assert Next(Next(y2, cfg, steps[2]), cfg, steps[3]) == y4;
    var y6 := y4.(inHand := y4.inHand[1 := None][0 := None], attempted := [b, a]);
    assert Next(Next(y4, cfg, steps[4]), cfg, steps[5]) == y6;
    RunTwo(y0, cfg, steps);
    RunTwo(y2, cfg, steps[2..]);
    RunTwo(y4, cfg, steps[4..]);
    assert steps[2..][2..] == steps[4..] && steps[4..][2..] == [];
  }

  /** Without workers nothing is ever attempted. */
  lemma {:induction false} StaysIdle(y: State, cfg: Config, steps: seq<Step>)
    requires y.inHand == [] && y.attempted == []
    ensures Run(y, cfg, steps).attempted == []
    decreases |steps|
  {
    if steps != [] {
      StaysIdle(Next(y, cfg, steps[0]), cfg, steps[1..]);
    }
  }

  /** In every run jobs are attempted in the order they were accepted. */
  ghost predicate KeepsOrder(cfg: Config) {
    forall steps :: Run(Start(cfg), cfg, steps).attempted <= Run(Start(cfg), cfg, steps).accepted
  }

  /** Order is kept if and only if there is at most one worker. */
  lemma KeepsOrderIff(cfg: Config)
    ensures KeepsOrder(cfg) <==> cfg.workers <= 1
  {
    if cfg.workers >= 2 {
      var y := Run(Start(cfg), cfg, Overtaking(7, 8));
      WorkersMayReorder(cfg, 7, 8);
      assert y.attempted[0] != y.accepted[0];
    } else {
      NothingInHand(Start(cfg).inHand);
      forall steps ensures Run(Start(cfg), cfg, steps).attempted <= Run(Start(cfg), cfg, steps).accepted {
        if cfg.workers == 1 {
          OneWorkerKeepsOrder(Start(cfg), cfg, steps);
        } else {
          StaysIdle(Start(cfg), cfg, steps);
        }
      }
    }
  }

  // ---- The publisher itself ----

  class Publisher {
    const capacity: Size
    const workers: nat
    var queue: seq<Job>
    var inHand: seq<Option<Job>>
    var dropped: nat
    var closed: bool
    ghost var offered: seq<Job>
    ghost var accepted: seq<Job>
    ghost var refused: seq<Job>
    ghost var taken: seq<Job>
    ghost var attempted: seq<Job>

    constructor (workers: nat, capacity: Size)
      ensures this.workers == workers && this.capacity == capacity
      ensures View() == Start(Cfg())
    {
      this.workers, this.capacity := workers, capacity;
      queue, inHand, dropped, closed := [], seq(workers, _ => None), 0, false;
      offered, accepted, refused, taken, attempted := [], [], [], [], [];
    }

    ghost function Cfg(): Config { Config(workers, capacity) }

    ghost function View(): State
      reads this
    {
      State(queue, inHand, closed, dropped, offered, accepted, refused, taken, attempted)
    }

    /** Drops the job when the publisher is closed or the queue has no room; never waits. */
    method Submit(j: Job)
      modifies this
      ensures View() == Next(old(View()), Cfg(), Enqueue(j))
    {
      offered := offered + [j];
      if closed || |queue| >= capacity {
        dropped := dropped + 1;
        refused := refused + [j];
        return;
      }
      queue := queue + [j];
      accepted := accepted + [j];
    }

    method Receive(w: nat)
      requires CanTake(View(), w)
      modifies this
      ensures View() == Next(old(View()), Cfg(), Take(w))
    {
      inHand := inHand[w := Some(queue[0])];
      taken := taken + [queue[0]];
      queue := queue[1..];
    }

    method Publish(w: nat)
      requires CanFinish(View(), w)
      modifies this
      ensures View() == Next(old(View()), Cfg(), Finish(w))
    {
      attempted := attempted + [inHand[w].value];
      inHand := inHand[w := None];
    }

    /** A worker's loop over the closed queue: it takes and attempts what is left, in order. */
    method Drain(w: nat)
      requires closed && w < |inHand| && inHand[w].None?
      modifies this
      ensures queue == [] && attempted == old(attempted + queue) && taken == old(taken + queue)
      ensures closed && inHand == old(inHand) && accepted == old(accepted) && dropped == old(dropped)
    {
      while queue != []
        invariant closed && inHand == old(inHand) && accepted == old(accepted) && dropped == old(dropped)
        invariant attempted + queue == old(attempted + queue) && taken + queue == old(taken + queue)
        decreases |queue|
      {
        assert queue == [queue[0]] + queue[1..];
        Receive(w);
        Publish(w);
      }
    }
  }
}
