/**
  The thumbnail worker over a Valkey stream with a consumer group: the stream counts deliveries of unacknowledged jobs,
  the worker retries transient failures by reclaiming, and gives up at the third delivery. One worker, one job at a
  time; it may crash between jobs, and acknowledgements may get lost.
*/
module ThumbnailWorker {
  import opened Common

  const MAX_RETRIES := 3
  const CLAIM_COUNT := 10

  datatype Outcome = Malformed | Succeeded | FailedForGood | FailedForNow

  /** How one processing goes: whether XPENDING answered, and whether the acknowledgement, if any, arrived. */
  datatype Attempt = Attempt(outcome: Outcome, readable: bool, ackArrives: bool)

  /** runs and lost are history: how often a thumbnail was attempted, and how many acknowledgements got lost. */
  datatype State = State(
    added: set<Id>, waiting: seq<Id>, pending: map<Id, nat>, claimed: seq<Id>, acked: set<Id>,
    runs: map<Id, nat>, lost: map<Id, nat>)

  datatype Step = Add(id: Id) | Read | Claim(ids: seq<Id>) | Process(attempt: Attempt) | Crash

  function Count(m: map<Id, nat>, id: Id): nat { if id in m then m[id] else 0 }

  function Redelivered(pending: map<Id, nat>, ids: seq<Id>): map<Id, nat> {
    map id | id in pending :: pending[id] + if id in ids then 1 else 0
  }

  /** XAUTOCLAIM: some pending jobs, each once, up to its count; which ones have been idle long enough is open. */
  ghost predicate Claimable(pending: map<Id, nat>, ids: seq<Id>) {
    && |ids| <= CLAIM_COUNT
    && (forall id :: id in ids ==> id in pending)
    && (forall i, j :: 0 <= i < j < |ids| ==> ids[i] != ids[j])
  }

  /** The delivery count processJob goes by: an unanswered or empty XPENDING counts as exhausted. */
  function Deliveries(pending: map<Id, nat>, id: Id, readable: bool): nat {
    if readable && id in pending then pending[id] else MAX_RETRIES
  }

  function AckDue(pending: map<Id, nat>, id: Id, a: Attempt): bool {
    a.outcome != FailedForNow || Deliveries(pending, id, a.readable) >= MAX_RETRIES
  }

  function Processed(y: State, a: Attempt): State
    requires y.claimed != []
  {
    var id := y.claimed[0];
    var due := AckDue(y.pending, id, a);
    y.(claimed := y.claimed[1..],
       pending := if due && a.ackArrives then y.pending - {id} else y.pending,
       acked := if due && a.ackArrives then y.acked + {id} else y.acked,
       runs := if a.outcome.Malformed? then y.runs else y.runs[id := Count(y.runs, id) + 1],
       lost := if due && !a.ackArrives then y.lost[id := Count(y.lost, id) + 1] else y.lost)
  }

  ghost function Next(y: State, step: Step): State {
    match step
    case Add(id) =>
      if id in y.added then y else y.(added := y.added + {id}, waiting := y.waiting + [id])
    case Read =>
      if y.claimed != [] || y.waiting == [] then y
      else y.(waiting := y.waiting[1..], pending := y.pending[y.waiting[0] := 1], claimed := [y.waiting[0]])
    case Claim(ids) =>
      if y.claimed != [] || !Claimable(y.pending, ids) then y
      else y.(pending := Redelivered(y.pending, ids), claimed := ids)
    case Process(a) => if y.claimed == [] then y else Processed(y, a)
    case Crash => y.(claimed := [])
  }

  ghost function Run(y: State, steps: seq<Step>): State
    decreases |steps|
  {
    if steps == [] then y else Run(Next(y, steps[0]), steps[1..])
  }

  const EMPTY := State({}, [], map[], [], {}, map[], map[])

  // ---- Invariant ----

  ghost predicate Distinct(ids: seq<Id>) {
    forall i, j :: 0 <= i < j < |ids| ==> ids[i] != ids[j]
  }

  /** Every job added is waiting, pending or acknowledged, and only one of these. */
  ghost predicate PlacesOk(y: State) {
    && Distinct(y.waiting) && Distinct(y.claimed)
    && (forall id :: id in y.claimed ==> id in y.pending)
    && (forall id :: id in y.added <==> id in y.waiting || id in y.pending || id in y.acked)
    && (forall id :: id in y.waiting ==> id !in y.pending && id !in y.acked)
    && (forall id :: id in y.pending ==> id !in y.acked)
  }

  /** A delivery not yet processed has not run; a pending job has been spared acknowledgement by every run so far. */
  ghost predicate PendingOk(y: State, id: Id)
    requires id in y.pending
  {
    && Count(y.runs, id) + (if id in y.claimed then 1 else 0) <= y.pending[id]
    && Count(y.runs, id) < MAX_RETRIES + Count(y.lost, id)
  }

  ghost predicate RunsOk(y: State) {
    && (forall id :: id in y.pending ==> PendingOk(y, id))
    && (forall id :: id !in y.pending && id !in y.acked ==> Count(y.runs, id) == 0)
    && (forall id :: Count(y.runs, id) <= MAX_RETRIES + Count(y.lost, id))
  }

  ghost predicate Inv(y: State) { PlacesOk(y) && RunsOk(y) }

  lemma TailOf(ids: seq<Id>)
    requires ids != [] && Distinct(ids)
    ensures Distinct(ids[1..]) && ids[0] !in ids[1..]
    ensures forall id :: id in ids <==> id == ids[0] || id in ids[1..]
  {
  }

  lemma ReadKeepsInv(y: State)
    requires Inv(y)
    ensures Inv(Next(y, Read))
  {
    if y.claimed == [] && y.waiting != [] {
      TailOf(y.waiting);
      var y' := Next(y, Read);
      forall id | id in y'.pending ensures PendingOk(y', id) {
        assert id != y.waiting[0] ==> PendingOk(y, id);
      }
    }
  }

  lemma ClaimKeepsInv(y: State, ids: seq<Id>)
    requires Inv(y)
    ensures Inv(Next(y, Claim(ids)))
  {
    if y.claimed == [] && Claimable(y.pending, ids) {
      var y' := Next(y, Claim(ids));
      forall id | id in y'.pending ensures PendingOk(y', id) {
        assert PendingOk(y, id);
      }
    }
  }

  lemma ProcessKeepsPlaces(y: State, a: Attempt)
    requires PlacesOk(y) && y.claimed != []
    ensures PlacesOk(Processed(y, a))
  {
    TailOf(y.claimed);
  }

  lemma ProcessKeepsRuns(y: State, a: Attempt)
    requires Inv(y) && y.claimed != []
    ensures RunsOk(Processed(y, a))
  {
    TailOf(y.claimed);
    var y', id := Processed(y, a), y.claimed[0];
    assert PendingOk(y, id);
    forall d | d in y'.pending ensures PendingOk(y', d) {
      assert PendingOk(y, d);
    }
    forall d ensures Count(y'.runs, d) <= MAX_RETRIES + Count(y'.lost, d) {
      assert Count(y.runs, d) <= MAX_RETRIES + Count(y.lost, d);
    }
  }

  lemma NextKeepsInv(y: State, step: Step)
    requires Inv(y)
    ensures Inv(Next(y, step))
  {
    match step
    case Add(id) =>
    case Read => ReadKeepsInv(y);
    case Claim(ids) => ClaimKeepsInv(y, ids);
    case Process(a) =>
      if y.claimed != [] {
        ProcessKeepsPlaces(y, a);
        ProcessKeepsRuns(y, a);
      }
    case Crash =>
      forall id | id in y.pending ensures PendingOk(Next(y, step), id) {
        assert PendingOk(y, id);
      }
  }

  lemma {:induction false} RunKeepsInv(y: State, steps: seq<Step>)
    requires Inv(y)
    ensures Inv(Run(y, steps))
    decreases |steps|
  {
    if steps != [] {
      NextKeepsInv(y, steps[0]);
      RunKeepsInv(Next(y, steps[0]), steps[1..]);
    }
  }

  /**
    Over every run, however often the worker crashed between jobs: a job's thumbnail is attempted at most MAX_RETRIES
    times, plus once for every acknowledgement of that job that got lost; and no job is lost.
  */
  lemma AttemptsAreBounded(steps: seq<Step>, id: Id)
    ensures var y := Run(EMPTY, steps);
            && Count(y.runs, id) <= MAX_RETRIES + Count(y.lost, id)
            && (id in y.added <==> id in y.waiting || id in y.pending || id in y.acked)
  {
    RunKeepsInv(EMPTY, steps);
  }

  /** An acknowledged job stays acknowledged and is never attempted again. */
  lemma {:induction false} AckedForGood(y: State, steps: seq<Step>, id: Id)
    requires Inv(y) && id in y.acked
    ensures id in Run(y, steps).acked && Count(Run(y, steps).runs, id) == Count(y.runs, id)
    decreases |steps|
  {
    if steps != [] {
      NextKeepsInv(y, steps[0]);
      var y' := Next(y, steps[0]);
      assert id in y'.acked && Count(y'.runs, id) == Count(y.runs, id);
      AckedForGood(y', steps[1..], id);
    }
  }

  /**
    How one processing ends. The job leaves the stream for good if and only if the acknowledgement arrives and the job was
    malformed, succeeded, failed for good, or failed for now on its third delivery or later (or on an unreadable count);
    a malformed job is not attempted, any other one once more.
  */
  lemma ProcessingIsExact(y: State, a: Attempt)
    requires Inv(y) && y.claimed != []
    ensures var id, y' := y.claimed[0], Next(y, Process(a));
            && id in y.pending && y'.claimed == y.claimed[1..]
            && (var over := a.outcome == Malformed || a.outcome == Succeeded || a.outcome == FailedForGood
                            || !a.readable || y.pending[id] >= 3;
                && (id in y'.acked <==> over && a.ackArrives)
                && (id in y'.pending <==> !(over && a.ackArrives))
                && Count(y'.lost, id) == Count(y.lost, id) + if over && !a.ackArrives then 1 else 0)
            && Count(y'.runs, id) == Count(y.runs, id) + (if a.outcome == Malformed then 0 else 1)
            && (forall d :: d != id ==>
                  && (d in y'.pending <==> d in y.pending) && (d in y.pending ==> y'.pending[d] == y.pending[d])
                  && (d in y'.acked <==> d in y.acked) && Count(y'.runs, d) == Count(y.runs, d) && Count(y'.lost, d) == Count(y.lost, d))
  {
  }

  /** Different jobs, all of them among the given ones. */
  ghost predicate IsBatchOf(ids: seq<Id>, jobs: set<Id>) {
    (forall i, j :: 0 <= i < j < |ids| ==> ids[i] != ids[j]) && (forall d :: d in ids ==> d in jobs)
  }

  /** A first delivery counts as one, and every claim of a job as one more. */
  lemma DeliveriesAreCounted(y: State, ids: seq<Id>, id: Id)
    requires y.claimed == []
    ensures y.waiting != [] ==> var y' := Next(y, Read);
              y'.claimed == [y.waiting[0]] && y'.pending == y.pending[y.waiting[0] := 1] && y'.waiting == y.waiting[1..]
    ensures |ids| <= 10 && IsBatchOf(ids, y.pending.Keys) && id in y.pending ==>
              var y' := Next(y, Claim(ids));
              && y'.claimed == ids && y'.pending.Keys == y.pending.Keys
              && y'.pending[id] == y.pending[id] + if id in ids then 1 else 0
  {
  }

  /** A job that is pending and not in the worker's hands can be claimed and brought to its end by one more delivery. */
  lemma ThirdDeliveryEnds(y: State, id: Id, a: Attempt)
    requires Inv(y) && y.claimed == [] && id in y.pending && y.pending[id] + 1 >= MAX_RETRIES && a.ackArrives
    ensures var y' := Next(Next(y, Claim([id])), Process(a));
            id in y'.acked && id !in y'.pending
  {
    assert Claimable(y.pending, [id]);
  }

  // ---- The bound is met ----

  const FAILS := Attempt(FailedForNow, true, true)
  const UNHEARD := Attempt(FailedForNow, true, false)

  function LostAcks(id: Id, n: nat): map<Id, nat> { if n == 0 then map[] else map[id := n] }

  /** A job delivered and attempted n times, l of its acknowledgements lost. */
  function Tried(id: Id, n: nat, l: nat): State {
    State({id}, [], map[id := n], [], {}, map[id := n], LostAcks(id, l))
  }

  /** The same job in the worker's hands once more. */
  function Claimed(id: Id, n: nat, l: nat): State {
    State({id}, [], map[id := n + 1], [id], {}, map[id := n], LostAcks(id, l))
  }

  function Ended(id: Id, n: nat, l: nat): State {
    State({id}, [], map[], [], {id}, map[id := n], LostAcks(id, l))
  }

  /** The job is claimed and processed once more, and then the rest of the run happens. */
  lemma ClaimRound(id: Id, n: nat, l: nat, a: Attempt, rest: seq<Step>)
    ensures Run(Tried(id, n, l), [Claim([id]), Process(a)] + rest) == Run(Processed(Claimed(id, n, l), a), rest)
  {
    var y, steps := Tried(id, n, l), [Claim([id]), Process(a)] + rest;
    assert Claimable(y.pending, [id]);
    assert Redelivered(y.pending, [id]) == map[id := n + 1];
    assert steps[1..] == [Process(a)] + rest && steps[1..][1..] == rest;
  }

  lemma FailsBeforeThird(id: Id, n: nat, l: nat)
    requires n + 1 < MAX_RETRIES
    ensures Processed(Claimed(id, n, l), FAILS) == Tried(id, n + 1, l)
  {
  }

  lemma FailsUnheard(id: Id, n: nat, l: nat)
    requires n + 1 >= MAX_RETRIES
    ensures Processed(Claimed(id, n, l), UNHEARD) == Tried(id, n + 1, l + 1)
  {
  }

  lemma FailsForGood(id: Id, n: nat, l: nat)
    requires n + 1 >= MAX_RETRIES
    ensures Processed(Claimed(id, n, l), FAILS) == Ended(id, n + 1, l)
  {
  }

  /** n more deliveries whose acknowledgements get lost, and one whose acknowledgement arrives. */
  function LostRounds(id: Id, n: nat): seq<Step> {
    if n == 0 then [Claim([id]), Process(FAILS)] + [] else [Claim([id]), Process(UNHEARD)] + LostRounds(id, n - 1)
  }

  lemma LastRound(id: Id, l: nat)
    ensures Run(Tried(id, l + 2, l), LostRounds(id, 0)) == Ended(id, l + 3, l)
  {
    ClaimRound(id, l + 2, l, FAILS, []);
    FailsForGood(id, l + 2, l);
  }

  lemma LostRound(id: Id, l: nat, rest: seq<Step>)
    ensures Run(Tried(id, l + 2, l), [Claim([id]), Process(UNHEARD)] + rest) == Run(Tried(id, l + 3, l + 1), rest)
  {
    ClaimRound(id, l + 2, l, UNHEARD, rest);
    FailsUnheard(id, l + 2, l);
  }

  lemma {:induction false} AfterLostRounds(id: Id, l: nat, n: nat)
    ensures Run(Tried(id, l + 2, l), LostRounds(id, n)) == Ended(id, l + n + 3, l + n)
    decreases n
  {
    if n == 0 {
      LastRound(id, l);
    } else {
      LostRound(id, l, LostRounds(id, n - 1));
      AfterLostRounds(id, l + 1, n - 1);
    }
  }

  lemma FirstRound(id: Id, rest: seq<Step>)
    ensures Run(EMPTY, [Add(id), Read, Process(FAILS)] + rest) == Run(Tried(id, 1, 0), rest)
  {
    var steps := [Add(id), Read, Process(FAILS)] + rest;
    var added := EMPTY.(added := {id}, waiting := [id]);
    var read := State({id}, [], map[id := 1], [id], {}, map[], map[]);
    assert Next(EMPTY, Add(id)) == added && Next(added, Read) == read && Processed(read, FAILS) == Tried(id, 1, 0);
    assert Run(added, [Read, Process(FAILS)] + rest) == Run(read, [Process(FAILS)] + rest) by {
      assert ([Read, Process(FAILS)] + rest)[1..] == [Process(FAILS)] + rest;
    }
    assert steps[1..] == [Read, Process(FAILS)] + rest;
    assert ([Process(FAILS)] + rest)[1..] == rest;
  }

  lemma LostAcksRun(id: Id, n: nat) returns (steps: seq<Step>)
    ensures Run(EMPTY, steps) == Ended(id, n + 3, n)
  {
    var second := [Claim([id]), Process(FAILS)] + LostRounds(id, n);
    steps := [Add(id), Read, Process(FAILS)] + second;
    FirstRound(id, second);
    ClaimRound(id, 1, 0, FAILS, LostRounds(id, n));
    FailsBeforeThird(id, 1, 0);
    AfterLostRounds(id, 0, n);
  }

  ghost predicate GivenUp(y: State, id: Id, attempts: nat, lost: nat) {
    id in y.acked && Count(y.runs, id) == attempts && Count(y.lost, id) == lost
  }

  /** The bound is met for every job and every number n of lost acknowledgements: 3 + n attempts. */
  lemma BoundIsMet(id: Id, n: nat)
    ensures exists steps :: GivenUp(Run(EMPTY, steps), id, MAX_RETRIES + n, n)
  {
    var steps := LostAcksRun(id, n);
    assert GivenUp(Run(EMPTY, steps), id, MAX_RETRIES + n, n);
  }

  // ---- The worker itself ----

  /** The consumer group of the stream, as far as one worker sees it. */
  class Stream {
    var waiting: seq<Id>
    var pending: map<Id, nat>
    var claimed: seq<Id>
    var acked: set<Id>
    ghost var added: set<Id>
    ghost var runs: map<Id, nat>
    ghost var lost: map<Id, nat>

    constructor ()
      ensures View() == EMPTY
    {
      waiting, pending, claimed, acked := [], map[], [], {};
      added, runs, lost := {}, map[], map[];
    }

    ghost function View(): State
      reads this
    {
      State(added, waiting, pending, claimed, acked, runs, lost)
    }

    /** XACK; false when it fails, which is only logged. */
    method Ack(id: Id, arrives: bool)
      modifies this`pending, this`acked, this`lost
      ensures pending == (if arrives then old(pending) - {id} else old(pending))
      ensures acked == (if arrives then old(acked) + {id} else old(acked))
      ensures lost == (if arrives then old(lost) else old(lost)[id := Count(old(lost), id) + 1])
    {
      if arrives {
        pending := pending - {id};
        acked := acked + {id};
      } else {
        lost := lost[id := Count(lost, id) + 1];
      }
    }

    method DeliveryCount(id: Id, readable: bool) returns (n: nat)
      ensures n == Deliveries(pending, id, readable)
    {
      if !readable || id !in pending {
        return MAX_RETRIES;
      }
      n := pending[id];
    }

    method ProcessJob(a: Attempt)
      requires claimed != []
      modifies this
      ensures View() == old(Next(View(), Process(a)))
    {
      var id := claimed[0];
      claimed := claimed[1..];
      if a.outcome == Malformed {
        Ack(id, a.ackArrives);
        return;
      }
      runs := runs[id := Count(runs, id) + 1];
      if a.outcome == FailedForGood || a.outcome == FailedForNow {
        var exhausted := a.outcome == FailedForGood;
        if !exhausted {
          var n := DeliveryCount(id, a.readable);
          exhausted := n >= MAX_RETRIES;
        }
        if exhausted {
          Ack(id, a.ackArrives);
        }
        return;
      }
      Ack(id, a.ackArrives);
    }

    /** XAUTOCLAIM of the given idle jobs, then each of them in turn. */
    method ReclaimStale(ids: seq<Id>, attempts: seq<Attempt>)
      requires claimed == [] && Claimable(pending, ids) && |attempts| == |ids|
      modifies this
      ensures View() == old(Run(View(), [Claim(ids)] + Processing(attempts)))
      ensures claimed == []
    {
      pending := map id | id in pending :: pending[id] + if id in ids then 1 else 0;
      claimed := ids;
      assert ([Claim(ids)] + Processing(attempts))[1..] == Processing(attempts);
      assert View() == Next(old(View()), Claim(ids));
      for i := 0 to |attempts|
        invariant |claimed| == |attempts| - i
        invariant Run(View(), Processing(attempts[i..])) == old(Run(View(), [Claim(ids)] + Processing(attempts)))
      {
        assert attempts[i..][1..] == attempts[i + 1..];
        ProcessJob(attempts[i]);
      }
    }
  }

  function Processing(attempts: seq<Attempt>): seq<Step> {
    if attempts == [] then [] else [Process(attempts[0])] + Processing(attempts[1..])
  }
}
