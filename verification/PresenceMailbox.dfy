/** The Discord presence mailbox: a one-slot, latest-wins mailbox drained by at most one background
    worker, with a flag that producers and retiring workers race on. Every lock acquisition and every
    atomic operation is one step; threads interleave arbitrarily. */
module PresenceMailbox {
  import opened Wrappers
  import opened Sums

  /** Where a thread stands. A producer is `Putting` or `Swapping`; a thread that won the flag is the
      worker (`Taking`, `Processing`, `Clearing`) until it retires through `Checking`. A ticket is the
      position of a job among all jobs ever queued. */
  datatype Pc =
    | Putting(job: string)
    | Swapping
    | Taking
    | Processing(ticket: nat)
    | Clearing
    | Checking
    | Reclaiming
    | Done

  datatype Mailbox = Mailbox(slot: Option<nat>, draining: bool, threads: seq<Pc>, queued: seq<string>,
                             processed: seq<nat>)

  predicate CanStep(m: Mailbox, i: nat) {
    i < |m.threads| && !m.threads[i].Done?
  }

  /** One step of thread `i`. */
  function Next(m: Mailbox, i: nat): Mailbox {
    if !CanStep(m, i) then m
    else
      match m.threads[i]
      case Putting(job) =>
        m.(slot := Some(|m.queued|), queued := m.queued + [job], threads := m.threads[i := Swapping])
      case Swapping => m.(draining := true, threads := m.threads[i := if m.draining then Done else Taking])
      case Taking =>
        if m.slot.None? then m.(threads := m.threads[i := Clearing])
        else m.(slot := None, threads := m.threads[i := Processing(m.slot.value)])
      case Processing(t) => m.(processed := m.processed + [t], threads := m.threads[i := Taking])
      case Clearing => m.(draining := false, threads := m.threads[i := Checking])
      case Checking => m.(threads := m.threads[i := if m.slot.None? then Done else Reclaiming])
      case Reclaiming => m.(draining := true, threads := m.threads[i := if m.draining then Done else Taking])
      case Done => m
  }

  /** A caller arrives with a job. */
  function Arrive(m: Mailbox, job: string): Mailbox {
    m.(threads := m.threads + [Putting(job)])
  }

  datatype Action = Arriving(job: string) | Stepping(i: nat)

  function Act(m: Mailbox, a: Action): Mailbox {
    match a
    case Arriving(job) => Arrive(m, job)
    case Stepping(i) => Next(m, i)
  }

  function Run(m: Mailbox, run: seq<Action>): Mailbox {
    if run == [] then m else Act(Run(m, run[..|run| - 1]), run[|run| - 1])
  }

  const EMPTY := Mailbox(None, false, [], [], [])

  // ----- the invariant

  function Owns(pc: Pc): nat {
    if pc.Taking? || pc.Processing? || pc.Clearing? then 1 else 0
  }

  function Minds(pc: Pc): nat {
    if pc.Swapping? || pc.Checking? || pc.Reclaiming? then 1 else 0
  }

  /** The flag is up exactly while one thread drains. */
  ghost predicate OneWorker(m: Mailbox) {
    SumSeq(m.threads, Owns) == if m.draining then 1 else 0
  }

  /** A waiting job always has a worker, or a thread that still has to look at the flag or slot. */
  ghost predicate JobIsMinded(m: Mailbox) {
    m.slot.Some? ==> m.draining || SumSeq(m.threads, Minds) > 0
  }

  ghost predicate AfterProcessed(m: Mailbox, t: nat) {
    t < |m.queued| && (m.processed != [] ==> m.processed[|m.processed| - 1] < t)
  }

  ghost predicate TicketsInOrder(m: Mailbox) {
    && (forall k :: 0 <= k < |m.processed| ==> m.processed[k] < |m.queued|)
    && (forall k, l :: 0 <= k < l < |m.processed| ==> m.processed[k] < m.processed[l])
    && (m.slot.Some? ==> m.slot.value == |m.queued| - 1 && AfterProcessed(m, m.slot.value))
    && (forall i :: 0 <= i < |m.threads| && m.threads[i].Processing? ==>
          AfterProcessed(m, m.threads[i].ticket) && (m.slot.Some? ==> m.threads[i].ticket < m.slot.value))
  }

  /** The newest job is in the slot, in a worker's hands, or was the last one processed. */
  ghost predicate NewestAccountedFor(m: Mailbox) {
    || m.queued == []
    || m.slot.Some?
    || (m.processed != [] && m.processed[|m.processed| - 1] == |m.queued| - 1)
    || (exists i :: 0 <= i < |m.threads| && m.threads[i] == Processing(|m.queued| - 1))
  }

  ghost predicate Sound(m: Mailbox) {
    OneWorker(m) && JobIsMinded(m) && TicketsInOrder(m) && NewestAccountedFor(m)
  }

  lemma WorkerIsUnique(m: Mailbox, i: nat, j: nat)
    requires OneWorker(m) && i < |m.threads| && j < |m.threads| && Owns(m.threads[i]) == Owns(m.threads[j]) == 1
    ensures i == j && m.draining
  {
    SumSeqAtLeast(m.threads, i, Owns);
    if i < j { SumSeqPair(m.threads, i, j, Owns); } else if j < i { SumSeqPair(m.threads, j, i, Owns); }
  }

  lemma CountsAfter(m: Mailbox, i: nat)
    requires Sound(m) && CanStep(m, i)
    ensures OneWorker(Next(m, i)) && JobIsMinded(Next(m, i))
  {
    var pc := Next(m, i).threads[i];
    SumSeqUpdate(m.threads, i, pc, Owns);
    SumSeqUpdate(m.threads, i, pc, Minds);
    SumSeqAtLeast(m.threads, i, Owns);
    SumSeqAtLeast(m.threads, i, Minds);
  }

  /** A stepping worker is the only thread that can hold a job. */
  lemma OnlyWorkerProcesses(m: Mailbox, i: nat)
    requires OneWorker(m) && i < |m.threads| && Owns(m.threads[i]) == 1
    ensures forall j :: 0 <= j < |m.threads| && m.threads[j].Processing? ==> j == i
  {
    forall j | 0 <= j < |m.threads| && m.threads[j].Processing? ensures j == i {
      WorkerIsUnique(m, i, j);
    }
  }

  lemma WorkerTicketsAfter(m: Mailbox, i: nat)
    requires OneWorker(m) && TicketsInOrder(m) && CanStep(m, i) && Owns(m.threads[i]) == 1
    ensures TicketsInOrder(Next(m, i))
  {
    var n := Next(m, i);
    OnlyWorkerProcesses(m, i);
    assert forall j :: 0 <= j < |n.threads| && n.threads[j].Processing? ==> j == i;
  }

  lemma TicketsAfter(m: Mailbox, i: nat)
    requires OneWorker(m) && TicketsInOrder(m) && CanStep(m, i)
    ensures TicketsInOrder(Next(m, i))
  {
    if Owns(m.threads[i]) == 1 {
      WorkerTicketsAfter(m, i);
    } else {
      var n := Next(m, i);
      forall j | 0 <= j < |n.threads| && n.threads[j].Processing?
        ensures n.threads[j] == m.threads[j] && AfterProcessed(n, n.threads[j].ticket)
      {
        assert AfterProcessed(m, m.threads[j].ticket);
      }
    }
  }

  lemma NewestAfter(m: Mailbox, i: nat)
    requires Sound(m) && CanStep(m, i)
    ensures NewestAccountedFor(Next(m, i))
  {
    var n, newest := Next(m, i), |m.queued| - 1;
    if m.threads[i].Taking? && m.slot.Some? {
      assert n.threads[i] == Processing(|n.queued| - 1);
    } else if m.queued != [] {
      if j :| 0 <= j < |m.threads| && m.threads[j] == Processing(newest) {
        assert i != j ==> n.threads[j] == Processing(newest);
      }
    }
  }

  lemma ArrivalKeepsSound(m: Mailbox, job: string)
    requires Sound(m)
    ensures Sound(Arrive(m, job))
  {
    var n := Arrive(m, job);
    SumSeqAppend(m.threads, Putting(job), Owns);
    SumSeqAppend(m.threads, Putting(job), Minds);
    assert forall i :: 0 <= i < |n.threads| && n.threads[i].Processing? ==>
                         i < |m.threads| && n.threads[i] == m.threads[i];
    if m.queued != [] {
      if i :| 0 <= i < |m.threads| && m.threads[i] == Processing(|m.queued| - 1) {
        assert n.threads[i] == Processing(|n.queued| - 1);
      }
    }
  }

  lemma {:induction false} RunsAreSound(run: seq<Action>)
    ensures Sound(Run(EMPTY, run))
  {
    if run != [] {
      var front, last := Run(EMPTY, run[..|run| - 1]), run[|run| - 1];
      RunsAreSound(run[..|run| - 1]);
      if last.Arriving? {
        ArrivalKeepsSound(front, last.job);
      } else if CanStep(front, last.i) {
        CountsAfter(front, last.i);
        TicketsAfter(front, last.i);
        NewestAfter(front, last.i);
      }
    }
  }

  // ----- no lost wakeup

  ghost predicate Quiescent(m: Mailbox) {
    forall i :: 0 <= i < |m.threads| ==> m.threads[i].Done?
  }

  lemma {:induction false} AllDoneSumsToZero(threads: seq<Pc>, weight: Pc -> nat)
    requires weight(Done) == 0 && forall i :: 0 <= i < |threads| ==> threads[i].Done?
    ensures SumSeq(threads, weight) == 0
  {
    if threads != [] {
      AllDoneSumsToZero(threads[..|threads| - 1], weight);
    }
  }

  /** When every thread has finished, nothing waits, the flag is down, jobs were processed in queue
      order, and the last one processed is the last one queued. */
  lemma QuiescentHasDrained(run: seq<Action>)
    requires Quiescent(Run(EMPTY, run))
    ensures var m := Run(EMPTY, run);
            && m.slot.None? && !m.draining
            && (forall k, l :: 0 <= k < l < |m.processed| ==> m.processed[k] < m.processed[l])
            && (m.queued != [] ==> m.processed != [] && m.processed[|m.processed| - 1] == |m.queued| - 1)
  {
    RunsAreSound(run);
    AllDoneSumsToZero(Run(EMPTY, run).threads, Owns);
    AllDoneSumsToZero(Run(EMPTY, run).threads, Minds);
  }

  /** In every reachable state a waiting job has an unfinished thread other than a producer that has
      not stored its own job yet, and at most one thread drains. */
  lemma WaitingJobHasThread(run: seq<Action>) returns (i: nat)
    requires Run(EMPTY, run).slot.Some?
    ensures var m := Run(EMPTY, run);
            i < |m.threads| && (Owns(m.threads[i]) == 1 || Minds(m.threads[i]) == 1)
            && (forall j, k :: 0 <= j < |m.threads| && 0 <= k < |m.threads|
                               && Owns(m.threads[j]) == Owns(m.threads[k]) == 1 ==>
                                 j == k)
  {
    RunsAreSound(run);
    var m := Run(EMPTY, run);
    if m.draining { i := SumSeqWitness(m.threads, Owns); } else { i := SumSeqWitness(m.threads, Minds); }
    forall j, k | 0 <= j < |m.threads| && 0 <= k < |m.threads| && Owns(m.threads[j]) == Owns(m.threads[k]) == 1
      ensures j == k
    {
      WorkerIsUnique(m, j, k);
    }
  }

  // ----- termination

  function Unstored(pc: Pc): nat {
    if pc.Putting? then 2 else 0
  }

  /** Steps a thread can take before the slot changes. */
  function Weight(full: bool): Pc -> nat {
    (pc: Pc) =>
      match pc
      case Putting(_) => 0
      case Done => 0
      case Swapping => 5
      case Processing(_) => 5
      case Taking => if full then 1 else 3
      case Reclaiming => if full then 2 else 4
      case Checking => if full then 3 else 1
      case Clearing => if full then 4 else 2
  }

  /** Slot changes still to come. */
  function Fills(m: Mailbox): nat {
    SumSeq(m.threads, Unstored) + if m.slot.Some? then 1 else 0
  }

  function Rank(m: Mailbox): nat {
    Fills(m) * (5 * |m.threads| + 1) + SumSeq(m.threads, Weight(m.slot.Some?))
  }

  lemma {:induction false} WeightBound(threads: seq<Pc>, full: bool)
    ensures SumSeq(threads, Weight(full)) <= 5 * |threads|
  {
    if threads != [] {
      WeightBound(threads[..|threads| - 1], full);
    }
  }

  lemma StepSpends(m: Mailbox, i: nat)
    requires CanStep(m, i)
    ensures var n := Next(m, i);
            Fills(n) < Fills(m)
            || (Fills(n) == Fills(m) && n.slot == m.slot
                && SumSeq(n.threads, Weight(n.slot.Some?)) < SumSeq(m.threads, Weight(m.slot.Some?)))
  {
    var n := Next(m, i);
    SumSeqUpdate(m.threads, i, n.threads[i], Unstored);
    SumSeqUpdate(m.threads, i, n.threads[i], Weight(m.slot.Some?));
  }

  lemma {:induction false} Scaled(a: nat, b: nat, scale: nat)
    requires a < b
    ensures a * scale + scale <= b * scale
    decreases b
  {
    if a + 1 < b {
      Scaled(a, b - 1, scale);
      assert b * scale == (b - 1) * scale + scale;
    } else {
      assert b * scale == a * scale + scale;
    }
  }

  lemma StepLowersRank(m: Mailbox, i: nat)
    requires CanStep(m, i)
    ensures Rank(Next(m, i)) < Rank(m)
  {
    var n := Next(m, i);
    StepSpends(m, i);
    if Fills(n) < Fills(m) {
      WeightBound(n.threads, n.slot.Some?);
      Scaled(Fills(n), Fills(m), 5 * |m.threads| + 1);
    }
  }

  /** A schedule of unfinished threads, with no arrivals. */
  predicate Schedule(m: Mailbox, schedule: seq<nat>)
    decreases |schedule|
  {
    schedule == [] || (CanStep(m, schedule[0]) && Schedule(Next(m, schedule[0]), schedule[1..]))
  }

  /** Without new arrivals every schedule ends within `Rank` steps, and while some thread is
      unfinished it can step: the mailbox always reaches quiescence. */
  lemma {:induction false} SchedulesEnd(m: Mailbox, schedule: seq<nat>)
    requires Schedule(m, schedule)
    ensures |schedule| <= Rank(m)
    decreases |schedule|
  {
    if schedule != [] {
      StepLowersRank(m, schedule[0]);
      SchedulesEnd(Next(m, schedule[0]), schedule[1..]);
    }
  }

  // ----- the shared object

  class DesktopPresence {
    var pending: Option<nat>
    var draining: bool
    var threads: seq<Pc>
    var queued: seq<string>
    var processed: seq<nat>

    ghost function State(): Mailbox
      reads this
    {
      Mailbox(pending, draining, threads, queued, processed)
    }

    constructor ()
      ensures State() == EMPTY
    {
      pending, draining, threads, queued, processed := None, false, [], [], [];
    }

    /** A call of `queue_discord`: the caller is about to lock the slot. */
    method QueueDiscord(job: string)
      modifies this
      ensures State() == Arrive(old(State()), job)
    {
      threads := threads + [Putting(job)];
    }

    /** `draining.swap(true)`. */
    method Swap() returns (was: bool)
      modifies `draining
      ensures was == old(draining) && draining
    {
      was := draining;
      draining := true;
    }

    /** The next atomic operation of thread `i`. */
    method Step(i: nat)
      requires CanStep(State(), i)
      modifies this
      ensures State() == Next(old(State()), i)
    {
      match threads[i] {
        case Putting(job) =>
          pending := Some(|queued|);
          queued := queued + [job];
          threads := threads[i := Swapping];
        case Swapping =>
          var was := Swap();
          threads := threads[i := if was then Done else Taking];
        case Taking =>
          if pending.Some? {
            threads := threads[i := Processing(pending.value)];
            pending := None;
          } else {
            threads := threads[i := Clearing];
          }
        case Processing(ticket) =>
          processed := processed + [ticket];
          threads := threads[i := Taking];
        case Clearing =>
          draining := false;
          threads := threads[i := Checking];
        case Checking =>
          threads := threads[i := if pending.Some? then Reclaiming else Done];
        case Reclaiming =>
          var was := Swap();
          threads := threads[i := if was then Done else Taking];
      }
    }
  }
}
