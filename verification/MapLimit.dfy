/** The bounded worker pool: workers share a cursor over the values, run one operation at a time and
    fill one output array. The synchronous stretches between awaits are the steps, and operations
    settle in any order. */
module MapLimit {
  import opened Wrappers
  import opened Sums

  /** `Failed` is a worker whose operation rejected. */
  datatype Worker = Checking | Running(index: nat) | Finished | Failed(index: nat)

  /** `calls` lists the indices whose operation was started, in order. */
  datatype Pool<U> = Pool(cursor: nat, output: seq<Option<U>>, workers: seq<Worker>, calls: seq<nat>)

  /** An operation, by value and index. */
  type Operation<!T, +U, +E> = (T, nat) -> Result<U, E>

  function WorkerCount(limit: int, n: nat): nat {
    if limit < 0 then 0 else if limit < n then limit else n
  }

  function Fresh<U>(n: nat, limit: int): Pool<U> {
    Pool(0, seq(n, _ => None), seq(WorkerCount(limit, n), _ => Checking), [])
  }

  predicate CanStep<U>(p: Pool<U>, i: nat) {
    i < |p.workers| && (p.workers[i].Checking? || p.workers[i].Running?)
  }

  function Step<T, U, E>(values: seq<T>, op: Operation<T, U, E>, p: Pool<U>, i: nat): Pool<U>
    requires |p.output| == |values| && forall w <- p.workers :: w.Running? ==> w.index < |values|
  {
    if !CanStep(p, i) then p
    else
      match p.workers[i]
      case Checking =>
        if p.cursor < |values|
        then p.(cursor := p.cursor + 1, workers := p.workers[i := Running(p.cursor)], calls := p.calls + [p.cursor])
        else p.(workers := p.workers[i := Finished])
      case Running(index) =>
        (match op(values[index], index)
         case Success(value) => p.(output := p.output[index := Some(value)], workers := p.workers[i := Checking])
         case Failure(_) => p.(workers := p.workers[i := Failed(index)]))
      case _ => p
  }

  /** A schedule settles one worker's pending step at a time. */
  function Run<T, U, E>(values: seq<T>, op: Operation<T, U, E>, limit: int, schedule: seq<nat>): (p: Pool<U>)
    ensures Sound(values, op, limit, p)
  {
    if schedule == [] then
      Fresh(|values|, limit)
    else
      var front := schedule[..|schedule| - 1];
      StepKeepsSound(values, op, limit, Run(values, op, limit, front), schedule[|schedule| - 1]);
      Step(values, op, Run(values, op, limit, front), schedule[|schedule| - 1])
  }

  function Indices(n: nat): seq<nat> {
    seq(n, i => i)
  }

  // ----- the invariant

  predicate Holds(w: Worker, index: nat) {
    (w.Running? || w.Failed?) && w.index == index
  }

  /** Started operations are held by one worker or have delivered their value. */
  ghost predicate Accounted<T, U, E>(values: seq<T>, op: Operation<T, U, E>, p: Pool<U>, index: nat)
    requires |p.output| == |values| && index < |values|
  {
    || (op(values[index], index).Success? && p.output[index] == Some(op(values[index], index).value))
    || (p.output[index].None? && exists w :: 0 <= w < |p.workers| && Holds(p.workers[w], index))
  }

  ghost predicate Bounded<T, U, E>(values: seq<T>, op: Operation<T, U, E>, p: Pool<U>, w: Worker) {
    match w
    case Running(index) => index < p.cursor && index < |p.output| && p.output[index].None?
    case Failed(index) => index < p.cursor && index < |values| && op(values[index], index).Failure?
    case Finished => p.cursor == |values|
    case Checking => true
  }

  predicate Distinct<U>(p: Pool<U>) {
    forall v, w :: 0 <= v < w < |p.workers|
        ==> !((p.workers[v].Running? || p.workers[v].Failed?) && Holds(p.workers[w], p.workers[v].index))
  }

  ghost predicate Sound<T, U, E>(values: seq<T>, op: Operation<T, U, E>, limit: int, p: Pool<U>) {
    && |p.output| == |values| && p.cursor <= |values| && p.calls == Indices(p.cursor)
    && |p.workers| == WorkerCount(limit, |values|)
    && (forall w <- p.workers :: Bounded(values, op, p, w))
    && Distinct(p)
    && (forall index :: 0 <= index < p.cursor ==> Accounted(values, op, p, index))
    && (forall index :: p.cursor <= index < |values| ==> p.output[index].None?)
  }

  lemma StepKeepsSound<T, U, E>(values: seq<T>, op: Operation<T, U, E>, limit: int, p: Pool<U>, i: nat)
    requires Sound(values, op, limit, p)
    ensures Sound(values, op, limit, Step(values, op, p, i))
  {
    if CanStep(p, i) {
      var after := Step(values, op, p, i);
      assert p.workers[i] in p.workers && Bounded(values, op, p, p.workers[i]);
      forall w <- after.workers ensures Bounded(values, op, after, w) {
        var k :| 0 <= k < |after.workers| && after.workers[k] == w;
        assert k != i ==> p.workers[k] in p.workers;
      }
      StepKeepsDistinct(values, op, limit, p, i);
      forall index | 0 <= index < after.cursor ensures Accounted(values, op, after, index) {
        StepAccounts(values, op, limit, p, i, index);
      }
    }
  }

  lemma StepKeepsDistinct<T, U, E>(values: seq<T>, op: Operation<T, U, E>, limit: int, p: Pool<U>, i: nat)
    requires Sound(values, op, limit, p) && CanStep(p, i)
    ensures Distinct(Step(values, op, p, i))
  {
    assert p.workers[i] in p.workers && Bounded(values, op, p, p.workers[i]);
    forall k | 0 <= k < |p.workers| ensures !Holds(p.workers[k], p.cursor) {
      assert p.workers[k] in p.workers && Bounded(values, op, p, p.workers[k]);
    }
  }

  lemma StepAccounts<T, U, E>(values: seq<T>, op: Operation<T, U, E>, limit: int, p: Pool<U>, i: nat, index: nat)
    requires Sound(values, op, limit, p) && CanStep(p, i) && index < Step(values, op, p, i).cursor <= |values|
    requires |Step(values, op, p, i).output| == |values|
    ensures Accounted(values, op, Step(values, op, p, i), index)
  {
    var after := Step(values, op, p, i);
    assert p.workers[i] in p.workers && Bounded(values, op, p, p.workers[i]);
    if index == p.cursor {
      assert Holds(after.workers[i], index);
    } else {
      assert Accounted(values, op, p, index);
      if p.output[index].None? {
        var w :| 0 <= w < |p.workers| && Holds(p.workers[w], index);
        assert Holds(after.workers[w], index) || w == i;
      }
    }
  }

  /** In every run each index is started at most once and in order, at most `limit` operations are in
      flight, and no two workers run the same index. */
  lemma RunsAreBounded<T, U, E>(values: seq<T>, op: Operation<T, U, E>, limit: int, schedule: seq<nat>)
    ensures var p := Run(values, op, limit, schedule);
            && p.calls == Indices(p.cursor) && p.cursor <= |values|
            && SumSeq(p.workers, InFlight) <= (if limit < 0 then 0 else limit)
            && SumSeq(p.workers, InFlight) <= |values|
            && forall v, w :: 0 <= v < w < |p.workers| && p.workers[v].Running? && p.workers[w].Running?
                              ==> p.workers[v].index != p.workers[w].index
  {
    var p := Run(values, op, limit, schedule);
    InFlightAtMost(p.workers);
    forall v, w | 0 <= v < w < |p.workers| && p.workers[v].Running? && p.workers[w].Running?
      ensures p.workers[v].index != p.workers[w].index
    {
      assert !Holds(p.workers[w], p.workers[v].index);
    }
  }

  lemma {:induction false} AllInFlight(workers: seq<Worker>)
    requires forall w <- workers :: w.Running?
    ensures SumSeq(workers, InFlight) == |workers|
  {
    if workers != [] {
      assert workers[|workers| - 1] in workers;
      AllInFlight(workers[..|workers| - 1]);
    }
  }

  /** The pool is as parallel as it may be: in every run, once no worker is between two operations and
      none was rejected, either every value was started or exactly the smaller of `limit` and the
      number of values is in flight. */
  lemma PoolIsBusy<T, U, E>(values: seq<T>, op: Operation<T, U, E>, limit: nat, schedule: seq<nat>)
    requires forall w <- Run(values, op, limit, schedule).workers :: !w.Checking? && !w.Failed?
    ensures var p := Run(values, op, limit, schedule);
            p.cursor == |values|
            || SumSeq(p.workers, InFlight) == if limit < |values| then limit else |values|
  {
    var p := Run(values, op, limit, schedule);
    if p.cursor < |values| {
      forall w <- p.workers ensures w.Running? {
        assert Bounded(values, op, p, w);
      }
      AllInFlight(p.workers);
    }
  }

  /** Such a run exists: when the first `k` workers are resumed in turn, each starts the value of its
      own index, so a positive limit is reached. */
  lemma {:induction false} WorkersStart<T, U, E>(values: seq<T>, op: Operation<T, U, E>, limit: nat, k: nat)
    requires k <= limit && k <= |values|
    ensures var p := Run(values, op, limit, Indices(k));
            && p.cursor == k && |p.workers| == (if limit < |values| then limit else |values|)
            && forall j :: 0 <= j < |p.workers| ==> p.workers[j] == if j < k then Running(j) else Checking
  {
    if k > 0 {
      assert Indices(k)[..k - 1] == Indices(k - 1);
      WorkersStart(values, op, limit, k - 1);
    }
  }

  lemma LimitIsReached<T, U, E>(values: seq<T>, op: Operation<T, U, E>, limit: nat)
    ensures var k: nat := if limit < |values| then limit else |values|;
            SumSeq(Run(values, op, limit, Indices(k)).workers, InFlight) == k
  {
    var k: nat := if limit < |values| then limit else |values|;
    WorkersStart(values, op, limit, k);
    AllInFlight(Run(values, op, limit, Indices(k)).workers);
  }

  function InFlight(w: Worker): nat {
    if w.Running? then 1 else 0
  }

  lemma {:induction false} InFlightAtMost(workers: seq<Worker>)
    ensures SumSeq(workers, InFlight) <= |workers|
  {
    if workers != [] {
      InFlightAtMost(workers[..|workers| - 1]);
    }
  }

  // ----- the outcome

  predicate Settled<U>(p: Pool<U>) {
    forall i :: 0 <= i < |p.workers| ==> !CanStep(p, i)
  }

  predicate Rejected<U>(p: Pool<U>) {
    exists w <- p.workers :: w.Failed?
  }

  predicate AllSucceed<T, U, E>(values: seq<T>, op: Operation<T, U, E>) {
    forall i :: 0 <= i < |values| ==> op(values[i], i).Success?
  }

  /** The sequential map it stands for. */
  function Mapped<T, U, E>(values: seq<T>, op: Operation<T, U, E>): seq<Option<U>>
    requires AllSucceed(values, op)
  {
    seq(|values|, i requires 0 <= i < |values| => Some(op(values[i], i).value))
  }

  /** Once every worker has settled, the call rejects exactly if some operation does, and otherwise the
      output is the element-wise map in order, with every operation run once. */
  lemma SettledIsMap<T, U, E>(values: seq<T>, op: Operation<T, U, E>, limit: int, schedule: seq<nat>)
    requires Settled(Run(values, op, limit, schedule)) && (limit > 0 || values == [])
    ensures var p := Run(values, op, limit, schedule);
            && (Rejected(p) <==> !AllSucceed(values, op))
            && (AllSucceed(values, op) ==> p.output == Mapped(values, op) && p.calls == Indices(|values|))
  {
    var p := Run(values, op, limit, schedule);
    if Rejected(p) {
      var w :| w in p.workers && w.Failed?;
      assert Bounded(values, op, p, w);
    } else if values != [] {
      assert !CanStep(p, 0) && p.workers[0] in p.workers && Bounded(values, op, p, p.workers[0]);
      forall w: nat, index | w < |p.workers| ensures !Holds(p.workers[w], index) {
        assert !CanStep(p, w) && p.workers[w] in p.workers;
      }
      forall index | 0 <= index < |values|
        ensures op(values[index], index).Success? && p.output[index] == Some(op(values[index], index).value)
      {
        assert Accounted(values, op, p, index);
      }
    }
  }

  /** The output is complete exactly when every value was reached: with no positive limit nothing runs
      and a non-empty input comes back as holes. */
  lemma CompleteIff<T, U, E>(values: seq<T>, op: Operation<T, U, E>, limit: int, schedule: seq<nat>)
    requires Settled(Run(values, op, limit, schedule)) && AllSucceed(values, op)
    ensures (forall r <- Run(values, op, limit, schedule).output :: r.Some?) <==> limit > 0 || values == []
  {
    var p := Run(values, op, limit, schedule);
    if limit > 0 || values == [] {
      SettledIsMap(values, op, limit, schedule);
    } else {
      NoWorkersNoSteps(values, op, limit, schedule);
      assert p.output[0] in p.output;
    }
  }

  /** One value and a limit of zero: the call settles at once, with a hole. */
  lemma ZeroLimitLeavesHole<T, U, E>(value: T, op: Operation<T, U, E>)
    ensures Settled(Run([value], op, 0, [])) && Run([value], op, 0, []).output == [None]
  {
  }

  lemma {:induction false} NoWorkersNoSteps<T, U, E>(values: seq<T>, op: Operation<T, U, E>, limit: int,
                                                     schedule: seq<nat>)
    requires limit <= 0
    ensures Run(values, op, limit, schedule) == Fresh(|values|, limit)
  {
    if schedule != [] {
      NoWorkersNoSteps(values, op, limit, schedule[..|schedule| - 1]);
    }
  }

  // ----- termination

  function Work(w: Worker): nat {
    match w
    case Running(_) => 2
    case Checking => 1
    case _ => 0
  }

  function Rank<U>(n: nat, p: Pool<U>): nat {
    (if p.cursor < n then 2 * (n - p.cursor) else 0) + SumSeq(p.workers, Work)
  }

  /** Every step of an unsettled worker uses up work, so all workers finish. */
  lemma StepLowersRank<T, U, E>(values: seq<T>, op: Operation<T, U, E>, limit: int, p: Pool<U>, i: nat)
    requires Sound(values, op, limit, p) && CanStep(p, i)
    ensures Rank(|values|, Step(values, op, p, i)) < Rank(|values|, p)
  {
    var after := Step(values, op, p, i);
    SumSeqUpdate(p.workers, i, after.workers[i], Work);
    assert after.workers == p.workers[i := after.workers[i]];
  }

  /** Every step of `schedule` is taken by a worker that had one pending. */
  ghost predicate Effective<T, U, E>(values: seq<T>, op: Operation<T, U, E>, limit: int, schedule: seq<nat>) {
    schedule == []
    || (Effective(values, op, limit, schedule[..|schedule| - 1])
        && CanStep(Run(values, op, limit, schedule[..|schedule| - 1]), schedule[|schedule| - 1]))
  }

  lemma {:induction false} SchedulesEnd<T, U, E>(values: seq<T>, op: Operation<T, U, E>, limit: int, schedule: seq<nat>)
    requires Effective(values, op, limit, schedule)
    ensures |schedule| + Rank(|values|, Run(values, op, limit, schedule)) <= 3 * |values|
  {
    if schedule == [] {
      FreshRank(seq(WorkerCount(limit, |values|), _ => Checking));
    } else {
      var front := schedule[..|schedule| - 1];
      SchedulesEnd(values, op, limit, front);
      StepLowersRank(values, op, limit, Run(values, op, limit, front), schedule[|schedule| - 1]);
    }
  }

  lemma {:induction false} FreshRank(workers: seq<Worker>)
    requires forall w <- workers :: w.Checking?
    ensures SumSeq(workers, Work) == |workers|
  {
    if workers != [] {
      assert workers[|workers| - 1] in workers;
      FreshRank(workers[..|workers| - 1]);
    }
  }

  // ----- the shared state of one call

  class WorkerPool<T, U, E> {
    const values: seq<T>
    const op: Operation<T, U, E>
    const limit: int
    var cursor: nat
    var output: seq<Option<U>>
    var workers: seq<Worker>
    ghost var calls: seq<nat>

    ghost function State(): Pool<U> reads this {
      Pool(cursor, output, workers, calls)
    }

    constructor (values: seq<T>, limit: int, op: Operation<T, U, E>)
      ensures this.values == values && this.limit == limit && this.op == op
      ensures State() == Fresh(|values|, limit) && Sound(values, op, limit, State())
    {
      this.values, this.limit, this.op := values, limit, op;
      cursor := 0;
      output := seq(|values|, _ => None);
      workers := seq(WorkerCount(limit, |values|), _ => Checking);
      calls := [];
    }

    /** Worker `i` goes on: it takes the next index, or its operation settles. */
    method Resume(i: nat)
      requires Sound(values, op, limit, State()) && CanStep(State(), i)
      modifies this
      ensures State() == Step(values, op, old(State()), i) && Sound(values, op, limit, State())
    {
      StepKeepsSound(values, op, limit, State(), i);
      assert workers[i] in workers;
      match workers[i] {
        case Checking =>
          if cursor < |values| {
            workers := workers[i := Running(cursor)];
            calls := calls + [cursor];
            cursor := cursor + 1;
          } else {
            workers := workers[i := Finished];
          }
        case Running(index) =>
          match op(values[index], index) {
            case Success(value) =>
              output := output[index := Some(value)];
              workers := workers[i := Checking];
            case Failure(_) =>
              workers := workers[i := Failed(index)];
          }
      }
    }
  }
}
