/** The permit scheduler of the in-memory HTTP bridge: four semaphores, four request classes and the
    table of cancellable requests. Each await point is one step and requests interleave freely; the
    end of a request (finished, failed, timed out or cancelled) may come at any point. Any waiting
    request may take a free permit, so every queueing order of the semaphores is covered. */
module PermitGates {
  import opened Wrappers
  import opened Sums

  const GLOBAL_CONCURRENCY := 12
  const EXTENSION_CONCURRENCY := 6
  const BACKGROUND_CONCURRENCY := 8
  const PLAYBACK_CONCURRENCY := 4

  datatype Gate = GlobalGate | ExtensionGate | BackgroundGate | PlaybackGate
  datatype RequestClass = Metadata | Extension | Background | Playback

  function Capacity(gate: Gate): nat {
    match gate
    case GlobalGate => GLOBAL_CONCURRENCY
    case ExtensionGate => EXTENSION_CONCURRENCY
    case BackgroundGate => BACKGROUND_CONCURRENCY
    case PlaybackGate => PLAYBACK_CONCURRENCY
  }

  function ClassGate(lane: RequestClass): Option<Gate> {
    match lane
    case Metadata => None
    case Extension => Some(ExtensionGate)
    case Background => Some(BackgroundGate)
    case Playback => Some(PlaybackGate)
  }

  predicate UsesGlobal(lane: RequestClass) {
    lane.Metadata? || lane.Extension?
  }

  /** Awaiting the class permit, awaiting the global one, working; then the permits are released, the
      cancellation receiver is closed and the registration dropped, in that order. */
  datatype Phase = Queued | Gated | Working | Released | Closed | Done

  datatype Request = Request(id: Option<string>, lane: RequestClass, phase: Phase, classPermit: bool,
                             globalPermit: bool)

  /** `active` maps each registered id to whether its cancellation was signalled. */
  datatype Bridge = Bridge(free: map<Gate, nat>, requests: seq<Request>, active: map<string, bool>)

  const IDLE :=
    Bridge(map gate | gate in {GlobalGate, ExtensionGate, BackgroundGate, PlaybackGate} :: Capacity(gate), [], map[])

  predicate AllGates(b: Bridge) {
    forall gate: Gate :: gate in b.free
  }

  function Free(b: Bridge, gate: Gate): nat {
    if gate in b.free then b.free[gate] else 0
  }

  function Take(b: Bridge, gate: Gate): Bridge {
    b.(free := b.free[gate := if Free(b, gate) > 0 then Free(b, gate) - 1 else 0])
  }

  function Give(b: Bridge, gate: Gate): Bridge {
    b.(free := b.free[gate := Free(b, gate) + 1])
  }

  // ----- steps

  predicate Is(b: Bridge, i: nat, phase: Phase) {
    i < |b.requests| && b.requests[i].phase == phase
  }

  /** A duplicate id is turned away before it is registered. */
  function Arrive(b: Bridge, id: Option<string>, lane: RequestClass): Bridge {
    if id.Some? && id.value in b.active then b
    else
      b.(requests := b.requests + [Request(id, lane, if lane.Metadata? then Gated else Queued, false, false)],
         active := if id.Some? then b.active[id.value := false] else b.active)
  }

  predicate CanAcquireClass(b: Bridge, i: nat) {
    Is(b, i, Queued) && ClassGate(b.requests[i].lane).Some? && Free(b, ClassGate(b.requests[i].lane).value) > 0
  }

  function AcquireClass(b: Bridge, i: nat): Bridge {
    if !CanAcquireClass(b, i) then b
    else
      var r := b.requests[i];
      var resumed := r.(classPermit := true, phase := if UsesGlobal(r.lane) then Gated else Working);
      Take(b, ClassGate(r.lane).value).(requests := b.requests[i := resumed])
  }

  predicate CanAcquireGlobal(b: Bridge, i: nat) {
    Is(b, i, Gated) && Free(b, GlobalGate) > 0
  }

  function AcquireGlobal(b: Bridge, i: nat): Bridge {
    if !CanAcquireGlobal(b, i) then b
    else Take(b, GlobalGate).(requests := b.requests[i := b.requests[i].(globalPermit := true, phase := Working)])
  }

  predicate CanEnd(b: Bridge, i: nat) {
    Is(b, i, Queued) || Is(b, i, Gated) || Is(b, i, Working)
  }

  datatype Cause = Completed | TimedOut | Cancelled

  /** Without an id nothing keeps the cancellation sender, so its receiver reports at once. */
  predicate Signalled(b: Bridge, i: nat) {
    i < |b.requests| && (b.requests[i].id.None?
                         || (b.requests[i].id.value in b.active && b.active[b.requests[i].id.value]))
  }

  predicate MayEnd(b: Bridge, i: nat, cause: Cause) {
    CanEnd(b, i)
    && match cause
       case Completed => Is(b, i, Working)
       case TimedOut => true
       case Cancelled => Signalled(b, i)
  }

  /** The guarded future is dropped: the permits it holds go back. */
  function End(b: Bridge, i: nat): Bridge {
    if !CanEnd(b, i) then b
    else
      var r := b.requests[i];
      var b1 := if r.globalPermit then Give(b, GlobalGate) else b;
      var b2 := if r.classPermit && ClassGate(r.lane).Some? then Give(b1, ClassGate(r.lane).value) else b1;
      b2.(requests := b.requests[i := r.(classPermit := false, globalPermit := false, phase := Released)])
  }

  function Close(b: Bridge, i: nat): Bridge {
    if Is(b, i, Released) then b.(requests := b.requests[i := b.requests[i].(phase := Closed)]) else b
  }

  function Deregister(b: Bridge, i: nat): Bridge {
    if !Is(b, i, Closed) then b
    else
      b.(requests := b.requests[i := b.requests[i].(phase := Done)],
         active := if b.requests[i].id.Some? then b.active - {b.requests[i].id.value} else b.active)
  }

  predicate Listening(b: Bridge, i: nat, id: string) {
    i < |b.requests| && b.requests[i].id == Some(id) && !b.requests[i].phase.Closed? && !b.requests[i].phase.Done?
  }

  predicate Heard(b: Bridge, id: string) {
    exists i :: 0 <= i < |b.requests| && Listening(b, i, id)
  }

  /** Signals the request, if its receiver is still there to hear it. */
  function Cancel(b: Bridge, id: string): (Bridge, bool) {
    if id in b.active && Heard(b, id) then (b.(active := b.active[id := true]), true) else (b, false)
  }

  datatype Action =
    | Arriving(id: Option<string>, lane: RequestClass)
    | AcquiringClass(i: nat)
    | AcquiringGlobal(i: nat)
    | Ending(i: nat, cause: Cause)
    | Closing(i: nat)
    | Deregistering(i: nat)
    | Cancelling(request: string)

  function Act(b: Bridge, a: Action): Bridge {
    match a
    case Arriving(id, lane) => Arrive(b, id, lane)
    case AcquiringClass(i) => AcquireClass(b, i)
    case AcquiringGlobal(i) => AcquireGlobal(b, i)
    case Ending(i, cause) => if MayEnd(b, i, cause) then End(b, i) else b
    case Closing(i) => Close(b, i)
    case Deregistering(i) => Deregister(b, i)
    case Cancelling(request) => Cancel(b, request).0
  }

  function Run(b: Bridge, run: seq<Action>): Bridge {
    if run == [] then b else Act(Run(b, run[..|run| - 1]), run[|run| - 1])
  }

  // ----- the invariant

  function Holds(r: Request, gate: Gate): nat {
    (if r.classPermit && ClassGate(r.lane) == Some(gate) then 1 else 0)
        + (if r.globalPermit && gate.GlobalGate? then 1 else 0)
  }

  function Holder(gate: Gate): Request -> nat {
    r => Holds(r, gate)
  }

  ghost predicate Conserved(b: Bridge) {
    AllGates(b) && forall gate: Gate :: Free(b, gate) + SumSeq(b.requests, Holder(gate)) == Capacity(gate)
  }

  /** Which permits a request holds follows from its class and phase: a global one only while it
      works, and background and playback requests never. */
  predicate Ordered(r: Request) {
    && (r.classPermit <==> !r.lane.Metadata? && (r.phase.Working? || (r.phase.Gated? && r.lane.Extension?)))
    && (r.globalPermit <==> UsesGlobal(r.lane) && r.phase.Working?)
    && (r.phase.Queued? ==> !r.lane.Metadata?)
    && (r.phase.Gated? ==> UsesGlobal(r.lane))
  }

  ghost predicate AllOrdered(b: Bridge) {
    forall i :: 0 <= i < |b.requests| ==> Ordered(b.requests[i])
  }

  predicate Live(b: Bridge, i: nat, id: string) {
    i < |b.requests| && b.requests[i].id == Some(id) && !b.requests[i].phase.Done?
  }

  /** The table lists exactly the ids of live requests, and no two live requests share one. */
  ghost predicate Registered(b: Bridge) {
    && (forall id :: id in b.active <==> exists i :: Live(b, i, id))
    && (forall i, j, id :: Live(b, i, id) && Live(b, j, id) ==> i == j)
  }

  ghost predicate Sound(b: Bridge) {
    Conserved(b) && AllOrdered(b) && Registered(b)
  }

  /** Replacing request `i` moves permits between it and the gates only. */
  lemma ReplaceConserves(b: Bridge, after: Bridge, i: nat, r: Request)
    requires Conserved(b) && i < |b.requests| && after.requests == b.requests[i := r] && AllGates(after)
    requires forall gate: Gate :: Free(after, gate) + Holds(r, gate) == Free(b, gate) + Holds(b.requests[i], gate)
    ensures Conserved(after)
  {
    forall gate: Gate ensures Free(after, gate) + SumSeq(after.requests, Holder(gate)) == Capacity(gate) {
      SumSeqUpdate(b.requests, i, r, Holder(gate));
    }
  }

  lemma ArriveConserves(b: Bridge, id: Option<string>, lane: RequestClass)
    requires Conserved(b) && AllOrdered(b)
    ensures Conserved(Arrive(b, id, lane)) && AllOrdered(Arrive(b, id, lane))
  {
    var after := Arrive(b, id, lane);
    if after != b {
      forall gate: Gate ensures Free(after, gate) + SumSeq(after.requests, Holder(gate)) == Capacity(gate) {
        SumSeqAppend(b.requests, after.requests[|b.requests|], Holder(gate));
      }
    }
  }

  lemma AcquireConserves(b: Bridge, i: nat)
    requires Conserved(b) && AllOrdered(b) && i < |b.requests|
    ensures Conserved(AcquireClass(b, i)) && AllOrdered(AcquireClass(b, i))
    ensures Conserved(AcquireGlobal(b, i)) && AllOrdered(AcquireGlobal(b, i))
  {
    assert Ordered(b.requests[i]);
    if CanAcquireClass(b, i) {
      ReplaceConserves(b, AcquireClass(b, i), i, AcquireClass(b, i).requests[i]);
    }
    if CanAcquireGlobal(b, i) {
      ReplaceConserves(b, AcquireGlobal(b, i), i, AcquireGlobal(b, i).requests[i]);
    }
  }

  lemma EndConserves(b: Bridge, i: nat)
    requires Conserved(b) && AllOrdered(b) && i < |b.requests|
    ensures Conserved(End(b, i)) && AllOrdered(End(b, i))
  {
    if CanEnd(b, i) {
      ReplaceConserves(b, End(b, i), i, End(b, i).requests[i]);
    }
  }

  lemma LeaveConserves(b: Bridge, i: nat)
    requires Conserved(b) && AllOrdered(b) && i < |b.requests|
    ensures Conserved(Close(b, i)) && AllOrdered(Close(b, i))
    ensures Conserved(Deregister(b, i)) && AllOrdered(Deregister(b, i))
  {
    assert Ordered(b.requests[i]);
    if Is(b, i, Released) {
      ReplaceConserves(b, Close(b, i), i, Close(b, i).requests[i]);
    }
    if Is(b, i, Closed) {
      ReplaceConserves(b, Deregister(b, i), i, Deregister(b, i).requests[i]);
    }
  }

  lemma ActConserves(b: Bridge, a: Action)
    requires Conserved(b) && AllOrdered(b)
    ensures Conserved(Act(b, a)) && AllOrdered(Act(b, a))
  {
    if a.Arriving? {
      ArriveConserves(b, a.id, a.lane);
    } else if !a.Cancelling? && a.i < |b.requests| {
      AcquireConserves(b, a.i);
      EndConserves(b, a.i);
      LeaveConserves(b, a.i);
    }
  }

  lemma ArriveKeepsRegistered(b: Bridge, id: Option<string>, lane: RequestClass)
    requires Registered(b)
    ensures Registered(Arrive(b, id, lane))
  {
    var after := Arrive(b, id, lane);
    if after != b {
      assert forall i, name :: Live(after, i, name) <==> Live(b, i, name) || (i == |b.requests| && id == Some(name));
      forall name ensures name in after.active <==> exists i :: Live(after, i, name) {
        if name in b.active {
          var i :| Live(b, i, name);
          assert Live(after, i, name);
        } else if id == Some(name) {
          assert Live(after, |b.requests|, name);
        }
      }
    }
  }

  lemma DeregisterKeepsRegistered(b: Bridge, i: nat)
    requires Registered(b)
    ensures Registered(Deregister(b, i))
  {
    var after := Deregister(b, i);
    if Is(b, i, Closed) {
      assert b.requests[i].id.Some? ==> Live(b, i, b.requests[i].id.value);
      assert forall j, name :: Live(after, j, name) <==> Live(b, j, name) && j != i;
    }
  }

  lemma SameLiveKeepsRegistered(b: Bridge, after: Bridge)
    requires Registered(b) && after.active.Keys == b.active.Keys
    requires forall i, name :: Live(after, i, name) <==> Live(b, i, name)
    ensures Registered(after)
  {
    forall id ensures id in after.active <==> exists i :: Live(after, i, id) {
      assert id in after.active <==> id in b.active;
    }
  }

  lemma ActKeepsSound(b: Bridge, a: Action)
    requires Sound(b)
    ensures Sound(Act(b, a))
  {
    ActConserves(b, a);
    match a {
      case Arriving(id, lane) => ArriveKeepsRegistered(b, id, lane);
      case Deregistering(i) => DeregisterKeepsRegistered(b, i);
      case _ => SameLiveKeepsRegistered(b, Act(b, a));
    }
  }

  lemma {:induction false} RunsAreSound(run: seq<Action>)
    ensures Sound(Run(IDLE, run))
  {
    if run == [] {
      forall gate: Gate ensures gate in IDLE.free {
        assert gate.GlobalGate? || gate.ExtensionGate? || gate.BackgroundGate? || gate.PlaybackGate?;
      }
    } else {
      RunsAreSound(run[..|run| - 1]);
      ActKeepsSound(Run(IDLE, run[..|run| - 1]), run[|run| - 1]);
    }
  }

  // ----- what the order of acquisition gives

  function ExtensionGlobal(r: Request): nat {
    if r.lane.Extension? && r.globalPermit then 1 else 0
  }

  function MetadataGlobal(r: Request): nat {
    if r.lane.Metadata? && r.globalPermit then 1 else 0
  }

  lemma {:induction false} GlobalSplits(requests: seq<Request>)
    requires forall i :: 0 <= i < |requests| ==> Ordered(requests[i])
    ensures SumSeq(requests, Holder(GlobalGate)) == SumSeq(requests, ExtensionGlobal) + SumSeq(requests, MetadataGlobal)
    ensures SumSeq(requests, ExtensionGlobal) <= SumSeq(requests, Holder(ExtensionGate))
  {
    if requests != [] {
      assert Ordered(requests[|requests| - 1]);
      GlobalSplits(requests[..|requests| - 1]);
    }
  }

  /** In every run extension requests hold at most 6 of the 12 global permits and only for work under
      way; background and playback requests hold none; so 6 are always free or held by metadata. */
  lemma ExtensionsLeaveHalf(run: seq<Action>)
    ensures var b := Run(IDLE, run);
            && SumSeq(b.requests, ExtensionGlobal) <= 6
            && Free(b, GlobalGate) + SumSeq(b.requests, MetadataGlobal) >= 6
            && (forall r <- b.requests :: r.globalPermit ==>
                  r.phase.Working? && !r.lane.Background? && !r.lane.Playback?)
  {
    RunsAreSound(run);
    var b := Run(IDLE, run);
    GlobalSplits(b.requests);
    assert Free(b, GlobalGate) + SumSeq(b.requests, Holder(GlobalGate)) == Capacity(GlobalGate);
    assert Free(b, ExtensionGate) + SumSeq(b.requests, Holder(ExtensionGate)) == Capacity(ExtensionGate);
  }

  predicate Waiting(b: Bridge, i: nat) {
    Is(b, i, Queued) || Is(b, i, Gated)
  }

  /** Some request holds a permit of an exhausted gate. */
  lemma ExhaustedGateHasHolder(b: Bridge, gate: Gate) returns (i: nat)
    requires Sound(b) && Free(b, gate) == 0
    ensures i < |b.requests| && Holds(b.requests[i], gate) > 0 && Ordered(b.requests[i])
  {
    assert Free(b, gate) + SumSeq(b.requests, Holder(gate)) == Capacity(gate);
    i := SumSeqWitness(b.requests, Holder(gate));
  }

  /** No deadlock: while a request waits, some request is working or some waiting one can take a
      permit, without any timeout or cancellation. */
  lemma NoDeadlock(run: seq<Action>, i: nat) returns (j: nat)
    requires Waiting(Run(IDLE, run), i)
    ensures var b := Run(IDLE, run); Is(b, j, Working) || CanAcquireClass(b, j) || CanAcquireGlobal(b, j)
  {
    RunsAreSound(run);
    j := SomeoneProceeds(Run(IDLE, run), i);
  }

  lemma SomeoneProceeds(b: Bridge, i: nat) returns (j: nat)
    requires Sound(b) && Waiting(b, i)
    ensures Is(b, j, Working) || CanAcquireClass(b, j) || CanAcquireGlobal(b, j)
  {
    var r := b.requests[i];
    assert Ordered(r);
    j := i;
    if r.phase.Queued? && Free(b, ClassGate(r.lane).value) == 0 {
      j := ExhaustedGateHasHolder(b, ClassGate(r.lane).value);
    }
    if Is(b, j, Gated) && Free(b, GlobalGate) == 0 {
      j := ExhaustedGateHasHolder(b, GlobalGate);
    }
  }

  // ----- everything drains

  /** Steps that need no timeout, no cancellation and no new request. */
  predicate CanAdvance(b: Bridge, i: nat) {
    CanAcquireClass(b, i) || CanAcquireGlobal(b, i) || Is(b, i, Working) || Is(b, i, Released) || Is(b, i, Closed)
  }

  function Advance(b: Bridge, i: nat): Bridge
    requires CanAdvance(b, i)
  {
    Act(b, Advancing(b, i))
  }

  function Remaining(r: Request): nat {
    match r.phase
    case Queued => 5
    case Gated => 4
    case Working => 3
    case Released => 2
    case Closed => 1
    case Done => 0
  }

  function Rank(b: Bridge): nat {
    SumSeq(b.requests, Remaining)
  }

  predicate Schedule(b: Bridge, schedule: seq<nat>)
    decreases |schedule|
  {
    schedule == [] || (CanAdvance(b, schedule[0]) && Schedule(Advance(b, schedule[0]), schedule[1..]))
  }

  function Follow(b: Bridge, schedule: seq<nat>): Bridge
    requires Schedule(b, schedule)
    decreases |schedule|
  {
    if schedule == [] then b else Follow(Advance(b, schedule[0]), schedule[1..])
  }

  ghost predicate Idle(b: Bridge) {
    (forall r <- b.requests :: r.phase.Done?) && (forall gate: Gate :: Free(b, gate) == Capacity(gate))
        && b.active == map[]
  }

  function Advancing(b: Bridge, i: nat): Action
    requires CanAdvance(b, i)
  {
    match b.requests[i].phase
    case Queued => AcquiringClass(i)
    case Gated => AcquiringGlobal(i)
    case Working => Ending(i, Completed)
    case Released => Closing(i)
    case _ => Deregistering(i)
  }

  lemma AdvanceSpends(b: Bridge, i: nat)
    requires Sound(b) && CanAdvance(b, i)
    ensures Sound(Advance(b, i)) && Rank(Advance(b, i)) < Rank(b)
  {
    AdvanceLowersRank(b, i);
    ActKeepsSound(b, Advancing(b, i));
  }

  lemma AdvanceLowersRank(b: Bridge, i: nat)
    requires CanAdvance(b, i)
    ensures Rank(Advance(b, i)) < Rank(b)
  {
    var r := Advance(b, i).requests[i];
    SumSeqUpdate(b.requests, i, r, Remaining);
    assert Advance(b, i).requests == b.requests[i := r];
  }

  lemma {:induction false} NothingHeld(requests: seq<Request>, gate: Gate)
    requires forall i :: 0 <= i < |requests| ==> Ordered(requests[i]) && requests[i].phase.Done?
    ensures SumSeq(requests, Holder(gate)) == 0
  {
    if requests != [] {
      assert Ordered(requests[|requests| - 1]);
      NothingHeld(requests[..|requests| - 1], gate);
    }
  }

  /** A bridge where nothing can advance is idle: all permits are back and the table is empty. */
  lemma StuckIsIdle(b: Bridge)
    requires Sound(b) && forall i :: !CanAdvance(b, i)
    ensures Idle(b)
  {
    forall i: nat | i < |b.requests| ensures b.requests[i].phase.Done? {
      assert !CanAdvance(b, i);
      if Waiting(b, i) {
        var j := SomeoneProceeds(b, i);
        assert CanAdvance(b, j);
      }
    }
    forall gate: Gate ensures Free(b, gate) == Capacity(gate) {
      NothingHeld(b.requests, gate);
    }
    forall id ensures id !in b.active {
      assert forall i :: !Live(b, i, id);
    }
  }

  /** If work ends, every schedule without arrivals ends within `Rank` steps, and one that cannot be
      continued leaves the bridge idle. */
  lemma {:induction false} SchedulesDrain(b: Bridge, schedule: seq<nat>)
    requires Sound(b) && Schedule(b, schedule)
    ensures |schedule| <= Rank(b)
    ensures (forall i :: !CanAdvance(Follow(b, schedule), i)) ==> Idle(Follow(b, schedule))
    decreases |schedule|
  {
    if schedule == [] {
      if forall i :: !CanAdvance(b, i) {
        StuckIsIdle(b);
      }
    } else {
      AdvanceSpends(b, schedule[0]);
      SchedulesDrain(Advance(b, schedule[0]), schedule[1..]);
    }
  }

  /** A request with the id that waits, works, or has only just ended. */
  predicate Unclosed(b: Bridge, i: nat, id: string) {
    i < |b.requests| && b.requests[i].id == Some(id)
    && (Is(b, i, Queued) || Is(b, i, Gated) || Is(b, i, Working) || Is(b, i, Released))
  }

  /** `cancel` reports true exactly when a registered request can still hear it; a second request with
      a live id is rejected and disturbs nothing. */
  lemma CancelFindsLiveRequest(run: seq<Action>, id: string, lane: RequestClass)
    ensures var b := Run(IDLE, run);
            && (Cancel(b, id).1 <==> exists i :: Unclosed(b, i, id))
            && (Cancel(b, id).1 ==> Arrive(b, Some(id), lane) == b)
  {
    RunsAreSound(run);
    var b := Run(IDLE, run);
    forall i | Unclosed(b, i, id) ensures id in b.active && Heard(b, id) {
      assert Live(b, i, id) && Listening(b, i, id);
    }
    if Cancel(b, id).1 {
      var i :| 0 <= i < |b.requests| && Listening(b, i, id);
      assert Unclosed(b, i, id);
    }
  }

  /** `id` was cancelled after its latest registration. */
  predicate CancelledSince(run: seq<Action>, id: string) {
    run != []
    && var front, last := run[..|run| - 1], run[|run| - 1];
       last == Cancelling(id) || (CancelledSince(front, id)
                                  && !(last.Arriving? && last.id == Some(id) && id !in Run(IDLE, front).active))
  }

  /** A request that carries an id sees a cancellation only if that id was cancelled after it was
      registered; one without an id is cancelled from the start. */
  lemma {:induction false} SignalsAreCancellations(run: seq<Action>, id: string)
    requires var b := Run(IDLE, run); id in b.active && b.active[id]
    ensures CancelledSince(run, id)
  {
    var front := run[..|run| - 1];
    if run[|run| - 1] != Cancelling(id) {
      SignalsAreCancellations(front, id);
    }
  }

  /** The id is documented as optional, but a request without one is cancelled from the start, and one
      with an id is not. */
  lemma IdlessIsCancelledAtOnce(run: seq<Action>, id: Option<string>, lane: RequestClass)
    requires id.Some? ==> id.value !in Run(IDLE, run).active
    ensures var b := Run(IDLE, run);
            MayEnd(Arrive(b, id, lane), |b.requests|, Cancelled) <==> id.None?
  {
  }

  /** An id is accepted exactly while no unfinished request carries it; the new request then waits,
      holding nothing and not cancelled, and nothing else changes. */
  lemma RegistersIff(run: seq<Action>, id: string, lane: RequestClass)
    ensures var b, after := Run(IDLE, run), Arrive(Run(IDLE, run), Some(id), lane);
            if exists i :: Live(b, i, id) then after == b
            else
              && |after.requests| == |b.requests| + 1 && b.requests <= after.requests && after.free == b.free
              && after.active == b.active[id := false]
              && var r := after.requests[|b.requests|];
                 r.id == Some(id) && r.lane == lane && Waiting(after, |b.requests|)
                 && !r.classPermit && !r.globalPermit
  {
    RunsAreSound(run);
  }

  /** A waiting or working request may time out at any step, complete once it works, and end as
      cancelled once signalled; its permits are then free for others. */
  lemma EndsWhen(b: Bridge, i: nat, cause: Cause)
    ensures var after := Act(b, Ending(i, cause));
            if (Waiting(b, i) || Is(b, i, Working))
               && (cause.Completed? ==> Is(b, i, Working))
               && (cause.Cancelled? ==> b.requests[i].id.None? || (b.requests[i].id.value, true) in b.active.Items)
            then Is(after, i, Released) && forall gate :: Holds(after.requests[i], gate) == 0
            else after == b
  {
  }

  /** A request whose registration carries the signal, until it deregisters. */
  ghost predicate Marked(b: Bridge, i: nat, id: string) {
    i < |b.requests| && b.requests[i].id == Some(id)
    && (b.requests[i].phase.Done? || (id in b.active && b.active[id]))
  }

  lemma MarkStays(b: Bridge, a: Action, i: nat, id: string)
    requires Registered(b) && Marked(b, i, id)
    ensures Marked(Act(b, a), i, id)
  {
    if Live(b, i, id) && a.Deregistering? && Is(b, a.i, Closed) && b.requests[a.i].id == Some(id) {
      assert Live(b, a.i, id);
    }
  }

  lemma {:induction false} MarkStaysThroughout(b: Bridge, rest: seq<Action>, i: nat, id: string)
    requires Sound(b) && Marked(b, i, id)
    ensures Sound(Run(b, rest)) && Marked(Run(b, rest), i, id)
  {
    if rest != [] {
      MarkStaysThroughout(b, rest[..|rest| - 1], i, id);
      ActKeepsSound(Run(b, rest[..|rest| - 1]), rest[|rest| - 1]);
      MarkStays(Run(b, rest[..|rest| - 1]), rest[|rest| - 1], i, id);
    }
  }

  /** Cancelling is never lost: a request that can still hear it is reported as signalled, and from then
      on, at every later step at which it has not ended yet, it may end as cancelled. */
  lemma CancelIsHeard(run: seq<Action>, id: string, i: nat, rest: seq<Action>)
    requires Unclosed(Run(IDLE, run), i, id)
    ensures Cancel(Run(IDLE, run), id).1
    ensures var later := Run(Cancel(Run(IDLE, run), id).0, rest);
            && i < |later.requests| && later.requests[i].id == Some(id)
            && (Waiting(later, i) || Is(later, i, Working) ==> MayEnd(later, i, Cancelled))
  {
    RunsAreSound(run);
    var b := Run(IDLE, run);
    assert Live(b, i, id) && Listening(b, i, id);
    ActKeepsSound(b, Cancelling(id));
    MarkStaysThroughout(Cancel(b, id).0, rest, i, id);
  }

  function WorkingIn(lane: RequestClass): Request -> nat {
    (r: Request) => if r.lane == lane && r.phase.Working? then 1 else 0
  }

  /** An extension request past its own gate. */
  function Admitted(r: Request): nat {
    if r.lane.Extension? && (r.phase.Gated? || r.phase.Working?) then 1 else 0
  }

  lemma {:induction false} LaneHolders(requests: seq<Request>)
    requires forall i :: 0 <= i < |requests| ==> Ordered(requests[i])
    ensures SumSeq(requests, Holder(PlaybackGate)) == SumSeq(requests, WorkingIn(Playback))
    ensures SumSeq(requests, Holder(BackgroundGate)) == SumSeq(requests, WorkingIn(Background))
  {
    if requests != [] {
      assert Ordered(requests[|requests| - 1]);
      LaneHolders(requests[..|requests| - 1]);
    }
  }

  lemma {:induction false} SharedHolders(requests: seq<Request>)
    requires forall i :: 0 <= i < |requests| ==> Ordered(requests[i])
    ensures SumSeq(requests, Holder(ExtensionGate)) == SumSeq(requests, Admitted)
    ensures SumSeq(requests, Holder(GlobalGate))
            == SumSeq(requests, WorkingIn(Metadata)) + SumSeq(requests, WorkingIn(Extension))
  {
    if requests != [] {
      assert Ordered(requests[|requests| - 1]);
      SharedHolders(requests[..|requests| - 1]);
    }
  }

  /** However saturated the other lanes are, a waiting playback request can start exactly while fewer
      than four playback requests are working, and a background one while fewer than eight are. */
  lemma LanesAreIndependent(run: seq<Action>, i: nat)
    requires Is(Run(IDLE, run), i, Queued)
    ensures var b := Run(IDLE, run);
            && (b.requests[i].lane.Playback?
                ==> (Is(AcquireClass(b, i), i, Working) <==> SumSeq(b.requests, WorkingIn(Playback)) < 4))
            && (b.requests[i].lane.Background?
                ==> (Is(AcquireClass(b, i), i, Working) <==> SumSeq(b.requests, WorkingIn(Background)) < 8))
  {
    RunsAreSound(run);
    var b := Run(IDLE, run);
    LaneHolders(b.requests);
    assert Free(b, PlaybackGate) + SumSeq(b.requests, Holder(PlaybackGate)) == Capacity(PlaybackGate);
    assert Free(b, BackgroundGate) + SumSeq(b.requests, Holder(BackgroundGate)) == Capacity(BackgroundGate);
  }

  /** An extension request passes its own gate exactly while fewer than six are past it, and what waits
      for a global permit starts exactly while fewer than twelve metadata and extension requests work. */
  lemma GlobalLaneStartsIff(run: seq<Action>, i: nat)
    requires Waiting(Run(IDLE, run), i) && UsesGlobal(Run(IDLE, run).requests[i].lane)
    ensures var b := Run(IDLE, run);
            && (Is(b, i, Queued) ==> (Is(AcquireClass(b, i), i, Gated) <==> SumSeq(b.requests, Admitted) < 6))
            && (Is(b, i, Gated)
                ==> (Is(AcquireGlobal(b, i), i, Working)
                     <==> SumSeq(b.requests, WorkingIn(Metadata)) + SumSeq(b.requests, WorkingIn(Extension)) < 12))
  {
    RunsAreSound(run);
    var b := Run(IDLE, run);
    SharedHolders(b.requests);
    assert Ordered(b.requests[i]);
    assert Free(b, GlobalGate) + SumSeq(b.requests, Holder(GlobalGate)) == Capacity(GlobalGate);
    assert Free(b, ExtensionGate) + SumSeq(b.requests, Holder(ExtensionGate)) == Capacity(ExtensionGate);
  }

  // ----- the shared bridge

  class HttpLifecycle {
    var free: map<Gate, nat>
    var requests: seq<Request>
    var active: map<string, bool>

    ghost function State(): Bridge reads this {
      Bridge(free, requests, active)
    }

    constructor ()
      ensures State() == IDLE
    {
      free := map gate | gate in {GlobalGate, ExtensionGate, BackgroundGate, PlaybackGate} :: Capacity(gate);
      requests, active := [], map[];
    }

    /** `Registration::new`, then the first await point. */
    method Register(id: Option<string>, lane: RequestClass) returns (accepted: bool)
      modifies this
      ensures State() == Arrive(old(State()), id, lane)
      ensures accepted <==> id.None? || id.value !in old(active)
    {
      if id.Some? && id.value in active {
        return false;
      }
      if id.Some? {
        active := active[id.value := false];
      }
      requests := requests + [Request(id, lane, if lane.Metadata? then Gated else Queued, false, false)];
      return true;
    }

    method TryAcquire(gate: Gate) returns (taken: bool)
      requires gate in free
      modifies `free
      ensures taken <==> old(free)[gate] > 0
      ensures free == if taken then old(free)[gate := old(free)[gate] - 1] else old(free)
    {
      taken := free[gate] > 0;
      if taken {
        free := free[gate := free[gate] - 1];
      }
    }

    /** The next await point of request `i` resolves, if it can. */
    method Resume(i: nat)
      requires AllGates(State()) && i < |requests|
      modifies this
      ensures State() == match old(requests)[i].phase
                         case Queued => AcquireClass(old(State()), i)
                         case Gated => AcquireGlobal(old(State()), i)
                         case Working => End(old(State()), i)
                         case Released => Close(old(State()), i)
                         case Closed => Deregister(old(State()), i)
                         case Done => old(State())
    {
      var r := requests[i];
      match r.phase {
        case Queued =>
          var gate := ClassGate(r.lane);
          if gate.Some? {
            var taken := TryAcquire(gate.value);
            if taken {
              r := r.(classPermit := true, phase := if UsesGlobal(r.lane) then Gated else Working);
              requests := requests[i := r];
            }
          }
        case Gated =>
          var taken := TryAcquire(GlobalGate);
          if taken {
            requests := requests[i := r.(globalPermit := true, phase := Working)];
          }
        case Working => DropWork(i);
        case Released => requests := requests[i := r.(phase := Closed)];
        case Closed =>
          if r.id.Some? {
            active := active - {r.id.value};
          }
          requests := requests[i := r.(phase := Done)];
        case Done =>
      }
    }

    /** The guarded future of request `i` is dropped, at any of its await points. */
    method DropWork(i: nat)
      requires AllGates(State()) && CanEnd(State(), i)
      modifies this
      ensures State() == End(old(State()), i)
    {
      var r := requests[i];
      if r.globalPermit {
        free := free[GlobalGate := free[GlobalGate] + 1];
      }
      if r.classPermit && ClassGate(r.lane).Some? {
        var gate := ClassGate(r.lane).value;
        free := free[gate := free[gate] + 1];
      }
      requests := requests[i := r.(classPermit := false, globalPermit := false, phase := Released)];
    }

    method CancelRequest(id: string) returns (signalled: bool)
      modifies `active
      ensures (State(), signalled) == Cancel(old(State()), id)
    {
      signalled := false;
      if id in active {
        for i := 0 to |requests|
          invariant !signalled && active == old(active) && forall j :: 0 <= j < i ==> !Listening(State(), j, id)
        {
          if requests[i].id == Some(id) && !requests[i].phase.Closed? && !requests[i].phase.Done? {
            assert Listening(State(), i, id);
            active := active[id := true];
            return true;
          }
        }
      }
    }
  }
}
