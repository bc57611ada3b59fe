/** One-shot TV source tickets. A lookup that passes the rate gate stamps the pairing row; its ticket
    carries that stamp, and is spent by a compare-and-swap on the same column. Each UPDATE is one
    step and clocks are arbitrary. Tickets are signed, so a presented stamp was issued on this row or, if
    the TV was paired again, on an earlier one. */
module TvTicket {
  import opened Wrappers

  const RESOLVER_MIN_INTERVAL_MS := 1_500
  const TICKET_TTL_MS := 120_000

  /** The successful updates of `last_resolve_at`, in order, each with the value it wrote. */
  datatype Entry = Gated(stamp: int) | Spent(issuedAt: int, verifiedAt: int, stamp: int)

  /** `earlier` holds the stamps of tickets signed for the same TV before this row existed: a pairing
      can be deleted and made again under its id, and its old tickets still verify. */
  datatype Row = Row(earlier: set<int>, lastResolveAt: int, log: seq<Entry>)

  function NewRow(earlier: set<int>): Row {
    Row(earlier, 0, [])
  }

  /** Tickets carry stamps that passed a gate, so they are positive. */
  predicate AllPositive(earlier: set<int>) {
    forall stamp <- earlier :: stamp > 0
  }

  function Max(a: int, b: int): int {
    if a < b then b else a
  }

  /** Lookups without results, and continuations that present a ticket. */
  datatype Request =
    | Lookup(now: int)
    | Continue(issuedAt: int, verifiedAt: int, now: int)

  /** A ticket of this row, or an earlier one. */
  predicate Genuine(r: Row, issuedAt: int) {
    Gated(issuedAt) in r.log || issuedAt in r.earlier
  }

  /** The clock checks on a genuine ticket. */
  predicate Verified(issuedAt: int, verifiedAt: int) {
    issuedAt + TICKET_TTL_MS > verifiedAt && issuedAt <= verifiedAt
  }

  predicate Succeeds(r: Row, q: Request) {
    match q
    case Lookup(now) => r.lastResolveAt <= now - RESOLVER_MIN_INTERVAL_MS
    case Continue(issuedAt, verifiedAt, _) =>
      Genuine(r, issuedAt) && Verified(issuedAt, verifiedAt) && r.lastResolveAt == issuedAt
  }

  function Serve(r: Row, q: Request): Row {
    if !Succeeds(r, q) then r
    else
      match q
      case Lookup(now) => r.(lastResolveAt := now, log := r.log + [Gated(now)])
      case Continue(issuedAt, verifiedAt, now) =>
        var stamp := Max(now, issuedAt + 1);
        r.(lastResolveAt := stamp, log := r.log + [Spent(issuedAt, verifiedAt, stamp)])
  }

  function Run(earlier: set<int>, requests: seq<Request>): Row {
    if requests == [] then NewRow(earlier)
    else Serve(Run(earlier, requests[..|requests| - 1]), requests[|requests| - 1])
  }

  // ----- the invariant

  ghost predicate StampsIncrease(r: Row) {
    && (forall i, j :: 0 <= i < j < |r.log| ==> r.log[i].stamp < r.log[j].stamp)
    && r.lastResolveAt == if r.log == [] then 0 else r.log[|r.log| - 1].stamp
  }

  /** A spent ticket was valid, and the update just before it wrote its stamp. A ticket of this row was
      issued by that very update. */
  predicate FollowsItsStamp(r: Row, k: nat) {
    k < |r.log|
    && (r.log[k].Spent? ==>
          && k > 0 && r.log[k - 1].stamp == r.log[k].issuedAt && Verified(r.log[k].issuedAt, r.log[k].verifiedAt)
          && (r.log[k].issuedAt !in r.earlier ==> r.log[k - 1].Gated?))
  }

  predicate KeepsDistance(log: seq<Entry>, i: nat, j: nat) {
    i < j < |log| && (log[j].Gated? ==> log[i].stamp + RESOLVER_MIN_INTERVAL_MS <= log[j].stamp)
  }

  ghost predicate Sound(r: Row) {
    && StampsIncrease(r)
    && (forall k :: 0 <= k < |r.log| ==> FollowsItsStamp(r, k))
    && (forall i, j :: 0 <= i < j < |r.log| ==> KeepsDistance(r.log, i, j))
    && AllPositive(r.earlier) && (r.log != [] ==> r.log[0].stamp > 0)
  }

  /** A ticket of this row is spendable exactly while its own lookup is the last update of the row. */
  lemma SpendableIffLast(r: Row, issuedAt: int)
    requires StampsIncrease(r) && Gated(issuedAt) in r.log
    ensures r.lastResolveAt == issuedAt <==> r.log[|r.log| - 1] == Gated(issuedAt)
  {
    var k :| 0 <= k < |r.log| && r.log[k] == Gated(issuedAt);
    assert k < |r.log| - 1 ==> r.log[k].stamp < r.log[|r.log| - 1].stamp;
  }

  lemma ServeKeepsSound(r: Row, q: Request)
    requires Sound(r)
    ensures Sound(Serve(r, q)) && (Succeeds(r, q) ==> r.lastResolveAt < Serve(r, q).lastResolveAt)
  {
    if Succeeds(r, q) {
      var after := Serve(r, q);
      var n := |r.log|;
      if q.Continue? {
        assert n > 0 by {
          assert q.issuedAt in r.earlier ==> q.issuedAt > 0;
        }
        if Gated(q.issuedAt) in r.log {
          SpendableIffLast(r, q.issuedAt);
        }
      }
      forall k | 0 <= k < |after.log| ensures FollowsItsStamp(after, k) {
        if k < n {
          assert FollowsItsStamp(r, k);
        }
      }
      forall i, j | 0 <= i < j < |after.log|
        ensures after.log[i].stamp < after.log[j].stamp && KeepsDistance(after.log, i, j)
      {
        if j < n {
          assert KeepsDistance(r.log, i, j);
        } else if i < n - 1 {
          assert r.log[i].stamp < r.log[n - 1].stamp;
        }
      }
    }
  }

  /** Whatever the clocks do, the column strictly increases with every update that succeeds. */
  lemma {:induction false} RunsAreSound(earlier: set<int>, requests: seq<Request>)
    requires AllPositive(earlier)
    ensures Sound(Run(earlier, requests)) && Run(earlier, requests).earlier == earlier
  {
    if requests != [] {
      RunsAreSound(earlier, requests[..|requests| - 1]);
      ServeKeepsSound(Run(earlier, requests[..|requests| - 1]), requests[|requests| - 1]);
    }
  }

  /** On one row each ticket is spent at most once, while it is valid and while the column still holds
      its stamp; a ticket of the row, with no lookup passing the gate between its own and its use. */
  lemma TicketsAreOneShot(earlier: set<int>, requests: seq<Request>, i: nat, j: nat)
    requires AllPositive(earlier)
    requires i < |Run(earlier, requests).log| && j < |Run(earlier, requests).log|
    requires Run(earlier, requests).log[i].Spent? && Run(earlier, requests).log[j].Spent?
    ensures var log := Run(earlier, requests).log;
            && (log[i].issuedAt == log[j].issuedAt ==> i == j)
            && i > 0 && log[i - 1].stamp == log[i].issuedAt && Verified(log[i].issuedAt, log[i].verifiedAt)
            && (log[i].issuedAt !in earlier ==> log[i - 1] == Gated(log[i].issuedAt))
  {
    RunsAreSound(earlier, requests);
    var log := Run(earlier, requests).log;
    assert FollowsItsStamp(Run(earlier, requests), i) && FollowsItsStamp(Run(earlier, requests), j);
    assert i < j ==> log[i - 1].stamp < log[j - 1].stamp;
    assert j < i ==> log[j - 1].stamp < log[i - 1].stamp;
  }

  /** Once a later stamp is in the column, presenting the ticket fails for good. */
  lemma SupersededForGood(earlier: set<int>, requests: seq<Request>, more: seq<Request>, issuedAt: int,
                          verifiedAt: int, now: int)
    requires AllPositive(earlier) && issuedAt < Run(earlier, requests).lastResolveAt
    ensures !Succeeds(Run(earlier, requests + more), Continue(issuedAt, verifiedAt, now))
  {
    ColumnNeverFalls(earlier, requests, more);
  }

  lemma {:induction false} ColumnNeverFalls(earlier: set<int>, requests: seq<Request>, more: seq<Request>)
    requires AllPositive(earlier)
    ensures Run(earlier, requests).lastResolveAt <= Run(earlier, requests + more).lastResolveAt
  {
    if more == [] {
      assert requests + more == requests;
    } else {
      var front := more[..|more| - 1];
      ColumnNeverFalls(earlier, requests, front);
      assert (requests + more)[..|requests + more| - 1] == requests + front;
      RunsAreSound(earlier, requests + front);
      ServeKeepsSound(Run(earlier, requests + front), more[|more| - 1]);
    }
  }

  /** Lookups that passed the gate carry stamps at least the minimum interval apart. */
  lemma LookupsKeepDistance(earlier: set<int>, requests: seq<Request>, i: nat, j: nat)
    requires AllPositive(earlier) && i < j < |Run(earlier, requests).log| && Run(earlier, requests).log[j].Gated?
    ensures Run(earlier, requests).log[i].stamp + 1_500 <= Run(earlier, requests).log[j].stamp
  {
    RunsAreSound(earlier, requests);
    assert KeepsDistance(Run(earlier, requests).log, i, j);
  }

  /** The stamp of the last update. */
  function LastStamp(r: Row): int {
    if r.log == [] then 0 else r.log[|r.log| - 1].stamp
  }

  /** A lookup is let through exactly when the last update is a second and a half old, and then the column
      and its ticket carry its stamp. */
  lemma LookupPassesIff(earlier: set<int>, requests: seq<Request>, now: int)
    requires AllPositive(earlier)
    ensures var r := Run(earlier, requests);
            Serve(r, Lookup(now)) == if LastStamp(r) + 1_500 <= now then Row(earlier, now, r.log + [Gated(now)]) else r
  {
    RunsAreSound(earlier, requests);
  }

  /** A ticket of this row is spent exactly when it is verified within two minutes of its lookup, not
      before it, and nothing has updated the row since; the column then moves past its stamp. */
  lemma TicketIsSpentIff(earlier: set<int>, requests: seq<Request>, issuedAt: int, verifiedAt: int, now: int)
    requires AllPositive(earlier) && Gated(issuedAt) in Run(earlier, requests).log
    ensures var r := Run(earlier, requests);
            var stamp := if now > issuedAt then now else issuedAt + 1;
            Serve(r, Continue(issuedAt, verifiedAt, now))
            == if issuedAt <= verifiedAt < issuedAt + 120_000 && r.log[|r.log| - 1] == Gated(issuedAt)
               then Row(earlier, stamp, r.log + [Spent(issuedAt, verifiedAt, stamp)]) else r
  {
    RunsAreSound(earlier, requests);
    SpendableIffLast(Run(earlier, requests), issuedAt);
  }

  /** So a lookup that is let through gives a ticket that works, whatever failed requests come between. */
  lemma FreshTicketWorks(earlier: set<int>, requests: seq<Request>, t: int, verifiedAt: int, now: int)
    requires AllPositive(earlier) && LastStamp(Run(earlier, requests)) + 1_500 <= t
    requires t <= verifiedAt < t + 120_000
    ensures var r := Run(earlier, requests + [Lookup(t)]);
            r.lastResolveAt == t && Serve(r, Continue(t, verifiedAt, now)).log == r.log + [Spent(t, verifiedAt,
                if now > t then now else t + 1)]
  {
    assert (requests + [Lookup(t)])[..|requests|] == requests;
    LookupPassesIff(earlier, requests, t);
    var log := Run(earlier, requests + [Lookup(t)]).log;
    assert log[|log| - 1] == Gated(t);
    TicketIsSpentIff(earlier, requests + [Lookup(t)], t, verifiedAt, now);
  }

  // ----- a TV that was paired again

  /** An earlier ticket that still verifies is accepted on a new row if and only if the row's last
      successful update wrote its stamp. */
  lemma EarlierTicketIff(earlier: set<int>, requests: seq<Request>, issuedAt: int, verifiedAt: int, now: int)
    requires AllPositive(earlier) && issuedAt in earlier && Verified(issuedAt, verifiedAt)
    ensures var r := Run(earlier, requests);
            Succeeds(r, Continue(issuedAt, verifiedAt, now)) <==> r.log != [] && r.log[|r.log| - 1].stamp == issuedAt
  {
    RunsAreSound(earlier, requests);
  }

  /** So it is refused as long as every stamp on the new row is later, which a clock that never repeats
      or goes back ensures. */
  lemma LaterStampsRefuseEarlierTicket(earlier: set<int>, requests: seq<Request>, issuedAt: int, verifiedAt: int,
                                       now: int)
    requires AllPositive(earlier) && issuedAt in earlier
    requires forall e <- Run(earlier, requests).log :: e.stamp > issuedAt
    ensures !Succeeds(Run(earlier, requests), Continue(issuedAt, verifiedAt, now))
  {
    RunsAreSound(earlier, requests);
    var r := Run(earlier, requests);
    assert r.log != [] ==> r.log[|r.log| - 1] in r.log;
  }

  /** Across the rows of one pairing id: a ticket spent on the first row can be spent again on the second
      exactly while the second row's last update carries the same stamp. */
  lemma SpentAgainIff(earlier: set<int>, first: seq<Request>, second: seq<Request>, i: nat, verifiedAt: int, now: int)
    requires AllPositive(earlier) && i < |Run(earlier, first).log| && Run(earlier, first).log[i].Spent?
    requires Verified(Run(earlier, first).log[i].issuedAt, verifiedAt)
    ensures var issuedAt, signed := Run(earlier, first).log[i].issuedAt, SignedBy(Run(earlier, first));
            var r := Run(signed, second);
            && AllPositive(signed)
            && (Succeeds(r, Continue(issuedAt, verifiedAt, now))
                <==> r.log != [] && r.log[|r.log| - 1].stamp == issuedAt)
  {
    var r := Run(earlier, first);
    RunsAreSound(earlier, first);
    assert FollowsItsStamp(r, i);
    GateStampsArePositive(r);
    EarlierTicketIff(SignedBy(r), second, r.log[i].issuedAt, verifiedAt, now);
  }

  /** Every ticket that verifies for the pairing id once `r` is gone. */
  function SignedBy(r: Row): set<int> {
    r.earlier + set e <- r.log | e.Gated? :: e.stamp
  }

  lemma GateStampsArePositive(r: Row)
    requires Sound(r)
    ensures AllPositive(SignedBy(r))
  {
    forall e <- r.log ensures e.stamp > 0 {
      var k :| 0 <= k < |r.log| && r.log[k] == e;
      assert k > 0 ==> r.log[0].stamp < r.log[k].stamp;
    }
  }

  /** A lookup in the same millisecond as an old one makes the old, spent ticket spendable again. */
  lemma SameMillisecondReadmits()
    ensures var lookup, use := Lookup(2_000), Continue(2_000, 2_000, 2_000);
            && Run({}, [lookup, use]).log == [Gated(2_000), Spent(2_000, 2_000, 2_001)]
            && !Succeeds(Run({}, [lookup, use]), use)
            && !Succeeds(NewRow({2_000}), use)
            && Succeeds(Run({2_000}, [lookup]), use)
  {
    var lookup, use := Lookup(2_000), Continue(2_000, 2_000, 2_000);
    OneRequest({}, lookup);
    OneRequest({2_000}, lookup);
    TwoRequests({}, lookup, use);
    assert Gated(2_000) in [Gated(2_000)];
  }

  /** So does a new ticket that is spent at the old ticket's stamp, without any lookup at that time. */
  lemma SpentStampReadmits()
    ensures var r := Run({5_000}, [Lookup(4_000), Continue(4_000, 5_000, 5_000)]);
            r.log == [Gated(4_000), Spent(4_000, 5_000, 5_000)] && Succeeds(r, Continue(5_000, 5_000, 5_000))
  {
    OneRequest({5_000}, Lookup(4_000));
    assert Gated(4_000) in [Gated(4_000)];
    TwoRequests({5_000}, Lookup(4_000), Continue(4_000, 5_000, 5_000));
  }

  lemma OneRequest(earlier: set<int>, q: Request)
    ensures Run(earlier, [q]) == Serve(NewRow(earlier), q)
  {
    assert [q][..0] == [];
  }

  lemma TwoRequests(earlier: set<int>, q: Request, p: Request)
    ensures Run(earlier, [q, p]) == Serve(Serve(NewRow(earlier), q), p)
  {
    OneRequest(earlier, q);
    assert [q, p][..1] == [q];
  }

  // ----- the column as a mutable row

  class PairingRow {
    var lastResolveAt: int
    ghost const earlier: set<int>
    ghost var log: seq<Entry>

    ghost function State(): Row reads this {
      Row(earlier, lastResolveAt, log)
    }

    constructor (ghost earlier: set<int>)
      ensures State() == NewRow(earlier)
    {
      this.earlier := earlier;
      lastResolveAt, log := 0, [];
    }

    /** The rate gate. */
    method PassGate(now: int) returns (passed: bool)
      modifies this
      ensures passed <==> Succeeds(old(State()), Lookup(now))
      ensures State() == Serve(old(State()), Lookup(now))
    {
      passed := lastResolveAt <= now - RESOLVER_MIN_INTERVAL_MS;
      if passed {
        lastResolveAt, log := now, log + [Gated(now)];
      }
    }

    /** `consumeTvSourceLookup`, for a ticket whose signature and clocks have been verified. */
    method Consume(issuedAt: int, now: int, ghost verifiedAt: int) returns (consumed: bool)
      requires Genuine(State(), issuedAt) && Verified(issuedAt, verifiedAt)
      modifies this
      ensures consumed <==> Succeeds(old(State()), Continue(issuedAt, verifiedAt, now))
      ensures State() == Serve(old(State()), Continue(issuedAt, verifiedAt, now))
    {
      consumed := lastResolveAt == issuedAt;
      if consumed {
        lastResolveAt := Max(now, issuedAt + 1);
        log := log + [Spent(issuedAt, verifiedAt, lastResolveAt)];
      }
    }
  }
}
