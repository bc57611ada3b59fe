/** The per-TV limiter on failed profile unlocks: two columns updated by one guarded statement, so
    concurrent guesses are capped too. */
module FailureLimiter {
  const MAX_FAILED_ATTEMPTS := 5
  const FAILURE_WINDOW_MS := 60_000

  datatype Window = Window(failed: nat, retryAt: int)

  /** The WHERE guard of the failure UPDATE. */
  predicate Counts(w: Window, at: int) {
    w.retryAt <= at || w.failed < MAX_FAILED_ATTEMPTS
  }

  /** The failure UPDATE. */
  function Fail(w: Window, at: int): Window {
    if !Counts(w, at) then w
    else Window(if w.retryAt <= at then 1 else w.failed + 1,
                if w.retryAt <= at then at + FAILURE_WINDOW_MS else w.retryAt)
  }

  /** A counted failure and the start of the window that counted it. */
  datatype Mark = Mark(at: int, start: int)

  function After(stamps: seq<int>): Window {
    if stamps == [] then Window(0, 0) else Fail(After(stamps[..|stamps| - 1]), stamps[|stamps| - 1])
  }

  /** The counted failures of a run on a new pairing. */
  function Counted(stamps: seq<int>): seq<Mark> {
    if stamps == [] then []
    else
      var front, at := stamps[..|stamps| - 1], stamps[|stamps| - 1];
      Counted(front) + if Counts(After(front), at)
          then [Mark(at, Fail(After(front), at).retryAt - FAILURE_WINDOW_MS)] else []
  }

  function Stamps(marks: seq<Mark>): (r: seq<int>)
    ensures |r| == |marks| && forall i :: 0 <= i < |r| ==> r[i] == marks[i].at
  {
    seq(|marks|, i requires 0 <= i < |marks| => marks[i].at)
  }

  ghost predicate ClockOrdered(stamps: seq<int>) {
    (forall i :: 0 <= i < |stamps| ==> stamps[i] > 0)
        && (forall i, j :: 0 <= i < j < |stamps| ==> stamps[i] <= stamps[j])
  }

  function Start(w: Window): int {
    w.retryAt - FAILURE_WINDOW_MS
  }

  /** Windows start at least a window apart, hold at most five failures each, and contain them. */
  ghost predicate Spaced(marks: seq<Mark>, w: Window) {
    && w.failed <= MAX_FAILED_ATTEMPTS
    && (if marks == [] then w == Window(0, 0) else marks[|marks| - 1].start == Start(w))
    && (forall i :: 0 <= i < |marks| ==> marks[i].start <= marks[i].at < marks[i].start + FAILURE_WINDOW_MS)
    && (forall i :: 0 <= i < |marks| ==> marks[i].start == Start(w) || marks[i].start + FAILURE_WINDOW_MS <= Start(w))
    && (forall i :: 0 <= i < |marks| && marks[i].start == Start(w) ==> |marks| - i <= w.failed)
  }

  ghost predicate FiveApart(marks: seq<Mark>) {
    forall i, j :: 0 <= i && j == i + MAX_FAILED_ATTEMPTS < |marks|
        ==> marks[i].start + FAILURE_WINDOW_MS <= marks[j].start
  }

  lemma MarkKeepsSpaced(marks: seq<Mark>, w: Window, at: int)
    requires Spaced(marks, w) && FiveApart(marks) && Counts(w, at)
    requires at > 0 && forall m <- marks :: m.at <= at
    ensures Spaced(marks + [Mark(at, Start(Fail(w, at)))], Fail(w, at))
        && FiveApart(marks + [Mark(at, Start(Fail(w, at)))])
  {
    if marks != [] {
      assert marks[|marks| - 1] in marks;
    }
  }

  /** Counted failures are stamped no later than the last failure. */
  lemma {:induction false} MarksAreEarlier(stamps: seq<int>)
    requires ClockOrdered(stamps)
    ensures forall m <- Counted(stamps) :: m.at <= stamps[|stamps| - 1]
  {
    if stamps != [] {
      var front := stamps[..|stamps| - 1];
      MarksAreEarlier(front);
      assert front != [] ==> front[|front| - 1] <= stamps[|stamps| - 1];
    }
  }

  lemma {:induction false} CountedAreSpaced(stamps: seq<int>)
    requires ClockOrdered(stamps)
    ensures Spaced(Counted(stamps), After(stamps)) && FiveApart(Counted(stamps))
  {
    if stamps != [] {
      var front, at := stamps[..|stamps| - 1], stamps[|stamps| - 1];
      CountedAreSpaced(front);
      MarksAreEarlier(front);
      assert front != [] ==> front[|front| - 1] <= at;
      if Counts(After(front), at) {
        MarkKeepsSpaced(Counted(front), After(front), at);
      }
    }
  }

  /** The counter stays at five or below whatever the clocks do. */
  lemma {:induction false} CounterIsCapped(stamps: seq<int>)
    ensures After(stamps).failed <= MAX_FAILED_ATTEMPTS
  {
    if stamps != [] {
      CounterIsCapped(stamps[..|stamps| - 1]);
    }
  }

  lemma {:induction false} StartsAdvance(marks: seq<Mark>, i: nat, windows: nat)
    requires FiveApart(marks) && i + MAX_FAILED_ATTEMPTS * windows < |marks|
    ensures marks[i].start + FAILURE_WINDOW_MS * windows <= marks[i + MAX_FAILED_ATTEMPTS * windows].start
  {
    if windows > 0 {
      StartsAdvance(marks, i, windows - 1);
      var k := i + MAX_FAILED_ATTEMPTS * (windows - 1);
      assert marks[k].start + FAILURE_WINDOW_MS <= marks[k + MAX_FAILED_ATTEMPTS].start;
    }
  }

  lemma {:induction false} StampsAreOrdered(stamps: seq<int>)
    requires ClockOrdered(stamps)
    ensures forall i, j :: 0 <= i < j < |Counted(stamps)| ==> Counted(stamps)[i].at <= Counted(stamps)[j].at
  {
    if stamps != [] {
      StampsAreOrdered(stamps[..|stamps| - 1]);
      MarksAreEarlier(stamps[..|stamps| - 1]);
      var front := Counted(stamps[..|stamps| - 1]);
      assert forall i :: 0 <= i < |front| ==> front[i] in front;
      assert stamps[..|stamps| - 1] != [] ==> stamps[|stamps| - 2] <= stamps[|stamps| - 1];
    }
  }

  /** However the guesses interleave, the counter stays at five or below, and the failures counted
      within any closed span of `span` milliseconds are at most 5 * (span / 60000 + 2). */
  lemma FailuresPerSpan(stamps: seq<int>, i: nat, j: nat, span: nat)
    requires ClockOrdered(stamps) && i <= j < |Counted(stamps)|
    requires Counted(stamps)[j].at - Counted(stamps)[i].at <= span
    ensures After(stamps).failed <= 5
    ensures j - i + 1 <= 5 * (span / 60_000 + 2)
  {
    CountedAreSpaced(stamps);
    StampsAreOrdered(stamps);
    MarksPerSpan(Counted(stamps), i, j, span);
  }

  lemma MarksPerSpan(marks: seq<Mark>, i: nat, j: nat, span: nat)
    requires FiveApart(marks) && i <= j < |marks| && marks[j].at - marks[i].at <= span
    requires forall k :: 0 <= k < |marks| ==> marks[k].start <= marks[k].at < marks[k].start + FAILURE_WINDOW_MS
    requires forall k, l :: 0 <= k < l < |marks| ==> marks[k].at <= marks[l].at
    ensures j - i + 1 <= MAX_FAILED_ATTEMPTS * (span / FAILURE_WINDOW_MS + 2)
  {
    var windows := (j - i) / MAX_FAILED_ATTEMPTS;
    var k := i + MAX_FAILED_ATTEMPTS * windows;
    assert k <= j;
    StartsAdvance(marks, i, windows);
    assert k < j ==> marks[k].at <= marks[j].at;
    WindowsInSpan(j - i, span);
  }

  lemma WindowsInSpan(distance: nat, span: nat)
    requires FAILURE_WINDOW_MS * (distance / MAX_FAILED_ATTEMPTS - 1) < span + 1
    ensures distance + 1 <= MAX_FAILED_ATTEMPTS * (span / FAILURE_WINDOW_MS + 2)
  {
    var q := span / FAILURE_WINDOW_MS;
    assert span < FAILURE_WINDOW_MS * (q + 1);
  }
}
