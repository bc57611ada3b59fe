/** The account lease: a database lease column used as a fencing token by every request that reads,
    edits and writes one connected account. Requests interleave between SQL statements. */
module AccountLease {
  import opened Wrappers
  import opened Text

  const LEASE_MS := 120_000
  const MAX_ACCOUNT_BYTES := 1_800_000

  datatype Row = Row(json: string, revision: nat, leaseUntil: int)

  /** Where a request is between the statements of `withAccount`. */
  datatype Phase = Starting | Locked | Holding | Finished

  /** One request: its lease value, its working copy, and (for the proofs) the stored value that
      copy was made from. */
  datatype Request = Request(phase: Phase, lease: int, account: string, base: string) {
    predicate Active() {
      phase.Locked? || phase.Holding?
    }
  }

  /** The row, the requests, the values persisted since the row was created (newest last), the
      stamp of the latest acquisition and whether the row was deleted since. */
  datatype World = World(row: Option<Row>, requests: seq<Request>, history: seq<string>, clock: int, recreated: bool)

  datatype Step =
    | Ensure                          // INSERT OR IGNORE
    | Acquire(i: nat, now: int)       // UPDATE lease_until WHERE lease_until < now
    | Load(i: nat)                    // SELECT connection_json
    | Edit(i: nat, edit: string -> string) // the operation changes its copy
    | Persist(i: nat)                 // UPDATE connection_json WHERE lease_until = lease
    | Release(i: nat)                 // finally: UPDATE lease_until = 0 WHERE lease_until = lease
    | Delete                          // DELETE of the row, or of its device

  // ----- the statements, on the row

  const EMPTY_ROW := Row("{}", 0, 0)

  function Grant(row: Option<Row>, now: int): Option<Row> {
    if row.Some? && row.value.leaseUntil < now then Some(row.value.(leaseUntil := now + LEASE_MS)) else row
  }

  predicate Granted(row: Option<Row>, now: int) {
    row.Some? && row.value.leaseUntil < now
  }

  predicate Holds(row: Option<Row>, lease: int) {
    row.Some? && row.value.leaseUntil == lease
  }

  predicate CanPersist(row: Option<Row>, lease: int, account: string) {
    Utf8Length(account) <= MAX_ACCOUNT_BYTES && Holds(row, lease)
  }

  function Save(row: Option<Row>, lease: int, account: string): Option<Row> {
    if CanPersist(row, lease, account) then Some(Row(account, row.value.revision + 1, lease)) else row
  }

  function Unlock(row: Option<Row>, lease: int): Option<Row> {
    if Holds(row, lease) then Some(row.value.(leaseUntil := 0)) else row
  }

  function Stored(row: Option<Row>): string {
    if row.Some? then row.value.json else "{}"
  }

  // ----- steps of the interleaving

  predicate Enabled(w: World, s: Step) {
    match s
    case Ensure => true
    case Delete => true
    case Acquire(i, _) => i < |w.requests| && w.requests[i].phase.Starting?
    case Load(i) => i < |w.requests| && w.requests[i].phase.Locked?
    case Edit(i, _) => i < |w.requests| && w.requests[i].phase.Holding?
    case Persist(i) => i < |w.requests| && w.requests[i].phase.Holding?
    case Release(i) => i < |w.requests| && w.requests[i].Active()
  }

  function Next(w: World, s: Step): World {
    if !Enabled(w, s) then w
    else match s
    case Ensure => w.(row := if w.row.None? then Some(EMPTY_ROW) else w.row)
    case Delete => w.(row := None, history := [], recreated := true)
    case Acquire(i, now) =>
      if Granted(w.row, now)
      then w.(row := Grant(w.row, now), requests := w.requests[i := Request(Locked, now + LEASE_MS, "{}", "{}")],
              clock := now, recreated := false)
      else w.(requests := w.requests[i := w.requests[i].(phase := Finished)])
    case Load(i) =>
      w.(requests := w.requests[i := w.requests[i].(phase := Holding, account := Stored(w.row), base := Stored(w.row))])
    case Edit(i, edit) => w.(requests := w.requests[i := w.requests[i].(account := edit(w.requests[i].account))])
    case Persist(i) =>
      var r := w.requests[i];
      if CanPersist(w.row, r.lease, r.account)
      then w.(row := Save(w.row, r.lease, r.account), history := w.history + [r.account],
              requests := w.requests[i := r.(base := r.account)])
      else w
    case Release(i) =>
      var r := w.requests[i];
      w.(row := Unlock(w.row, r.lease), requests := w.requests[i := r.(phase := Finished)])
  }

  predicate Initial(w: World) {
    w.row.None? && w.history == [] && w.clock == 0 && w.recreated
    && forall r <- w.requests :: r.phase.Starting?
  }

  function After(w: World, run: seq<Step>): World {
    if run == [] then w else Next(After(w, run[..|run| - 1]), run[|run| - 1])
  }

  // ----- the invariant

  function Latest(w: World): string {
    if w.history == [] then "{}" else w.history[|w.history| - 1]
  }

  ghost predicate RowMatchesHistory(w: World) {
    if w.row.None? then w.history == []
    else w.row.value.json == Latest(w) && w.row.value.revision == |w.history| && w.row.value.leaseUntil >= 0
  }

  ghost predicate ActiveAt(w: World, i: nat) {
    i < |w.requests| && w.requests[i].Active()
  }

  ghost predicate LeasesDiffer(w: World) {
    && (forall i: nat :: ActiveAt(w, i) ==> 0 < w.requests[i].lease)
    && (forall i: nat, j: nat :: ActiveAt(w, i) && ActiveAt(w, j) && i != j ==>
          w.requests[i].lease != w.requests[j].lease)
  }

  ghost predicate HolderIsCurrent(w: World) {
    forall i: nat :: ActiveAt(w, i) && w.requests[i].phase.Holding? && Holds(w.row, w.requests[i].lease)
                     ==> w.requests[i].base == Latest(w)
  }

  /** What every run keeps whose acquisitions take new leases; it mentions no clock. */
  ghost predicate Fenced(w: World) {
    RowMatchesHistory(w) && LeasesDiffer(w) && HolderIsCurrent(w)
  }

  /** No unfinished request carries the lease that an acquisition at `now` would take. */
  ghost predicate LeaseIsNew(w: World, now: int) {
    forall j: nat :: ActiveAt(w, j) ==> w.requests[j].lease != now + LEASE_MS
  }

  /** An acquisition that is granted takes a new lease. */
  ghost predicate TakesNewLease(w: World, s: Step) {
    s.Acquire? && Enabled(w, s) && Granted(w.row, s.now) ==> LeaseIsNew(w, s.now)
  }

  ghost predicate LeasesStayNew(w: World, run: seq<Step>) {
    run == [] || (LeasesStayNew(w, run[..|run| - 1]) && TakesNewLease(After(w, run[..|run| - 1]), run[|run| - 1]))
  }

  lemma AcquireKeepsFenced(w: World, i: nat, now: int)
    requires Fenced(w) && Enabled(w, Acquire(i, now)) && TakesNewLease(w, Acquire(i, now))
    ensures Fenced(Next(w, Acquire(i, now)))
  {
    var after := Next(w, Acquire(i, now));
    forall j: nat | ActiveAt(after, j) && j != i
      ensures ActiveAt(w, j) && after.requests[j] == w.requests[j]
    {
    }
  }

  lemma RowStepKeepsFenced(w: World, s: Step)
    requires Fenced(w) && (s.Ensure? || s.Delete?)
    ensures Fenced(Next(w, s))
  {
    assert forall i: nat :: ActiveAt(Next(w, s), i) <==> ActiveAt(w, i);
  }

  lemma CopyStepKeepsFenced(w: World, s: Step)
    requires Fenced(w) && Enabled(w, s) && (s.Load? || s.Edit?)
    ensures Fenced(Next(w, s))
  {
    assert ActiveAt(w, s.i);
    assert forall j: nat :: ActiveAt(Next(w, s), j) <==> ActiveAt(w, j);
  }

  lemma PersistKeepsFenced(w: World, i: nat)
    requires Fenced(w) && Enabled(w, Persist(i))
    ensures Fenced(Next(w, Persist(i)))
  {
    assert ActiveAt(w, i);
    assert forall j: nat :: ActiveAt(Next(w, Persist(i)), j) <==> ActiveAt(w, j);
  }

  lemma ReleaseKeepsFenced(w: World, i: nat)
    requires Fenced(w) && Enabled(w, Release(i))
    ensures Fenced(Next(w, Release(i)))
  {
    assert ActiveAt(w, i);
    assert forall j: nat :: ActiveAt(Next(w, Release(i)), j) <==> ActiveAt(w, j) && j != i;
  }

  lemma StepKeepsFenced(w: World, s: Step)
    requires Fenced(w) && TakesNewLease(w, s)
    ensures Fenced(Next(w, s))
  {
    if Enabled(w, s) {
      match s {
        case Acquire(i, now) => AcquireKeepsFenced(w, i, now);
        case Persist(i) => PersistKeepsFenced(w, i);
        case Release(i) => ReleaseKeepsFenced(w, i);
        case Load(_) => CopyStepKeepsFenced(w, s);
        case Edit(_, _) => CopyStepKeepsFenced(w, s);
        case _ => RowStepKeepsFenced(w, s);
      }
    }
  }

  lemma {:induction false} RunsAreFenced(w: World, run: seq<Step>)
    requires Fenced(w) && LeasesStayNew(w, run)
    ensures Fenced(After(w, run))
  {
    if run != [] {
      RunsAreFenced(w, run[..|run| - 1]);
      StepKeepsFenced(After(w, run[..|run| - 1]), run[|run| - 1]);
    }
  }

  // ----- no lost update, and exactly when

  predicate SuccessfulPersist(w: World, s: Step) {
    s.Persist? && Enabled(w, s) && CanPersist(w.row, w.requests[s.i].lease, w.requests[s.i].account)
  }

  /** Request `i` is about to overwrite a value it has neither read nor written. */
  predicate LosesUpdate(w: World, i: nat) {
    SuccessfulPersist(w, Persist(i)) && w.requests[i].base != Stored(w.row)
  }

  /** No update is lost now or later, as long as later acquisitions take new leases. */
  ghost predicate NeverLoses(w: World) {
    forall run: seq<Step>, i: nat :: LeasesStayNew(w, run) ==> !LosesUpdate(After(w, run), i)
  }

  lemma FencedNeverLoses(w: World)
    requires Fenced(w)
    ensures NeverLoses(w)
  {
    forall run: seq<Step>, i: nat | LeasesStayNew(w, run) ensures !LosesUpdate(After(w, run), i) {
      RunsAreFenced(w, run);
      if SuccessfulPersist(After(w, run), Persist(i)) {
        assert ActiveAt(After(w, run), i);
      }
    }
  }

  lemma AfterSnoc(w: World, run: seq<Step>, s: Step)
    ensures After(w, run + [s]) == Next(After(w, run), s)
    ensures LeasesStayNew(w, run + [s]) <==> LeasesStayNew(w, run) && TakesNewLease(After(w, run), s)
  {
    assert (run + [s])[..|run|] == run;
  }

  /** The edit that discards the copy and takes `value`. */
  function To(value: string): string -> string {
    text => value
  }

  /** With one lease in two hands: `j` reads, `i` reads, edits and persists, `j` persists unseen. */
  function Clash(i: nat, j: nat, value: string): seq<Step> {
    [Load(j)] + [Load(i)] + [Edit(i, To(value))] + [Persist(i)] + [Edit(j, To(""))]
  }

  lemma ClashRuns(w: World, i: nat, j: nat, value: string)
    ensures After(w, Clash(i, j, value))
        == Next(Next(Next(Next(Next(w, Load(j)), Load(i)), Edit(i, To(value))), Persist(i)), Edit(j, To("")))
    ensures LeasesStayNew(w, Clash(i, j, value))
  {
    assert [] + [Load(j)] == [Load(j)];
    AfterSnoc(w, [], Load(j));
    AfterSnoc(w, [Load(j)], Load(i));
    AfterSnoc(w, [Load(j)] + [Load(i)], Edit(i, To(value)));
    AfterSnoc(w, [Load(j)] + [Load(i)] + [Edit(i, To(value))], Persist(i));
    AfterSnoc(w, [Load(j)] + [Load(i)] + [Edit(i, To(value))] + [Persist(i)], Edit(j, To("")));
  }

  /** `i` persists a value that `j` did not read, under the lease both carry. */
  lemma BlindPersistFollows(w: World, i: nat, j: nat, value: string)
    requires i != j && i < |w.requests| && j < |w.requests| && Utf8Length(value) == 1
    requires w.requests[i].phase.Holding? && w.requests[j].phase.Holding?
    requires Holds(w.row, w.requests[i].lease) && w.requests[j].lease == w.requests[i].lease
    requires w.requests[j].base != value
    ensures LosesUpdate(Next(Next(Next(w, Edit(i, To(value))), Persist(i)), Edit(j, To(""))), j)
  {
    var w1 := Next(w, Edit(i, To(value)));
    assert w1.row == w.row && w1.requests[i].account == value && w1.requests[j] == w.requests[j];
    var w2 := Next(w1, Persist(i));
    assert Stored(w2.row) == value && w2.requests[j] == w.requests[j];
  }

  lemma SharedLeaseClashes(w: World, i: nat, j: nat, value: string)
    requires i != j && ActiveAt(w, i) && ActiveAt(w, j) && w.requests[i].phase.Locked?
    requires Holds(w.row, w.requests[i].lease) && w.requests[j].lease == w.requests[i].lease
    requires Utf8Length(value) == 1
    requires value != if w.requests[j].phase.Locked? then Stored(w.row) else w.requests[j].base
    ensures LosesUpdate(After(w, Clash(i, j, value)), j)
  {
    ClashRuns(w, i, j, value);
    var w1 := Next(w, Load(j));
    assert w1.row == w.row && w1.requests[i] == w.requests[i] && w1.requests[j].base != value;
    BlindPersistFollows(Next(w1, Load(i)), i, j, value);
  }

  lemma SharedLeaseLoses(w: World, i: nat, j: nat)
    requires i != j && ActiveAt(w, i) && ActiveAt(w, j) && w.requests[i].phase.Locked?
    requires Holds(w.row, w.requests[i].lease) && w.requests[j].lease == w.requests[i].lease
    ensures !NeverLoses(w)
  {
    assert Utf8Length("a") == 1 && Utf8Length("b") == 1 by { assert "a"[1..] == "" && "b"[1..] == ""; }
    var base := if w.requests[j].phase.Locked? then Stored(w.row) else w.requests[j].base;
    var value := if base == "a" then "b" else "a";
    ClashRuns(w, i, j, value);
    SharedLeaseClashes(w, i, j, value);
  }

  /** The exact condition at one acquisition: from then on no update can be lost if and only if no
      unfinished request already carries the lease it takes. */
  lemma AcquireIsSafeIff(w: World, i: nat, now: int)
    requires Fenced(w) && Enabled(w, Acquire(i, now)) && Granted(w.row, now)
    ensures NeverLoses(Next(w, Acquire(i, now))) <==> LeaseIsNew(w, now)
  {
    var after := Next(w, Acquire(i, now));
    if LeaseIsNew(w, now) {
      AcquireKeepsFenced(w, i, now);
      FencedNeverLoses(after);
    } else {
      var j: nat :| ActiveAt(w, j) && w.requests[j].lease == now + LEASE_MS;
      assert ActiveAt(after, i) && ActiveAt(after, j);
      SharedLeaseLoses(after, i, j);
    }
  }

  /** The exact condition for whole runs: an update is lost neither in the run nor in any continuation
      if and only if every granted acquisition of the run took a new lease. */
  lemma {:induction false} NoLostUpdateIff(w: World, run: seq<Step>)
    requires Initial(w)
    ensures LeasesStayNew(w, run) <==> forall n: nat | n <= |run| :: NeverLoses(After(w, run[..n]))
  {
    if LeasesStayNew(w, run) {
      forall n: nat | n <= |run| ensures NeverLoses(After(w, run[..n])) {
        PrefixStaysNew(w, run, n);
        RunsAreFenced(w, run[..n]);
        FencedNeverLoses(After(w, run[..n]));
      }
    } else {
      var front, last := run[..|run| - 1], run[|run| - 1];
      if LeasesStayNew(w, front) {
        RunsAreFenced(w, front);
        AcquireIsSafeIff(After(w, front), last.i, last.now);
        assert run[..|run|] == run;
      } else {
        NoLostUpdateIff(w, front);
        var n: nat :| n <= |front| && !NeverLoses(After(w, front[..n]));
        assert front[..n] == run[..n];
      }
    }
  }

  lemma {:induction false} PrefixStaysNew(w: World, run: seq<Step>, n: nat)
    requires LeasesStayNew(w, run) && n <= |run|
    ensures LeasesStayNew(w, run[..n])
  {
    if n < |run| {
      PrefixStaysNew(w, run[..|run| - 1], n);
      assert run[..|run| - 1][..n] == run[..n];
    } else {
      assert run[..n] == run;
    }
  }

  // ----- what is written

  function Applied(edits: seq<string -> string>, text: string): string {
    if edits == [] then text else edits[|edits| - 1](Applied(edits[..|edits| - 1], text))
  }

  /** The step reads the stored value into the copy of `i`, or stores that copy. */
  predicate Rereads(w: World, s: Step, i: nat) {
    Enabled(w, s) && ((s.Load? && s.i == i) || (s.Persist? && s.i == i && SuccessfulPersist(w, s)))
  }

  /** The stored value that request `i` last read or wrote in the run. */
  function TextRead(w: World, run: seq<Step>, i: nat): string {
    if run == [] then "{}"
    else
      var front, last := run[..|run| - 1], run[|run| - 1];
      if Rereads(After(w, front), last, i) then Stored(Next(After(w, front), last).row) else TextRead(w, front, i)
  }

  /** The edits request `i` has made since. */
  function EditsSince(w: World, run: seq<Step>, i: nat): seq<string -> string> {
    if run == [] then []
    else
      var front, last := run[..|run| - 1], run[|run| - 1];
      if Rereads(After(w, front), last, i) then []
      else if last.Edit? && last.i == i && Enabled(After(w, front), last) then EditsSince(w, front, i) + [last.edit]
      else EditsSince(w, front, i)
  }

  lemma AppliedSnoc(edits: seq<string -> string>, edit: string -> string, text: string)
    ensures Applied(edits + [edit], text) == edit(Applied(edits, text))
  {
    assert (edits + [edit])[..|edits|] == edits;
  }

  /** The copy a request works on is what it last read with its own edits applied. */
  ghost predicate CopyIs(w: World, i: nat, text: string, edits: seq<string -> string>) {
    i < |w.requests| && w.requests[i].phase.Holding?
    ==> w.requests[i].base == text && w.requests[i].account == Applied(edits, text)
  }

  lemma CopyFollows(w: World, s: Step, i: nat, text: string, edits: seq<string -> string>)
    requires CopyIs(w, i, text, edits)
    ensures Rereads(w, s, i) ==> CopyIs(Next(w, s), i, Stored(Next(w, s).row), [])
    ensures !Rereads(w, s, i) ==>
              CopyIs(Next(w, s), i, text,
                     if s.Edit? && s.i == i && Enabled(w, s) then edits + [s.edit] else edits)
  {
    if s.Edit? && s.i == i {
      AppliedSnoc(edits, s.edit, text);
    }
  }

  lemma {:induction false} CopyIsItsEdits(w: World, run: seq<Step>, i: nat)
    requires Initial(w)
    ensures CopyIs(After(w, run), i, TextRead(w, run, i), EditsSince(w, run, i))
  {
    if run != [] {
      var front := run[..|run| - 1];
      CopyIsItsEdits(w, front, i);
      CopyFollows(After(w, front), run[|run| - 1], i, TextRead(w, front, i), EditsSince(w, front, i));
    }
  }

  lemma PersistExtendsHistory(w: World, i: nat)
    requires Fenced(w) && SuccessfulPersist(w, Persist(i))
    ensures w.requests[i].base == Stored(w.row)
    ensures Next(w, Persist(i)).row == Some(Row(w.requests[i].account, |w.history| + 1, w.requests[i].lease))
    ensures Next(w, Persist(i)).history == w.history + [w.requests[i].account]
  {
    assert ActiveAt(w, i);
  }

  /** No lost update: whenever a persist succeeds, the stored value it replaces is the one the request
      last read or wrote, and what it stores is that value with the request's own edits since applied;
      the revision counts the values persisted so far. */
  lemma PersistBuildsOnLatest(w: World, run: seq<Step>, i: nat)
    requires Initial(w) && LeasesStayNew(w, run) && SuccessfulPersist(After(w, run), Persist(i))
    ensures var now, next := After(w, run), Next(After(w, run), Persist(i));
            var value := Applied(EditsSince(w, run, i), Stored(now.row));
            && TextRead(w, run, i) == Stored(now.row)
            && next.row == Some(Row(value, |now.history| + 1, now.requests[i].lease))
            && next.history == now.history + [value]
  {
    RunsAreFenced(w, run);
    PersistExtendsHistory(After(w, run), i);
    CopyIsItsEdits(w, run, i);
  }

  /** A request that edits nothing stores what is stored. */
  lemma UneditedPersistKeepsText(w: World, run: seq<Step>, i: nat)
    requires Initial(w) && LeasesStayNew(w, run) && SuccessfulPersist(After(w, run), Persist(i))
    requires forall s <- run :: s.Edit? ==> s.i != i
    ensures Stored(Next(After(w, run), Persist(i)).row) == Stored(After(w, run).row)
  {
    PersistBuildsOnLatest(w, run, i);
    NoEdits(w, run, i);
  }

  lemma {:induction false} NoEdits(w: World, run: seq<Step>, i: nat)
    requires forall s <- run :: s.Edit? ==> s.i != i
    ensures EditsSince(w, run, i) == []
  {
    if run != [] {
      NoEdits(w, run[..|run| - 1], i);
      assert run[|run| - 1] in run;
    }
  }

  // ----- the lease

  /** An expired or returned lease is granted for two minutes; a live one makes the request finish. */
  lemma AcquireOutcome(w: World, i: nat, now: int)
    requires i < |w.requests| && w.requests[i].phase.Starting? && w.row.Some?
    ensures var next, row := Next(w, Acquire(i, now)), w.row.value;
            if row.leaseUntil < now
            then next.row == Some(Row(row.json, row.revision, now + 120_000))
                 && next.requests[i].phase.Locked? && next.requests[i].lease == now + 120_000
            else next.row == w.row && next.requests[i].phase.Finished?
  {
  }

  /** A request nothing interferes with stores its edit, unless that is too large, and returns the lease. */
  lemma UndisturbedRequest(w: World, i: nat, now: int, edit: string -> string)
    requires i < |w.requests| && w.requests[i].phase.Starting?
    requires w.row.Some? && w.row.value.leaseUntil < now
    ensures var row := w.row.value;
            Next(Next(Next(Next(Next(w, Acquire(i, now)), Load(i)), Edit(i, edit)), Persist(i)), Release(i)).row
            == if Utf8Length(edit(row.json)) <= 1_800_000 then Some(Row(edit(row.json), row.revision + 1, 0))
               else Some(Row(row.json, row.revision, 0))
  {
    var row, w1 := w.row.value, Next(Next(w, Acquire(i, now)), Load(i));
    assert w1.row == Some(row.(leaseUntil := now + 120_000));
    assert w1.requests[i] == Request(Holding, now + 120_000, row.json, row.json);
  }

  /** What the lease column means while `i` has it: nothing but `i` returning it, the row going away or
      two minutes passing lets another request in. */
  ghost predicate Quiet(s: Step, i: nat, until: int) {
    !s.Delete? && (s.Release? ==> s.i != i) && (s.Acquire? ==> s.now <= until)
  }

  ghost predicate HasRow(w: World, i: nat, lease: int) {
    ActiveAt(w, i) && w.requests[i].lease == lease && Holds(w.row, lease)
  }

  lemma QuietStepKeepsOut(w: World, s: Step, i: nat, lease: int)
    requires Fenced(w) && HasRow(w, i, lease) && Quiet(s, i, lease)
    ensures HasRow(Next(w, s), i, lease) && TakesNewLease(w, s)
  {
    if s.Release? && Enabled(w, s) {
      assert ActiveAt(w, s.i);
    }
    if s.Persist? && Enabled(w, s) {
      assert ActiveAt(w, s.i);
    }
  }

  lemma {:induction false} LeaseStays(w: World, run: seq<Step>, i: nat, lease: int)
    requires Fenced(w) && HasRow(w, i, lease) && forall s <- run :: Quiet(s, i, lease)
    ensures Fenced(After(w, run)) && HasRow(After(w, run), i, lease)
  {
    if run != [] {
      var front, last := run[..|run| - 1], run[|run| - 1];
      assert last in run;
      LeaseStays(w, front, i, lease);
      QuietStepKeepsOut(After(w, front), last, i, lease);
      StepKeepsFenced(After(w, front), last);
    }
  }

  /** While a request has the lease, every other one that asks for it within the two minutes is turned
      away, whatever else happens, and its own copy can still be stored. */
  lemma LeaseKeepsOthersOut(w: World, run: seq<Step>, i: nat, lease: int, j: nat, now: int)
    requires Fenced(w) && HasRow(w, i, lease) && forall s <- run :: Quiet(s, i, lease)
    ensures var later := After(w, run);
            && HasRow(later, i, lease)
            && (later.requests[i].phase.Holding? && Utf8Length(later.requests[i].account) <= 1_800_000
                ==> Next(later, Persist(i)).row
                    == Some(Row(later.requests[i].account, later.row.value.revision + 1, lease)))
            && (j < |later.requests| && later.requests[j].phase.Starting? && now <= lease
                ==> Next(later, Acquire(j, now)).row == later.row
                    && Next(later, Acquire(j, now)).requests[j].phase.Finished?)
  {
    LeaseStays(w, run, i, lease);
  }

  /** At most one unfinished request holds the row. */
  lemma OneHolder(w: World, run: seq<Step>, i: nat, j: nat)
    requires Initial(w) && LeasesStayNew(w, run)
    requires ActiveAt(After(w, run), i) && Holds(After(w, run).row, After(w, run).requests[i].lease)
    requires ActiveAt(After(w, run), j) && Holds(After(w, run).row, After(w, run).requests[j].lease)
    ensures i == j
  {
    RunsAreFenced(w, run);
  }

  lemma SupersededStep(w: World, s: Step, i: nat)
    requires Fenced(w) && TakesNewLease(w, s)
    requires ActiveAt(w, i) && !Holds(w.row, w.requests[i].lease)
    ensures var next := Next(w, s);
            i < |next.requests| && next.requests[i].lease == w.requests[i].lease
            && !Holds(next.row, w.requests[i].lease)
            && (!next.requests[i].Active() ==> next.requests[i].phase.Finished?)
  {
    StepKeepsFenced(w, s);
    if Enabled(w, s) && s.Acquire? && Granted(w.row, s.now) {
      assert ActiveAt(Next(w, s), s.i) && ActiveAt(Next(w, s), i);
    }
  }

  /** A superseded request never gets the row back: in every continuation its persist and its
      release leave the row, hence its successor's lease, untouched. */
  lemma {:induction false} SupersededStaysOut(w: World, run: seq<Step>, i: nat)
    requires Fenced(w) && LeasesStayNew(w, run)
    requires ActiveAt(w, i) && !Holds(w.row, w.requests[i].lease)
    ensures var later := After(w, run);
            && i < |later.requests| && (ActiveAt(later, i) || later.requests[i].phase.Finished?)
            && (ActiveAt(later, i) ==>
                  later.requests[i].lease == w.requests[i].lease && !Holds(later.row, w.requests[i].lease))
            && Next(later, Persist(i)).row == later.row && Next(later, Release(i)).row == later.row
  {
    if run != [] {
      var front, last := run[..|run| - 1], run[|run| - 1];
      SupersededStaysOut(w, front, i);
      RunsAreFenced(w, front);
      if ActiveAt(After(w, front), i) {
        SupersededStep(After(w, front), last, i);
      }
    }
  }

  /** How many persists of the run succeeded. */
  function Persists(w: World, run: seq<Step>): nat {
    if run == [] then 0
    else
      var front := run[..|run| - 1];
      Persists(w, front) + if SuccessfulPersist(After(w, front), run[|run| - 1]) then 1 else 0
  }

  function Revision(row: Option<Row>): nat {
    if row.Some? then row.value.revision else 0
  }

  lemma RevisionStep(w: World, s: Step)
    requires !s.Delete?
    ensures Revision(Next(w, s).row) == Revision(w.row) + (if SuccessfulPersist(w, s) then 1 else 0)
  {
  }

  /** While the row is not deleted, `revision` grows by one for every successful persist. */
  lemma {:induction false} RevisionCountsPersists(w: World, run: seq<Step>)
    requires forall s <- run :: !s.Delete?
    ensures Revision(After(w, run).row) == Revision(w.row) + Persists(w, run)
  {
    if run != [] {
      RevisionCountsPersists(w, run[..|run| - 1]);
      RevisionStep(After(w, run[..|run| - 1]), run[|run| - 1]);
    }
  }

  // ----- clocks that meet the condition

  /** Stamps of granted acquisitions do not go back, and one that repeats the previous stamp does not
      follow a deletion of the row. */
  predicate Timely(w: World, s: Step) {
    s.Acquire? && Granted(w.row, s.now) ==> w.clock < s.now || (w.clock == s.now && !w.recreated)
  }

  /** Every step of the run is timely where it happens. */
  predicate Punctual(w: World, run: seq<Step>) {
    run == [] || (Punctual(w, run[..|run| - 1]) && Timely(After(w, run[..|run| - 1]), run[|run| - 1]))
  }

  ghost predicate LeasesAreOld(w: World) {
    && (forall i: nat :: ActiveAt(w, i) ==> w.requests[i].lease <= w.clock + LEASE_MS)
    && (w.row.None? ==> w.recreated)
    && (!w.recreated ==> forall i: nat :: ActiveAt(w, i) ==>
          Holds(w.row, w.requests[i].lease) || w.requests[i].lease < w.clock + LEASE_MS)
  }

  lemma TimelyTakesNewLease(w: World, s: Step)
    requires LeasesAreOld(w) && Timely(w, s)
    ensures TakesNewLease(w, s)
  {
  }

  lemma TimelyStaysOld(w: World, s: Step)
    requires Fenced(w) && LeasesAreOld(w) && Timely(w, s)
    ensures LeasesAreOld(Next(w, s))
  {
    var after := Next(w, s);
    forall j: nat | ActiveAt(after, j) ensures ActiveAt(w, j) || (s.Acquire? && s.i == j && Granted(w.row, s.now)) {
    }
    TimelyTakesNewLease(w, s);
  }

  /** A clock that does not go back keeps every lease new, up to a deletion within its millisecond. */
  lemma {:induction false} PunctualTakesNewLeases(w: World, run: seq<Step>)
    requires Initial(w) && Punctual(w, run)
    ensures LeasesStayNew(w, run) && LeasesAreOld(After(w, run))
  {
    if run != [] {
      var front := run[..|run| - 1];
      PunctualTakesNewLeases(w, front);
      RunsAreFenced(w, front);
      TimelyTakesNewLease(After(w, front), run[|run| - 1]);
      TimelyStaysOld(After(w, front), run[|run| - 1]);
    }
  }

  // ----- two runs that lose an update

  /** The row is deleted and recreated within one millisecond, two requests carry the same lease, and
      the second persist overwrites the first unseen. */
  lemma DeletionWithinOneMillisecondLosesUpdate()
    ensures var idle := Request(Starting, 0, "{}", "{}");
            var w0 := World(None, [idle, idle], [], 0, true);
            var w1 := Next(Next(Next(w0, Ensure), Acquire(0, 5)), Load(0));
            var w2 := Next(Next(Next(Next(w1, Delete), Ensure), Acquire(1, 5)), Load(1));
            var w3 := Next(Next(Next(w2, Edit(1, To("b"))), Persist(1)), Edit(0, To("a")));
            Initial(w0) && LosesUpdate(w3, 0) && Next(w3, Persist(0)).row == Some(Row("a", 2, 5 + LEASE_MS))
  {
    OneByteTexts();
    var idle := Request(Starting, 0, "{}", "{}");
    var holder := Request(Holding, 5 + LEASE_MS, "{}", "{}");
    var w0 := World(None, [idle, idle], [], 0, true);
    var w1 := Next(Next(Next(w0, Ensure), Acquire(0, 5)), Load(0));
    assert w1 == World(Some(Row("{}", 0, 5 + LEASE_MS)), [holder, idle], [], 5, false);
    var w2 := Next(Next(Next(Next(w1, Delete), Ensure), Acquire(1, 5)), Load(1));
    assert w2 == World(Some(Row("{}", 0, 5 + LEASE_MS)), [holder, holder], [], 5, false);
    SecondPersistIsBlind(w2, 0, 1);
  }

  lemma OneByteTexts()
    ensures Utf8Length("a") == 1 && Utf8Length("b") == 1
  {
    assert "a"[1..] == "" && "b"[1..] == "";
  }

  /** Two holders of one lease with the same copy: the second persist replaces the first unseen. */
  lemma SecondPersistIsBlind(w: World, i: nat, j: nat)
    requires i != j && i < |w.requests| && j < |w.requests| && w.row.Some? && w.row.value.json == "{}"
    requires w.requests[i] == w.requests[j] == Request(Holding, w.row.value.leaseUntil, "{}", "{}")
    ensures var w1 := Next(Next(Next(w, Edit(j, To("b"))), Persist(j)), Edit(i, To("a")));
            LosesUpdate(w1, i) && Next(w1, Persist(i)).row
                == Some(Row("a", w.row.value.revision + 2, w.row.value.leaseUntil))
  {
    OneByteTexts();
    var w1 := Next(Next(w, Edit(j, To("b"))), Persist(j));
    assert w1.row == Some(Row("b", w.row.value.revision + 1, w.row.value.leaseUntil))
        && w1.requests[i] == w.requests[i];
  }

  /** No deletion is needed when the clock goes back: a second request takes and returns a later lease,
      and a third one takes the first one's lease again. */
  lemma BackwardClockLosesUpdate()
    ensures var idle := Request(Starting, 0, "{}", "{}");
            var w0 := World(None, [idle, idle, idle], [], 0, true);
            var w1 := Next(Next(Next(w0, Ensure), Acquire(0, 5)), Load(0));
            var w2 := Next(Next(w1, Acquire(1, 6 + LEASE_MS)), Release(1));
            var w3 := Next(Next(w2, Acquire(2, 5)), Load(2));
            var w4 := Next(Next(Next(w3, Edit(2, To("b"))), Persist(2)), Edit(0, To("a")));
            Initial(w0) && LosesUpdate(w4, 0) && Next(w4, Persist(0)).row == Some(Row("a", 2, 5 + LEASE_MS))
  {
    var idle, holder := Request(Starting, 0, "{}", "{}"), Request(Holding, 5 + LEASE_MS, "{}", "{}");
    var done := Request(Finished, 6 + 2 * LEASE_MS, "{}", "{}");
    var w0 := World(None, [idle, idle, idle], [], 0, true);
    var w1 := Next(Next(Next(w0, Ensure), Acquire(0, 5)), Load(0));
    assert w1 == World(Some(Row("{}", 0, 5 + LEASE_MS)), [holder, idle, idle], [], 5, false);
    var w2 := Next(Next(w1, Acquire(1, 6 + LEASE_MS)), Release(1));
    assert w2 == World(Some(Row("{}", 0, 0)), [holder, done, idle], [], 6 + LEASE_MS, false);
    var w3 := Next(Next(w2, Acquire(2, 5)), Load(2));
    assert w3 == World(Some(Row("{}", 0, 5 + LEASE_MS)), [holder, done, holder], [], 5, false);
    SecondPersistIsBlind(w3, 0, 2);
  }

  // ----- the Worker's code

  /** Every one of the edits, made in turn, leaves a copy small enough to store. */
  predicate AllSmall(edits: seq<string -> string>, text: string) {
    edits == [] || (AllSmall(edits[..|edits| - 1], text) && Utf8Length(Applied(edits, text)) <= 1_800_000)
  }

  /** The first `stored` edits do, and the next one does not. */
  predicate StoredUpTo(edits: seq<string -> string>, text: string, stored: nat) {
    && stored <= |edits| && AllSmall(edits[..stored], text)
    && (stored < |edits| ==> Utf8Length(Applied(edits[..stored + 1], text)) > 1_800_000)
  }

  class AccountTable {
    var row: Option<Row>

    constructor ()
      ensures row == None
    {
      row := None;
    }

    method InsertOrIgnore()
      modifies this
      ensures row == if old(row).None? then Some(EMPTY_ROW) else old(row)
    {
      if row.None? {
        row := Some(EMPTY_ROW);
      }
    }

    method TakeLease(now: int) returns (changed: bool)
      modifies this
      ensures changed == Granted(old(row), now) && row == Grant(old(row), now)
    {
      changed := row.Some? && row.value.leaseUntil < now;
      if changed {
        row := Some(row.value.(leaseUntil := now + LEASE_MS));
      }
    }

    method SaveConnection(lease: int, account: string) returns (saved: bool)
      modifies this
      ensures saved == CanPersist(old(row), lease, account) && row == Save(old(row), lease, account)
    {
      if Utf8Length(account) > MAX_ACCOUNT_BYTES {
        return false;
      }
      saved := row.Some? && row.value.leaseUntil == lease;
      if saved {
        row := Some(Row(account, row.value.revision + 1, row.value.leaseUntil));
      }
    }

    method ReleaseLease(lease: int)
      modifies this
      ensures row == Unlock(old(row), lease)
    {
      if row.Some? && row.value.leaseUntil == lease {
        row := Some(row.value.(leaseUntil := 0));
      }
    }

    /** The operation: it edits its copy and persists it, one edit after the other. */
    method Operate(lease: int, text: string, edits: seq<string -> string>) returns (stored: nat)
      requires Holds(row, lease) && Stored(row) == text
      modifies this
      ensures StoredUpTo(edits, text, stored)
      ensures row == Some(Row(Applied(edits[..stored], text), old(row).value.revision + stored, lease))
    {
      var account := text;
      stored := 0;
      while stored < |edits|
        invariant stored <= |edits| && account == Applied(edits[..stored], text) && AllSmall(edits[..stored], text)
        invariant row == Some(Row(account, old(row).value.revision + stored, lease))
      {
        assert edits[..stored + 1][..stored] == edits[..stored];
        account := edits[stored](account);
        var saved := SaveConnection(lease, account);
        if !saved {
          break;
        }
        stored := stored + 1;
      }
    }

    /** `withAccount` undisturbed, around an operation that makes and persists `edits` in turn on the
        copy it read: all of them are stored up to the first oversized one, and the lease is returned. */
    method WithAccount(now: int, edits: seq<string -> string>) returns (busy: bool, stored: nat)
      modifies this
      ensures var before := if old(row).None? then Row("{}", 0, 0) else old(row).value;
              && busy == (before.leaseUntil >= now)
              && (busy ==> row == Some(before) && stored == 0)
              && (!busy ==>
                    StoredUpTo(edits, before.json, stored)
                    && row == Some(Row(Applied(edits[..stored], before.json), before.revision + stored, 0)))
    {
      InsertOrIgnore();
      var lease := now + LEASE_MS;
      var locked := TakeLease(now);
      if !locked {
        return true, 0;
      }
      busy := false;
      stored := Operate(lease, row.value.json, edits);
      ReleaseLease(lease);
    }
  }
}
