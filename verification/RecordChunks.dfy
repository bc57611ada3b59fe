/** Chunked record store: content-addressed uploads, a staging budget, garbage collection and an
    atomic manifest swap. One SQL statement (or one D1 batch) is one atomic step; handlers
    interleave freely, so every claim is about an arbitrary sequence of statements. */
module RecordChunks {
  import opened Wrappers
  import opened Sums
  import opened Text

  const MAX_RECORD_CHUNKS := 512
  const MAX_CHUNK_BYTES := 330 * 1024
  const MAX_STAGED_BYTES := 96 * 1024 * 1024
  const RETAIN_MS := 10 * 60_000

  /** The (category, device) pair that both tables are keyed by. */
  datatype Slot = Slot(category: string, device: string)
  datatype ChunkKey = ChunkKey(slot: Slot, id: string)
  datatype Chunk = Chunk(payload: string, updatedAt: int)
  datatype Record = Record(payload: string, updatedAt: int, chunkIds: seq<string>)

  type Chunks = map<ChunkKey, Chunk>
  datatype Tables = Tables(chunks: Chunks, records: map<Slot, Record>)

  /** SHA-256 in lower-case hex: an uninterpreted function chosen by the caller. */
  type Sha = string -> string

  // ----- validation

  predicate ValidChunkId(id: string) {
    |id| == 64 && forall c <- id :: 'a' <= c <= 'f' || '0' <= c <= '9'
  }

  predicate ValidChunkList(ids: seq<string>) {
    0 < |ids| <= MAX_RECORD_CHUNKS && forall id <- ids :: ValidChunkId(id)
  }

  /** SQLite's `length()` of a text value: characters before the first NUL. */
  function SqlLength(s: string): nat {
    if s == "" || s[0] == '\0' then 0 else 1 + SqlLength(s[1..])
  }

  predicate PlainText(s: string) {
    forall c <- s :: '\0' < c < '\U{80}'
  }

  lemma {:induction false} SqlLengthWithinBytes(s: string)
    ensures SqlLength(s) <= Utf8Length(s)
    ensures PlainText(s) ==> SqlLength(s) == Utf8Length(s)
  {
    if s != "" {
      SqlLengthWithinBytes(s[1..]);
      if PlainText(s) {
        assert s[0] in s && forall c <- s[1..] :: c in s;
      }
    }
  }

  predicate ValidUpload(sha: Sha, id: string, payload: string) {
    ValidChunkId(id) && Utf8Length(payload) <= MAX_CHUNK_BYTES && sha(payload) == id
  }

  /** `[...new Set(ids)]`: first occurrences, in order. */
  function Dedup(ids: seq<string>): (r: seq<string>)
    ensures forall id :: id in r <==> id in ids
    ensures forall i, j :: 0 <= i < j < |r| ==> r[i] != r[j]
  {
    if ids == [] then []
    else
      var front := Dedup(ids[..|ids| - 1]);
      if ids[|ids| - 1] in front then front else front + [ids[|ids| - 1]]
  }

  predicate Distinct(ids: seq<string>) {
    forall i, j :: 0 <= i < j < |ids| ==> ids[i] != ids[j]
  }

  // ----- the statements, on table values

  function ActiveIds(t: Tables, slot: Slot): seq<string> {
    if slot in t.records then t.records[slot].chunkIds else []
  }

  /** DELETE of stale chunks the active manifest does not name. */
  function Collect(t: Tables, slot: Slot, now: int): Tables {
    t.(chunks := map k | k in t.chunks
       && !(k.slot == slot && t.chunks[k].updatedAt < now - RETAIN_MS && k.id !in ActiveIds(t, slot)) :: t.chunks[k])
  }

  function SlotKeys(chunks: Chunks, slot: Slot): set<ChunkKey> {
    set k | k in chunks && k.slot == slot
  }

  function LengthIn(chunks: Chunks): ChunkKey -> nat {
    k => if k in chunks then SqlLength(chunks[k].payload) else 0
  }

  function BytesIn(chunks: Chunks): ChunkKey -> nat {
    k => if k in chunks then Utf8Length(chunks[k].payload) else 0
  }

  /** SUM(length(payload)) over one slot, skipping `except`. */
  ghost function StagedOthers(chunks: Chunks, slot: Slot, except: string): nat {
    SumOver(SlotKeys(chunks, slot) - {ChunkKey(slot, except)}, LengthIn(chunks))
  }

  ghost function StagedLength(chunks: Chunks, slot: Slot): nat {
    SumOver(SlotKeys(chunks, slot), LengthIn(chunks))
  }

  ghost function StagedBytes(chunks: Chunks, slot: Slot): nat {
    SumOver(SlotKeys(chunks, slot), BytesIn(chunks))
  }

  ghost predicate Fits(t: Tables, slot: Slot, id: string, payload: string) {
    StagedOthers(t.chunks, slot, id) + Utf8Length(payload) <= MAX_STAGED_BYTES
  }

  /** The guarded INSERT; on conflict only the stamp is refreshed. */
  ghost function Insert(t: Tables, slot: Slot, id: string, payload: string, now: int): Tables {
    var k := ChunkKey(slot, id);
    if !Fits(t, slot, id, payload) then t
    else t.(chunks := t.chunks[k := Chunk(if k in t.chunks then t.chunks[k].payload else payload, now)])
  }

  function Named(chunks: Chunks, slot: Slot, ids: seq<string>): set<ChunkKey> {
    set k | k in chunks && k.slot == slot && k.id in ids
  }

  /** COUNT(*) of the named chunks equals the manifest's length. */
  predicate CountMatches(t: Tables, slot: Slot, ids: seq<string>) {
    |Named(t.chunks, slot, ids)| == |ids|
  }

  /** The commit batch: the guarded manifest swap, then the unconditional refresh. */
  function Commit(t: Tables, slot: Slot, payload: string, ids: seq<string>, now: int): Tables {
    Tables(
      map k | k in t.chunks :: if k.slot == slot && k.id in ids then t.chunks[k].(updatedAt := now) else t.chunks[k],
      if CountMatches(t, slot, ids) then t.records[slot := Record(payload, now, ids)] else t.records)
  }

  /** The plain PUT of an unchunked record. */
  function Overwrite(t: Tables, slot: Slot, payload: string, now: int): Tables {
    t.(records := t.records[slot := Record(payload, now, [])])
  }

  /** Deleting a device cascades to both tables. */
  function DropDevice(t: Tables, device: string): Tables {
    Tables(map k | k in t.chunks && k.slot.device != device :: t.chunks[k],
           map slot | slot in t.records && slot.device != device :: t.records[slot])
  }

  // ----- runs

  datatype Statement =
    | Collecting(slot: Slot, now: int)
    | Inserting(slot: Slot, id: string, payload: string, now: int)
    | Committing(slot: Slot, payload: string, ids: seq<string>, now: int)
    | Overwriting(slot: Slot, payload: string, now: int)
    | Dropping(device: string, now: int)

  /** What the handlers let through to the database. */
  predicate Issued(sha: Sha, s: Statement) {
    match s
    case Inserting(_, id, payload, _) => ValidUpload(sha, id, payload)
    case Committing(_, _, ids, _) => ValidChunkList(ids) && Distinct(ids)
    case _ => true
  }

  ghost function Apply(t: Tables, s: Statement): Tables {
    match s
    case Collecting(slot, now) => Collect(t, slot, now)
    case Inserting(slot, id, payload, now) => Insert(t, slot, id, payload, now)
    case Committing(slot, payload, ids, now) => Commit(t, slot, payload, ids, now)
    case Overwriting(slot, payload, now) => Overwrite(t, slot, payload, now)
    case Dropping(device, _) => DropDevice(t, device)
  }

  ghost function Run(t: Tables, run: seq<Statement>): Tables {
    if run == [] then t else Apply(Run(t, run[..|run| - 1]), run[|run| - 1])
  }

  // ----- the invariant

  ghost predicate ContentAddressed(sha: Sha, t: Tables) {
    forall k <- t.chunks :: ValidUpload(sha, k.id, t.chunks[k].payload)
  }

  ghost predicate ManifestsComplete(t: Tables) {
    forall slot, id :: slot in t.records && id in t.records[slot].chunkIds ==> ChunkKey(slot, id) in t.chunks
  }

  ghost predicate WithinBudget(t: Tables) {
    forall slot :: StagedLength(t.chunks, slot) <= MAX_STAGED_BYTES
  }

  ghost predicate Sound(sha: Sha, t: Tables) {
    ContentAddressed(sha, t) && ManifestsComplete(t) && WithinBudget(t)
  }

  /** Distinct names: the count equals the manifest length exactly when every name is stored. */
  lemma CountMeansAllPresent(t: Tables, slot: Slot, ids: seq<string>)
    requires Distinct(ids)
    ensures CountMatches(t, slot, ids) <==> forall id <- ids :: ChunkKey(slot, id) in t.chunks
  {
    var all := set id <- ids :: ChunkKey(slot, id);
    KeysOfDistinct(slot, ids);
    var named := Named(t.chunks, slot, ids);
    assert named <= all by {
      forall k <- named ensures k in all { assert k == ChunkKey(slot, k.id); }
    }
    SameSizeMeansEqual(named, all);
    assert (forall id <- ids :: ChunkKey(slot, id) in t.chunks) ==> all <= named;
    assert (forall id <- ids :: ChunkKey(slot, id) in named) ==> (forall id <- ids :: ChunkKey(slot, id) in t.chunks);
    assert forall id <- ids :: ChunkKey(slot, id) in all;
  }

  lemma {:induction false} KeysOfDistinct(slot: Slot, ids: seq<string>)
    requires Distinct(ids)
    ensures |set id <- ids :: ChunkKey(slot, id)| == |ids|
  {
    if ids != [] {
      var front, last := ids[..|ids| - 1], ids[|ids| - 1];
      KeysOfDistinct(slot, front);
      assert ids == front + [last];
      assert (set id <- ids :: ChunkKey(slot, id)) == (set id <- front :: ChunkKey(slot, id)) + {ChunkKey(slot, last)};
    }
  }

  lemma SameSizeMeansEqual<T>(small: set<T>, large: set<T>)
    requires small <= large
    ensures |small| == |large| <==> small == large
  {
    assert large == small + (large - small);
  }

  lemma BudgetShrinks(before: Chunks, after: Chunks, slot: Slot)
    requires forall k <- after :: k in before && before[k].payload == after[k].payload
    ensures StagedLength(after, slot) <= StagedLength(before, slot)
  {
    SumOverMonotone(SlotKeys(after, slot), SlotKeys(before, slot), LengthIn(after), LengthIn(before));
  }

  /** The guard of the INSERT keeps the slot within budget even when it replaces nothing. */
  lemma InsertKeepsBudget(t: Tables, slot: Slot, id: string, payload: string, now: int, other: Slot)
    requires WithinBudget(t)
    ensures StagedLength(Insert(t, slot, id, payload, now).chunks, other) <= MAX_STAGED_BYTES
  {
    var k, before, after := ChunkKey(slot, id), t.chunks, Insert(t, slot, id, payload, now).chunks;
    if other == slot && k !in before && Fits(t, slot, id, payload) {
      SumOverRemove(SlotKeys(after, slot), k, LengthIn(after));
      assert SlotKeys(after, slot) - {k} == SlotKeys(before, slot) - {k};
      SumOverMonotone(SlotKeys(after, slot) - {k}, SlotKeys(before, slot) - {k}, LengthIn(after), LengthIn(before));
      SqlLengthWithinBytes(payload);
    } else {
      forall key <- SlotKeys(after, other)
        ensures key in SlotKeys(before, other) && LengthIn(after)(key) <= LengthIn(before)(key)
      {
        assert key != k || k in before || !Fits(t, slot, id, payload);
      }
      SumOverMonotone(SlotKeys(after, other), SlotKeys(before, other), LengthIn(after), LengthIn(before));
      assert StagedLength(before, other) <= MAX_STAGED_BYTES;
    }
  }

  lemma StepKeepsSound(sha: Sha, t: Tables, s: Statement)
    requires Sound(sha, t) && Issued(sha, s)
    ensures Sound(sha, Apply(t, s))
  {
    var after := Apply(t, s);
    match s {
      case Inserting(slot, id, payload, now) =>
        forall other ensures StagedLength(after.chunks, other) <= MAX_STAGED_BYTES {
          InsertKeepsBudget(t, slot, id, payload, now, other);
        }
      case Committing(slot, payload, ids, now) =>
        CountMeansAllPresent(t, slot, ids);
        forall other ensures StagedLength(after.chunks, other) <= MAX_STAGED_BYTES {
          BudgetShrinks(t.chunks, after.chunks, other);
        }
      case _ =>
        forall other ensures StagedLength(after.chunks, other) <= MAX_STAGED_BYTES {
          BudgetShrinks(t.chunks, after.chunks, other);
        }
    }
  }

  /** Every reachable state: manifests are complete, chunks hash to their ids, staging fits. */
  lemma {:induction false} RunsKeepSound(sha: Sha, t: Tables, run: seq<Statement>)
    requires Sound(sha, t) && forall s <- run :: Issued(sha, s)
    ensures Sound(sha, Run(t, run))
  {
    if run != [] {
      RunsKeepSound(sha, t, run[..|run| - 1]);
      StepKeepsSound(sha, Run(t, run[..|run| - 1]), run[|run| - 1]);
    }
  }

  /** An incomplete upload leaves the record; a complete one installs exactly the named chunks. */
  lemma CommitSwapsOnlyComplete(t: Tables, slot: Slot, payload: string, ids: seq<string>, now: int)
    requires Distinct(ids)
    ensures var complete := forall id <- ids :: ChunkKey(slot, id) in t.chunks;
            Commit(t, slot, payload, ids, now).records
            == if complete then t.records[slot := Record(payload, now, ids)] else t.records
    ensures forall k :: k in Commit(t, slot, payload, ids, now).chunks <==> k in t.chunks
  {
    CountMeansAllPresent(t, slot, ids);
  }

  /** With a collision-free hash, an accepted upload is stored verbatim, first time or repeat. */
  lemma AcceptedUploadIsStored(sha: Sha, t: Tables, slot: Slot, id: string, payload: string, now: int)
    requires Sound(sha, t) && ValidUpload(sha, id, payload) && Fits(t, slot, id, payload)
    requires forall a, b :: sha(a) == sha(b) ==> a == b
    ensures Insert(t, slot, id, payload, now).chunks == t.chunks[ChunkKey(slot, id) := Chunk(payload, now)]
  {
    var k := ChunkKey(slot, id);
    if k in t.chunks {
      assert sha(t.chunks[k].payload) == sha(payload);
    }
  }

  /** The keys of a slot other than the chunk itself. */
  function OtherKeys(t: Tables, slot: Slot, id: string): set<ChunkKey> {
    set k | k in t.chunks && k.slot == slot && k.id != id
  }

  /** An upload is stored exactly while the other chunks of its slot leave it room in 96 MiB; a chunk
      already there does not count against its own repeat. */
  lemma UploadIsStoredIff(t: Tables, slot: Slot, id: string, payload: string, now: int)
    ensures var k, after := ChunkKey(slot, id), Apply(t, Inserting(slot, id, payload, now));
            if SumOver(OtherKeys(t, slot, id), LengthIn(t.chunks)) + Utf8Length(payload) <= 100_663_296
            then k in after.chunks && after.chunks[k].updatedAt == now
                 && after.chunks.Keys == t.chunks.Keys + {k} && after.records == t.records
            else after == t
  {
    assert OtherKeys(t, slot, id) == SlotKeys(t.chunks, slot) - {ChunkKey(slot, id)};
  }

  /** For plain ASCII payloads the budget also bounds the bytes. */
  lemma PlainBytesWithinBudget(t: Tables, slot: Slot)
    requires WithinBudget(t)
    requires forall k <- t.chunks :: k.slot == slot ==> PlainText(t.chunks[k].payload)
    ensures StagedBytes(t.chunks, slot) <= MAX_STAGED_BYTES
  {
    forall k <- SlotKeys(t.chunks, slot) ensures BytesIn(t.chunks)(k) <= LengthIn(t.chunks)(k) {
      SqlLengthWithinBytes(t.chunks[k].payload);
    }
    SumOverMonotone(SlotKeys(t.chunks, slot), SlotKeys(t.chunks, slot), BytesIn(t.chunks), LengthIn(t.chunks));
    assert StagedLength(t.chunks, slot) <= MAX_STAGED_BYTES;
  }

  // ----- what a reader finds

  /** The last effective write of a record: an overwrite, a commit all of whose chunks were there, or the
      deletion of its device. */
  ghost function LastWrite(t: Tables, run: seq<Statement>, slot: Slot): Option<Record> {
    if run == [] then if slot in t.records then Some(t.records[slot]) else None
    else
      var front := run[..|run| - 1];
      match run[|run| - 1]
      case Overwriting(at, payload, now) =>
        if at == slot then Some(Record(payload, now, [])) else LastWrite(t, front, slot)
      case Committing(at, payload, ids, now) =>
        if at == slot && forall id <- ids :: ChunkKey(slot, id) in Run(t, front).chunks
        then Some(Record(payload, now, ids)) else LastWrite(t, front, slot)
      case Dropping(device, _) => if slot.device == device then None else LastWrite(t, front, slot)
      case _ => LastWrite(t, front, slot)
  }

  /** In every run a record is what its last effective write made it. */
  lemma {:induction false} RecordIsLastWrite(sha: Sha, t: Tables, run: seq<Statement>, slot: Slot)
    requires forall s <- run :: Issued(sha, s)
    ensures LastWrite(t, run, slot)
            == if slot in Run(t, run).records then Some(Run(t, run).records[slot]) else None
  {
    if run != [] {
      var front, last := run[..|run| - 1], run[|run| - 1];
      assert last in run;
      RecordIsLastWrite(sha, t, front, slot);
      if last.Committing? {
        CountMeansAllPresent(Run(t, front), last.slot, last.ids);
      }
    }
  }

  /** No statement of the run writes the record of `slot`. */
  ghost predicate LeavesRecord(run: seq<Statement>, slot: Slot) {
    forall s <- run :: (s.Overwriting? || s.Committing? ==> s.slot != slot) && (s.Dropping? ==> s.device != slot.device)
  }

  lemma {:induction false} RecordStays(t: Tables, run: seq<Statement>, slot: Slot)
    requires slot in t.records && LeavesRecord(run, slot)
    ensures slot in Run(t, run).records && Run(t, run).records[slot] == t.records[slot]
  {
    if run != [] {
      assert run[|run| - 1] in run;
      RecordStays(t, run[..|run| - 1], slot);
    }
  }

  /** A committed library stays readable: until its record is written again, whatever is uploaded,
      committed elsewhere or collected, and however late, a reader finds the manifest and under each of
      its ids exactly the part that was hashed to it. */
  lemma CommittedLibraryIsReadable(sha: Sha, t: Tables, run: seq<Statement>, slot: Slot, parts: seq<string>)
    requires Sound(sha, t) && (forall s <- run :: Issued(sha, s)) && LeavesRecord(run, slot)
    requires forall a, b :: sha(a) == sha(b) ==> a == b
    requires slot in t.records && t.records[slot].chunkIds == seq(|parts|, i requires 0 <= i < |parts| => sha(parts[i]))
    ensures slot in Run(t, run).records && Run(t, run).records[slot] == t.records[slot]
    ensures forall i :: 0 <= i < |parts| ==>
              ChunkKey(slot, sha(parts[i])) in Run(t, run).chunks
              && Run(t, run).chunks[ChunkKey(slot, sha(parts[i]))].payload == parts[i]
  {
    RecordStays(t, run, slot);
    RunsKeepSound(sha, t, run);
    forall i | 0 <= i < |parts|
      ensures ChunkKey(slot, sha(parts[i])) in Run(t, run).chunks
      ensures Run(t, run).chunks[ChunkKey(slot, sha(parts[i]))].payload == parts[i]
    {
      assert t.records[slot].chunkIds[i] in Run(t, run).records[slot].chunkIds;
      assert sha(Run(t, run).chunks[ChunkKey(slot, sha(parts[i]))].payload) == sha(parts[i]);
    }
  }

  /** A deleted device leaves neither chunks nor records, and the others keep theirs. */
  lemma DeviceIsForgotten(t: Tables, device: string, now: int)
    ensures var after := Apply(t, Dropping(device, now));
            && (forall k :: k in after.chunks <==> k in t.chunks && k.slot.device != device)
            && (forall k <- after.chunks :: after.chunks[k] == t.chunks[k])
            && (forall slot :: slot in after.records <==> slot in t.records && slot.device != device)
            && (forall slot <- after.records :: after.records[slot] == t.records[slot])
  {
  }

  /** The digest as the Worker prints it: two lower-case hexadecimal digits a byte. */
  function Hex(bytes: seq<Byte>): string {
    if bytes == [] then ""
    else ["0123456789abcdef"[bytes[0] / 16], "0123456789abcdef"[bytes[0] % 16]] + Hex(bytes[1..])
  }

  lemma {:induction false} HexDigits(bytes: seq<Byte>)
    ensures |Hex(bytes)| == 2 * |bytes| && forall c <- Hex(bytes) :: 'a' <= c <= 'f' || '0' <= c <= '9'
  {
    if bytes != [] {
      HexDigits(bytes[1..]);
      HexDigit(bytes[0] / 16);
      HexDigit(bytes[0] % 16);
    }
  }

  lemma HexDigit(n: nat)
    requires n < 16
    ensures var c := "0123456789abcdef"[n]; 'a' <= c <= 'f' || '0' <= c <= '9'
  {
  }

  lemma HexDigitsDiffer(m: nat, n: nat)
    requires m < 16 && n < 16 && "0123456789abcdef"[m] == "0123456789abcdef"[n]
    ensures m == n
  {
  }

  lemma {:induction false} HexIsInjective(a: seq<Byte>, b: seq<Byte>)
    requires Hex(a) == Hex(b)
    ensures a == b
  {
    HexDigits(a);
    HexDigits(b);
    if a != [] {
      assert Hex(a)[0] == Hex(b)[0] && Hex(a)[1] == Hex(b)[1] && Hex(a)[2..] == Hex(b)[2..];
      HexDigitsDiffer(a[0] / 16, b[0] / 16);
      HexDigitsDiffer(a[0] % 16, b[0] % 16);
      HexIsInjective(a[1..], b[1..]);
      assert a == [a[0]] + a[1..] && b == [b[0]] + b[1..];
    }
  }

  /** The name that the digest of a chunk gives it is a valid id, and two digests give two names. */
  lemma DigestsAreIds(digest: seq<Byte>, other: seq<Byte>)
    requires |digest| == 32
    ensures ValidChunkId(Hex(digest))
    ensures Hex(digest) == Hex(other) ==> digest == other
  {
    HexDigits(digest);
    if Hex(digest) == Hex(other) {
      HexIsInjective(digest, other);
    }
  }

  // ----- retention

  ghost predicate InOrder(run: seq<Statement>) {
    forall i, j :: 0 <= i < j < |run| ==> run[i].now <= run[j].now
  }

  ghost predicate KeepsDevice(run: seq<Statement>, device: string) {
    forall s <- run :: s.Dropping? ==> s.device != device
  }

  /** The statement stores the chunk, or names it while it is present. */
  ghost predicate Touches(t: Tables, s: Statement, k: ChunkKey) {
    match s
    case Inserting(slot, id, payload, _) => k == ChunkKey(slot, id) && Fits(t, slot, id, payload)
    case Committing(slot, _, ids, _) => k.slot == slot && k.id in ids && k in t.chunks
    case _ => false
  }

  /** Statement `i` of the run touches the chunk. */
  ghost predicate Touched(t: Tables, run: seq<Statement>, i: nat, slot: Slot, id: string)
    requires i < |run|
  {
    Touches(Run(t, run[..i]), run[i], ChunkKey(slot, id))
  }

  /** The stamp of the last statement that touches the chunk. */
  ghost function LastStamp(t: Tables, run: seq<Statement>, k: ChunkKey): Option<int> {
    if run == [] then None
    else
      var front, last := run[..|run| - 1], run[|run| - 1];
      if Touches(Run(t, front), last, k) then Some(last.now) else LastStamp(t, front, k)
  }

  /** A chunk carries the stamp of its last touch. */
  lemma {:induction false} StampIsLastTouch(t: Tables, run: seq<Statement>, k: ChunkKey)
    requires k in Run(t, run).chunks
    ensures match LastStamp(t, run, k)
            case Some(stamp) => Run(t, run).chunks[k].updatedAt == stamp
            case None => k in t.chunks && Run(t, run).chunks[k].updatedAt == t.chunks[k].updatedAt
  {
    if run != [] {
      var front, last := run[..|run| - 1], run[|run| - 1];
      if !Touches(Run(t, front), last, k) {
        StampIsLastTouch(t, front, k);
      }
    }
  }

  /** What a touch at `since` promises: the chunk is there, and no collection at a clock up to the end
      of the retention window removes it. */
  ghost predicate PromiseStands(t: Tables, k: ChunkKey, since: int) {
    k in t.chunks && forall now :: now <= since + 600_000 ==> k in Collect(t, k.slot, now).chunks
  }

  /** The exact condition on a stored chunk. */
  lemma PromiseStandsIff(t: Tables, k: ChunkKey, since: int)
    requires k in t.chunks
    ensures PromiseStands(t, k, since) <==> t.chunks[k].updatedAt >= since || k.id in ActiveIds(t, k.slot)
  {
    if PromiseStands(t, k, since) {
      assert k in Collect(t, k.slot, since + 600_000).chunks;
    }
  }

  /** Collections of the slot after statement `i` run at clocks up to the end of its window. */
  ghost predicate CollectedInWindow(run: seq<Statement>, i: nat, slot: Slot)
    requires i < |run|
  {
    forall m :: i < m < |run| && run[m].Collecting? && run[m].slot == slot ==> run[m].now <= run[i].now + 600_000
  }

  /** A touched chunk whose last stamp is no earlier than the touch outlives every such collection. */
  lemma {:induction false} StampedChunkStays(t: Tables, run: seq<Statement>, i: nat, slot: Slot, id: string)
    requires i < |run| && Touched(t, run, i, slot, id) && KeepsDevice(run, slot.device)
    requires CollectedInWindow(run, i, slot)
    ensures LastStamp(t, run, ChunkKey(slot, id)).Some?
    ensures LastStamp(t, run, ChunkKey(slot, id)).value >= run[i].now ==> ChunkKey(slot, id) in Run(t, run).chunks
  {
    var front, last, k := run[..|run| - 1], run[|run| - 1], ChunkKey(slot, id);
    assert last in run;
    if i < |run| - 1 {
      assert front[..i] == run[..i];
      assert forall m :: 0 <= m < |front| ==> front[m] == run[m];
      StampedChunkStays(t, front, i, slot, id);
      if !Touches(Run(t, front), last, k) && k in Run(t, front).chunks {
        StampIsLastTouch(t, front, k);
      }
    }
  }

  /** The retention window, exactly: whatever order the stamps have, the promise of a touch stands at
      the end of a run if and only if the last touch of the chunk is stamped no earlier, or the active
      manifest names the chunk. */
  lemma RetentionIff(sha: Sha, t: Tables, run: seq<Statement>, i: nat, slot: Slot, id: string)
    requires Sound(sha, t) && (forall s <- run :: Issued(sha, s)) && KeepsDevice(run, slot.device)
    requires i < |run| && Touched(t, run, i, slot, id) && CollectedInWindow(run, i, slot)
    ensures LastStamp(t, run, ChunkKey(slot, id)).Some?
    ensures PromiseStands(Run(t, run), ChunkKey(slot, id), run[i].now)
            <==> LastStamp(t, run, ChunkKey(slot, id)).value >= run[i].now || id in ActiveIds(Run(t, run), slot)
  {
    var k, after := ChunkKey(slot, id), Run(t, run);
    StampedChunkStays(t, run, i, slot, id);
    RunsKeepSound(sha, t, run);
    if k in after.chunks {
      StampIsLastTouch(t, run, k);
      PromiseStandsIff(after, k, run[i].now);
    }
  }

  /** A chunk stamped at `since` or later stays through the window, unless its last touch is stamped
      earlier. */
  lemma {:induction false} RetainedThroughWindow(t: Tables, run: seq<Statement>, k: ChunkKey, since: int)
    requires k in t.chunks && t.chunks[k].updatedAt >= since && KeepsDevice(run, k.slot.device)
    requires forall s <- run :: s.Collecting? && s.slot == k.slot ==> s.now <= since + RETAIN_MS
    requires LastStamp(t, run, k).Some? ==> LastStamp(t, run, k).value >= since
    ensures k in Run(t, run).chunks && Run(t, run).chunks[k].updatedAt >= since
  {
    if run != [] {
      var front, last := run[..|run| - 1], run[|run| - 1];
      assert last in run;
      if !Touches(Run(t, front), last, k) {
        RetainedThroughWindow(t, front, k, since);
      }
    }
  }

  lemma {:induction false} OrderedStamps(t: Tables, run: seq<Statement>, i: nat, slot: Slot, id: string)
    requires InOrder(run) && i < |run| && Touched(t, run, i, slot, id)
    ensures LastStamp(t, run, ChunkKey(slot, id)).Some? && LastStamp(t, run, ChunkKey(slot, id)).value >= run[i].now
  {
    var front := run[..|run| - 1];
    if !Touches(Run(t, front), run[|run| - 1], ChunkKey(slot, id)) {
      assert front[..i] == run[..i];
      OrderedStamps(t, front, i, slot, id);
    }
  }

  /** With ordered stamps, a chunk put (or named by a commit) is there for ten minutes. */
  lemma TouchedChunkIsRetained(t: Tables, run: seq<Statement>, i: nat, slot: Slot, id: string)
    requires InOrder(run) && i < |run| && Touched(t, run, i, slot, id)
    requires CollectedInWindow(run, i, slot) && KeepsDevice(run, slot.device)
    ensures ChunkKey(slot, id) in Run(t, run).chunks
  {
    OrderedStamps(t, run, i, slot, id);
    StampedChunkStays(t, run, i, slot, id);
  }

  /** The upload of chunk `id` that statement `i` made still counts at the end of the run. */
  ghost predicate StillCounts(t: Tables, run: seq<Statement>, i: nat, slot: Slot, id: string) {
    && i < |run| && Touched(t, run, i, slot, id) && CollectedInWindow(run, i, slot)
    && LastStamp(t, run, ChunkKey(slot, id)).Some? && LastStamp(t, run, ChunkKey(slot, id)).value >= run[i].now
  }

  /** So an upload whose chunks all arrived within the window commits, whatever else ran in between. */
  lemma UploadWithinWindowCommits(t: Tables, run: seq<Statement>, slot: Slot, payload: string, ids: seq<string>,
                                  now: int)
    requires KeepsDevice(run, slot.device) && Distinct(ids)
    requires forall id <- ids :: exists i: nat :: StillCounts(t, run, i, slot, id)
    ensures Apply(Run(t, run), Committing(slot, payload, ids, now)).records
            == Run(t, run).records[slot := Record(payload, now, ids)]
  {
    forall id <- ids ensures ChunkKey(slot, id) in Run(t, run).chunks {
      var i: nat :| StillCounts(t, run, i, slot, id);
      StampedChunkStays(t, run, i, slot, id);
    }
    CommitSwapsOnlyComplete(Run(t, run), slot, payload, ids, now);
  }

  /** Ordered clocks that stay within the window meet that condition. */
  lemma OrderedUploadCounts(t: Tables, run: seq<Statement>, i: nat, slot: Slot, id: string, now: int)
    requires InOrder(run) && i < |run| && Touched(t, run, i, slot, id)
    requires (forall s <- run :: s.now <= now) && now <= run[i].now + RETAIN_MS
    ensures StillCounts(t, run, i, slot, id)
  {
    OrderedStamps(t, run, i, slot, id);
    assert forall m :: i < m < |run| ==> run[m] in run;
  }

  /** The clock assumption is needed: a repeat upload stamped earlier but executed later lowers
      the stamp, and the chunk is collected inside the window of the first upload. */
  lemma LateStampShortensRetention(sha: Sha, slot: Slot, start: int)
    requires ValidChunkId(sha("a"))
    ensures var run := [Inserting(slot, sha("a"), "a", start), Inserting(slot, sha("a"), "a", start - 1),
                        Collecting(slot, start + RETAIN_MS)];
            && (forall s <- run :: Issued(sha, s)) && Touched(Tables(map[], map[]), run, 0, slot, sha("a"))
            && CollectedInWindow(run, 0, slot)
            && ChunkKey(slot, sha("a")) !in Run(Tables(map[], map[]), run).chunks
  {
    var id, k, none := sha("a"), ChunkKey(slot, sha("a")), Tables(map[], map[]);
    var run := [Inserting(slot, id, "a", start), Inserting(slot, id, "a", start - 1),
                Collecting(slot, start + RETAIN_MS)];
    assert Utf8Length("a") == 1 by { assert "a"[1..] == ""; }
    RunSnoc(none, [], run[0]);
    LoneUpload(none, slot, id, start);
    RunSnoc(none, [run[0]], run[1]);
    LoneUpload(Run(none, [run[0]]), slot, id, start - 1);
    RunSnoc(none, [run[0]] + [run[1]], run[2]);
    assert run[..0] == [] && [] + [run[0]] == [run[0]] && [run[0]] + [run[1]] + [run[2]] == run;
  }

  lemma LoneUpload(t: Tables, slot: Slot, id: string, now: int)
    requires forall k <- t.chunks :: k == ChunkKey(slot, id) && t.chunks[k].payload == "a"
    requires Utf8Length("a") == 1
    ensures Insert(t, slot, id, "a", now) == Tables(map[ChunkKey(slot, id) := Chunk("a", now)], t.records)
  {
    assert SlotKeys(t.chunks, slot) - {ChunkKey(slot, id)} == {};
  }

  lemma RunSnoc(t: Tables, run: seq<Statement>, s: Statement)
    ensures Run(t, run + [s]) == Apply(Run(t, run), s)
  {
    assert (run + [s])[..|run|] == run;
  }

  // ----- the Worker's handlers

  datatype Reply = Accepted | InvalidChunk | ChecksumMismatch | StagingFull | InvalidManifest | Incomplete

  method Deduplicate(ids: seq<string>) returns (r: seq<string>)
    ensures r == Dedup(ids)
  {
    r := [];
    for i := 0 to |ids|
      invariant r == Dedup(ids[..i])
    {
      assert ids[..i + 1][..i] == ids[..i];
      if ids[i] !in r {
        r := r + [ids[i]];
      }
    }
    assert ids[..|ids|] == ids;
  }

  class RecordStore {
    const sha: Sha
    var chunks: Chunks
    var records: map<Slot, Record>

    ghost function State(): Tables
      reads this
    {
      Tables(chunks, records)
    }

    constructor (sha: Sha)
      ensures this.sha == sha && State() == Tables(map[], map[]) && Sound(sha, State())
    {
      this.sha := sha;
      chunks, records := map[], map[];
      new;
      forall slot ensures StagedLength(chunks, slot) == 0 {
        assert SlotKeys(chunks, slot) == {};
      }
    }

    method CollectStale(slot: Slot, now: int)
      modifies this
      ensures State() == Collect(old(State()), slot, now)
    {
      var active := if slot in records then records[slot].chunkIds else [];
      chunks := map k | k in chunks
          && !(k.slot == slot && chunks[k].updatedAt < now - RETAIN_MS && k.id !in active) :: chunks[k];
    }

    method SumOthers(slot: Slot, except: string) returns (total: nat)
      ensures total == StagedOthers(chunks, slot, except)
    {
      total := 0;
      var rest := SlotKeys(chunks, slot) - {ChunkKey(slot, except)};
      while rest != {}
        invariant rest <= SlotKeys(chunks, slot)
        invariant total + SumOver(rest, LengthIn(chunks)) == StagedOthers(chunks, slot, except)
        decreases rest
      {
        var k :| k in rest;
        SumOverRemove(rest, k, LengthIn(chunks));
        total := total + SqlLength(chunks[k].payload);
        rest := rest - {k};
      }
    }

    method InsertWithinBudget(slot: Slot, id: string, payload: string, now: int) returns (changed: bool)
      modifies this
      ensures changed == Fits(old(State()), slot, id, payload)
      ensures State() == Insert(old(State()), slot, id, payload, now)
    {
      var others := SumOthers(slot, id);
      changed := others + Utf8Length(payload) <= MAX_STAGED_BYTES;
      if changed {
        var k := ChunkKey(slot, id);
        chunks := chunks[k := if k in chunks then chunks[k].(updatedAt := now) else Chunk(payload, now)];
      }
    }

    /** `putRecordChunk` with nothing between its two statements. */
    method PutRecordChunk(slot: Slot, id: string, payload: string, now: int) returns (reply: Reply)
      requires Sound(sha, State())
      modifies this
      ensures Sound(sha, State()) && records == old(records)
      ensures reply.Accepted? || reply.StagingFull?
              <==> |id| == 64 && (forall c <- id :: 'a' <= c <= 'f' || '0' <= c <= '9')
                   && Utf8Length(payload) <= 337_920 && sha(payload) == id
      ensures State() == if reply.Accepted? || reply.StagingFull?
                         then Insert(Collect(old(State()), slot, now), slot, id, payload, now) else old(State())
      ensures reply.Accepted? ==> ChunkKey(slot, id) in chunks && chunks[ChunkKey(slot, id)].updatedAt == now
    {
      if !ValidChunkId(id) || Utf8Length(payload) > MAX_CHUNK_BYTES {
        return InvalidChunk;
      }
      if sha(payload) != id {
        return ChecksumMismatch;
      }
      StepKeepsSound(sha, State(), Collecting(slot, now));
      CollectStale(slot, now);
      StepKeepsSound(sha, State(), Inserting(slot, id, payload, now));
      var changed := InsertWithinBudget(slot, id, payload, now);
      reply := if changed then Accepted else StagingFull;
    }

    method CommitChunkedRecord(slot: Slot, payload: string, list: seq<string>, now: int) returns (reply: Reply)
      requires Sound(sha, State())
      modifies this
      ensures Sound(sha, State())
      ensures reply.InvalidManifest? <==> !ValidChunkList(list)
      ensures reply.InvalidManifest? ==> State() == old(State())
      ensures !reply.InvalidManifest? ==> State() == Commit(old(State()), slot, payload, Dedup(list), now)
      ensures reply.Accepted? <==> 0 < |list| <= 512 && (forall id <- list :: ValidChunkId(id))
                                   && forall id <- list :: ChunkKey(slot, id) in old(chunks)
      ensures !reply.Accepted? ==> records == old(records)
    {
      if !ValidChunkList(list) {
        return InvalidManifest;
      }
      var ids := Deduplicate(list);
      assert |ids| <= |list| && 0 < |ids| by {
        DedupShortens(list);
        assert list[0] in ids;
      }
      CommitSwapsOnlyComplete(State(), slot, payload, ids, now);
      CountMeansAllPresent(State(), slot, ids);
      StepKeepsSound(sha, State(), Committing(slot, payload, ids, now));
      var complete := |Named(chunks, slot, ids)| == |ids|;
      if complete {
        records := records[slot := Record(payload, now, ids)];
      }
      chunks := map k | k in chunks :: if k.slot == slot && k.id in ids then chunks[k].(updatedAt := now)
          else chunks[k];
      reply := if complete then Accepted else Incomplete;
    }

    method PutRecord(slot: Slot, payload: string, now: int)
      requires Sound(sha, State())
      modifies this
      ensures Sound(sha, State()) && State() == Overwrite(old(State()), slot, payload, now)
    {
      StepKeepsSound(sha, State(), Overwriting(slot, payload, now));
      records := records[slot := Record(payload, now, [])];
    }
  }

  lemma {:induction false} DedupShortens(ids: seq<string>)
    ensures |Dedup(ids)| <= |ids|
  {
    if ids != [] {
      DedupShortens(ids[..|ids| - 1]);
    }
  }
}
