/** Snapshot plus delta: the Worker captures an event cursor, loads a snapshot page by page while the
    account keeps changing, and then replays the events after the cursor over the snapshot. */
module DeltaSync {
  import opened Wrappers

  const PAGE_EVENTS := 500
  const MAX_PAGES := 10
  const MAX_SAFE_INTEGER := 0x1F_FFFF_FFFF_FFFF

  /** An item and the key the sync files it under. */
  datatype Item = Item(key: string, body: string)
  datatype Operation = Upsert | Delete | Unknown
  datatype Event = Event(id: int, operation: Operation, item: Item)
  datatype Error = InvalidCursor | NotAList | InvalidEvent | ChangedTooQuickly | TooManyItems

  // ----- an insertion-ordered map, as JavaScript's Map

  function IndexOf(items: seq<Item>, key: string): (i: nat)
    ensures i <= |items|
    ensures i < |items| ==> items[i].key == key
    ensures forall j :: 0 <= j < i ==> items[j].key != key
  {
    if items == [] || items[0].key == key then 0 else 1 + IndexOf(items[1..], key)
  }

  function SetItem(items: seq<Item>, item: Item): seq<Item> {
    var i := IndexOf(items, item.key);
    if i < |items| then items[i := item] else items + [item]
  }

  function DeleteKey(items: seq<Item>, key: string): seq<Item> {
    var i := IndexOf(items, key);
    if i < |items| then items[..i] + items[i + 1..] else items
  }

  function MapOf(items: seq<Item>): seq<Item> {
    if items == [] then [] else SetItem(MapOf(items[..|items| - 1]), items[|items| - 1])
  }

  ghost predicate KeysDiffer(items: seq<Item>) {
    forall i, j :: 0 <= i < j < |items| ==> items[i].key != items[j].key
  }

  /** The list as a finite map; a later entry for a key wins. */
  ghost function Table(items: seq<Item>): map<string, Item> {
    if items == [] then map[] else Table(items[..|items| - 1])[items[|items| - 1].key := items[|items| - 1]]
  }

  lemma {:induction false} TableMeaning(items: seq<Item>)
    requires KeysDiffer(items)
    ensures forall item :: item in items <==> item.key in Table(items) && Table(items)[item.key] == item
    ensures forall key <- Table(items) :: Table(items)[key].key == key
  {
    if items != [] {
      var front, last := items[..|items| - 1], items[|items| - 1];
      TableMeaning(front);
      LastKeyIsNew(items);
    }
  }

  lemma LastKeyIsNew(items: seq<Item>)
    requires KeysDiffer(items) && items != []
    ensures var front, last := items[..|items| - 1], items[|items| - 1];
            && (forall item :: item in items <==> item in front || item == last)
            && forall item <- front :: item.key != last.key
  {
    assert items == items[..|items| - 1] + [items[|items| - 1]];
  }

  /** Two key-distinct lists with the same elements have the same table. */
  lemma TablesEqual(items: seq<Item>, t: map<string, Item>)
    requires KeysDiffer(items)
    requires forall item :: item in items <==> item.key in t && t[item.key] == item
    requires forall key <- t :: t[key].key == key
    ensures Table(items) == t
  {
    TableMeaning(items);
    assert forall key <- t :: t[key] in items;
    assert forall key <- Table(items) :: Table(items)[key] in items;
  }

  lemma SetItemUpdates(items: seq<Item>, item: Item)
    requires KeysDiffer(items)
    ensures KeysDiffer(SetItem(items, item))
    ensures Table(SetItem(items, item)) == Table(items)[item.key := item]
  {
    TableMeaning(items);
    var i, after := IndexOf(items, item.key), SetItem(items, item);
    forall other ensures other in after <==> other == item || (other in items && other.key != item.key) {
      if other in items {
        var j :| 0 <= j < |items| && items[j] == other;
        assert other.key != item.key ==> after[j] == other;
      }
      if i < |items| {
        assert after[i] == item;
      }
    }
    TablesEqual(after, Table(items)[item.key := item]);
  }

  function Keys(items: seq<Item>): seq<string> {
    seq(|items|, i requires 0 <= i < |items| => items[i].key)
  }

  /** As in a JavaScript Map, a known key keeps its place and a new one goes last. */
  lemma SettingKeepsOrder(items: seq<Item>, item: Item)
    ensures Keys(SetItem(items, item)) == if item.key in Keys(items) then Keys(items) else Keys(items) + [item.key]
  {
    var i := IndexOf(items, item.key);
    if i < |items| {
      assert Keys(items)[i] == item.key;
    }
  }

  /** Deleting closes the gap. */
  lemma DeletingKeepsOrder(items: seq<Item>, i: nat)
    requires KeysDiffer(items) && i < |items|
    ensures Keys(DeleteKey(items, items[i].key)) == Keys(items)[..i] + Keys(items)[i + 1..]
  {
    assert IndexOf(items, items[i].key) == i;
  }

  lemma DeleteKeyKeepsDiffer(items: seq<Item>, key: string)
    requires KeysDiffer(items)
    ensures KeysDiffer(DeleteKey(items, key))
  {
    var i, after := IndexOf(items, key), DeleteKey(items, key);
    forall j, k | 0 <= j < k < |after| ensures after[j].key != after[k].key {
      var j', k' := if j < i then j else j + 1, if k < i then k else k + 1;
      assert i < |items| ==> after[j] == items[j'] && after[k] == items[k'];
    }
  }

  lemma DeleteKeyElements(items: seq<Item>, key: string)
    requires KeysDiffer(items)
    ensures KeysDiffer(DeleteKey(items, key))
    ensures forall item :: item in DeleteKey(items, key) <==> item in items && item.key != key
  {
    DeleteKeyKeepsDiffer(items, key);
    var i, after := IndexOf(items, key), DeleteKey(items, key);
    forall item ensures item in after <==> item in items && item.key != key {
      if item in after {
        var j :| 0 <= j < |after| && after[j] == item;
        assert item == items[if j < i then j else j + 1];
      }
      if item in items && item.key != key {
        var j :| 0 <= j < |items| && items[j] == item;
        assert item == after[if j < i then j else j - 1];
      }
    }
  }

  lemma DeleteKeyRemoves(items: seq<Item>, key: string)
    requires KeysDiffer(items)
    ensures KeysDiffer(DeleteKey(items, key))
    ensures Table(DeleteKey(items, key)) == Table(items) - {key}
  {
    TableMeaning(items);
    DeleteKeyElements(items, key);
    TablesEqual(DeleteKey(items, key), Table(items) - {key});
  }

  // ----- the server

  /** What one event does to the account. */
  ghost function Effect(t: map<string, Item>, e: Event): map<string, Item> {
    if e.operation.Delete? then t - {e.item.key} else t[e.item.key := e.item]
  }

  ghost function Play(t: map<string, Item>, events: seq<Event>): map<string, Item> {
    if events == [] then t else Effect(Play(t, events[..|events| - 1]), events[|events| - 1])
  }

  /** The account after the first `n` events. */
  ghost function StateAt(log: seq<Event>, n: nat): map<string, Item>
    requires n <= |log|
  {
    Play(map[], log[..n])
  }

  ghost predicate WellFormedLog(log: seq<Event>) {
    && (forall i :: 0 <= i < |log| ==> 0 < log[i].id <= MAX_SAFE_INTEGER && !log[i].operation.Unknown?)
    && (forall i, j :: 0 <= i < j < |log| ==> log[i].id < log[j].id)
  }

  /** `cursor` separates the first `n` events from the rest. */
  ghost predicate CursorAt(log: seq<Event>, n: nat, cursor: int) {
    && n <= |log| && 0 <= cursor <= MAX_SAFE_INTEGER
    && (forall i :: 0 <= i < n ==> log[i].id <= cursor)
    && (forall i :: n <= i < |log| ==> cursor < log[i].id)
  }

  type Pull = (nat, int) -> Option<seq<Event>>

  function Least(a: nat, b: nat): nat {
    if a < b then a else b
  }

  /** Page `p` was answered when the log was `lengths[p]` long: the next events after the cursor, in
      log order, at most a page of them. The log only grows. */
  ghost predicate Honest(pull: Pull, log: seq<Event>, begin: nat, lengths: seq<nat>) {
    && WellFormedLog(log) && |lengths| == MAX_PAGES
    && (forall p :: 0 <= p < MAX_PAGES ==> begin <= lengths[p] <= |log|)
    && (forall p, q :: 0 <= p < q < MAX_PAGES ==> lengths[p] <= lengths[q])
    && (forall p: nat, n: nat, cursor: int {:trigger pull(p, cursor), CursorAt(log, n, cursor)} ::
          p < MAX_PAGES && CursorAt(log, n, cursor) && n <= lengths[p] ==>
          pull(p, cursor) == Some(log[n..Least(n + PAGE_EVENTS, lengths[p])]))
  }

  // ----- the client

  predicate ValidEvents(changes: seq<Event>, cursor: int) {
    forall e <- changes :: cursor < e.id <= MAX_SAFE_INTEGER && -MAX_SAFE_INTEGER <= e.id && !e.operation.Unknown?
  }

  function ApplyEvent(items: seq<Item>, e: Event): seq<Item> {
    if e.operation.Delete? then DeleteKey(items, e.item.key) else SetItem(items, e.item)
  }

  function ApplyEvents(items: seq<Item>, events: seq<Event>): seq<Item> {
    if events == [] then items else ApplyEvent(ApplyEvents(items, events[..|events| - 1]), events[|events| - 1])
  }

  function MaxId(cursor: int, events: seq<Event>): int {
    if events == [] then cursor
    else
      var front := MaxId(cursor, events[..|events| - 1]);
      if front < events[|events| - 1].id then events[|events| - 1].id else front
  }

  /** The replay loop from page `page` on. */
  function Replay(items: seq<Item>, cursor: int, page: nat, pull: Pull): Result<seq<Item>, Error>
    decreases MAX_PAGES - page
  {
    if page >= MAX_PAGES then Failure(ChangedTooQuickly)
    else
      match pull(page, cursor)
      case None => Failure(NotAList)
      case Some(changes) =>
        if !ValidEvents(changes, cursor) then Failure(InvalidEvent)
        else if |changes| < PAGE_EVENTS then Success(ApplyEvents(items, changes))
        else Replay(ApplyEvents(items, changes), MaxId(cursor, changes), page + 1, pull)
  }

  /** The page the loop stops at: the first one that is not full. */
  function LastPage(cursor: int, page: nat, pull: Pull): nat
    decreases MAX_PAGES - page
  {
    if page >= MAX_PAGES then MAX_PAGES
    else
      match pull(page, cursor)
      case None => page
      case Some(changes) =>
        if !ValidEvents(changes, cursor) || |changes| < PAGE_EVENTS then page
            else LastPage(MaxId(cursor, changes), page + 1, pull)
  }

  lemma OneMoreEvent(items: seq<Item>, changes: seq<Event>, i: nat, cursor: int)
    requires i < |changes| && ValidEvents(changes[..i], cursor)
    ensures ApplyEvents(items, changes[..i + 1]) == ApplyEvent(ApplyEvents(items, changes[..i]), changes[i])
    ensures MaxId(cursor, changes[..i + 1])
        == (if MaxId(cursor, changes[..i]) < changes[i].id then changes[i].id else MaxId(cursor, changes[..i]))
    ensures ValidEvents(changes[..i + 1], cursor) <==> ValidEvents([changes[i]], cursor)
  {
    assert changes[..i + 1][..i] == changes[..i];
    assert changes[..i + 1] == changes[..i] + [changes[i]];
  }

  /** The inner loop: one page of changes, checked against the cursor the page was asked from. */
  method ReplayPage(before: seq<Item>, changes: seq<Event>, previous: int) returns (r: Option<(seq<Item>, int)>)
    ensures r == if ValidEvents(changes, previous)
        then Some((ApplyEvents(before, changes), MaxId(previous, changes))) else None
  {
    var items, cursor := before, previous;
    for i := 0 to |changes|
      invariant ValidEvents(changes[..i], previous)
      invariant items == ApplyEvents(before, changes[..i]) && cursor == MaxId(previous, changes[..i])
    {
      var e := changes[i];
      if e.id > MAX_SAFE_INTEGER || e.id < -MAX_SAFE_INTEGER || e.id <= previous || e.operation.Unknown? {
        assert e in changes;
        return None;
      }
      OneMoreEvent(before, changes, i, previous);
      items := if e.operation.Delete? then DeleteKey(items, e.item.key) else SetItem(items, e.item);
      cursor := if cursor < e.id then e.id else cursor;
    }
    assert changes[..|changes|] == changes;
    return Some((items, cursor));
  }

  method SnapshotWithDelta(start: int, loaded: seq<Item>, pull: Pull) returns (r: Result<seq<Item>, Error>)
    ensures r == if 0 <= start <= MAX_SAFE_INTEGER then Replay(MapOf(loaded), start, 0, pull)
        else Failure(InvalidCursor)
  {
    if start < 0 || start > MAX_SAFE_INTEGER {
      return Failure(InvalidCursor);
    }
    var cursor, items := start, [];
    for i := 0 to |loaded|
      invariant items == MapOf(loaded[..i])
    {
      assert loaded[..i + 1][..i] == loaded[..i];
      items := SetItem(items, loaded[i]);
    }
    assert loaded[..|loaded|] == loaded;
    for page := 0 to MAX_PAGES
      invariant Replay(items, cursor, page, pull) == Replay(MapOf(loaded), start, 0, pull)
    {
      var answer := pull(page, cursor);
      if answer.None? {
        return Failure(NotAList);
      }
      var changes := answer.value;
      var replayed := ReplayPage(items, changes, cursor);
      if replayed.None? {
        return Failure(InvalidEvent);
      }
      items, cursor := replayed.value.0, replayed.value.1;
      if |changes| < PAGE_EVENTS {
        return Success(items);
      }
    }
    return Failure(ChangedTooQuickly);
  }

  // ----- every outcome, whatever the service answers

  lemma {:induction false} MaxIdIsGreatest(cursor: int, events: seq<Event>)
    ensures MaxId(cursor, events) >= cursor && forall e <- events :: e.id <= MaxId(cursor, events)
    ensures MaxId(cursor, events) == cursor || exists e <- events :: e.id == MaxId(cursor, events)
  {
    if events != [] {
      MaxIdIsGreatest(cursor, events[..|events| - 1]);
      assert events == events[..|events| - 1] + [events[|events| - 1]];
    }
  }

  /** The cursor page `page` is asked with: the greatest id of the pages before it. */
  function CursorBefore(pull: Pull, start: int, page: nat): int {
    if page == 0 then start
    else
      var cursor := CursorBefore(pull, start, page - 1);
      MaxId(cursor, pull(page - 1, cursor).GetOr([]))
  }

  /** The items once the pages before `page` are applied. */
  function ItemsBefore(pull: Pull, start: int, items: seq<Item>, page: nat): seq<Item> {
    if page == 0 then items
    else
      ApplyEvents(ItemsBefore(pull, start, items, page - 1),
                  pull(page - 1, CursorBefore(pull, start, page - 1)).GetOr([]))
  }

  /** The page is a list of known operations with safe ids above the cursor it was asked with. */
  ghost predicate GoodPage(pull: Pull, start: int, page: nat) {
    var cursor := CursorBefore(pull, start, page);
    && pull(page, cursor).Some?
    && forall e <- pull(page, cursor).value ::
         cursor < e.id <= 9_007_199_254_740_991 && (e.operation.Upsert? || e.operation.Delete?)
  }

  ghost predicate GoodFullPage(pull: Pull, start: int, page: nat) {
    GoodPage(pull, start, page) && |pull(page, CursorBefore(pull, start, page)).value| >= 500
  }

  lemma {:induction false} ReplayReaches(pull: Pull, start: int, items: seq<Item>, page: nat)
    requires 0 <= start && page <= 10 && forall q :: 0 <= q < page ==> GoodFullPage(pull, start, q)
    ensures CursorBefore(pull, start, page) >= 0
    ensures Replay(items, start, 0, pull)
            == Replay(ItemsBefore(pull, start, items, page), CursorBefore(pull, start, page), page, pull)
  {
    if page > 0 {
      ReplayReaches(pull, start, items, page - 1);
      assert GoodFullPage(pull, start, page - 1);
      GoodPageIsValid(pull, start, page - 1);
      MaxIdIsGreatest(CursorBefore(pull, start, page - 1), pull(page - 1, CursorBefore(pull, start, page - 1)).value);
    }
  }

  lemma GoodPageIsValid(pull: Pull, start: int, page: nat)
    requires CursorBefore(pull, start, page) >= 0
    ensures GoodPage(pull, start, page)
            <==> pull(page, CursorBefore(pull, start, page)).Some?
                 && ValidEvents(pull(page, CursorBefore(pull, start, page)).value, CursorBefore(pull, start, page))
  {
  }

  /** The first page that is not good and full, or ten. */
  ghost function FirstStop(pull: Pull, start: int, page: nat): (stop: nat)
    requires page <= 10
    ensures page <= stop <= 10 && (forall q :: page <= q < stop ==> GoodFullPage(pull, start, q))
    ensures stop < 10 ==> !GoodFullPage(pull, start, stop)
    decreases 10 - page
  {
    if page == 10 || !GoodFullPage(pull, start, page) then page else FirstStop(pull, start, page + 1)
  }

  /** Whatever the service answers, the first page that is not good and full decides: after ten full pages
      the sync throws; a bad page makes it throw; a short good page makes it return, with the events of
      exactly the pages up to there applied. It never returns part of a bad page. */
  lemma ReplayOutcome(pull: Pull, start: int, items: seq<Item>)
    requires 0 <= start
    ensures var stop := FirstStop(pull, start, 0);
            Replay(items, start, 0, pull)
            == if stop == 10 then Failure(ChangedTooQuickly)
               else if GoodPage(pull, start, stop) then Success(ItemsBefore(pull, start, items, stop + 1))
               else if pull(stop, CursorBefore(pull, start, stop)).None? then Failure(NotAList)
               else Failure(InvalidEvent)
  {
    var stop := FirstStop(pull, start, 0);
    ReplayReaches(pull, start, items, stop);
    if stop < 10 {
      GoodPageIsValid(pull, start, stop);
    }
  }

  ghost predicate ShortAt(pull: Pull, start: int, page: nat) {
    && (forall q :: 0 <= q < page ==> GoodFullPage(pull, start, q))
    && GoodPage(pull, start, page) && |pull(page, CursorBefore(pull, start, page)).value| < 500
  }

  /** It returns if and only if some page is the first short one and every page up to it is good. */
  lemma ReplaySucceedsIff(pull: Pull, start: int, items: seq<Item>)
    requires 0 <= start
    ensures Replay(items, start, 0, pull).Success? <==>
              exists page: nat :: page < 10 && ShortAt(pull, start, page)
  {
    var stop := FirstStop(pull, start, 0);
    ReplayOutcome(pull, start, items);
    if page: nat :| page < 10 && ShortAt(pull, start, page) {
      assert !GoodFullPage(pull, start, page) && stop == page;
    }
    if stop < 10 && GoodPage(pull, start, stop) {
      assert ShortAt(pull, start, stop);
    }
  }

  // ----- convergence

  lemma {:induction false} MapOfKeepsTable(items: seq<Item>)
    ensures KeysDiffer(MapOf(items)) && Table(MapOf(items)) == Table(items)
  {
    if items != [] {
      MapOfKeepsTable(items[..|items| - 1]);
      SetItemUpdates(MapOf(items[..|items| - 1]), items[|items| - 1]);
    }
  }

  lemma {:induction false} ApplyEventsPlays(items: seq<Item>, events: seq<Event>)
    requires KeysDiffer(items)
    ensures KeysDiffer(ApplyEvents(items, events)) && Table(ApplyEvents(items, events)) == Play(Table(items), events)
  {
    if events != [] {
      var front, e := ApplyEvents(items, events[..|events| - 1]), events[|events| - 1];
      ApplyEventsPlays(items, events[..|events| - 1]);
      if e.operation.Delete? { DeleteKeyRemoves(front, e.item.key); } else { SetItemUpdates(front, e.item); }
    }
  }

  lemma {:induction false} PlaySplits(t: map<string, Item>, first: seq<Event>, second: seq<Event>)
    ensures Play(t, first + second) == Play(Play(t, first), second)
  {
    if second == [] {
      assert first + second == first;
    } else {
      PlaySplits(t, first, second[..|second| - 1]);
      assert (first + second)[..|first + second| - 1] == first + second[..|second| - 1];
    }
  }

  lemma {:induction false} MaxIdIsLast(log: seq<Event>, n: nat, m: nat, cursor: int)
    requires WellFormedLog(log) && CursorAt(log, n, cursor) && n <= m <= |log|
    ensures CursorAt(log, m, MaxId(cursor, log[n..m]))
  {
    if n < m {
      MaxIdIsLast(log, n, m - 1, cursor);
      assert log[n..m][..m - n - 1] == log[n..m - 1] && log[n..m][m - n - 1] == log[m - 1];
    }
  }

  /** Where the log stands after the page an honest server answers at position `n`. */
  function Position(lengths: seq<nat>, n: nat, page: nat): nat
    requires page < |lengths|
  {
    Least(n + PAGE_EVENTS, lengths[page])
  }

  lemma HonestPage(pull: Pull, log: seq<Event>, begin: nat, lengths: seq<nat>, n: nat, cursor: int, page: nat)
    requires Honest(pull, log, begin, lengths) && CursorAt(log, n, cursor) && page < MAX_PAGES && n <= lengths[page]
    ensures var m := Position(lengths, n, page);
            && n <= m <= |log| && pull(page, cursor) == Some(log[n..m]) && ValidEvents(log[n..m], cursor)
            && CursorAt(log, m, MaxId(cursor, log[n..m]))
            && (m == n + PAGE_EVENTS && page + 1 < MAX_PAGES ==> m <= lengths[page + 1])
  {
    var m := Position(lengths, n, page);
    forall e <- log[n..m] ensures cursor < e.id <= MAX_SAFE_INTEGER && !e.operation.Unknown? {
      var i :| 0 <= i < |log[n..m]| && log[n..m][i] == e;
      assert e == log[n + i];
    }
    MaxIdIsLast(log, n, m, cursor);
    assert page + 1 < MAX_PAGES ==> lengths[page] <= lengths[page + 1];
  }

  /** The outcome `r` of a replay that stopped at page `last`: it gave up after ten full pages, or it
      returned `items` with exactly the events from `n` to the last delta read replayed over them. */
  ghost predicate Exact(log: seq<Event>, lengths: seq<nat>, items: seq<Item>, n: nat,
                        r: Result<seq<Item>, Error>, last: nat) {
    if r.Failure? then r.error.ChangedTooQuickly? && last == MAX_PAGES
    else last < |lengths| && n <= lengths[last] <= |log| && KeysDiffer(r.value)
         && Table(r.value) == Play(Table(items), log[n..lengths[last]])
  }

  lemma ExactAfterPage(log: seq<Event>, lengths: seq<nat>, items: seq<Item>, n: nat, m: nat,
                       r: Result<seq<Item>, Error>, last: nat)
    requires KeysDiffer(items) && n <= m <= |log| && Exact(log, lengths, ApplyEvents(items, log[n..m]), m, r, last)
    ensures Exact(log, lengths, items, n, r, last)
  {
    ApplyEventsPlays(items, log[n..m]);
    if r.Success? {
      PlayOn(Table(items), log, n, m, lengths[last]);
    }
  }

  lemma PlayOn(a: map<string, Item>, log: seq<Event>, n: nat, m: nat, k: nat)
    requires n <= m <= k <= |log|
    ensures Play(a, log[n..k]) == Play(Play(a, log[n..m]), log[m..k])
  {
    PlaySplits(a, log[n..m], log[m..k]);
    assert log[n..m] + log[m..k] == log[n..k];
  }

  lemma {:induction false} ReplayIsExact(pull: Pull, log: seq<Event>, begin: nat, lengths: seq<nat>,
                                         items: seq<Item>, n: nat, cursor: int, page: nat)
    requires Honest(pull, log, begin, lengths) && CursorAt(log, n, cursor) && KeysDiffer(items)
    requires page <= MAX_PAGES && (page < MAX_PAGES ==> n <= lengths[page])
    ensures Exact(log, lengths, items, n, Replay(items, cursor, page, pull), LastPage(cursor, page, pull))
    decreases MAX_PAGES - page
  {
    if page < MAX_PAGES {
      var m := Position(lengths, n, page);
      HonestPage(pull, log, begin, lengths, n, cursor, page);
      var changes := log[n..m];
      ApplyEventsPlays(items, changes);
      if |changes| == PAGE_EVENTS {
        ReplayIsExact(pull, log, begin, lengths, ApplyEvents(items, changes), m, MaxId(cursor, changes), page + 1);
      }
      ExactAfterPage(log, lengths, items, n, m, Replay(items, cursor, page, pull), LastPage(cursor, page, pull));
    }
  }

  ghost predicate Touches(events: seq<Event>, key: string) {
    exists e <- events :: e.item.key == key
  }

  ghost predicate AgreeOn(a: map<string, Item>, b: map<string, Item>, key: string) {
    (key in a <==> key in b) && (key in a ==> a[key] == b[key])
  }

  lemma TouchesMore(small: seq<Event>, large: seq<Event>, key: string)
    requires forall e <- small :: e in large
    ensures Touches(small, key) ==> Touches(large, key)
  {
  }

  /** Replaying decides every touched key and leaves the others. */
  lemma {:induction false} PlayDecides(a: map<string, Item>, b: map<string, Item>, events: seq<Event>, key: string)
    ensures Touches(events, key) ==> AgreeOn(Play(a, events), Play(b, events), key)
    ensures !Touches(events, key) ==> AgreeOn(Play(a, events), a, key)
  {
    if events != [] {
      var front, last := events[..|events| - 1], events[|events| - 1];
      PlayDecides(a, b, front, key);
      assert events == front + [last];
      TouchesMore(front, events, key);
      assert last in events;
      if last.item.key != key {
        assert Touches(events, key) ==> Touches(front, key);
      }
    }
  }

  lemma EqualIffAgree(a: map<string, Item>, b: map<string, Item>)
    ensures a == b <==> forall key :: AgreeOn(a, b, key)
  {
    if forall key :: AgreeOn(a, b, key) {
      forall key ensures key in a <==> key in b { assert AgreeOn(a, b, key); }
      forall key <- a ensures a[key] == b[key] { assert AgreeOn(a, b, key); }
    }
  }

  /** The exact condition on the snapshot: it agrees with the account at the cursor on every key
      that no replayed event touches. */
  ghost predicate FaithfulWhereUntouched(t: map<string, Item>, log: seq<Event>, begin: nat, end: nat)
    requires begin <= end <= |log|
  {
    forall key :: Touches(log[begin..end], key) || AgreeOn(t, StateAt(log, begin), key)
  }

  lemma ReplayConvergesIff(t: map<string, Item>, log: seq<Event>, begin: nat, end: nat)
    requires begin <= end <= |log|
    ensures Play(t, log[begin..end]) == StateAt(log, end) <==> FaithfulWhereUntouched(t, log, begin, end)
  {
    var events, at := log[begin..end], StateAt(log, begin);
    PlaySplits(map[], log[..begin], events);
    assert log[..begin] + events == log[..end];
    forall key
      ensures AgreeOn(Play(t, events), Play(at, events), key) <==> Touches(events, key) || AgreeOn(t, at, key)
    {
      PlayDecides(t, at, events, key);
      PlayDecides(at, t, events, key);
    }
    EqualIffAgree(Play(t, events), Play(at, events));
  }

  /** Each key of the snapshot has a value the server held between the cursor and the last read. */
  ghost predicate HeldMeanwhile(t: map<string, Item>, log: seq<Event>, begin: nat, end: nat)
    requires begin <= end <= |log|
  {
    forall key :: HeldSometime(t, log, begin, end, key)
  }

  ghost predicate HeldAt(t: map<string, Item>, log: seq<Event>, n: nat, key: string)
    requires n <= |log|
  {
    AgreeOn(t, StateAt(log, n), key)
  }

  ghost predicate HeldSometime(t: map<string, Item>, log: seq<Event>, begin: nat, end: nat, key: string)
    requires begin <= end <= |log|
  {
    exists n: nat :: begin <= n <= end && HeldAt(t, log, n, key)
  }

  lemma HeldMeanwhileIsFaithful(t: map<string, Item>, log: seq<Event>, begin: nat, end: nat)
    requires begin <= end <= |log| && HeldMeanwhile(t, log, begin, end)
    ensures FaithfulWhereUntouched(t, log, begin, end)
  {
    forall key ensures Touches(log[begin..end], key) || AgreeOn(t, StateAt(log, begin), key) {
      assert HeldSometime(t, log, begin, end, key);
      var n: nat :| begin <= n <= end && HeldAt(t, log, n, key);
      assert log[begin..end] == log[begin..n] + log[n..end];
      TouchesMore(log[begin..n], log[begin..end], key);
      if !Touches(log[begin..end], key) {
        PlaySplits(map[], log[..begin], log[begin..n]);
        assert log[..begin] + log[begin..n] == log[..n];
        PlayDecides(StateAt(log, begin), t, log[begin..n], key);
      }
    }
  }

  /** Delta sync converges or throws, never a partial result: with an honest server it returns the
      account as of the last delta read exactly when the snapshot was faithful on untouched keys. */
  lemma SyncConverges(pull: Pull, log: seq<Event>, begin: nat, lengths: seq<nat>, start: int, loaded: seq<Item>)
    requires Honest(pull, log, begin, lengths) && CursorAt(log, begin, start)
    ensures var r, last := Replay(MapOf(loaded), start, 0, pull), LastPage(start, 0, pull);
            if r.Failure? then r.error == ChangedTooQuickly && last == MAX_PAGES
            else begin <= lengths[last] <= |log| && KeysDiffer(r.value)
                 && (Table(r.value) == StateAt(log, lengths[last])
                     <==> FaithfulWhereUntouched(Table(loaded), log, begin, lengths[last]))
                 && (HeldMeanwhile(Table(loaded), log, begin, lengths[last])
                     ==> Table(r.value) == StateAt(log, lengths[last]))
  {
    MapOfKeepsTable(loaded);
    ReplayIsExact(pull, log, begin, lengths, MapOf(loaded), begin, start, 0);
    var r, last := Replay(MapOf(loaded), start, 0, pull), LastPage(start, 0, pull);
    if r.Success? {
      ReplayConvergesIff(Table(loaded), log, begin, lengths[last]);
      if HeldMeanwhile(Table(loaded), log, begin, lengths[last]) {
        HeldMeanwhileIsFaithful(Table(loaded), log, begin, lengths[last]);
      }
    }
  }

  // ----- loading the snapshot by offset

  type Load = nat -> Option<seq<Item>>

  function PagesFrom(load: Load, size: nat, page: nat, sofar: seq<Item>): Result<seq<Item>, Error>
    decreases MAX_PAGES - page
  {
    if page >= MAX_PAGES then Failure(TooManyItems)
    else
      match load(page)
      case None => Failure(NotAList)
      case Some(items) => if |items| < size then Success(sofar + items)
          else PagesFrom(load, size, page + 1, sofar + items)
  }

  method Pages(load: Load, size: nat) returns (r: Result<seq<Item>, Error>)
    ensures r == PagesFrom(load, size, 0, [])
  {
    var result := [];
    for page := 0 to MAX_PAGES
      invariant PagesFrom(load, size, page, result) == PagesFrom(load, size, 0, [])
    {
      var items := load(page);
      if items.None? {
        return Failure(NotAList);
      }
      result := result + items.value;
      if |items.value| < size {
        return Success(result);
      }
    }
    return Failure(TooManyItems);
  }

  /** The pages before `page`, joined. */
  function Joined(load: Load, page: nat): seq<Item> {
    if page == 0 then [] else Joined(load, page - 1) + load(page - 1).GetOr([])
  }

  lemma {:induction false} PagesReach(load: Load, size: nat, page: nat)
    requires page <= 10 && forall q :: 0 <= q < page ==> load(q).Some? && |load(q).value| >= size
    ensures PagesFrom(load, size, 0, []) == PagesFrom(load, size, page, Joined(load, page))
  {
    if page > 0 {
      PagesReach(load, size, page - 1);
    }
  }

  /** Whatever the service answers, the first page that is no full list decides: a short list ends the
      load with all pages up to it, anything else throws, and so do ten full pages. */
  lemma PagesOutcome(load: Load, size: nat, page: nat)
    requires page <= 10 && forall q :: 0 <= q < page ==> load(q).Some? && |load(q).value| >= size
    requires page < 10 ==> load(page).None? || |load(page).value| < size
    ensures PagesFrom(load, size, 0, [])
            == if page == 10 then Failure(TooManyItems)
               else if load(page).None? then Failure(NotAList) else Success(Joined(load, page + 1))
  {
    PagesReach(load, size, page);
  }

  /** The server's answer for one offset and limit. */
  function Window(data: seq<Item>, offset: nat, size: nat): seq<Item> {
    data[Least(offset, |data|)..Least(offset + size, |data|)]
  }

  lemma {:induction false} PagesFromStable(load: Load, data: seq<Item>, size: nat, page: nat)
    requires 0 < size && page <= MAX_PAGES && page * size <= |data|
    requires forall p: nat :: load(p) == Some(Window(data, p * size, size))
    ensures PagesFrom(load, size, page, data[..page * size])
            == if |data| < MAX_PAGES * size then Success(data) else Failure(TooManyItems)
    decreases MAX_PAGES - page
  {
    if page < MAX_PAGES {
      assert (page + 1) * size == page * size + size && (page + 1) * size <= MAX_PAGES * size;
      var items := Window(data, page * size, size);
      assert load(page) == Some(items);
      if |items| < size {
        assert data[..page * size] + items == data;
      } else {
        assert data[..page * size] + items == data[..(page + 1) * size];
        PagesFromStable(load, data, size, page + 1);
      }
    }
  }

  /** On an unchanging list, all of it or an error: never a truncated copy. */
  lemma PagesOfStableList(load: Load, data: seq<Item>, size: nat)
    requires 0 < size && forall p: nat :: load(p) == Some(Window(data, p * size, size))
    ensures PagesFrom(load, size, 0, []) == if |data| < MAX_PAGES * size then Success(data) else Failure(TooManyItems)
  {
    PagesFromStable(load, data, size, 0);
    assert data[..0] == [];
  }
}
