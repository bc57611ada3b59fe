/** The snapshot of a sync is read page by page, by offset, while the account changes: when the pages
    still make a snapshot the replay can complete, and when they do not. */
module PagedSync {
  import opened Wrappers
  import opened DeltaSync

  // ----- a server that answers from its log

  /** How many events a cursor has passed. */
  function EventsUpTo(log: seq<Event>, cursor: int): (n: nat)
    ensures n <= |log|
  {
    if log == [] || log[|log| - 1].id <= cursor then |log| else EventsUpTo(log[..|log| - 1], cursor)
  }

  /** Page `p` is answered when the log is `lengths[p]` long. */
  function LogServer(log: seq<Event>, lengths: seq<nat>): Pull {
    (p: nat, cursor: int) =>
      if p < |lengths| && EventsUpTo(log, cursor) <= lengths[p] <= |log|
      then Some(log[EventsUpTo(log, cursor)..Least(EventsUpTo(log, cursor) + PAGE_EVENTS, lengths[p])])
      else None
  }

  lemma {:induction false} CursorCounts(log: seq<Event>, n: nat, cursor: int)
    requires CursorAt(log, n, cursor)
    ensures EventsUpTo(log, cursor) == n
  {
    if n < |log| {
      CursorCounts(log[..|log| - 1], n, cursor);
    }
  }

  lemma LogServerIsHonest(log: seq<Event>, begin: nat, lengths: seq<nat>)
    requires WellFormedLog(log) && |lengths| == MAX_PAGES
    requires forall p :: 0 <= p < MAX_PAGES ==> begin <= lengths[p] <= |log|
    requires forall p, q :: 0 <= p < q < MAX_PAGES ==> lengths[p] <= lengths[q]
    ensures Honest(LogServer(log, lengths), log, begin, lengths)
  {
    forall p: nat, n: nat, cursor: int | p < MAX_PAGES && CursorAt(log, n, cursor) && n <= lengths[p]
      ensures LogServer(log, lengths)(p, cursor) == Some(log[n..Least(n + PAGE_EVENTS, lengths[p])])
    {
      CursorCounts(log, n, cursor);
    }
  }

  // ----- pages of a changing list

  /** What is loaded when page `p` is read off `lists[p]`. */
  function Loaded(lists: seq<seq<Item>>, size: nat): seq<Item> {
    if lists == [] then []
    else Loaded(lists[..|lists| - 1], size) + Window(lists[|lists| - 1], (|lists| - 1) * size, size)
  }

  /** All pages are full but the last. */
  ghost predicate EndsShort(lists: seq<seq<Item>>, size: nat) {
    && 0 < |lists| <= MAX_PAGES
    && (forall p :: 0 <= p < |lists| - 1 ==> |Window(lists[p], p * size, size)| == size)
    && |Window(lists[|lists| - 1], (|lists| - 1) * size, size)| < size
  }

  ghost predicate Answers(load: Load, lists: seq<seq<Item>>, size: nat) {
    forall p: nat :: p < |lists| ==> load(p) == Some(Window(lists[p], p * size, size))
  }

  lemma {:induction false} PagesFromLists(load: Load, lists: seq<seq<Item>>, size: nat, page: nat)
    requires Answers(load, lists, size) && EndsShort(lists, size) && page < |lists|
    ensures PagesFrom(load, size, page, Loaded(lists[..page], size)) == Success(Loaded(lists, size))
    decreases |lists| - page
  {
    assert lists[..page + 1][..page] == lists[..page];
    assert load(page) == Some(Window(lists[page], page * size, size));
    if page == |lists| - 1 {
      assert lists[..page + 1] == lists;
    } else {
      PagesFromLists(load, lists, size, page + 1);
    }
  }

  lemma PagesOfChangingList(load: Load, lists: seq<seq<Item>>, size: nat)
    requires Answers(load, lists, size) && EndsShort(lists, size)
    ensures PagesFrom(load, size, 0, []) == Success(Loaded(lists, size))
  {
    PagesFromLists(load, lists, size, 0);
    assert lists[..0] == [];
  }

  /** Page `p` holds position `j` of the list it was read off. */
  predicate InWindow(lists: seq<seq<Item>>, size: nat, p: nat, j: nat) {
    p < |lists| && j < |lists[p]| && p * size <= j < p * size + size
  }

  /** The key was in some page's window when that page was read. */
  ghost predicate Covered(lists: seq<seq<Item>>, size: nat, key: string) {
    exists p: nat, j: nat :: InWindow(lists, size, p, j) && lists[p][j].key == key
  }

  lemma {:induction false} LoadedContains(lists: seq<seq<Item>>, size: nat, p: nat, j: nat)
    requires InWindow(lists, size, p, j)
    ensures lists[p][j] in Loaded(lists, size)
  {
    var front, last := lists[..|lists| - 1], |lists| - 1;
    if p < last {
      LoadedContains(front, size, p, j);
    } else {
      assert Window(lists[last], last * size, size)[j - last * size] == lists[p][j];
    }
  }

  lemma {:induction false} LoadedComesFrom(lists: seq<seq<Item>>, size: nat, item: Item) returns (p: nat, j: nat)
    requires item in Loaded(lists, size)
    ensures InWindow(lists, size, p, j) && lists[p][j] == item
  {
    var front, last := lists[..|lists| - 1], |lists| - 1;
    var window := Window(lists[last], last * size, size);
    if item in window {
      var i :| 0 <= i < |window| && window[i] == item;
      p, j := last, last * size + i;
    } else {
      p, j := LoadedComesFrom(front, size, item);
    }
  }

  lemma {:induction false} TableHoldsItems(items: seq<Item>)
    ensures forall key <- Table(items) :: Table(items)[key] in items && Table(items)[key].key == key
    ensures forall item <- items :: item.key in Table(items)
  {
    if items != [] {
      TableHoldsItems(items[..|items| - 1]);
      assert items == items[..|items| - 1] + [items[|items| - 1]];
    }
  }

  // ----- when the pages make a usable snapshot

  /** Page `p` was read when `at[p]` events had happened, off a list of the account as it was then. */
  ghost predicate ListsFollow(lists: seq<seq<Item>>, at: seq<nat>, log: seq<Event>, begin: nat, end: nat) {
    && |at| == |lists| && end <= |log|
    && forall p :: 0 <= p < |lists|
        ==> begin <= at[p] <= end && KeysDiffer(lists[p]) && Table(lists[p]) == StateAt(log, at[p])
  }

  /** A key that no event touches keeps its value. */
  lemma UntouchedIsHeld(log: seq<Event>, begin: nat, n: nat, end: nat, key: string)
    requires begin <= n <= end <= |log| && !Touches(log[begin..end], key)
    ensures AgreeOn(StateAt(log, n), StateAt(log, begin), key)
  {
    PlayOn(map[], log, 0, begin, n);
    assert log[0..begin] == log[..begin] && log[0..n] == log[..n];
    TouchesMore(log[begin..n], log[begin..end], key);
    assert forall e <- log[begin..n] :: e in log[begin..end];
    PlayDecides(StateAt(log, begin), StateAt(log, begin), log[begin..n], key);
  }

  /** For a key no event touches, the snapshot is right exactly if the key was absent or some page
      covered it. */
  lemma UntouchedKeyIff(lists: seq<seq<Item>>, size: nat, at: seq<nat>, log: seq<Event>, begin: nat, end: nat,
                        key: string)
    requires begin <= end <= |log| && ListsFollow(lists, at, log, begin, end) && !Touches(log[begin..end], key)
    ensures AgreeOn(Table(Loaded(lists, size)), StateAt(log, begin), key)
            <==> (key in StateAt(log, begin) ==> Covered(lists, size, key))
  {
    var loaded := Loaded(lists, size);
    TableHoldsItems(loaded);
    if key in Table(loaded) {
      var p, j := LoadedComesFrom(lists, size, Table(loaded)[key]);
      LoadedValueIsHeld(lists, size, at, log, begin, end, p, j);
    }
    if Covered(lists, size, key) {
      var p: nat, j: nat :| InWindow(lists, size, p, j) && lists[p][j].key == key;
      LoadedContains(lists, size, p, j);
    }
  }

  lemma LoadedValueIsHeld(lists: seq<seq<Item>>, size: nat, at: seq<nat>, log: seq<Event>, begin: nat, end: nat,
                          p: nat, j: nat)
    requires begin <= end <= |log| && ListsFollow(lists, at, log, begin, end) && InWindow(lists, size, p, j)
    requires !Touches(log[begin..end], lists[p][j].key)
    ensures lists[p][j].key in StateAt(log, begin) && StateAt(log, begin)[lists[p][j].key] == lists[p][j]
  {
    var item := lists[p][j];
    TableMeaning(lists[p]);
    assert item in lists[p];
    UntouchedIsHeld(log, begin, at[p], end, item.key);
  }

  /** Offset paging over a changing list gives a usable snapshot if and only if every key that no
      replayed event touches lay in some page's window when that page was read. */
  lemma PagingIsFaithfulIff(lists: seq<seq<Item>>, size: nat, at: seq<nat>, log: seq<Event>, begin: nat, end: nat)
    requires begin <= end <= |log| && ListsFollow(lists, at, log, begin, end)
    ensures FaithfulWhereUntouched(Table(Loaded(lists, size)), log, begin, end)
            <==> forall key <- StateAt(log, begin) :: Touches(log[begin..end], key) || Covered(lists, size, key)
  {
    var loaded := Table(Loaded(lists, size));
    forall key | !Touches(log[begin..end], key)
      ensures AgreeOn(loaded, StateAt(log, begin), key) <==> (key in StateAt(log, begin) ==> Covered(lists, size, key))
    {
      UntouchedKeyIff(lists, size, at, log, begin, end, key);
    }
  }

  /** The snapshot is complete for a sync whose last delta read sees `end` events. */
  ghost predicate CoversUntouched(lists: seq<seq<Item>>, size: nat, log: seq<Event>, begin: nat, end: nat)
    requires begin <= end <= |log|
  {
    forall key <- StateAt(log, begin) :: Touches(log[begin..end], key) || Covered(lists, size, key)
  }

  /** The whole sync over a changing account: it throws, or it returns the account at the last delta
      read exactly if its pages covered every key that no replayed event touches. */
  lemma PagedSyncConvergesIff(pull: Pull, load: Load, log: seq<Event>, begin: nat, lengths: seq<nat>, start: int,
                              lists: seq<seq<Item>>, at: seq<nat>, size: nat)
    requires Honest(pull, log, begin, lengths) && CursorAt(log, begin, start)
    requires Answers(load, lists, size) && EndsShort(lists, size) && ListsFollow(lists, at, log, begin, lengths[0])
    ensures PagesFrom(load, size, 0, []) == Success(Loaded(lists, size))
    ensures var r, last := Replay(MapOf(Loaded(lists, size)), start, 0, pull), LastPage(start, 0, pull);
            if r.Failure? then r.error == ChangedTooQuickly && last == MAX_PAGES
            else last < MAX_PAGES && begin <= lengths[last] <= |log|
                 && (Table(r.value) == StateAt(log, lengths[last])
                     <==> CoversUntouched(lists, size, log, begin, lengths[last]))
  {
    PagesOfChangingList(load, lists, size);
    MapOfKeepsTable(Loaded(lists, size));
    ReplayIsExact(pull, log, begin, lengths, MapOf(Loaded(lists, size)), begin, start, 0);
    var r, last := Replay(MapOf(Loaded(lists, size)), start, 0, pull), LastPage(start, 0, pull);
    if r.Success? {
      ReplayConvergesIff(Table(Loaded(lists, size)), log, begin, lengths[last]);
      assert lengths[0] <= lengths[last];
      PagingIsFaithfulIff(lists, size, at, log, begin, lengths[last]);
    }
  }

  // ----- a sync that misses an item

  function UpsertAll(data: seq<Item>): seq<Event> {
    seq(|data|, i requires 0 <= i < |data| => Event(i + 1, Upsert, data[i]))
  }

  lemma {:induction false} UpsertAllBuildsTable(data: seq<Item>)
    ensures Play(map[], UpsertAll(data)) == Table(data)
  {
    if data != [] {
      UpsertAllBuildsTable(data[..|data| - 1]);
      assert UpsertAll(data)[..|data| - 1] == UpsertAll(data[..|data| - 1]);
    }
  }

  /** The account is filled with `data`; then its first item is deleted. */
  function DeletedFirst(data: seq<Item>): seq<Event>
    requires data != []
  {
    UpsertAll(data) + [Event(|data| + 1, Delete, data[0])]
  }

  lemma {:induction false} DeletedFirstLog(data: seq<Item>)
    requires data != [] && KeysDiffer(data)
    ensures var log := DeletedFirst(data);
            StateAt(log, |data|) == Table(data) && StateAt(log, |data| + 1) == Table(data[1..])
  {
    var log := DeletedFirst(data);
    UpsertAllBuildsTable(data);
    assert log[..|data|] == UpsertAll(data) && log[..|data| + 1][..|data|] == UpsertAll(data);
    TableMeaning(data);
    TailTable(data);
  }

  lemma TailTable(data: seq<Item>)
    requires data != [] && KeysDiffer(data)
    ensures Table(data[1..]) == Table(data) - {data[0].key}
  {
    TableMeaning(data);
    var t := Table(data) - {data[0].key};
    assert data == [data[0]] + data[1..];
    forall item ensures item in data[1..] <==> item.key in t && t[item.key] == item {
      assert item in data <==> item == data[0] || item in data[1..];
      assert item in data[1..] ==> item.key != data[0].key;
    }
    TablesEqual(data[1..], t);
  }

  /** The item deleted between the two page reads moves the last one out of the second page. */
  lemma SecondPageMisses(data: seq<Item>, size: nat)
    requires 0 < size && |data| == size + 1 && KeysDiffer(data)
    ensures EndsShort([data, data[1..]], size) && !Covered([data, data[1..]], size, data[size].key)
  {
    var lists := [data, data[1..]];
    assert |Window(data, 0 * size, size)| == size && Window(data[1..], 1 * size, size) == [];
    forall p: nat, j: nat | InWindow(lists, size, p, j) ensures lists[p][j].key != data[size].key {
      assert p == 0 || p == 1;
      assert p == 0 ==> j < size;
      assert p == 1 ==> j < size && 1 * size <= j;
    }
  }

  lemma DeletedFirstServer(data: seq<Item>, size: nat)
    requires 0 < size && |data| == size + 1 <= MAX_SAFE_INTEGER - 1
    ensures var log, lengths := DeletedFirst(data), seq(MAX_PAGES, _ => size + 2);
            && Honest(LogServer(log, lengths), log, size + 1, lengths) && CursorAt(log, size + 1, size + 1)
            && WellFormedLog(log) && |log| == size + 2
  {
    var log, lengths: seq<nat> := DeletedFirst(data), seq(MAX_PAGES, _ => size + 2);
    assert WellFormedLog(log);
    LogServerIsHonest(log, size + 1, lengths);
  }

  lemma DeletedFirstLists(data: seq<Item>, size: nat)
    requires 0 < size && |data| == size + 1 && KeysDiffer(data)
    ensures ListsFollow([data, data[1..]], [size + 1, size + 2], DeletedFirst(data), size + 1, size + 2)
  {
    DeletedFirstLog(data);
  }

  /** One deletion between two page reads is enough: the pages load, the delta is replayed without error,
      and the result is not the account. */
  lemma SyncMissesItem(load: Load, data: seq<Item>, size: nat)
    requires 0 < size && |data| == size + 1 <= MAX_SAFE_INTEGER - 1 && KeysDiffer(data)
    requires load(0) == Some(Window(data, 0, size)) && load(1) == Some(Window(data[1..], size, size))
    ensures var log, lengths := DeletedFirst(data), seq(MAX_PAGES, _ => size + 2);
            var pull := LogServer(log, lengths);
            && Honest(pull, log, size + 1, lengths) && CursorAt(log, size + 1, size + 1)
            && PagesFrom(load, size, 0, []).Success?
            && var r := Replay(MapOf(PagesFrom(load, size, 0, []).value), size + 1, 0, pull);
               r.Success? && Table(r.value) != StateAt(log, size + 2)
  {
    var log, lengths: seq<nat> := DeletedFirst(data), seq(MAX_PAGES, _ => size + 2);
    var pull, lists := LogServer(log, lengths), [data, data[1..]];
    DeletedFirstServer(data, size);
    DeletedFirstLists(data, size);
    SecondPageMisses(data, size);
    TwoPages(load, data, size);
    PagedSyncConvergesIff(pull, load, log, size + 1, lengths, size + 1, lists, [size + 1, size + 2], size);
    OneEventReplays(log, lengths, size, MapOf(Loaded(lists, size)));
    SkippedKeyIsUncovered(data, size);
  }

  lemma TwoPages(load: Load, data: seq<Item>, size: nat)
    requires data != [] && load(0) == Some(Window(data, 0, size)) && load(1) == Some(Window(data[1..], size, size))
    ensures Answers(load, [data, data[1..]], size)
  {
    var lists := [data, data[1..]];
    forall p: nat | p < |lists| ensures load(p) == Some(Window(lists[p], p * size, size)) {
      assert p == 0 || p == 1;
      assert 0 * size == 0 && 1 * size == size;
    }
  }

  lemma OneEventReplays(log: seq<Event>, lengths: seq<nat>, size: nat, items: seq<Item>)
    requires WellFormedLog(log) && |log| == size + 2 && CursorAt(log, size + 1, size + 1)
    requires |lengths| == MAX_PAGES && lengths[0] == size + 2
    ensures Replay(items, size + 1, 0, LogServer(log, lengths)).Success?
        && LastPage(size + 1, 0, LogServer(log, lengths)) == 0
  {
    CursorCounts(log, size + 1, size + 1);
    var changes := log[size + 1..size + 2];
    assert LogServer(log, lengths)(0, size + 1) == Some(changes);
    assert changes == [log[size + 1]];
  }

  lemma SkippedKeyIsUncovered(data: seq<Item>, size: nat)
    requires 0 < size && |data| == size + 1 && KeysDiffer(data)
    ensures !CoversUntouched([data, data[1..]], size, DeletedFirst(data), size + 1, size + 2)
  {
    var log, skipped := DeletedFirst(data), data[size];
    DeletedFirstLog(data);
    SecondPageMisses(data, size);
    TableMeaning(data);
    assert skipped in data && skipped.key in StateAt(log, size + 1);
    assert log[size + 1..size + 2] == [Event(size + 2, Delete, data[0])];
    assert !Touches(log[size + 1..size + 2], skipped.key);
  }
}
