/** Cursor pagination of the ranked match list, and what a client sees over a whole walk. */
module MatchList {
  import opened Basics
  import opened CursorCodec
  import opened SortedWalk

  datatype Item = Item(id: Text, matchScore: Option<real>, hardBlocked: bool)

  function KeyOf(item: Item): Cursor {
    Cursor(if item.hardBlocked then 1 else 0, if item.matchScore.Some? then item.matchScore.value else -1.0, item.id)
  }

  /** JavaScript `<` on strings: by code unit, a proper prefix first. */
  predicate IdLess(x: Text, y: Text) {
    y != [] && (x == [] || x[0] < y[0] || (x[0] == y[0] && IdLess(x[1..], y[1..])))
  }

  /** Whether key k comes strictly after cursor c: bucket, then score descending, then id. */
  predicate After(k: Cursor, c: Cursor) {
    if k.b != c.b then k.b > c.b
    else if k.s != c.s then k.s < c.s
    else IdLess(c.id, k.id)
  }

  const CURSOR_ORDER: Order<Item, Cursor> := Order(item => KeyOf(item), (k, c) => After(k, c))

  lemma {:induction false} IdLessTransitive(x: Text, y: Text, z: Text)
    requires IdLess(x, y) && IdLess(y, z)
    ensures IdLess(x, z)
  {
    if x != [] && x[0] == y[0] == z[0] {
      IdLessTransitive(x[1..], y[1..], z[1..]);
    }
  }

  lemma {:induction false} IdLessTotal(x: Text, y: Text)
    ensures IdLess(x, y) || IdLess(y, x) || x == y
    ensures !(IdLess(x, y) && IdLess(y, x))
  {
    if x != [] && y != [] && x[0] == y[0] {
      IdLessTotal(x[1..], y[1..]);
      assert x == [x[0]] + x[1..] && y == [y[0]] + y[1..];
    }
  }

  /** The cursor order is a strict total order on keys. */
  lemma AfterIsStrictTotalOrder(k: Cursor, c: Cursor, d: Cursor)
    ensures !After(k, k)
    ensures After(k, c) && After(c, d) ==> After(k, d)
    ensures After(k, c) || After(c, k) || k == c
  {
    IdLessTotal(k.id, k.id);
    IdLessTotal(k.id, c.id);
    if IdLess(c.id, k.id) && IdLess(d.id, c.id) {
      IdLessTransitive(d.id, c.id, k.id);
    }
  }

  lemma CursorOrderIsStrict()
    ensures CURSOR_ORDER.Strict()
  {
    forall k, c, d
      ensures !CURSOR_ORDER.after(k, k)
      ensures CURSOR_ORDER.after(k, c) && CURSOR_ORDER.after(c, d) ==> CURSOR_ORDER.after(k, d)
    {
      AfterIsStrictTotalOrder(k, c, d);
    }
  }

  // ---- the list builder's sort

  /** The comparator that sorts the full list. */
  function Compare(a: Item, b: Item): real {
    var aBlocked := if a.hardBlocked then 1.0 else 0.0;
    var bBlocked := if b.hardBlocked then 1.0 else 0.0;
    if aBlocked != bBlocked then aBlocked - bBlocked
    else
      var aScore := if a.matchScore.Some? then a.matchScore.value else -1.0;
      var bScore := if b.matchScore.Some? then b.matchScore.value else -1.0;
      if bScore != aScore then bScore - aScore
      else if IdLess(a.id, b.id) then -1.0 else if IdLess(b.id, a.id) then 1.0 else 0.0
  }

  /** The comparator agrees with the cursor order, so a list of distinct ids that it has sorted
      (no adjacent pair out of order) is strictly sorted for the cursor. */
  lemma SortedByComparator(items: seq<Item>)
    requires forall i | 0 < i < |items| :: Compare(items[i - 1], items[i]) <= 0.0
    requires forall i, j | 0 <= i < j < |items| :: items[i].id != items[j].id
    ensures CURSOR_ORDER.Sorted(items)
  {
    forall i | 0 < i < |items|
      ensures After(KeyOf(items[i]), KeyOf(items[i - 1]))
    {
      assert items[i - 1].id != items[i].id;
      IdLessTotal(items[i - 1].id, items[i].id);
    }
    forall i, j | 0 <= i < j < |items|
      ensures CURSOR_ORDER.InOrder(items, i, j)
    {
      AfterFromAdjacent(items, i, j);
    }
  }

  lemma {:induction false} AfterFromAdjacent(items: seq<Item>, i: nat, j: nat)
    requires i < j < |items|
    requires forall n | 0 < n < |items| :: After(KeyOf(items[n]), KeyOf(items[n - 1]))
    ensures After(KeyOf(items[j]), KeyOf(items[i]))
    decreases j
  {
    if i < j - 1 {
      AfterFromAdjacent(items, i, j - 1);
      AfterIsStrictTotalOrder(KeyOf(items[j]), KeyOf(items[j - 1]), KeyOf(items[i]));
    }
  }

  // ---- the pages of the match list

  function MatchPager(nums: Numbers): Pager<Item, Cursor> {
    Pager(CURSOR_ORDER, c => Encode(nums, c), raw => Decode(nums, raw))
  }

  /** What the server's lists look like: strictly sorted in cursor order, real scores, nonempty ids. */
  ghost predicate ServedList(nums: Numbers, items: seq<Item>) {
    && CURSOR_ORDER.Sorted(items)
    && forall i | 0 <= i < |items| :: items[i].id != [] && KeyOf(items[i]).s in nums.doubles
  }

  lemma ServedListIsServed(nums: Numbers, items: seq<Item>)
    requires NumbersRoundTrip(nums) && ServedList(nums, items)
    ensures MatchPager(nums).Served(items)
  {
    forall i | 0 <= i < |items|
      ensures MatchPager(nums).Survives(items, i)
    {
      RoundTrip(nums, KeyOf(items[i]));
    }
  }

  /** What the client sees of match lists that are rebuilt between its requests. */
  lemma MatchListWalk(nums: Numbers, lists: seq<seq<Item>>, limit: nat, k: Cursor)
    requires NumbersRoundTrip(nums) && limit >= 1
    requires forall n | 0 <= n < |lists| :: ServedList(nums, lists[n])
    ensures
      var pages := MatchPager(nums).Walk(lists, None, limit);
      && CURSOR_ORDER.Sorted(Delivered(pages))
      && CURSOR_ORDER.Occurrences(Delivered(pages), k) <= 1
      && (Finished(pages) && (forall n | 0 <= n < |lists| :: CURSOR_ORDER.HasKey(lists[n], k)) ==>
            CURSOR_ORDER.Occurrences(Delivered(pages), k) == 1)
  {
    CursorOrderIsStrict();
    forall n | 0 <= n < |lists|
      ensures MatchPager(nums).Served(lists[n])
    {
      ServedListIsServed(nums, lists[n]);
    }
    MatchPager(nums).WholeWalk(lists, limit, k);
  }

  // ---- what the client sees of one profile

  /** The items of one profile. */
  function Of(id: Text): Item -> bool { (item: Item) => item.id == id }

  /** What the client sees of a profile that has the key ks[n] in list n, if that list holds it: at most once
      unless it moves later, and at least once unless it is missing or moves earlier. */
  lemma ProfileWalk(nums: Numbers, lists: seq<seq<Item>>, limit: nat, id: Text, ks: seq<Cursor>)
    requires NumbersRoundTrip(nums) && limit >= 1
    requires forall n | 0 <= n < |lists| :: ServedList(nums, lists[n])
    requires CURSOR_ORDER.KeysAre(lists, Of(id), ks)
    ensures
      var pages := MatchPager(nums).Walk(lists, None, limit);
      && (CURSOR_ORDER.NeverLater(ks) ==> CURSOR_ORDER.Times(Delivered(pages), Of(id)) <= 1)
      && (CURSOR_ORDER.NeverEarlier(ks) && Finished(pages) &&
          CURSOR_ORDER.AllHave(lists, Of(id)) ==>
            CURSOR_ORDER.Times(Delivered(pages), Of(id)) >= 1)
  {
    CursorOrderIsStrict();
    ListsAreServed(nums, lists);
    var got := CURSOR_ORDER.Received(lists, None, limit);
    MatchPager(nums).AllServedIsAllSorted(lists);
    MatchPager(nums).WalkDelivers(lists, None, limit);
    MatchPager(nums).WalkFinishes(lists, None, limit);
    CURSOR_ORDER.TimesZeroIff(got, Of(id));
    if CURSOR_ORDER.NeverLater(ks) {
      CURSOR_ORDER.ReceivedAtMostOnce(lists, None, limit, Of(id), ks);
    }
    if CURSOR_ORDER.NeverEarlier(ks) && CURSOR_ORDER.Ends(lists, None, limit) && CURSOR_ORDER.AllHave(lists, Of(id)) {
      CURSOR_ORDER.ReceivedAtLeastOnce(lists, None, limit, Of(id), ks);
    }
  }

  lemma ListsAreServed(nums: Numbers, lists: seq<seq<Item>>)
    requires NumbersRoundTrip(nums) && forall n | 0 <= n < |lists| :: ServedList(nums, lists[n])
    ensures MatchPager(nums).AllServed(lists)
  {
    forall n | 0 <= n < |lists|
      ensures MatchPager(nums).Served(lists[n])
    {
      ServedListIsServed(nums, lists[n]);
    }
  }

  function Scored(id: Text, score: real): Item { Item(id, Some(score), false) }

  /** Two profiles with these scores, the better one first. */
  function Pair(first: Text, x: real, second: Text, y: real): seq<Item> { [Scored(first, x), Scored(second, y)] }

  lemma PairIsServed(nums: Numbers, first: Text, x: real, second: Text, y: real)
    requires first != [] && second != [] && x > y && x in nums.doubles && y in nums.doubles
    ensures ServedList(nums, Pair(first, x, second, y))
  {}

  /** Where the walk over a pair starts after either of its items. */
  lemma PairStarts(first: Text, x: real, second: Text, y: real)
    requires x > y
    ensures CURSOR_ORDER.Sorted(Pair(first, x, second, y))
    ensures CURSOR_ORDER.Start(Pair(first, x, second, y), Some(KeyOf(Scored(first, x)))) == 1
    ensures CURSOR_ORDER.Start(Pair(first, x, second, y), Some(KeyOf(Scored(second, y)))) == 2
  {
    var items := Pair(first, x, second, y);
    CursorOrderIsStrict();
    assert CURSOR_ORDER.InOrder(items, 0, 1);
    CURSOR_ORDER.StartAfterItem(items, 0);
    CURSOR_ORDER.StartAfterItem(items, 1);
  }

  /** All of a pair comes after an item with a better score. */
  lemma StartOfLower(first: Text, x: real, second: Text, y: real, id: Text, better: real)
    requires better > x > y
    ensures CURSOR_ORDER.Start(Pair(first, x, second, y), Some(KeyOf(Scored(id, better)))) == 0
  {
    var (items, c) := (Pair(first, x, second, y), KeyOf(Scored(id, better)));
    assert CURSOR_ORDER.IsAfter(items[0], c);
  }

  lemma ReceivedTwice(a: Text, b: Text, x: real, y: real, z: real)
    requires x > y > z
    ensures
      CURSOR_ORDER.Received([Pair(a, x, b, y), Pair(b, y, a, z), Pair(b, y, a, z)], None, 1) ==
      [Scored(a, x), Scored(b, y), Scored(a, z)]
  {
    var (before, after) := (Pair(a, x, b, y), Pair(b, y, a, z));
    PairStarts(b, y, a, z);
    StartOfLower(b, y, a, z, a, x);
    assert [before, after, after][1..] == [after, after] && [after, after][1..] == [after];
    assert CURSOR_ORDER.Received([after], Some(KeyOf(Scored(b, y))), 1) == [Scored(a, z)];
    assert CURSOR_ORDER.Received([after, after], Some(KeyOf(Scored(a, x))), 1) == [Scored(b, y), Scored(a, z)];
  }

  /** A profile whose score falls between two pages is seen again: with one item a page, profile a is first
      ahead of b, then behind it, and the client gets a, b, a. */
  lemma ProfileComesTwice(nums: Numbers, a: Text, b: Text, x: real, y: real, z: real)
    requires NumbersRoundTrip(nums) && a != [] && b != [] && a != b
    requires x > y > z && x in nums.doubles && y in nums.doubles && z in nums.doubles
    ensures
      var lists := [Pair(a, x, b, y), Pair(b, y, a, z), Pair(b, y, a, z)];
      var pages := MatchPager(nums).Walk(lists, None, 1);
      && (forall n | 0 <= n < |lists| :: ServedList(nums, lists[n]))
      && Delivered(pages) == [Scored(a, x), Scored(b, y), Scored(a, z)]
  {
    var (before, after) := (Pair(a, x, b, y), Pair(b, y, a, z));
    var lists := [before, after, after];
    PairIsServed(nums, a, x, b, y);
    PairIsServed(nums, b, y, a, z);
    ListsAreServed(nums, lists);
    MatchPager(nums).WalkDelivers(lists, None, 1);
    ReceivedTwice(a, b, x, y, z);
  }

  /** A profile whose score rises between two pages is missed: with one item a page, profile a is first behind
      b, then ahead of it, and the client gets b alone and is told that there is no more. */
  lemma ProfileIsMissed(nums: Numbers, a: Text, b: Text, x: real, y: real, z: real)
    requires NumbersRoundTrip(nums) && a != [] && b != [] && a != b
    requires x > y > z && x in nums.doubles && y in nums.doubles && z in nums.doubles
    ensures
      var lists := [Pair(b, y, a, z), Pair(a, x, b, y)];
      var pages := MatchPager(nums).Walk(lists, None, 1);
      && (forall n | 0 <= n < |lists| :: ServedList(nums, lists[n]))
      && Delivered(pages) == [Scored(b, y)] && Finished(pages)
  {
    var (before, after) := (Pair(b, y, a, z), Pair(a, x, b, y));
    var lists := [before, after];
    PairIsServed(nums, b, y, a, z);
    PairIsServed(nums, a, x, b, y);
    ListsAreServed(nums, lists);
    MatchPager(nums).WalkDelivers(lists, None, 1);
    MatchPager(nums).WalkFinishes(lists, None, 1);
    PairStarts(a, x, b, y);
    assert lists[1..] == [after];
    assert CURSOR_ORDER.Received([after], Some(KeyOf(Scored(b, y))), 1) == [];
    assert CURSOR_ORDER.Ends([after], Some(KeyOf(Scored(b, y))), 1);
  }

  /** What the client sees of a match list that does not change. */
  lemma FixedMatchListWalk(nums: Numbers, lists: seq<seq<Item>>, items: seq<Item>, limit: nat)
    requires NumbersRoundTrip(nums) && ServedList(nums, items) && limit >= 1
    requires CURSOR_ORDER.Fixed(lists, items) && |lists| >= Requests(|items|, limit)
    ensures
      var pages := MatchPager(nums).Walk(lists, None, limit);
      Finished(pages) && Delivered(pages) == items
  {
    CursorOrderIsStrict();
    forall n | 0 <= n < |lists|
      ensures MatchPager(nums).Served(lists[n])
    {
      ServedListIsServed(nums, items);
    }
    ServedListIsServed(nums, items);
    MatchPager(nums).FixedListWalk(lists, items, limit);
  }

  // ---- the materialised ranking table

  /** The `where` of the query on MatchListRank rows after a cursor. */
  predicate RankAfterCursor(row: Cursor, cursor: Option<Cursor>) {
    match cursor
    case None => true
    case Some(c) =>
      || (c.b == 0 && row.b == 1)
      || (row.b == c.b && row.s < c.s)
      || (row.b == c.b && row.s == c.s && IdLess(c.id, row.id))
  }

  function Select(rows: seq<Item>, cursor: Option<Cursor>): seq<Item> {
    if rows == [] then []
    else (if RankAfterCursor(KeyOf(rows[0]), cursor) then [rows[0]] else []) + Select(rows[1..], cursor)
  }

  /** The page served from the table: `limit + 1` rows of the ordered query. */
  function RankPage(nums: Numbers, rows: seq<Item>, cursor: Option<Cursor>, limit: nat): Page<Item>
    requires limit >= 1
  {
    MatchPager(nums).LookAheadPage(Select(rows, cursor), limit)
  }

  lemma {:induction false} SelectIsSuffix(rows: seq<Item>, cursor: Option<Cursor>, s: nat)
    requires s <= |rows|
    requires forall i | 0 <= i < |rows| :: RankAfterCursor(KeyOf(rows[i]), cursor) <==> s <= i
    ensures Select(rows, cursor) == rows[s..]
  {
    if rows != [] {
      SelectIsSuffix(rows[1..], cursor, if s == 0 then 0 else s - 1);
      assert s > 0 ==> rows[s..] == rows[1..][s - 1..];
      assert rows == [rows[0]] + rows[1..];
    }
  }

  /** Both read paths serve the same page: the database query over the ordered rows answers what
      paginating the same rows in memory does. */
  lemma RankPageIsPaginate(nums: Numbers, rows: seq<Item>, cursor: Option<Cursor>, limit: nat)
    requires CURSOR_ORDER.Sorted(rows) && limit >= 1
    requires cursor.Some? ==> cursor.value.b in {0, 1}
    ensures RankPage(nums, rows, cursor, limit) == MatchPager(nums).Paginate(rows, cursor, limit)
  {
    CursorOrderIsStrict();
    var s := CURSOR_ORDER.Start(rows, cursor);
    if cursor.Some? {
      CURSOR_ORDER.StartSplits(rows, cursor);
      forall i | 0 <= i < |rows|
        ensures RankAfterCursor(KeyOf(rows[i]), cursor) <==> s <= i
      {
        assert CURSOR_ORDER.IsAfter(rows[i], cursor.value) <==> After(KeyOf(rows[i]), cursor.value);
      }
    }
    SelectIsSuffix(rows, cursor, s);
    MatchPager(nums).LookAheadOfSuffix(rows, s, limit);
  }

  /** The rows whose items are found again when the page is filled. */
  function Hydrated(rows: seq<Item>, found: Item -> bool): seq<Item> {
    if rows == [] then []
    else Hydrated(rows[..|rows| - 1], found) + if found(rows[|rows| - 1]) then [rows[|rows| - 1]] else []
  }

  function HydratedPage(p: Page<Item>, found: Item -> bool): Page<Item> { p.(page := Hydrated(p.page, found)) }

  lemma {:induction false} HydratedConcat(xs: seq<Item>, ys: seq<Item>, found: Item -> bool)
    ensures Hydrated(xs + ys, found) == Hydrated(xs, found) + Hydrated(ys, found)
    decreases |ys|
  {
    if ys == [] {
      assert xs + ys == xs;
    } else {
      HydratedConcat(xs, ys[..|ys| - 1], found);
      assert (xs + ys)[..|xs + ys| - 1] == xs + ys[..|ys| - 1];
    }
  }

  /** What the server finds when it fills the page of a request: nothing if the list is not ready. */
  type Filling = Option<Item -> bool>

  /** The pages as they are answered, each filled with what is there at its request; when the list is not ready
      the answer is an empty page that says there is no more. */
  function AnsweredPages(pages: seq<Page<Item>>, fillings: seq<Filling>): seq<Page<Item>>
    requires |pages| <= |fillings|
  {
    if pages == [] then []
    else if fillings[0].None? then [Page([], None, false)]
    else [HydratedPage(pages[0], fillings[0].value)] + AnsweredPages(pages[1..], fillings[1..])
  }

  /** The requests before the first one that finds the list not ready. */
  function ReadyRequests(pages: seq<Page<Item>>, fillings: seq<Filling>): (k: nat)
    requires |pages| <= |fillings|
    ensures k <= |pages|
    ensures forall i | 0 <= i < k :: fillings[i].Some?
    ensures k < |pages| ==> fillings[k].None?
  {
    if pages == [] || fillings[0].None? then 0
    else
      var k := ReadyRequests(pages[1..], fillings[1..]);
      assert forall i | 0 < i < k + 1 :: fillings[i] == fillings[1..][i - 1];
      k + 1
  }

  /** The items of these pages that are there at their request. */
  function FoundItems(pages: seq<Page<Item>>, fillings: seq<Filling>, k: nat): seq<Item>
    requires k <= |pages| <= |fillings| && forall i | 0 <= i < k :: fillings[i].Some?
  {
    if k == 0 then []
    else FoundItems(pages, fillings, k - 1) + Hydrated(pages[k - 1].page, fillings[k - 1].value)
  }

  lemma {:induction false} FoundItemsCons(pages: seq<Page<Item>>, fillings: seq<Filling>, k: nat)
    requires 0 < k <= |pages| <= |fillings| && forall i | 0 <= i < k :: fillings[i].Some?
    ensures forall i | 0 <= i < k - 1 :: fillings[1..][i] == fillings[i + 1]
    ensures FoundItems(pages, fillings, k) ==
      Hydrated(pages[0].page, fillings[0].value) + FoundItems(pages[1..], fillings[1..], k - 1)
    decreases k
  {
    if k > 1 {
      FoundItemsCons(pages, fillings, k - 1);
    }
  }

  lemma {:induction false} AnswersDeliver(pages: seq<Page<Item>>, fillings: seq<Filling>)
    requires |pages| <= |fillings|
    ensures Delivered(AnsweredPages(pages, fillings)) == FoundItems(pages, fillings, ReadyRequests(pages, fillings))
    decreases |pages|
  {
    if pages != [] && fillings[0].Some? {
      AnswersDeliver(pages[1..], fillings[1..]);
      FoundItemsCons(pages, fillings, ReadyRequests(pages, fillings));
    }
  }

  lemma {:induction false} AnswersFinish(pages: seq<Page<Item>>, fillings: seq<Filling>)
    requires |pages| <= |fillings|
    ensures Finished(AnsweredPages(pages, fillings)) <==> ReadyRequests(pages, fillings) < |pages| || Finished(pages)
    decreases |pages|
  {
    if pages != [] && fillings[0].Some? {
      AnswersFinish(pages[1..], fillings[1..]);
    }
  }

  /** Items that are gone shorten the pages but not the walk: what a client receives is what it would have
      received, less those items. A list that is not ready ends it, and the client takes that for the end. */
  lemma HydrationOnlyDrops(pages: seq<Page<Item>>, fillings: seq<Filling>)
    requires |pages| <= |fillings|
    ensures
      var (answers, k) := (AnsweredPages(pages, fillings), ReadyRequests(pages, fillings));
      && Delivered(answers) == FoundItems(pages, fillings, k)
      && (Finished(answers) <==> k < |pages| || Finished(pages))
  {
    AnswersDeliver(pages, fillings);
    AnswersFinish(pages, fillings);
  }

  /** As long as the list is ready and always the same items are there, the client receives just those. */
  lemma {:induction false} SteadyHydration(pages: seq<Page<Item>>, fillings: seq<Filling>, found: Item -> bool)
    requires |pages| <= |fillings| && forall i | 0 <= i < |pages| :: fillings[i] == Some(found)
    ensures Delivered(AnsweredPages(pages, fillings)) == Hydrated(Delivered(pages), found)
    decreases |pages|
  {
    if pages != [] {
      SteadyHydration(pages[1..], fillings[1..], found);
      HydratedConcat(pages[0].page, Delivered(pages[1..]), found);
    }
  }
}
