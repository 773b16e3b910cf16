/** Walking sorted lists by the key of the last item seen, for any item type and any strict order on keys. */
module SortedWalk {
  import opened Basics

  /** How many requests of `limit` items it takes to see `left` items; an empty list takes one. */
  function Requests(left: nat, limit: nat): nat
    requires limit >= 1
  {
    if left <= limit then 1 else 1 + Requests(left - limit, limit)
  }

  datatype Order<!T, !K(!new)> = Order(key: T -> K, after: (K, K) -> bool) {

    ghost predicate Strict() {
      && (forall k :: !after(k, k))
      && (forall k, c, d :: after(k, c) && after(c, d) ==> after(k, d))
    }

    predicate IsAfter(item: T, c: K) { after(key(item), c) }

    /** `findIndex` from position i: the first item after the cursor, or -1. */
    function FindAfter(items: seq<T>, cursor: K, i: nat := 0): (r: int)
      requires i <= |items|
      ensures r == -1 || i <= r < |items|
      ensures r >= 0 ==> IsAfter(items[r], cursor)
      ensures forall j {:trigger IsAfter(items[j], cursor)} | i <= j < (if r < 0 then |items| else r) ::
        !IsAfter(items[j], cursor)
      decreases |items| - i
    {
      if i == |items| then -1
      else if IsAfter(items[i], cursor) then i
      else FindAfter(items, cursor, i + 1)
    }

    ghost predicate InOrder(items: seq<T>, i: nat, j: nat)
      requires i < |items| && j < |items|
    {
      after(key(items[j]), key(items[i]))
    }

    ghost predicate Sorted(items: seq<T>) {
      forall i, j | 0 <= i < j < |items| :: InOrder(items, i, j)
    }

    ghost predicate AllAfter(items: seq<T>, cursor: Option<K>) {
      cursor.Some? ==>
        forall i {:trigger IsAfter(items[i], cursor.value)} | 0 <= i < |items| :: IsAfter(items[i], cursor.value)
    }

    ghost predicate HasKey(items: seq<T>, k: K) { exists i :: 0 <= i < |items| && key(items[i]) == k }

    /** Where the items after the cursor start; the end of the list if there are none. */
    function Start(items: seq<T>, cursor: Option<K>): (s: nat)
      ensures s <= |items|
    {
      match cursor
      case None => 0
      case Some(c) => var i := FindAfter(items, c); if i < 0 then |items| else i
    }

    /** In a sorted list the items after the cursor are exactly those from Start on. */
    lemma StartSplits(items: seq<T>, cursor: Option<K>)
      requires Strict() && Sorted(items) && cursor.Some?
      ensures forall i {:trigger IsAfter(items[i], cursor.value)} | 0 <= i < |items| ::
        IsAfter(items[i], cursor.value) <==> Start(items, cursor) <= i
    {
      var s := Start(items, cursor);
      forall i | s < i < |items|
        ensures IsAfter(items[i], cursor.value)
      {
        assert InOrder(items, s, i);
      }
    }

    /** What a client receives that asks for `limit` items after the last key it has seen,
        request n reading `lists[n]`, until a list has no more items. */
    ghost function Received(lists: seq<seq<T>>, cursor: Option<K>, limit: nat): seq<T>
      requires limit >= 1
    {
      if lists == [] then []
      else
        var items, s := lists[0], Start(lists[0], cursor);
        if s + limit >= |items| then items[s..]
        else items[s..s + limit] + Received(lists[1..], Some(key(items[s + limit - 1])), limit)
    }

    /** Whether some request finds no more items. */
    ghost predicate Ends(lists: seq<seq<T>>, cursor: Option<K>, limit: nat)
      requires limit >= 1
    {
      lists != [] &&
      var items, s := lists[0], Start(lists[0], cursor);
      s + limit >= |items| || Ends(lists[1..], Some(key(items[s + limit - 1])), limit)
    }

    ghost predicate AllSorted(lists: seq<seq<T>>) { forall n | 0 <= n < |lists| :: Sorted(lists[n]) }

    lemma SortedAppend(xs: seq<T>, ys: seq<T>)
      requires Strict() && Sorted(xs) && Sorted(ys) && xs != []
      requires AllAfter(ys, Some(key(xs[|xs| - 1])))
      ensures Sorted(xs + ys)
    {
      var c := key(xs[|xs| - 1]);
      var zs := xs + ys;
      forall i, j | 0 <= i < j < |zs|
        ensures InOrder(zs, i, j)
      {
        if j < |xs| {
          assert InOrder(xs, i, j);
        } else if i >= |xs| {
          assert InOrder(ys, i - |xs|, j - |xs|);
        } else {
          assert IsAfter(ys[j - |xs|], c);
          assert i < |xs| - 1 ==> InOrder(xs, i, |xs| - 1);
        }
      }
    }

    lemma SortedSlice(items: seq<T>, i: nat, j: nat)
      requires Sorted(items) && i <= j <= |items|
      ensures Sorted(items[i..j])
    {
      forall m, n | 0 <= m < n < |items[i..j]|
        ensures InOrder(items[i..j], m, n)
      {
        assert InOrder(items, i + m, i + n);
      }
    }

    lemma SuffixIsAfter(items: seq<T>, cursor: Option<K>)
      requires Strict() && Sorted(items)
      ensures AllAfter(items[Start(items, cursor)..], cursor)
    {
      if cursor.Some? {
        StartSplits(items, cursor);
        var s := Start(items, cursor);
        forall i | 0 <= i < |items[s..]|
          ensures IsAfter(items[s..][i], cursor.value)
        {
          assert IsAfter(items[s + i], cursor.value);
        }
      }
    }

    lemma AllAfterAppend(xs: seq<T>, ys: seq<T>, cursor: Option<K>)
      requires Strict() && xs != [] && AllAfter(xs, cursor) && AllAfter(ys, Some(key(xs[|xs| - 1])))
      ensures AllAfter(xs + ys, cursor)
    {
      if cursor.Some? {
        var zs := xs + ys;
        assert IsAfter(xs[|xs| - 1], cursor.value);
        forall i | 0 <= i < |zs|
          ensures IsAfter(zs[i], cursor.value)
        {
          if i < |xs| {
            assert IsAfter(xs[i], cursor.value);
          } else {
            assert IsAfter(ys[i - |xs|], key(xs[|xs| - 1]));
          }
        }
      }
    }

    lemma AllAfterPrefix(items: seq<T>, n: nat, cursor: Option<K>)
      requires AllAfter(items, cursor) && n <= |items|
      ensures AllAfter(items[..n], cursor)
    {
      if cursor.Some? {
        forall i | 0 <= i < n
          ensures IsAfter(items[..n][i], cursor.value)
        {
          assert IsAfter(items[i], cursor.value);
        }
      }
    }

    lemma LastPageIsSorted(items: seq<T>, cursor: Option<K>, got: seq<T>)
      requires Strict() && Sorted(items) && got == items[Start(items, cursor)..]
      ensures Sorted(got) && AllAfter(got, cursor)
    {
      var s := Start(items, cursor);
      SuffixIsAfter(items, cursor);
      SortedSlice(items, s, |items|);
      assert items[s..|items|] == items[s..];
    }

    lemma PageIsSorted(items: seq<T>, cursor: Option<K>, limit: nat)
      requires Strict() && Sorted(items) && Start(items, cursor) + limit <= |items|
      ensures
        var page := items[Start(items, cursor)..Start(items, cursor) + limit];
        Sorted(page) && AllAfter(page, cursor)
    {
      var s := Start(items, cursor);
      SortedSlice(items, s, s + limit);
      SuffixIsAfter(items, cursor);
      AllAfterPrefix(items[s..], limit, cursor);
      assert items[s..][..limit] == items[s..s + limit];
    }

    lemma PageThenRestIsSorted(items: seq<T>, cursor: Option<K>, limit: nat, rest: seq<T>, got: seq<T>)
      requires Strict() && Sorted(items) && limit >= 1 && Start(items, cursor) + limit <= |items|
      requires Sorted(rest) && AllAfter(rest, Some(key(items[Start(items, cursor) + limit - 1])))
      requires got == items[Start(items, cursor)..Start(items, cursor) + limit] + rest
      ensures Sorted(got) && AllAfter(got, cursor)
    {
      var page := items[Start(items, cursor)..Start(items, cursor) + limit];
      PageIsSorted(items, cursor, limit);
      SortedAppend(page, rest);
      AllAfterAppend(page, rest, cursor);
    }

    lemma FirstPageIsSorted(lists: seq<seq<T>>, cursor: Option<K>, limit: nat)
      requires Strict() && lists != [] && Sorted(lists[0]) && limit >= 1
      requires
        var (items, s) := (lists[0], Start(lists[0], cursor));
        s + limit < |items| ==>
          var rest := Received(lists[1..], Some(key(items[s + limit - 1])), limit);
          Sorted(rest) && AllAfter(rest, Some(key(items[s + limit - 1])))
      ensures Sorted(Received(lists, cursor, limit)) && AllAfter(Received(lists, cursor, limit), cursor)
    {
      var (items, s, got) := (lists[0], Start(lists[0], cursor), Received(lists, cursor, limit));
      if s + limit < |items| {
        var rest := Received(lists[1..], Some(key(items[s + limit - 1])), limit);
        PageThenRestIsSorted(items, cursor, limit, rest, got);
      } else {
        LastPageIsSorted(items, cursor, got);
      }
    }

    lemma RestIsSorted(lists: seq<seq<T>>)
      requires lists != [] && AllSorted(lists)
      ensures Sorted(lists[0]) && AllSorted(lists[1..])
    {}

    /** Nothing is repeated or out of order, whatever list each request reads. */
    lemma {:induction false} ReceivedIsSorted(lists: seq<seq<T>>, cursor: Option<K>, limit: nat)
      requires Strict() && AllSorted(lists) && limit >= 1
      ensures Sorted(Received(lists, cursor, limit)) && AllAfter(Received(lists, cursor, limit), cursor)
      decreases |lists|
    {
      if lists != [] {
        var items, s := lists[0], Start(lists[0], cursor);
        RestIsSorted(lists);
        if s + limit < |items| {
          ReceivedIsSorted(lists[1..], Some(key(items[s + limit - 1])), limit);
        }
        FirstPageIsSorted(lists, cursor, limit);
      }
    }

    lemma HasKeyInConcat(xs: seq<T>, ys: seq<T>, k: K)
      requires HasKey(xs, k) || HasKey(ys, k)
      ensures HasKey(xs + ys, k)
    {
      if HasKey(xs, k) {
        var i :| 0 <= i < |xs| && key(xs[i]) == k;
        assert (xs + ys)[i] == xs[i];
      } else {
        var i :| 0 <= i < |ys| && key(ys[i]) == k;
        assert (xs + ys)[|xs| + i] == ys[i];
      }
    }

    lemma HasKeyInSlice(items: seq<T>, i: nat, lo: nat, hi: nat)
      requires lo <= i < hi <= |items|
      ensures HasKey(items[lo..hi], key(items[i]))
    {
      assert items[lo..hi][i - lo] == items[i];
    }

    /** Where an item after the cursor stands: in the page, or after the key the page ends with. */
    lemma InPageOrAfter(items: seq<T>, cursor: Option<K>, limit: nat, k: K)
      requires Strict() && Sorted(items) && limit >= 1 && HasKey(items, k)
      requires cursor.Some? ==> after(k, cursor.value)
      ensures
        var s := Start(items, cursor);
        if s + limit < |items| then
          HasKey(items[s..s + limit], k) || after(k, key(items[s + limit - 1]))
        else HasKey(items[s..], k)
    {
      var s := Start(items, cursor);
      var i :| 0 <= i < |items| && key(items[i]) == k;
      if cursor.Some? {
        StartSplits(items, cursor);
        assert IsAfter(items[i], cursor.value);
      }
      if s + limit >= |items| {
        HasKeyInSlice(items, i, s, |items|);
        assert items[s..|items|] == items[s..];
      } else if i < s + limit {
        HasKeyInSlice(items, i, s, s + limit);
      } else {
        assert InOrder(items, s + limit - 1, i);
      }
    }

    /** A key that every list read holds, and that comes after the first cursor, is received by the end. */
    lemma {:induction false} ReceivedHasStableKey(lists: seq<seq<T>>, cursor: Option<K>, limit: nat, k: K)
      requires Strict() && AllSorted(lists) && limit >= 1 && Ends(lists, cursor, limit)
      requires forall n | 0 <= n < |lists| :: HasKey(lists[n], k)
      requires cursor.Some? ==> after(k, cursor.value)
      ensures HasKey(Received(lists, cursor, limit), k)
      decreases |lists|
    {
      var items, s := lists[0], Start(lists[0], cursor);
      InPageOrAfter(items, cursor, limit, k);
      if s + limit < |items| {
        var c := key(items[s + limit - 1]);
        if !HasKey(items[s..s + limit], k) {
          ReceivedHasStableKey(lists[1..], Some(c), limit, k);
        }
        HasKeyInConcat(items[s..s + limit], Received(lists[1..], Some(c), limit), k);
      }
    }

    // ---- an entity whose key changes between the lists

    /** The items of the list that are `mine` have the key k. */
    ghost predicate OneKey(items: seq<T>, mine: T -> bool, k: K) {
      forall i | 0 <= i < |items| && mine(items[i]) :: key(items[i]) == k
    }

    ghost predicate KeysAre(lists: seq<seq<T>>, mine: T -> bool, ks: seq<K>) {
      |ks| == |lists| && forall n | 0 <= n < |lists| :: OneKey(lists[n], mine, ks[n])
    }

    ghost predicate Has(items: seq<T>, mine: T -> bool) { exists i :: 0 <= i < |items| && mine(items[i]) }

    ghost predicate Later(ks: seq<K>, m: nat, n: nat)
      requires m < |ks| && n < |ks|
    {
      after(ks[n], ks[m])
    }

    /** From one list to a later one the key never moves back, that is, later in the order. */
    ghost predicate NeverLater(ks: seq<K>) { forall m, n | 0 <= m < n < |ks| :: !Later(ks, m, n) }

    ghost predicate NeverEarlier(ks: seq<K>) { forall m, n | 0 <= m < n < |ks| :: ks[m] == ks[n] || Later(ks, m, n) }

    function Times(items: seq<T>, mine: T -> bool): nat {
      if items == [] then 0 else (if mine(items[0]) then 1 else 0) + Times(items[1..], mine)
    }

    lemma {:induction false} TimesConcat(xs: seq<T>, ys: seq<T>, mine: T -> bool)
      ensures Times(xs + ys, mine) == Times(xs, mine) + Times(ys, mine)
    {
      if xs == [] {
        assert xs + ys == ys;
      } else {
        TimesConcat(xs[1..], ys, mine);
        assert (xs + ys)[1..] == xs[1..] + ys;
      }
    }

    lemma {:induction false} TimesZeroIff(items: seq<T>, mine: T -> bool)
      ensures Times(items, mine) == 0 <==> !Has(items, mine)
    {
      if items != [] {
        TimesZeroIff(items[1..], mine);
        if Has(items[1..], mine) {
          var i :| 0 <= i < |items[1..]| && mine(items[1..][i]);
          assert mine(items[i + 1]);
        }
        if Has(items, mine) && !mine(items[0]) {
          var i :| 0 <= i < |items| && mine(items[i]);
          assert mine(items[1..][i - 1]);
        }
      }
    }

    lemma OneKeySlice(items: seq<T>, mine: T -> bool, k: K, lo: nat, hi: nat)
      requires OneKey(items, mine, k) && lo <= hi <= |items|
      ensures OneKey(items[lo..hi], mine, k)
    {
      forall i | 0 <= i < hi - lo && mine(items[lo..hi][i])
        ensures key(items[lo..hi][i]) == k
      {
        assert items[lo..hi][i] == items[lo + i];
      }
    }

    /** In one sorted list an entity with one key stands at most once. */
    lemma {:induction false} OnceInList(items: seq<T>, mine: T -> bool, k: K)
      requires Strict() && Sorted(items) && OneKey(items, mine, k)
      ensures Times(items, mine) <= 1
    {
      if items != [] {
        SortedSlice(items, 1, |items|);
        OneKeySlice(items, mine, k, 1, |items|);
        assert items[1..|items|] == items[1..];
        OnceInList(items[1..], mine, k);
        forall i | 0 <= i < |items[1..]| && mine(items[0])
          ensures !mine(items[1..][i])
        {
          assert InOrder(items, 0, i + 1);
        }
        TimesZeroIff(items[1..], mine);
      }
    }

    ghost predicate IsOneOf(k: K, ks: seq<K>) { exists n :: 0 <= n < |ks| && k == ks[n] }

    ghost predicate HasOneOf(got: seq<T>, mine: T -> bool, ks: seq<K>) {
      forall i | 0 <= i < |got| && mine(got[i]) :: IsOneOf(key(got[i]), ks)
    }

    lemma HasOneOfConcat(xs: seq<T>, ys: seq<T>, mine: T -> bool, ks: seq<K>, got: seq<T>)
      requires ks != [] && OneKey(xs, mine, ks[0]) && HasOneOf(ys, mine, ks[1..]) && got == xs + ys
      ensures HasOneOf(got, mine, ks)
    {
      forall i | 0 <= i < |got| && mine(got[i])
        ensures IsOneOf(key(got[i]), ks)
      {
        if i < |xs| {
          assert mine(xs[i]) && key(xs[i]) == ks[0];
        } else {
          assert IsOneOf(key(ys[i - |xs|]), ks[1..]);
          var n :| 0 <= n < |ks[1..]| && key(ys[i - |xs|]) == ks[1..][n];
          assert ks[n + 1] == ks[1..][n];
        }
      }
    }

    /** An entity that is received has one of its keys. */
    lemma {:induction false} ReceivedKeys(lists: seq<seq<T>>, cursor: Option<K>, limit: nat, mine: T -> bool,
                                          ks: seq<K>)
      requires limit >= 1 && KeysAre(lists, mine, ks)
      ensures HasOneOf(Received(lists, cursor, limit), mine, ks)
      decreases |lists|
    {
      if lists != [] {
        var (items, s) := (lists[0], Start(lists[0], cursor));
        LaterKeys(lists, mine, ks);
        if s + limit < |items| {
          var c := Some(key(items[s + limit - 1]));
          OneKeySlice(items, mine, ks[0], s, s + limit);
          ReceivedKeys(lists[1..], c, limit, mine, ks[1..]);
          HasOneOfConcat(items[s..s + limit], Received(lists[1..], c, limit), mine, ks, Received(lists, cursor, limit));
        } else {
          OneKeySlice(items, mine, ks[0], s, |items|);
          HasOneOfConcat(items[s..|items|], [], mine, ks, Received(lists, cursor, limit));
        }
      }
    }

    lemma NotAfterBoth(x: K, c: K, k: K)
      requires Strict() && (c == k || after(c, k)) && !after(x, k)
      ensures !after(x, c)
    {}

    /** Past a key that none of its later keys comes after, an entity is not received. */
    lemma NotReceivedAgain(lists: seq<seq<T>>, c: K, limit: nat, mine: T -> bool, ks: seq<K>, k: K)
      requires Strict() && AllSorted(lists) && limit >= 1 && KeysAre(lists, mine, ks)
      requires c == k || after(c, k)
      requires forall n | 0 <= n < |ks| :: !after(ks[n], k)
      ensures !Has(Received(lists, Some(c), limit), mine)
    {
      var got := Received(lists, Some(c), limit);
      ReceivedIsSorted(lists, Some(c), limit);
      ReceivedKeys(lists, Some(c), limit, mine, ks);
      forall n | 0 <= n < |ks|
        ensures !after(ks[n], c)
      {
        NotAfterBoth(ks[n], c, k);
      }
      NoneAfterIsNone(got, c, mine, ks);
    }

    lemma NoneAfterIsNone(got: seq<T>, c: K, mine: T -> bool, ks: seq<K>)
      requires AllAfter(got, Some(c)) && HasOneOf(got, mine, ks) && forall n | 0 <= n < |ks| :: !after(ks[n], c)
      ensures !Has(got, mine)
    {
      forall i | 0 <= i < |got|
        ensures !mine(got[i])
      {
        assert IsAfter(got[i], c);
        assert !IsOneOf(key(got[i]), ks);
      }
    }

    lemma LaterKeys(lists: seq<seq<T>>, mine: T -> bool, ks: seq<K>)
      requires lists != [] && KeysAre(lists, mine, ks)
      ensures OneKey(lists[0], mine, ks[0]) && KeysAre(lists[1..], mine, ks[1..])
      ensures NeverLater(ks) ==> NeverLater(ks[1..]) && forall n | 0 <= n < |ks[1..]| :: !after(ks[1..][n], ks[0])
      ensures NeverEarlier(ks) ==>
        NeverEarlier(ks[1..]) && (|ks| > 1 ==> ks[1..][0] == ks[0] || after(ks[1..][0], ks[0]))
    {
      var rest := ks[1..];
      forall n | 0 <= n < |rest|
        ensures OneKey(lists[1..][n], mine, rest[n])
      {
        assert OneKey(lists[n + 1], mine, ks[n + 1]);
      }
      forall n | 0 <= n < |rest| && NeverLater(ks)
        ensures !after(rest[n], ks[0])
      {
        assert !Later(ks, 0, n + 1);
      }
      forall m, n | 0 <= m < n < |rest| && NeverLater(ks)
        ensures !Later(rest, m, n)
      {
        assert !Later(ks, m + 1, n + 1);
      }
      forall m, n | 0 <= m < n < |rest| && NeverEarlier(ks)
        ensures rest[m] == rest[n] || Later(rest, m, n)
      {
        assert ks[m + 1] == ks[n + 1] || Later(ks, m + 1, n + 1);
      }
      assert |ks| > 1 && NeverEarlier(ks) ==> ks[0] == ks[1] || Later(ks, 0, 1);
    }

    /** The key of an item in a sorted page is that of the last one, or the last one comes after it. */
    lemma LastIsNotBefore(items: seq<T>, lo: nat, hi: nat, i: nat)
      requires Sorted(items) && lo <= i < hi <= |items|
      ensures key(items[hi - 1]) == key(items[i]) || after(key(items[hi - 1]), key(items[i]))
    {
      if i < hi - 1 {
        assert InOrder(items, i, hi - 1);
      }
    }

    /** A page that shows an entity ends with its key or with a later one. */
    lemma PageShowsKey(items: seq<T>, s: nat, limit: nat, mine: T -> bool, k: K)
      requires Sorted(items) && OneKey(items, mine, k) && s + limit <= |items| && Has(items[s..s + limit], mine)
      ensures key(items[s + limit - 1]) == k || after(key(items[s + limit - 1]), k)
    {
      var i :| 0 <= i < limit && mine(items[s..s + limit][i]);
      assert items[s..s + limit][i] == items[s + i];
      LastIsNotBefore(items, s, s + limit, s + i);
    }

    /** After a page that shows an entity, an entity that never moves later is not received. */
    lemma PageEndsIt(lists: seq<seq<T>>, s: nat, limit: nat, mine: T -> bool, ks: seq<K>)
      requires Strict() && lists != [] && AllSorted(lists) && limit >= 1 && KeysAre(lists, mine, ks) && NeverLater(ks)
      requires s + limit < |lists[0]| && Has(lists[0][s..s + limit], mine)
      ensures !Has(RestReceived(lists, s, limit), mine)
    {
      var c := key(lists[0][s + limit - 1]);
      RestIsSorted(lists);
      LaterKeys(lists, mine, ks);
      PageShowsKey(lists[0], s, limit, mine, ks[0]);
      NotReceivedAgain(lists[1..], c, limit, mine, ks[1..], ks[0]);
    }

    lemma LastPageOnce(items: seq<T>, mine: T -> bool, k: K, s: nat, got: seq<T>)
      requires Strict() && Sorted(items) && OneKey(items, mine, k) && s <= |items| && got == items[s..]
      ensures Times(got, mine) <= 1
    {
      PageOnce(items, mine, k, s, |items|);
      assert items[s..|items|] == items[s..];
    }

    lemma PageThenRestOnce(items: seq<T>, mine: T -> bool, k: K, s: nat, hi: nat, rest: seq<T>, got: seq<T>)
      requires Strict() && Sorted(items) && OneKey(items, mine, k) && s <= hi <= |items| && got == items[s..hi] + rest
      requires Times(rest, mine) <= 1 && (Has(items[s..hi], mine) ==> !Has(rest, mine))
      ensures Times(got, mine) <= 1
    {
      PageOnce(items, mine, k, s, hi);
      OnceInBoth(items[s..hi], rest, mine);
    }

    lemma RestNeverLater(lists: seq<seq<T>>, mine: T -> bool, ks: seq<K>)
      requires lists != [] && AllSorted(lists) && KeysAre(lists, mine, ks) && NeverLater(ks)
      ensures Sorted(lists[0]) && AllSorted(lists[1..]) && OneKey(lists[0], mine, ks[0])
      ensures KeysAre(lists[1..], mine, ks[1..]) && NeverLater(ks[1..])
    {
      RestIsSorted(lists);
      LaterKeys(lists, mine, ks);
    }

    /** The received items are one page and, if there are more items, the rest. */
    ghost predicate IsPageThenRest(items: seq<T>, s: nat, limit: nat, rest: seq<T>, got: seq<T>) {
      s <= |items| && got == if s + limit < |items| then items[s..s + limit] + rest else items[s..]
    }

    ghost function RestReceived(lists: seq<seq<T>>, s: nat, limit: nat): seq<T>
      requires lists != [] && limit >= 1
    {
      if s + limit < |lists[0]| then Received(lists[1..], Some(key(lists[0][s + limit - 1])), limit) else []
    }

    lemma ReceivedIsPageThenRest(lists: seq<seq<T>>, cursor: Option<K>, limit: nat)
      requires lists != [] && limit >= 1
      ensures
        var s := Start(lists[0], cursor);
        IsPageThenRest(lists[0], s, limit, RestReceived(lists, s, limit), Received(lists, cursor, limit))
    {}

    lemma FirstPageOnce(items: seq<T>, s: nat, limit: nat, mine: T -> bool, k: K, rest: seq<T>, got: seq<T>)
      requires Strict() && Sorted(items) && OneKey(items, mine, k) && IsPageThenRest(items, s, limit, rest, got)
      requires s + limit < |items| ==> Times(rest, mine) <= 1 && (Has(items[s..s + limit], mine) ==> !Has(rest, mine))
      ensures Times(got, mine) <= 1
    {
      if s + limit < |items| {
        PageThenRestOnce(items, mine, k, s, s + limit, rest, got);
      } else {
        LastPageOnce(items, mine, k, s, got);
      }
    }

    /** An entity whose key never moves later is received at most once, whatever else changes. */
    lemma {:induction false} ReceivedAtMostOnce(lists: seq<seq<T>>, cursor: Option<K>, limit: nat, mine: T -> bool,
                                                ks: seq<K>)
      requires Strict() && AllSorted(lists) && limit >= 1 && KeysAre(lists, mine, ks) && NeverLater(ks)
      ensures Times(Received(lists, cursor, limit), mine) <= 1
      decreases |lists|
    {
      if lists != [] {
        var (items, s) := (lists[0], Start(lists[0], cursor));
        RestNeverLater(lists, mine, ks);
        if s + limit < |items| {
          ReceivedAtMostOnce(lists[1..], Some(key(items[s + limit - 1])), limit, mine, ks[1..]);
        }
        if s + limit < |items| && Has(items[s..s + limit], mine) {
          PageEndsIt(lists, s, limit, mine, ks);
        }
        ReceivedIsPageThenRest(lists, cursor, limit);
        FirstPageOnce(items, s, limit, mine, ks[0], RestReceived(lists, s, limit), Received(lists, cursor, limit));
      }
    }

    lemma OnceInBoth(page: seq<T>, rest: seq<T>, mine: T -> bool)
      requires Times(page, mine) <= 1 && Times(rest, mine) <= 1 && (Has(page, mine) ==> !Has(rest, mine))
      ensures Times(page + rest, mine) <= 1
    {
      TimesConcat(page, rest, mine);
      TimesZeroIff(page, mine);
      TimesZeroIff(rest, mine);
    }

    lemma PageOnce(items: seq<T>, mine: T -> bool, k: K, lo: nat, hi: nat)
      requires Strict() && Sorted(items) && OneKey(items, mine, k) && lo <= hi <= |items|
      ensures Times(items[lo..hi], mine) <= 1
    {
      SortedSlice(items, lo, hi);
      OneKeySlice(items, mine, k, lo, hi);
      OnceInList(items[lo..hi], mine, k);
    }

    lemma HasInConcat(xs: seq<T>, ys: seq<T>, mine: T -> bool, got: seq<T>)
      requires (Has(xs, mine) || Has(ys, mine)) && got == xs + ys
      ensures Has(got, mine)
    {
      TimesZeroIff(xs, mine);
      TimesZeroIff(ys, mine);
      TimesZeroIff(got, mine);
      TimesConcat(xs, ys, mine);
    }

    /** Where an entity after the cursor stands: in the page, or its key comes after the one the page ends with. */
    lemma MineInPageOrAfter(items: seq<T>, cursor: Option<K>, limit: nat, mine: T -> bool, k: K)
      requires Strict() && Sorted(items) && limit >= 1 && OneKey(items, mine, k) && Has(items, mine)
      requires cursor.Some? ==> after(k, cursor.value)
      ensures
        var s := Start(items, cursor);
        if s + limit < |items| then Has(items[s..s + limit], mine) || after(k, key(items[s + limit - 1]))
        else Has(items[s..], mine)
    {
      var s := Start(items, cursor);
      var i :| 0 <= i < |items| && mine(items[i]);
      if cursor.Some? {
        StartSplits(items, cursor);
        assert IsAfter(items[i], cursor.value);
      }
      if s + limit >= |items| {
        assert items[s..][i - s] == items[i];
      } else if i < s + limit {
        assert items[s..s + limit][i - s] == items[i];
      } else {
        assert InOrder(items, s + limit - 1, i);
      }
    }

    ghost predicate AllHave(lists: seq<seq<T>>, mine: T -> bool) {
      forall n | 0 <= n < |lists| :: Has(lists[n], mine)
    }

    lemma RestNeverEarlier(lists: seq<seq<T>>, mine: T -> bool, ks: seq<K>)
      requires lists != [] && AllSorted(lists) && KeysAre(lists, mine, ks) && NeverEarlier(ks) && AllHave(lists, mine)
      ensures Sorted(lists[0]) && AllSorted(lists[1..]) && OneKey(lists[0], mine, ks[0]) && Has(lists[0], mine)
      ensures KeysAre(lists[1..], mine, ks[1..]) && NeverEarlier(ks[1..]) && AllHave(lists[1..], mine)
      ensures |ks| > 1 ==> ks[1..][0] == ks[0] || after(ks[1..][0], ks[0])
    {
      RestIsSorted(lists);
      LaterKeys(lists, mine, ks);
    }

    lemma FirstPageHas(items: seq<T>, s: nat, limit: nat, mine: T -> bool, rest: seq<T>, got: seq<T>)
      requires IsPageThenRest(items, s, limit, rest, got)
      requires
        if s + limit < |items| then Has(items[s..s + limit], mine) || Has(rest, mine) else Has(items[s..], mine)
      ensures Has(got, mine)
    {
      if s + limit < |items| {
        HasInConcat(items[s..s + limit], rest, mine, got);
      }
    }

    /** An entity that every list read holds, and whose key never moves earlier, is received by the end. */
    lemma {:induction false} ReceivedAtLeastOnce(lists: seq<seq<T>>, cursor: Option<K>, limit: nat, mine: T -> bool,
                                                 ks: seq<K>)
      requires Strict() && AllSorted(lists) && limit >= 1 && Ends(lists, cursor, limit)
      requires KeysAre(lists, mine, ks) && NeverEarlier(ks) && AllHave(lists, mine)
      requires cursor.Some? ==> after(ks[0], cursor.value)
      ensures Has(Received(lists, cursor, limit), mine)
      decreases |lists|
    {
      var (items, s) := (lists[0], Start(lists[0], cursor));
      RestNeverEarlier(lists, mine, ks);
      MineInPageOrAfter(items, cursor, limit, mine, ks[0]);
      if s + limit < |items| && !Has(items[s..s + limit], mine) {
        ReceivedAtLeastOnce(lists[1..], Some(key(items[s + limit - 1])), limit, mine, ks[1..]);
      }
      ReceivedIsPageThenRest(lists, cursor, limit);
      FirstPageHas(items, s, limit, mine, RestReceived(lists, s, limit), Received(lists, cursor, limit));
    }

    /** The page after the one ending in item i starts at item i + 1. */
    lemma StartAfterItem(items: seq<T>, i: nat)
      requires Strict() && Sorted(items) && i < |items|
      ensures Start(items, Some(key(items[i]))) == i + 1
    {
      var c := key(items[i]);
      StartSplits(items, Some(c));
      assert IsAfter(items[i], c) <==> Start(items, Some(c)) <= i;
      if i + 1 < |items| {
        assert InOrder(items, i, i + 1);
        assert IsAfter(items[i + 1], c) <==> Start(items, Some(c)) <= i + 1;
      }
    }

    /** Every request finds the list unchanged. */
    ghost predicate Fixed(lists: seq<seq<T>>, items: seq<T>) { forall n | 0 <= n < |lists| :: lists[n] == items }

    /** After one page of an unchanged list: what is left of it, and the requests it takes. */
    lemma AfterPage(lists: seq<seq<T>>, items: seq<T>, cursor: Option<K>, limit: nat)
      requires Strict() && Sorted(items) && limit >= 1 && Fixed(lists, items)
      requires |lists| >= Requests(|items| - Start(items, cursor), limit)
      ensures lists != [] && lists[0] == items && Fixed(lists[1..], items)
      ensures
        var s := Start(items, cursor);
        s + limit < |items| ==>
          var c := Some(key(items[s + limit - 1]));
          Start(items, c) == s + limit && |lists| - 1 >= Requests(|items| - (s + limit), limit)
    {
      var s := Start(items, cursor);
      assert lists[0] == items;
      if s + limit < |items| {
        StartAfterItem(items, s + limit - 1);
      }
    }

    lemma FixedListEndsInTime(lists: seq<seq<T>>, items: seq<T>, limit: nat)
      requires Strict() && Sorted(items) && limit >= 1 && Fixed(lists, items)
      requires |lists| >= Requests(|items|, limit)
      ensures Ends(lists, None, limit)
    {
      assert Start(items, None) == 0;
      FixedListEnds(lists, items, None, limit);
    }

    lemma {:induction false} FixedListEnds(lists: seq<seq<T>>, items: seq<T>, cursor: Option<K>, limit: nat)
      requires Strict() && Sorted(items) && limit >= 1 && Fixed(lists, items)
      requires |lists| >= Requests(|items| - Start(items, cursor), limit)
      ensures Ends(lists, cursor, limit)
      decreases |lists|
    {
      var s := Start(items, cursor);
      AfterPage(lists, items, cursor, limit);
      if s + limit < |items| {
        FixedListEnds(lists[1..], items, Some(key(items[s + limit - 1])), limit);
      }
    }

    lemma FirstPageOfFixed(lists: seq<seq<T>>, items: seq<T>, cursor: Option<K>, limit: nat)
      requires lists != [] && lists[0] == items && limit >= 1
      requires
        var s := Start(items, cursor);
        s + limit < |items| ==>
          Received(lists[1..], Some(key(items[s + limit - 1])), limit) == items[s + limit..]
      ensures Received(lists, cursor, limit) == items[Start(items, cursor)..]
    {
      var s := Start(items, cursor);
      if s + limit < |items| {
        var rest := Received(lists[1..], Some(key(items[s + limit - 1])), limit);
        PageThenSuffix(items, s, limit, rest, Received(lists, cursor, limit));
      }
    }

    lemma {:induction false} ReceivedFixedList(lists: seq<seq<T>>, items: seq<T>, cursor: Option<K>, limit: nat)
      requires Strict() && Sorted(items) && limit >= 1 && Fixed(lists, items)
      requires |lists| >= Requests(|items| - Start(items, cursor), limit)
      ensures Received(lists, cursor, limit) == items[Start(items, cursor)..]
      decreases |lists|
    {
      var s := Start(items, cursor);
      AfterPage(lists, items, cursor, limit);
      if s + limit < |items| {
        ReceivedFixedList(lists[1..], items, Some(key(items[s + limit - 1])), limit);
      }
      FirstPageOfFixed(lists, items, cursor, limit);
    }

    lemma ReceivedWholeList(lists: seq<seq<T>>, items: seq<T>, limit: nat)
      requires Strict() && Sorted(items) && limit >= 1 && Fixed(lists, items) && |lists| >= Requests(|items|, limit)
      ensures Received(lists, None, limit) == items
    {
      ReceivedFixedList(lists, items, None, limit);
      assert items[0..] == items;
    }

    lemma PageThenSuffix(items: seq<T>, s: nat, limit: nat, rest: seq<T>, got: seq<T>)
      requires s + limit <= |items| && rest == items[s + limit..] && got == items[s..s + limit] + rest
      ensures got == items[s..]
    {}

    ghost function Occurrences(items: seq<T>, k: K): nat {
      if items == [] then 0 else (if key(items[0]) == k then 1 else 0) + Occurrences(items[1..], k)
    }

    lemma {:induction false} OccursOnce(items: seq<T>, k: K)
      requires Strict() && Sorted(items)
      ensures Occurrences(items, k) == if HasKey(items, k) then 1 else 0
    {
      if items != [] {
        SortedSlice(items, 1, |items|);
        assert items[1..|items|] == items[1..];
        OccursOnce(items[1..], k);
        if HasKey(items, k) && key(items[0]) != k {
          var i :| 0 <= i < |items| && key(items[i]) == k;
          assert key(items[1..][i - 1]) == k;
        }
        forall i | 0 <= i < |items[1..]|
          ensures key(items[1..][i]) != key(items[0])
        {
          assert InOrder(items, 0, i + 1);
        }
      }
    }
  }

  datatype Page<T> = Page(page: seq<T>, nextCursor: Option<string>, hasMore: bool)

  function Delivered<T>(pages: seq<Page<T>>): seq<T> {
    if pages == [] then [] else pages[0].page + Delivered(pages[1..])
  }

  ghost predicate Finished<T>(pages: seq<Page<T>>) { pages != [] && !pages[|pages| - 1].hasMore }

  lemma DeliveredCons<T>(p: Page<T>, rest: seq<Page<T>>)
    ensures Delivered([p] + rest) == p.page + Delivered(rest)
    ensures Finished([p] + rest) <==> if rest == [] then !p.hasMore else Finished(rest)
  {
    assert ([p] + rest)[1..] == rest;
  }

  /** Pagination with opaque cursor texts. */
  datatype Pager<!T, !K(!new)> = Pager(order: Order<T, K>, encode: K -> string, decode: string -> Option<K>) {

    function PageFrom(items: seq<T>, start: nat, limit: nat): Page<T>
      requires start <= |items|
    {
      var hasMore := start + limit < |items|;
      var page := items[start..if hasMore then start + limit else |items|];
      Page(page, if hasMore && page != [] then Some(encode(order.key(page[|page| - 1]))) else None, hasMore)
    }

    function Paginate(items: seq<T>, cursor: Option<K>, limit: nat): Page<T> {
      match cursor
      case None => PageFrom(items, 0, limit)
      case Some(c) =>
        var start := order.FindAfter(items, c);
        if start < 0 then Page([], None, false) else PageFrom(items, start, limit)
    }

    /** The page made of rows that were read with one more than `limit`, the extra one only as a look-ahead. */
    function LookAheadPage(selected: seq<T>, limit: nat): Page<T>
      requires limit >= 1
    {
      var taken := if limit + 1 < |selected| then selected[..limit + 1] else selected;
      if taken == [] then Page([], None, false)
      else
        var hasMore := |taken| > limit;
        var page := if hasMore then taken[..limit] else taken;
        Page(page, if hasMore then Some(encode(order.key(page[|page| - 1]))) else None, hasMore)
    }

    /** Looking ahead over the items from s on gives the page from s. */
    lemma LookAheadOfSuffix(items: seq<T>, s: nat, limit: nat)
      requires s <= |items| && limit >= 1
      ensures LookAheadPage(items[s..], limit) == PageFrom(items, s, limit)
    {
      if s + limit < |items| {
        LookAheadTakes(items, s, limit);
      }
    }

    lemma LookAheadTakes(items: seq<T>, s: nat, limit: nat)
      requires s + limit < |items|
      ensures
        var selected := items[s..];
        var taken := if limit + 1 < |selected| then selected[..limit + 1] else selected;
        |taken| == limit + 1 && taken[..limit] == items[s..s + limit]
    {}

    /** The client asks for pages until there is no next cursor; request n reads `lists[n]`.
        A cursor the server cannot decode ends the walk with an error response. */
    function Walk(lists: seq<seq<T>>, cursor: Option<K>, limit: nat): seq<Page<T>>
    {
      if lists == [] then []
      else
        var p := Paginate(lists[0], cursor, limit);
        if p.nextCursor.None? then [p]
        else match decode(p.nextCursor.value)
          case None => [p]
          case Some(c) => [p] + Walk(lists[1..], Some(c), limit)
    }

    /** A strictly sorted list whose keys survive the cursor text. */
    ghost predicate Served(items: seq<T>) {
      && order.Sorted(items)
      && forall i | 0 <= i < |items| :: Survives(items, i)
    }

    ghost predicate Survives(items: seq<T>, i: nat)
      requires i < |items|
    {
      decode(encode(order.key(items[i]))) == Some(order.key(items[i]))
    }

    ghost predicate AllServed(lists: seq<seq<T>>) { forall n | 0 <= n < |lists| :: Served(lists[n]) }

    /** A page starts right after the cursor; with nothing after it, that is the end of the list. */
    lemma PaginateFromStart(items: seq<T>, cursor: Option<K>, limit: nat)
      ensures Paginate(items, cursor, limit) == PageFrom(items, order.Start(items, cursor), limit)
    {}

    /** The key the next request continues after, if the page is not the last one. */
    ghost function NextKey(items: seq<T>, cursor: Option<K>, limit: nat): Option<K>
      requires limit >= 1
    {
      var s := order.Start(items, cursor);
      if s + limit < |items| then Some(order.key(items[s + limit - 1])) else None
    }

    lemma NextCursorDecodes(items: seq<T>, cursor: Option<K>, limit: nat)
      requires limit >= 1 && Served(items)
      ensures
        var p, c := Paginate(items, cursor, limit), NextKey(items, cursor, limit);
        && p.hasMore == p.nextCursor.Some? == c.Some?
        && (c.Some? ==> decode(p.nextCursor.value) == c)
    {
      PaginateFromStart(items, cursor, limit);
      var s := order.Start(items, cursor);
      if s + limit < |items| {
        assert Survives(items, s + limit - 1);
      }
    }

    /** The places of the items after the cursor. */
    ghost function AfterCursor(items: seq<T>, cursor: Option<K>): set<int> {
      set i | 0 <= i < |items| && (cursor.None? || order.IsAfter(items[i], cursor.value))
    }

    lemma AfterCursorIsRest(items: seq<T>, cursor: Option<K>)
      requires order.Strict() && order.Sorted(items)
      ensures |AfterCursor(items, cursor)| == |items| - order.Start(items, cursor)
    {
      var s := order.Start(items, cursor);
      if cursor.Some? {
        order.StartSplits(items, cursor);
      }
      RangeIs(s, |items|);
      assert AfterCursor(items, cursor) == Range(s, |items|);
    }

    function Range(lo: int, hi: int): set<int>
      decreases hi - lo
    {
      if lo < hi then Range(lo, hi - 1) + {hi - 1} else {}
    }

    lemma {:induction false} RangeIs(lo: int, hi: int)
      requires lo <= hi
      ensures |Range(lo, hi)| == hi - lo && forall i :: i in Range(lo, hi) <==> lo <= i < hi
      decreases hi - lo
    {
      if lo < hi {
        RangeIs(lo, hi - 1);
      }
    }

    lemma PageFromHolds(items: seq<T>, start: nat, limit: nat)
      requires start <= |items| && limit >= 1
      ensures
        var (p, left) := (PageFrom(items, start, limit), |items| - start);
        && |p.page| == (if left > limit then limit else left)
        && p.page == items[start..][..|p.page|]
        && (p.hasMore <==> left > limit)
        && p.nextCursor == if left > limit then Some(encode(order.key(p.page[limit - 1]))) else None
    {}

    /** A page holds the first `limit` items after the cursor, or all if there are no more, and says which; its
        cursor is that of its last item. */
    lemma PageHolds(items: seq<T>, cursor: Option<K>, limit: nat)
      requires order.Strict() && order.Sorted(items) && limit >= 1
      ensures
        var (p, left) := (Paginate(items, cursor, limit), |AfterCursor(items, cursor)|);
        && 0 <= left <= |items|
        && |p.page| == (if left > limit then limit else left)
        && p.page == items[|items| - left..][..|p.page|]
        && (p.hasMore <==> left > limit)
        && p.nextCursor == if left > limit then Some(encode(order.key(p.page[limit - 1]))) else None
    {
      AfterCursorIsRest(items, cursor);
      PaginateFromStart(items, cursor, limit);
      PageFromHolds(items, order.Start(items, cursor), limit);
    }

    /** One request of a walk. */
    lemma WalkStep(lists: seq<seq<T>>, cursor: Option<K>, limit: nat)
      requires limit >= 1 && lists != [] && Served(lists[0])
      ensures
        var p, c := Paginate(lists[0], cursor, limit), NextKey(lists[0], cursor, limit);
        && p.hasMore == c.Some?
        && Walk(lists, cursor, limit) == [p] + if c.Some? then Walk(lists[1..], c, limit) else []
    {
      NextCursorDecodes(lists[0], cursor, limit);
    }

    lemma ReceivedStep(lists: seq<seq<T>>, cursor: Option<K>, limit: nat)
      requires limit >= 1 && lists != []
      ensures
        var p, c := Paginate(lists[0], cursor, limit), NextKey(lists[0], cursor, limit);
        order.Received(lists, cursor, limit) == p.page + if c.Some? then order.Received(lists[1..], c, limit) else []
    {
      PaginateFromStart(lists[0], cursor, limit);
    }

    lemma EndsStep(lists: seq<seq<T>>, cursor: Option<K>, limit: nat)
      requires limit >= 1 && lists != []
      ensures
        var c := NextKey(lists[0], cursor, limit);
        order.Ends(lists, cursor, limit) <==> (c.Some? ==> order.Ends(lists[1..], c, limit))
    {}

    /** The walk over opaque cursor texts delivers what the walk over keys does. */
    lemma {:induction false} WalkDelivers(lists: seq<seq<T>>, cursor: Option<K>, limit: nat)
      requires AllServed(lists) && limit >= 1
      ensures Delivered(Walk(lists, cursor, limit)) == order.Received(lists, cursor, limit)
      decreases |lists|
    {
      if lists != [] {
        assert Served(lists[0]);
        WalkStep(lists, cursor, limit);
        ReceivedStep(lists, cursor, limit);
        var p, c := Paginate(lists[0], cursor, limit), NextKey(lists[0], cursor, limit);
        DeliveredCons(p, if c.Some? then Walk(lists[1..], c, limit) else []);
        if c.Some? {
          WalkDelivers(lists[1..], c, limit);
        }
      }
    }

    lemma {:induction false} WalkFinishes(lists: seq<seq<T>>, cursor: Option<K>, limit: nat)
      requires AllServed(lists) && limit >= 1
      ensures Finished(Walk(lists, cursor, limit)) <==> order.Ends(lists, cursor, limit)
      decreases |lists|
    {
      if lists != [] {
        assert Served(lists[0]);
        WalkStep(lists, cursor, limit);
        EndsStep(lists, cursor, limit);
        var p, c := Paginate(lists[0], cursor, limit), NextKey(lists[0], cursor, limit);
        DeliveredCons(p, if c.Some? then Walk(lists[1..], c, limit) else []);
        if c.Some? {
          WalkFinishes(lists[1..], c, limit);
        }
      }
    }

    /** A whole walk from the start over lists that change between requests: items come in strictly
        increasing cursor order, no key is delivered twice, and a key that every list holds is delivered
        exactly once by the time hasMore is false. */
    lemma WholeWalk(lists: seq<seq<T>>, limit: nat, k: K)
      requires order.Strict() && AllServed(lists) && limit >= 1
      ensures
        var pages := Walk(lists, None, limit);
        && order.Sorted(Delivered(pages))
        && order.Occurrences(Delivered(pages), k) <= 1
        && (Finished(pages) && (forall n | 0 <= n < |lists| :: order.HasKey(lists[n], k)) ==>
              order.Occurrences(Delivered(pages), k) == 1)
    {
      AllServedIsAllSorted(lists);
      WalkDelivers(lists, None, limit);
      WalkFinishes(lists, None, limit);
      order.ReceivedIsSorted(lists, None, limit);
      var pages := Walk(lists, None, limit);
      order.OccursOnce(Delivered(pages), k);
      if Finished(pages) && forall n | 0 <= n < |lists| :: order.HasKey(lists[n], k) {
        order.ReceivedHasStableKey(lists, None, limit, k);
      }
    }

    lemma AllServedIsAllSorted(lists: seq<seq<T>>)
      requires AllServed(lists)
      ensures order.AllSorted(lists)
    {
      assert forall n | 0 <= n < |lists| :: Served(lists[n]);
    }

    lemma FixedIsServed(lists: seq<seq<T>>, items: seq<T>)
      requires Served(items) && order.Fixed(lists, items)
      ensures AllServed(lists)
    {
      forall n | 0 <= n < |lists|
        ensures Served(lists[n])
      {
        assert lists[n] == items;
      }
    }

    lemma FixedListFinishes(lists: seq<seq<T>>, items: seq<T>, limit: nat)
      requires order.Strict() && order.Sorted(items) && AllServed(lists) && limit >= 1
      requires order.Fixed(lists, items) && |lists| >= Requests(|items|, limit)
      ensures Finished(Walk(lists, None, limit))
    {
      WalkFinishes(lists, None, limit);
      order.FixedListEndsInTime(lists, items, limit);
    }

    lemma FixedListDelivers(lists: seq<seq<T>>, items: seq<T>, limit: nat)
      requires order.Strict() && order.Sorted(items) && AllServed(lists) && limit >= 1
      requires order.Fixed(lists, items) && |lists| >= Requests(|items|, limit)
      ensures Delivered(Walk(lists, None, limit)) == items
    {
      WalkDelivers(lists, None, limit);
      order.ReceivedWholeList(lists, items, limit);
    }

    /** Over one fixed list the walk ends within max(1, ceil(|items| / limit)) requests
        and its pages concatenate to the list. */
    lemma FixedListWalk(lists: seq<seq<T>>, items: seq<T>, limit: nat)
      requires order.Strict() && Served(items) && limit >= 1
      requires order.Fixed(lists, items) && |lists| >= Requests(|items|, limit)
      ensures Finished(Walk(lists, None, limit))
      ensures Delivered(Walk(lists, None, limit)) == items
    {
      FixedIsServed(lists, items);
      FixedListFinishes(lists, items, limit);
      FixedListDelivers(lists, items, limit);
    }
  }
}
