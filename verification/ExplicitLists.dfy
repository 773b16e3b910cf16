/** Greedy filling of several short lists from rule tables, where a meaning may be used only once. */
module ExplicitLists {
  import opened Basics

  datatype Rule<P> = Rule(value: string, semanticId: string, patterns: seq<P>)

  /** A text and the cleaning of list items, as the tables see them. */
  datatype Oracle<!P> = Oracle(test: P -> bool, normalize: string -> Option<string>)
  {
    predicate Matches(rule: Rule<P>) { exists i :: 0 <= i < |rule.patterns| && test(rule.patterns[i]) }

    /** The rule matches the text and leaves something to list. */
    predicate Eligible(rule: Rule<P>) { Matches(rule) && normalize(rule.value).Some? }

    method AnyMatches(rule: Rule<P>) returns (r: bool)
      ensures r == Matches(rule)
    {
      for i := 0 to |rule.patterns|
        invariant forall j | 0 <= j < i :: !test(rule.patterns[j])
      {
        if test(rule.patterns[i]) {
          return true;
        }
      }
      return false;
    }
  }

  const MAX_ITEMS := 5

  /** One table for each list, in order of priority. */
  type Tables<P> = seq<seq<Rule<P>>>

  predicate Slot<P>(ts: Tables<P>, i: nat, j: nat) { i < |ts| && j < |ts[i]| }

  /** The meanings taken before rule j of list i. */
  function Claimed<P>(o: Oracle<P>, ts: Tables<P>, i: nat, j: nat): set<string>
    requires i < |ts| && j <= |ts[i]|
    decreases i, j, 0
  {
    if j > 0 then
      Claimed(o, ts, i, j - 1) + if Accepts(o, ts, i, j - 1) then {ts[i][j - 1].semanticId} else {}
    else if i > 0 then Claimed(o, ts, i - 1, |ts[i - 1]|)
    else {}
  }

  /** What list i holds before its rule j. */
  function Listed<P>(o: Oracle<P>, ts: Tables<P>, i: nat, j: nat): seq<string>
    requires i < |ts| && j <= |ts[i]|
    decreases i, j, 0
  {
    if j == 0 then []
    else if Accepts(o, ts, i, j - 1) then Listed(o, ts, i, j - 1) + [o.normalize(ts[i][j - 1].value).value]
    else Listed(o, ts, i, j - 1)
  }

  predicate Accepts<P>(o: Oracle<P>, ts: Tables<P>, i: nat, j: nat)
    requires Slot(ts, i, j)
    ensures Accepts(o, ts, i, j) ==> o.Eligible(ts[i][j])
    decreases i, j, 1
  {
    && |Listed(o, ts, i, j)| < MAX_ITEMS
    && o.Eligible(ts[i][j])
    && ts[i][j].semanticId !in Claimed(o, ts, i, j)
  }

  lemma {:induction false} FullStaysFull<P>(o: Oracle<P>, ts: Tables<P>, i: nat, j: nat, k: nat)
    requires i < |ts| && j <= k <= |ts[i]| && |Listed(o, ts, i, j)| >= MAX_ITEMS
    ensures Listed(o, ts, i, k) == Listed(o, ts, i, j)
    ensures Claimed(o, ts, i, k) == Claimed(o, ts, i, j)
    decreases k
  {
    if j < k {
      FullStaysFull(o, ts, i, j, k - 1);
    }
  }

  /** The loop over the rules of one list. */
  method FillOne<P>(o: Oracle<P>, ts: Tables<P>, i: nat, before: set<string>)
    returns (items: seq<string>, claimed: set<string>)
    requires i < |ts| && before == Claimed(o, ts, i, 0)
    ensures items == Listed(o, ts, i, |ts[i]|) && claimed == Claimed(o, ts, i, |ts[i]|)
  {
    items, claimed := [], before;
    for j := 0 to |ts[i]|
      invariant items == Listed(o, ts, i, j) && claimed == Claimed(o, ts, i, j)
    {
      var rule := ts[i][j];
      if |items| >= MAX_ITEMS {
        FullStaysFull(o, ts, i, j, |ts[i]|);
        break;
      }
      var hit := o.AnyMatches(rule);
      if !hit {
        continue;
      }
      var normalized := o.normalize(rule.value);
      if normalized.None? {
        continue;
      }
      if rule.semanticId in claimed {
        continue;
      }
      claimed := claimed + {rule.semanticId};
      items := items + [normalized.value];
    }
  }

  method BuildExplicitExtendedLists<P>(o: Oracle<P>, ts: Tables<P>) returns (results: seq<seq<string>>)
    ensures |results| == |ts|
    ensures forall i | 0 <= i < |ts| :: results[i] == Listed(o, ts, i, |ts[i]|)
  {
    results := [];
    var claimed: set<string> := {};
    for i := 0 to |ts|
      invariant |results| == i
      invariant forall k | 0 <= k < i :: results[k] == Listed(o, ts, k, |ts[k]|)
      invariant claimed == if i == 0 then {} else Claimed(o, ts, i - 1, |ts[i - 1]|)
    {
      var items, after := FillOne(o, ts, i, claimed);
      results, claimed := results + [items], after;
    }
  }

  // ---- the declarative specification

  /** In order of priority. */
  predicate Before(i: nat, j: nat, i': nat, j': nat) { i < i' || (i == i' && j < j') }

  /** An accepted rule that comes earlier has the same meaning. */
  predicate TakenBy<P>(ts: Tables<P>, acc: (nat, nat) -> bool, i: nat, j: nat, i': nat, j': nat)
    requires Slot(ts, i, j)
  {
    Slot(ts, i', j') && Before(i', j', i, j) && acc(i', j') && ts[i'][j'].semanticId == ts[i][j].semanticId
  }

  function Accepted(acc: (nat, nat) -> bool, i: nat, j: nat): nat {
    if j == 0 then 0 else Accepted(acc, i, j - 1) + if acc(i, j - 1) then 1 else 0
  }

  ghost predicate RightAt<P>(o: Oracle<P>, ts: Tables<P>, acc: (nat, nat) -> bool, i: nat, j: nat)
    requires Slot(ts, i, j)
  {
    acc(i, j) <==>
      && (exists p :: 0 <= p < |ts[i][j].patterns| && o.test(ts[i][j].patterns[p]))
      && o.normalize(ts[i][j].value).Some?
      && (forall i', j' :: !TakenBy(ts, acc, i, j, i', j'))
      && Accepted(acc, i, j) < 5
  }

  /** A choice of rules is right if each is chosen exactly if it matches, its meaning is not yet taken and
      its own list has room. */
  ghost predicate IsRightChoice<P>(o: Oracle<P>, ts: Tables<P>, acc: (nat, nat) -> bool) {
    forall i: nat, j: nat | Slot(ts, i, j) :: RightAt(o, ts, acc, i, j)
  }

  ghost function Greedy<P>(o: Oracle<P>, ts: Tables<P>): (nat, nat) -> bool {
    (i: nat, j: nat) => Slot(ts, i, j) && Accepts(o, ts, i, j)
  }

  ghost predicate ClaimedBy<P>(ts: Tables<P>, acc: (nat, nat) -> bool, i: nat, j: nat, id: string, i': nat, j': nat) {
    Slot(ts, i', j') && Before(i', j', i, j) && acc(i', j') && ts[i'][j'].semanticId == id
  }

  ghost predicate IsClaimed<P>(ts: Tables<P>, acc: (nat, nat) -> bool, i: nat, j: nat, id: string) {
    exists i', j' :: ClaimedBy(ts, acc, i, j, id, i', j')
  }

  lemma {:induction false} ClaimedIff<P>(o: Oracle<P>, ts: Tables<P>, i: nat, j: nat, id: string)
    requires i < |ts| && j <= |ts[i]|
    ensures id in Claimed(o, ts, i, j) <==> IsClaimed(ts, Greedy(o, ts), i, j, id)
    decreases i, j
  {
    var acc := Greedy(o, ts);
    if j > 0 {
      ClaimedIff(o, ts, i, j - 1, id);
      assert acc(i, j - 1) == Accepts(o, ts, i, j - 1);
      StepBack(ts, acc, i, j, id);
    } else if i > 0 {
      ClaimedIff(o, ts, i - 1, |ts[i - 1]|, id);
      ListBack(ts, acc, i, id);
    }
  }

  lemma StepBack<P>(ts: Tables<P>, acc: (nat, nat) -> bool, i: nat, j: nat, id: string)
    requires j > 0 && Slot(ts, i, j - 1)
    ensures IsClaimed(ts, acc, i, j, id)
       <==> IsClaimed(ts, acc, i, j - 1, id) || (acc(i, j - 1) && ts[i][j - 1].semanticId == id)
  {
    var k := j - 1;
    if i', j' :| ClaimedBy(ts, acc, i, j, id, i', j') {
      assert ClaimedBy(ts, acc, i, k, id, i', j') || (i' == i && j' == k);
    }
    if i', j' :| ClaimedBy(ts, acc, i, k, id, i', j') {
      assert ClaimedBy(ts, acc, i, j, id, i', j');
    }
    if acc(i, k) && ts[i][k].semanticId == id {
      assert ClaimedBy(ts, acc, i, j, id, i, k);
    }
  }

  lemma ListBack<P>(ts: Tables<P>, acc: (nat, nat) -> bool, i: nat, id: string)
    requires 0 < i < |ts|
    ensures IsClaimed(ts, acc, i, 0, id) <==> IsClaimed(ts, acc, i - 1, |ts[i - 1]|, id)
  {
    var (h, n) := (i - 1, |ts[i - 1]|);
    if i', j' :| ClaimedBy(ts, acc, i, 0, id, i', j') {
      assert ClaimedBy(ts, acc, h, n, id, i', j');
    }
    if i', j' :| ClaimedBy(ts, acc, h, n, id, i', j') {
      assert ClaimedBy(ts, acc, i, 0, id, i', j');
    }
  }

  lemma {:induction false} ListedCountsAccepted<P>(o: Oracle<P>, ts: Tables<P>, i: nat, j: nat)
    requires i < |ts| && j <= |ts[i]|
    ensures |Listed(o, ts, i, j)| == Accepted(Greedy(o, ts), i, j)
    decreases j
  {
    if j > 0 {
      ListedCountsAccepted(o, ts, i, j - 1);
    }
  }

  /** The loops make a right choice. */
  lemma GreedyIsRight<P>(o: Oracle<P>, ts: Tables<P>)
    ensures IsRightChoice(o, ts, Greedy(o, ts))
  {
    var acc := Greedy(o, ts);
    forall i: nat, j: nat | Slot(ts, i, j) ensures RightAt(o, ts, acc, i, j) {
      ClaimedIff(o, ts, i, j, ts[i][j].semanticId);
      ListedCountsAccepted(o, ts, i, j);
      assert forall i', j' :: TakenBy(ts, acc, i, j, i', j') <==> ClaimedBy(ts, acc, i, j, ts[i][j].semanticId, i', j');
    }
  }

  /** The two choices agree on the rules before (i, j). */
  ghost predicate AgreeBefore<P>(ts: Tables<P>, a: (nat, nat) -> bool, b: (nat, nat) -> bool, i: nat, j: nat) {
    forall i', j' | Slot(ts, i', j') && Before(i', j', i, j) :: a(i', j') == b(i', j')
  }

  lemma {:induction false} SameCount<P>(ts: Tables<P>, a: (nat, nat) -> bool, b: (nat, nat) -> bool,
                                        i: nat, j: nat, k: nat)
    requires i < |ts| && k <= j <= |ts[i]| && AgreeBefore(ts, a, b, i, j)
    ensures Accepted(a, i, k) == Accepted(b, i, k)
    decreases k
  {
    if k > 0 {
      SameCount(ts, a, b, i, j, k - 1);
      assert Slot(ts, i, k - 1);
    }
  }

  lemma AgreeAt<P>(o: Oracle<P>, ts: Tables<P>, a: (nat, nat) -> bool, b: (nat, nat) -> bool, i: nat, j: nat)
    requires Slot(ts, i, j) && RightAt(o, ts, a, i, j) && RightAt(o, ts, b, i, j) && AgreeBefore(ts, a, b, i, j)
    ensures a(i, j) == b(i, j)
  {
    SameCount(ts, a, b, i, j, j);
    assert forall i', j' :: TakenBy(ts, a, i, j, i', j') <==> TakenBy(ts, b, i, j, i', j');
  }

  lemma {:induction false} ChoicesAgree<P>(o: Oracle<P>, ts: Tables<P>, a: (nat, nat) -> bool, b: (nat, nat) -> bool,
                                           i: nat, j: nat)
    requires IsRightChoice(o, ts, a) && IsRightChoice(o, ts, b) && Slot(ts, i, j)
    ensures a(i, j) == b(i, j)
    decreases i, j
  {
    forall i', j' | Slot(ts, i', j') && Before(i', j', i, j) ensures a(i', j') == b(i', j') {
      ChoicesAgree(o, ts, a, b, i', j');
    }
    AgreeAt(o, ts, a, b, i, j);
  }

  /** The only right choice is the one the loops make. */
  lemma OnlyRightChoice<P>(o: Oracle<P>, ts: Tables<P>, acc: (nat, nat) -> bool, i: nat, j: nat)
    requires IsRightChoice(o, ts, acc) && Slot(ts, i, j)
    ensures acc(i, j) == Accepts(o, ts, i, j)
  {
    GreedyIsRight(o, ts);
    ChoicesAgree(o, ts, acc, Greedy(o, ts), i, j);
  }

  // ---- what a reader of the lists can rely on

  /** No meaning is used twice, in one list or in two. */
  lemma MeaningsAreUsedOnce<P>(o: Oracle<P>, ts: Tables<P>, i: nat, j: nat, i': nat, j': nat)
    requires Slot(ts, i, j) && Slot(ts, i', j') && Before(i, j, i', j')
    requires Accepts(o, ts, i, j) && Accepts(o, ts, i', j')
    ensures ts[i][j].semanticId != ts[i'][j'].semanticId
  {
    GreedyIsRight(o, ts);
    var acc := Greedy(o, ts);
    assert RightAt(o, ts, acc, i', j');
    assert acc(i, j) && acc(i', j');
    assert !TakenBy(ts, acc, i', j', i, j);
  }

  /** The accepted rules of list i among its first j, in table order. */
  function Picks<P>(o: Oracle<P>, ts: Tables<P>, i: nat, j: nat): seq<nat>
    requires i < |ts| && j <= |ts[i]|
  {
    if j == 0 then [] else Picks(o, ts, i, j - 1) + if Accepts(o, ts, i, j - 1) then [j - 1] else []
  }

  predicate Increasing(ps: seq<nat>, end: nat) {
    (forall p | 0 <= p < |ps| :: ps[p] < end) && forall p, q | 0 <= p < q < |ps| :: ps[p] < ps[q]
  }

  predicate PickFor<P>(o: Oracle<P>, ts: Tables<P>, i: nat, pick: nat, item: string) {
    Slot(ts, i, pick) && Accepts(o, ts, i, pick) && o.normalize(ts[i][pick].value) == Some(item)
  }

  /** Each list holds the values of its accepted rules, in the order of its table, and at most five. */
  lemma {:induction false} ListsFollowTables<P>(o: Oracle<P>, ts: Tables<P>, i: nat, j: nat)
    requires i < |ts| && j <= |ts[i]|
    ensures
      var (ps, items) := (Picks(o, ts, i, j), Listed(o, ts, i, j));
      && |ps| == |items| <= 5
      && Increasing(ps, j)
      && (forall p | 0 <= p < |ps| :: PickFor(o, ts, i, ps[p], items[p]))
      && (forall k: nat | k < j && Accepts(o, ts, i, k) :: k in ps)
    decreases j
  {
    if j > 0 {
      ListsFollowTables(o, ts, i, j - 1);
    }
  }

  /** Why a matching rule is missing. */
  lemma WhyMissing<P>(o: Oracle<P>, ts: Tables<P>, i: nat, j: nat)
    requires Slot(ts, i, j) && o.Eligible(ts[i][j]) && !Accepts(o, ts, i, j)
    ensures |Listed(o, ts, i, |ts[i]|)| == 5
         || exists i', j' :: TakenBy(ts, Greedy(o, ts), i, j, i', j')
  {
    GreedyIsRight(o, ts);
    assert RightAt(o, ts, Greedy(o, ts), i, j);
    ListedCountsAccepted(o, ts, i, j);
    if |Listed(o, ts, i, j)| >= MAX_ITEMS {
      FullStaysFull(o, ts, i, j, |ts[i]|);
      ListsFollowTables(o, ts, i, |ts[i]|);
    }
  }

  /** A list depends only on its own table and those before it. */
  lemma {:induction false} LaterTablesDoNotMatter<P>(o: Oracle<P>, ts: Tables<P>, us: Tables<P>, i: nat, j: nat)
    requires i < |ts| && i < |us| && ts[..i + 1] == us[..i + 1] && j <= |ts[i]|
    ensures ts[i] == us[i]
    ensures Listed(o, ts, i, j) == Listed(o, us, i, j)
    ensures Claimed(o, ts, i, j) == Claimed(o, us, i, j)
    decreases i, j
  {
    assert ts[i] == ts[..i + 1][i] == us[..i + 1][i] == us[i];
    if j > 0 {
      LaterTablesDoNotMatter(o, ts, us, i, j - 1);
    } else if i > 0 {
      assert ts[..i] == ts[..i + 1][..i] && us[..i] == us[..i + 1][..i];
      assert ts[i - 1] == ts[..i][i - 1] == us[..i][i - 1] == us[i - 1];
      LaterTablesDoNotMatter(o, ts, us, i - 1, |ts[i - 1]|);
    }
  }
}
