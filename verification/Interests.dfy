/** The three interests that a text mentions first, as its keyword rules record them. */
module Interests {
  import opened Basics

  /** A phrase rule and where its pattern matches first. */
  datatype PhraseRule = PhraseRule(value: string, exec: Option<nat>, guard: nat -> bool)

  datatype Hit = Hit(index: nat, token: string)

  /** `exec` of a global expression: the match it finds from a `lastIndex` on. */
  type Exec = nat -> Option<Hit>

  datatype TokenRule = TokenRule(value: string, exec: Exec, guard: nat -> bool)

  /** What the expressions of the table do on a text of this length: a match starts no earlier than
      `lastIndex`, is not empty and lies in the text. */
  ghost predicate Scans(exec: Exec, length: nat) {
    forall from | exec(from).Some? :: FoundIn(exec(from).value, from, length)
  }

  predicate FoundIn(hit: Hit, from: nat, length: nat) {
    from <= hit.index && hit.token != "" && hit.index + |hit.token| <= length
  }

  function EndOf(hit: Hit): nat { hit.index + |hit.token| }

  /** The matches that repeated `exec` finds: each call goes on where the match before ended. */
  ghost function Hits(exec: Exec, length: nat, from: nat): (hits: seq<Hit>)
    requires Scans(exec, length)
    decreases if from <= length then length - from else 0
  {
    var m := exec(from);
    if m.None? then []
    else
      assert FoundIn(m.value, from, length);
      [m.value] + Hits(exec, length, EndOf(m.value))
  }

  predicate InTextOrder(hits: seq<Hit>, from: nat, length: nat) {
    && (forall i | 0 <= i < |hits| :: FoundIn(hits[i], from, length))
    && (forall i, j | 0 <= i < j < |hits| :: hits[i].index + |hits[i].token| <= hits[j].index)
  }

  lemma ConsInTextOrder(hit: Hit, rest: seq<Hit>, from: nat, length: nat)
    requires FoundIn(hit, from, length) && InTextOrder(rest, EndOf(hit), length)
    ensures InTextOrder([hit] + rest, from, length)
  {
    var hits := [hit] + rest;
    forall i | 0 < i < |hits|
      ensures FoundIn(hits[i], from, length) && EndOf(hit) <= hits[i].index
    {
      assert FoundIn(rest[i - 1], EndOf(hit), length);
    }
    forall i, j | 0 < i < j < |hits|
      ensures EndOf(hits[i]) <= hits[j].index
    {
      assert EndOf(rest[i - 1]) <= rest[j - 1].index;
    }
  }

  /** The matches come in text order and do not overlap. */
  lemma {:induction false} HitsInOrder(exec: Exec, length: nat, from: nat)
    requires Scans(exec, length)
    ensures InTextOrder(Hits(exec, length, from), from, length)
    decreases if from <= length then length - from else 0
  {
    var m := exec(from);
    if m.Some? {
      assert FoundIn(m.value, from, length);
      HitsInOrder(exec, length, EndOf(m.value));
      ConsInTextOrder(m.value, Hits(exec, length, EndOf(m.value)), from, length);
    }
  }

  /** Each match is what `exec` finds from where the match before it ended, up to the one after which it finds
      nothing. */
  lemma {:induction false} HitsFollow(exec: Exec, length: nat, from: nat, k: nat)
    requires Scans(exec, length) && k <= |Hits(exec, length, from)|
    ensures
      var hits := Hits(exec, length, from);
      exec(if k == 0 then from else hits[k - 1].index + |hits[k - 1].token|) ==
      if k < |hits| then Some(hits[k]) else None
    decreases k
  {
    if k > 0 {
      NextHit(exec, length, from);
      HitsFollow(exec, length, EndOf(exec(from).value), k - 1);
    }
  }

  datatype Found = Found(index: nat, value: string)

  predicate IsRun(token: string) { token == "run" || token == "runs" || token == "running" }

  // ---- one candidate index for each rule

  datatype Candidate = Candidate(value: string, index: Option<nat>)

  function PhraseCandidate(rule: PhraseRule): Candidate {
    Candidate(rule.value, if rule.exec.Some? && rule.guard(rule.exec.value) then rule.exec else None)
  }

  predicate Allowed(rule: TokenRule, hit: Hit) { !IsRun(hit.token) && rule.guard(hit.index) }

  /** The index of the first match that the rule allows. */
  function FirstAllowed(rule: TokenRule, hits: seq<Hit>): Option<nat> {
    if hits == [] then None
    else if Allowed(rule, hits[0]) then Some(hits[0].index)
    else FirstAllowed(rule, hits[1..])
  }

  predicate FirstAllowedAt(rule: TokenRule, hits: seq<Hit>, k: int) {
    0 <= k < |hits| && Allowed(rule, hits[k]) && forall i | 0 <= i < k :: !Allowed(rule, hits[i])
  }

  lemma {:induction false} FirstAllowedIff(rule: TokenRule, hits: seq<Hit>, k: int)
    ensures FirstAllowedAt(rule, hits, k) ==> FirstAllowed(rule, hits) == Some(hits[k].index)
    ensures FirstAllowed(rule, hits).None? <==> forall i | 0 <= i < |hits| :: !Allowed(rule, hits[i])
    decreases |hits|
  {
    if hits != [] {
      FirstAllowedIff(rule, hits[1..], k - 1);
      assert forall i | 0 < i < |hits| :: hits[1..][i - 1] == hits[i];
    }
  }

  /** The expressions of a call, all on one text. */
  datatype Text = Text(length: nat, phrases: seq<PhraseRule>, tokens: seq<TokenRule>, runs: Exec)
  {
    ghost predicate Valid() {
      Scans(runs, length) && forall i | 0 <= i < |tokens| :: Scans(tokens[i].exec, length)
    }
  }

  ghost function TokenCandidate(length: nat, rule: TokenRule): Candidate
    requires Scans(rule.exec, length)
  {
    Candidate(rule.value, FirstAllowed(rule, Hits(rule.exec, length, 0)))
  }

  function RunCandidate(runs: Exec): Candidate {
    Candidate("running", if runs(0).None? then None else Some(runs(0).value.index))
  }

  function PhraseCandidates(phrases: seq<PhraseRule>): seq<Candidate> {
    seq(|phrases|, i requires 0 <= i < |phrases| => PhraseCandidate(phrases[i]))
  }

  ghost function TokenCandidates(length: nat, tokens: seq<TokenRule>): seq<Candidate>
    requires forall i | 0 <= i < |tokens| :: Scans(tokens[i].exec, length)
  {
    seq(|tokens|, i requires 0 <= i < |tokens| => TokenCandidate(length, tokens[i]))
  }

  ghost function Candidates(text: Text): seq<Candidate>
    requires text.Valid()
  {
    PhraseCandidates(text.phrases) + TokenCandidates(text.length, text.tokens) + [RunCandidate(text.runs)]
  }

  // ---- recording

  function ValuesOf(found: seq<Found>): set<string> { set i | 0 <= i < |found| :: found[i].value }

  function Keep(found: seq<Found>, c: Candidate): seq<Found> {
    if c.index.Some? && c.value !in ValuesOf(found) then found + [Found(c.index.value, c.value)] else found
  }

  function Record(found: seq<Found>, cs: seq<Candidate>): seq<Found> {
    if cs == [] then found else Keep(Record(found, cs[..|cs| - 1]), cs[|cs| - 1])
  }

  lemma ValuesGrow(found: seq<Found>, x: Found)
    ensures ValuesOf(found + [x]) == ValuesOf(found) + {x.value}
  {
    var more := found + [x];
    assert forall i | 0 <= i < |found| :: more[i] == found[i];
    assert more[|found|] == x;
  }

  lemma {:induction false} RecordConcat(found: seq<Found>, cs: seq<Candidate>, ds: seq<Candidate>)
    ensures Record(found, cs + ds) == Record(Record(found, cs), ds)
    decreases |ds|
  {
    if ds == [] {
      assert cs + ds == cs;
    } else {
      RecordConcat(found, cs, ds[..|ds| - 1]);
      assert (cs + ds)[..|cs + ds| - 1] == cs + ds[..|ds| - 1];
    }
  }

  lemma RecordStep(found: seq<Found>, cs: seq<Candidate>, i: nat)
    requires i < |cs|
    ensures Record(found, cs[..i + 1]) == Keep(Record(found, cs[..i]), cs[i])
  {
    assert cs[..i + 1][..i] == cs[..i];
  }

  /** The loop over the phrase rules. */
  method RecordPhrases(phrases: seq<PhraseRule>) returns (found: seq<Found>, seen: set<string>)
    ensures found == Record([], PhraseCandidates(phrases)) && seen == ValuesOf(found)
  {
    ghost var cs := PhraseCandidates(phrases);
    found, seen := [], {};
    for i := 0 to |phrases|
      invariant found == Record([], cs[..i]) && seen == ValuesOf(found)
    {
      RecordStep([], cs, i);
      var rule := phrases[i];
      if rule.exec.Some? && rule.value !in seen {
        var m := rule.exec.value;
        if !rule.guard(m) {
          continue;
        }
        ValuesGrow(found, Found(m, rule.value));
        seen := seen + {rule.value};
        found := found + [Found(m, rule.value)];
      }
    }
    assert cs[..|phrases|] == cs;
  }

  lemma NextHit(exec: Exec, length: nat, from: nat)
    requires Scans(exec, length) && exec(from).Some?
    ensures
      var hit := exec(from).value;
      && from < EndOf(hit) <= length
      && Hits(exec, length, from) == [hit] + Hits(exec, length, EndOf(hit))
  {
    assert FoundIn(exec(from).value, from, length);
  }

  lemma FirstAllowedStep(rule: TokenRule, hit: Hit, rest: seq<Hit>)
    ensures FirstAllowed(rule, [hit] + rest) ==
      if Allowed(rule, hit) then Some(hit.index) else FirstAllowed(rule, rest)
  {
    assert ([hit] + rest)[1..] == rest;
  }

  /** The inner loop: `exec` until it finds nothing or a value is recorded. Every round moves `lastIndex` on. */
  method RecordToken(length: nat, rule: TokenRule, found: seq<Found>, seen: set<string>)
    returns (found': seq<Found>, seen': set<string>)
    requires Scans(rule.exec, length) && seen == ValuesOf(found)
    ensures found' == Keep(found, TokenCandidate(length, rule)) && seen' == ValuesOf(found')
  {
    found', seen' := found, seen;
    var lastIndex := 0;
    while rule.exec(lastIndex).Some?
      invariant lastIndex <= length
      invariant found' == found && seen' == seen
      invariant rule.value !in seen ==>
        FirstAllowed(rule, Hits(rule.exec, length, 0)) == FirstAllowed(rule, Hits(rule.exec, length, lastIndex))
      decreases length - lastIndex
    {
      var hit := rule.exec(lastIndex).value;
      NextHit(rule.exec, length, lastIndex);
      FirstAllowedStep(rule, hit, Hits(rule.exec, length, EndOf(hit)));
      lastIndex := EndOf(hit);
      if IsRun(hit.token) {
        continue;
      }
      if !rule.guard(hit.index) {
        continue;
      }
      if rule.value !in seen' {
        ValuesGrow(found, Found(hit.index, rule.value));
        seen' := seen' + {rule.value};
        found' := found' + [Found(hit.index, rule.value)];
        return;
      }
    }
  }

  method RecordTokens(length: nat, tokens: seq<TokenRule>, found: seq<Found>, seen: set<string>)
    returns (found': seq<Found>, seen': set<string>)
    requires forall i | 0 <= i < |tokens| :: Scans(tokens[i].exec, length)
    requires seen == ValuesOf(found)
    ensures found' == Record(found, TokenCandidates(length, tokens)) && seen' == ValuesOf(found')
  {
    ghost var cs := TokenCandidates(length, tokens);
    found', seen' := found, seen;
    for i := 0 to |tokens|
      invariant found' == Record(found, cs[..i]) && seen' == ValuesOf(found')
    {
      RecordStep(found, cs, i);
      found', seen' := RecordToken(length, tokens[i], found', seen');
    }
    assert cs[..|tokens|] == cs;
  }

  /** The running loop; where the value is there already it reads on to the last match. */
  method RecordRuns(length: nat, runs: Exec, found: seq<Found>, seen: set<string>) returns (found': seq<Found>)
    requires Scans(runs, length) && seen == ValuesOf(found)
    ensures found' == Keep(found, RunCandidate(runs))
  {
    found' := found;
    var lastIndex := 0;
    while runs(lastIndex).Some?
      invariant lastIndex <= length
      invariant found' == found
      invariant lastIndex > 0 ==> "running" in seen
      decreases length - lastIndex
    {
      var hit := runs(lastIndex).value;
      NextHit(runs, length, lastIndex);
      lastIndex := EndOf(hit);
      if "running" !in seen {
        found' := found' + [Found(hit.index, "running")];
        return;
      }
    }
  }

  // ---- sorting and cutting

  /** Puts x behind everything with an index that is no larger. */
  function Insert(sorted: seq<Found>, x: Found): (r: seq<Found>)
    ensures multiset(r) == multiset(sorted) + multiset{x}
  {
    if sorted == [] then [x]
    else
      var (init, last) := (sorted[..|sorted| - 1], sorted[|sorted| - 1]);
      assert sorted == init + [last];
      if last.index <= x.index then sorted + [x] else Insert(init, x) + [last]
  }

  /** A stable sort by index. */
  function SortByIndex(found: seq<Found>): (r: seq<Found>)
    ensures multiset(r) == multiset(found)
  {
    if found == [] then []
    else
      assert found == found[..|found| - 1] + [found[|found| - 1]];
      Insert(SortByIndex(found[..|found| - 1]), found[|found| - 1])
  }

  function AllowedEntries(sorted: seq<Found>, allowlist: set<string>): seq<Found> {
    if sorted == [] then []
    else
      var (before, x) := (AllowedEntries(sorted[..|sorted| - 1], allowlist), sorted[|sorted| - 1]);
      if x.value in allowlist then before + [x] else before
  }

  function UpTo3(entries: seq<Found>): seq<Found> { if |entries| <= 3 then entries else entries[..3] }

  function Names(entries: seq<Found>): (names: seq<string>)
    ensures |names| == |entries|
    ensures forall i | 0 <= i < |entries| :: names[i] == entries[i].value
  {
    seq(|entries|, i requires 0 <= i < |entries| => entries[i].value)
  }

  predicate DistinctValues(found: seq<Found>) { forall i, j | 0 <= i < j < |found| :: found[i].value != found[j].value }

  lemma {:induction false} AllowedEntriesGrow(sorted: seq<Found>, allowlist: set<string>, i: nat)
    requires i <= |sorted|
    ensures AllowedEntries(sorted[..i], allowlist) <= AllowedEntries(sorted, allowlist)
    decreases |sorted|
  {
    if i < |sorted| {
      var init := sorted[..|sorted| - 1];
      AllowedEntriesGrow(init, allowlist, i);
      assert init[..i] == sorted[..i];
    } else {
      assert sorted[..i] == sorted;
    }
  }

  lemma {:induction false} AllowedEntriesAre(sorted: seq<Found>, allowlist: set<string>)
    ensures forall x :: x in AllowedEntries(sorted, allowlist) <==> x in sorted && x.value in allowlist
    decreases |sorted|
  {
    if sorted != [] {
      var (init, x) := (sorted[..|sorted| - 1], sorted[|sorted| - 1]);
      AllowedEntriesAre(init, allowlist);
      assert sorted == init + [x];
    }
  }

  /** The loop that keeps the first three. */
  method Cut(sorted: seq<Found>, allowlist: set<string>) returns (out: seq<string>)
    requires DistinctValues(sorted)
    ensures out == Names(UpTo3(AllowedEntries(sorted, allowlist)))
  {
    out := [];
    var ordered: set<string> := {};
    for i := 0 to |sorted|
      invariant out == Names(AllowedEntries(sorted[..i], allowlist)) && |out| < 3
      invariant ordered <= ValuesOf(sorted[..i])
    {
      var x := sorted[i];
      assert sorted[..i + 1][..i] == sorted[..i];
      NotYetSeen(sorted, i);
      if x.value !in ordered && x.value in allowlist {
        ordered := ordered + {x.value};
        out := out + [x.value];
        if |out| >= 3 {
          AllowedEntriesGrow(sorted, allowlist, i + 1);
          return;
        }
      }
    }
    assert sorted[..|sorted|] == sorted;
  }

  lemma NotYetSeen(sorted: seq<Found>, i: nat)
    requires i < |sorted| && DistinctValues(sorted)
    ensures sorted[i].value !in ValuesOf(sorted[..i])
    ensures ValuesOf(sorted[..i + 1]) == ValuesOf(sorted[..i]) + {sorted[i].value}
  {
    ValuesGrow(sorted[..i], sorted[i]);
    assert sorted[..i + 1] == sorted[..i] + [sorted[i]];
  }

  ghost function Recorded(text: Text): seq<Found>
    requires text.Valid()
  {
    Record([], Candidates(text))
  }

  function Top3(found: seq<Found>, allowlist: set<string>): seq<Found> {
    UpTo3(AllowedEntries(SortByIndex(found), allowlist))
  }

  method InterestsTop3(text: Text, allowlist: set<string>) returns (out: seq<string>)
    requires text.Valid()
    ensures out == Names(Top3(Recorded(text), allowlist))
  {
    var found, seen := RecordPhrases(text.phrases);
    found, seen := RecordTokens(text.length, text.tokens, found, seen);
    found := RecordRuns(text.length, text.runs, found, seen);
    RecordIsPhased(text);
    RecordIsDistinct(Candidates(text));
    SortKeepsDistinct(found);
    out := Cut(SortByIndex(found), allowlist);
  }

  lemma RecordIsPhased(text: Text)
    requires text.Valid()
    ensures Recorded(text) ==
      Keep(Record(Record([], PhraseCandidates(text.phrases)), TokenCandidates(text.length, text.tokens)),
           RunCandidate(text.runs))
  {
    var (ps, ts) := (PhraseCandidates(text.phrases), TokenCandidates(text.length, text.tokens));
    RecordConcat([], ps, ts);
    var all := Candidates(text);
    assert all[..|all| - 1] == ps + ts;
  }

  // ---- what is recorded

  /** The rule that records a value: the first in order that finds it. */
  predicate RecordedBy(cs: seq<Candidate>, k: int, x: Found) {
    && 0 <= k < |cs| && cs[k] == Candidate(x.value, Some(x.index))
    && forall j | 0 <= j < k && cs[j].index.Some? :: cs[j].value != x.value
  }

  ghost predicate IsRecorded(cs: seq<Candidate>, x: Found) { exists k :: RecordedBy(cs, k, x) }

  lemma {:induction false} RecordIsDistinct(cs: seq<Candidate>)
    ensures DistinctValues(Record([], cs))
    decreases |cs|
  {
    if cs != [] {
      RecordIsDistinct(cs[..|cs| - 1]);
      var found := Record([], cs[..|cs| - 1]);
      assert forall i | 0 <= i < |found| :: found[i].value in ValuesOf(found);
    }
  }

  lemma {:induction false} ValuesAreFound(cs: seq<Candidate>, v: string)
    ensures v in ValuesOf(Record([], cs)) <==> exists k :: 0 <= k < |cs| && cs[k].index.Some? && cs[k].value == v
    decreases |cs|
  {
    if cs != [] {
      var (init, last) := (cs[..|cs| - 1], cs[|cs| - 1]);
      ValuesAreFound(init, v);
      var found := Record([], init);
      if last.index.Some? {
        ValuesGrow(found, Found(last.index.value, last.value));
      }
      assert forall k | 0 <= k < |init| :: init[k] == cs[k];
    }
  }

  /** A value is recorded with the index found by the first rule, in table order, that finds it. */
  lemma {:induction false} RecordedIff(cs: seq<Candidate>, x: Found)
    ensures x in Record([], cs) <==> IsRecorded(cs, x)
    decreases |cs|
  {
    if cs != [] {
      var (init, last) := (cs[..|cs| - 1], cs[|cs| - 1]);
      RecordedIff(init, x);
      ValuesAreFound(init, last.value);
      assert forall k | 0 <= k < |init| :: init[k] == cs[k];
      RecordedByLast(cs, x);
    }
  }

  lemma RecordedByLast(cs: seq<Candidate>, x: Found)
    requires cs != []
    ensures IsRecorded(cs, x) <==> IsRecorded(cs[..|cs| - 1], x) || RecordedBy(cs, |cs| - 1, x)
  {
    var init := cs[..|cs| - 1];
    if k :| RecordedBy(cs, k, x) {
      assert k == |cs| - 1 || RecordedBy(init, k, x);
    }
    if k :| RecordedBy(init, k, x) {
      assert RecordedBy(cs, k, x);
    }
  }

  // ---- what is returned

  /** Comes first when sorted: a smaller index, or the same and recorded earlier. */
  ghost predicate Precedes(found: seq<Found>, x: Found, y: Found) {
    x.index < y.index || (x.index == y.index && exists i, j :: 0 <= i < j < |found| && found[i] == x && found[j] == y)
  }

  ghost predicate InOrder(found: seq<Found>, s: seq<Found>) {
    forall p, q | 0 <= p < q < |s| :: Precedes(found, s[p], s[q])
  }

  lemma {:induction false} InsertKeepsDistinct(sorted: seq<Found>, x: Found)
    requires DistinctValues(sorted) && x.value !in ValuesOf(sorted)
    ensures DistinctValues(Insert(sorted, x))
    ensures ValuesOf(Insert(sorted, x)) == ValuesOf(sorted) + {x.value}
    decreases |sorted|
  {
    if sorted == [] {
      ValuesGrow([], x);
      assert [] + [x] == [x];
    } else {
      var (n, last) := (|sorted| - 1, sorted[|sorted| - 1]);
      NotYetSeen(sorted, n);
      assert sorted[..n + 1] == sorted;
      ValuesGrow(sorted, x);
      if last.index > x.index {
        InsertKeepsDistinct(sorted[..n], x);
        ValuesGrow(Insert(sorted[..n], x), last);
        AppendKeepsDistinct(Insert(sorted[..n], x), last);
      } else {
        AppendKeepsDistinct(sorted, x);
      }
    }
  }

  lemma AppendKeepsDistinct(found: seq<Found>, x: Found)
    requires DistinctValues(found) && x.value !in ValuesOf(found)
    ensures DistinctValues(found + [x])
  {
    forall i | 0 <= i < |found| ensures found[i].value != x.value {
      assert found[i].value in ValuesOf(found);
    }
  }

  lemma {:induction false} SortKeepsValues(found: seq<Found>)
    requires DistinctValues(found)
    ensures DistinctValues(SortByIndex(found))
    ensures ValuesOf(SortByIndex(found)) == ValuesOf(found)
    decreases |found|
  {
    if found != [] {
      var n := |found| - 1;
      SortKeepsValues(found[..n]);
      NotYetSeen(found, n);
      assert found[..n + 1] == found;
      InsertKeepsDistinct(SortByIndex(found[..n]), found[n]);
    }
  }

  lemma SortKeepsDistinct(found: seq<Found>)
    requires DistinctValues(found)
    ensures DistinctValues(SortByIndex(found))
  {
    SortKeepsValues(found);
  }

  lemma PrecedesInLonger(found: seq<Found>, z: Found, x: Found, y: Found)
    requires Precedes(found, x, y)
    ensures Precedes(found + [z], x, y)
  {
    if x.index == y.index {
      var i, j :| 0 <= i < j < |found| && found[i] == x && found[j] == y;
      assert (found + [z])[i] == x && (found + [z])[j] == y;
    }
  }

  lemma PrecedesNewest(found: seq<Found>, x: Found, z: Found)
    requires x in found && x.index <= z.index
    ensures Precedes(found + [z], x, z)
  {
    var i :| 0 <= i < |found| && found[i] == x;
    assert (found + [z])[i] == x && (found + [z])[|found|] == z;
  }

  lemma InOrderInLonger(found: seq<Found>, x: Found, s: seq<Found>)
    requires InOrder(found, s)
    ensures InOrder(found + [x], s)
  {
    forall p, q | 0 <= p < q < |s| ensures Precedes(found + [x], s[p], s[q]) {
      PrecedesInLonger(found, x, s[p], s[q]);
    }
  }

  lemma AppendInOrder(found: seq<Found>, s: seq<Found>, x: Found)
    requires InOrder(found, s) && forall y | y in s :: Precedes(found, y, x)
    ensures InOrder(found, s + [x])
  {}

  lemma LastHasLargestIndex(found: seq<Found>, s: seq<Found>, y: Found)
    requires InOrder(found, s) && y in s
    ensures y.index <= s[|s| - 1].index
  {
    var p :| 0 <= p < |s| && s[p] == y;
    assert p == |s| - 1 || Precedes(found, s[p], s[|s| - 1]);
  }

  lemma InsertMembers(s: seq<Found>, x: Found)
    ensures forall y :: y in Insert(s, x) <==> y == x || y in s
  {
    assert forall y :: y in Insert(s, x) <==> y in multiset(Insert(s, x));
  }

  lemma {:induction false} InsertInOrder(found: seq<Found>, s: seq<Found>, x: Found)
    requires InOrder(found, s) && forall y | y in s :: y in found
    ensures InOrder(found + [x], Insert(s, x))
    decreases |s|
  {
    InOrderInLonger(found, x, s);
    if s != [] {
      if s[|s| - 1].index <= x.index {
        forall y | y in s ensures Precedes(found + [x], y, x) {
          LastHasLargestIndex(found, s, y);
          PrecedesNewest(found, y, x);
        }
        AppendInOrder(found + [x], s, x);
      } else {
        InsertInOrder(found, s[..|s| - 1], x);
        InsertBeforeLast(found + [x], s, x);
      }
    }
  }

  lemma InsertBeforeLast(found: seq<Found>, s: seq<Found>, x: Found)
    requires s != [] && InOrder(found, s) && s[|s| - 1].index > x.index
    requires InOrder(found, Insert(s[..|s| - 1], x))
    ensures InOrder(found, Insert(s, x))
  {
    var (n, last) := (|s| - 1, s[|s| - 1]);
    InsertMembers(s[..n], x);
    forall y | y in Insert(s[..n], x) ensures Precedes(found, y, last) {
      if y != x {
        var p :| 0 <= p < n && s[..n][p] == y;
        assert Precedes(found, s[p], s[n]);
      }
    }
    AppendInOrder(found, Insert(s[..n], x), last);
  }

  lemma SortMembers(found: seq<Found>)
    ensures forall x :: x in SortByIndex(found) <==> x in found
  {
    assert forall x :: x in found <==> x in multiset(found);
    assert forall x :: x in SortByIndex(found) <==> x in multiset(SortByIndex(found));
  }

  /** The sort is by index and, where indices are equal, in the order of recording. */
  lemma {:induction false} SortedInOrder(found: seq<Found>)
    ensures InOrder(found, SortByIndex(found))
    decreases |found|
  {
    if found != [] {
      var n := |found| - 1;
      SortedInOrder(found[..n]);
      assert found == found[..n] + [found[n]];
      InsertLastInOrder(found, found[..n], SortByIndex(found[..n]), found[n]);
    }
  }

  lemma InsertLastInOrder(found: seq<Found>, init: seq<Found>, sorted: seq<Found>, last: Found)
    requires found == init + [last] && InOrder(init, sorted) && sorted == SortByIndex(init)
    ensures InOrder(found, Insert(sorted, last))
  {
    SortMembers(init);
    InsertInOrder(init, sorted, last);
  }

  lemma EntriesBeforeLast(found: seq<Found>, sorted: seq<Found>, allowlist: set<string>, e: Found)
    requires InOrder(found, sorted) && DistinctValues(sorted) && sorted != []
    requires e in AllowedEntries(sorted[..|sorted| - 1], allowlist)
    ensures Precedes(found, e, sorted[|sorted| - 1]) && e.value != sorted[|sorted| - 1].value
  {
    var n := |sorted| - 1;
    AllowedEntriesAre(sorted[..n], allowlist);
    var k :| 0 <= k < n && sorted[..n][k] == e;
    assert Precedes(found, sorted[k], sorted[n]);
  }

  lemma {:induction false} EntriesInOrder(found: seq<Found>, sorted: seq<Found>, allowlist: set<string>)
    requires InOrder(found, sorted) && DistinctValues(sorted)
    ensures InOrder(found, AllowedEntries(sorted, allowlist))
    ensures DistinctValues(AllowedEntries(sorted, allowlist))
    decreases |sorted|
  {
    if sorted != [] {
      var (n, last) := (|sorted| - 1, sorted[|sorted| - 1]);
      var es := AllowedEntries(sorted[..n], allowlist);
      EntriesInOrder(found, sorted[..n], allowlist);
      forall e | e in es
        ensures Precedes(found, e, last) && e.value != last.value
      {
        EntriesBeforeLast(found, sorted, allowlist, e);
      }
      AppendInOrder(found, es, last);
      AppendKeepsDistinct(es, last);
    }
  }

  /** The result names at most three different entries, all recorded and allowed, in order; it leaves out a
      recorded and allowed entry only if it is full, and then each of its entries precedes the one left out. */
  lemma Top3IsRight(found: seq<Found>, allowlist: set<string>)
    requires DistinctValues(found)
    ensures
      var top := Top3(found, allowlist);
      && |top| <= 3 && DistinctValues(top) && InOrder(found, top)
      && (forall x | x in top :: x in found && x.value in allowlist)
      && forall x | x in found && x.value in allowlist && x !in top ::
           |top| == 3 && forall y | y in top :: Precedes(found, y, x)
  {
    var (s, top) := (SortByIndex(found), Top3(found, allowlist));
    SortKeepsDistinct(found);
    SortedInOrder(found);
    SortMembers(found);
    EntriesInOrder(found, s, allowlist);
    AllowedEntriesAre(s, allowlist);
    var es := AllowedEntries(s, allowlist);
    assert top <= es;
    forall x, y | x in es && x !in top && y in top ensures Precedes(found, y, x) {
      var q :| 0 <= q < |es| && es[q] == x;
      var p :| 0 <= p < |top| && top[p] == y;
      assert q >= |top| && es[p] == y;
    }
  }

  // ---- told from the expressions of the table

  /** The match may be recorded: it is no form of `run`, and the rule's guard lets it pass. */
  predicate Passes(rule: TokenRule, hit: Hit) { hit.token !in {"run", "runs", "running"} && rule.guard(hit.index) }

  /** The k-th match is the first that passes. */
  predicate FirstPasses(rule: TokenRule, hits: seq<Hit>, k: nat) {
    k < |hits| && Passes(rule, hits[k]) && forall i | 0 <= i < k :: !Passes(rule, hits[i])
  }

  ghost predicate TokenFinds(length: nat, rule: TokenRule, index: nat)
    requires Scans(rule.exec, length)
  {
    var hits := Hits(rule.exec, length, 0);
    exists k: nat :: FirstPasses(rule, hits, k) && hits[k].index == index
  }

  /** The c-th rule of the table finds its value at this index: a phrase at its first match, if its guard lets that
      pass, a token at the first match that passes, and running at its first match. */
  ghost predicate Finds(text: Text, c: nat, index: nat)
    requires text.Valid()
  {
    var (p, t) := (|text.phrases|, |text.tokens|);
    if c < p then text.phrases[c].exec == Some(index) && text.phrases[c].guard(index)
    else if c < p + t then TokenFinds(text.length, text.tokens[c - p], index)
    else c == p + t && text.runs(0).Some? && text.runs(0).value.index == index
  }

  function ValueAt(text: Text, c: nat): string {
    var (p, t) := (|text.phrases|, |text.tokens|);
    if c < p then text.phrases[c].value else if c < p + t then text.tokens[c - p].value else "running"
  }

  lemma FirstPassesFound(rule: TokenRule, hits: seq<Hit>, index: nat)
    ensures FirstAllowed(rule, hits) == Some(index) <==>
      exists k: nat :: FirstPasses(rule, hits, k) && hits[k].index == index
    decreases |hits|
  {
    if hits != [] {
      var rest := hits[1..];
      FirstPassesFound(rule, rest, index);
      assert forall i | 0 < i < |hits| :: rest[i - 1] == hits[i];
      if k: nat :| FirstPasses(rule, hits, k) && hits[k].index == index {
        if k > 0 {
          assert FirstPasses(rule, rest, k - 1);
        }
      }
      if Passes(rule, hits[0]) {
        assert FirstPasses(rule, hits, 0);
      } else if k: nat :| FirstPasses(rule, rest, k) && rest[k].index == index {
        assert FirstPasses(rule, hits, k + 1);
      }
    }
  }

  lemma CandidateFinds(text: Text, c: nat, index: nat)
    requires text.Valid() && c < |Candidates(text)|
    ensures Candidates(text)[c].index == Some(index) <==> Finds(text, c, index)
    ensures Candidates(text)[c].value == ValueAt(text, c)
  {
    var (p, t) := (|text.phrases|, |text.tokens|);
    if p <= c < p + t {
      var rule := text.tokens[c - p];
      FirstPassesFound(rule, Hits(rule.exec, text.length, 0), index);
    }
  }

  /** The first rule of the table that finds the value finds it at that index. */
  ghost predicate FoundFirst(text: Text, x: Found, c: nat)
    requires text.Valid()
  {
    && Finds(text, c, x.index) && ValueAt(text, c) == x.value
    && forall d: nat, i: nat | d < c && Finds(text, d, i) :: ValueAt(text, d) != x.value
  }

  lemma RecordedByFirst(text: Text, x: Found, c: nat)
    requires text.Valid() && c < |Candidates(text)|
    ensures RecordedBy(Candidates(text), c, x) <==> FoundFirst(text, x, c)
  {
    var cs := Candidates(text);
    CandidateFinds(text, c, x.index);
    forall d: nat, i: nat | d < c
      ensures cs[d].index == Some(i) <==> Finds(text, d, i)
      ensures cs[d].value == ValueAt(text, d)
    {
      CandidateFinds(text, d, i);
    }
    forall d | 0 <= d < c && cs[d].index.Some?
      ensures Finds(text, d, cs[d].index.value) && cs[d].value == ValueAt(text, d)
    {
      CandidateFinds(text, d, cs[d].index.value);
    }
  }

  lemma RecordedIffFound(text: Text, x: Found)
    requires text.Valid()
    ensures x in Recorded(text) <==> exists c: nat :: FoundFirst(text, x, c)
  {
    var cs := Candidates(text);
    RecordedIff(cs, x);
    if c :| RecordedBy(cs, c, x) {
      RecordedByFirst(text, x, c);
    }
    if c: nat :| FoundFirst(text, x, c) {
      RecordedByFirst(text, x, c);
    }
  }

  lemma {:induction false} RecordedInTurn(cs: seq<Candidate>, i: nat, j: nat) returns (c: nat, d: nat)
    requires i < j < |Record([], cs)|
    ensures c < d && RecordedBy(cs, c, Record([], cs)[i]) && RecordedBy(cs, d, Record([], cs)[j])
    decreases |cs|
  {
    var (init, last) := (cs[..|cs| - 1], |cs| - 1);
    var (found, x) := (Record([], init), Record([], cs)[j]);
    if j < |found| {
      c, d := RecordedInTurn(init, i, j);
    } else {
      assert found[i] in found;
      RecordedIff(init, found[i]);
      var k :| RecordedBy(init, k, found[i]);
      ValuesAreFound(init, x.value);
      c, d := k, last;
    }
    assert forall k | 0 <= k < |init| :: init[k] == cs[k];
  }

  /** Values are recorded in the order of the rules that record them, which decides between equal indices. */
  lemma RecordedInRuleOrder(text: Text, i: nat, j: nat) returns (c: nat, d: nat)
    requires text.Valid() && i < j < |Recorded(text)|
    ensures c < d && FoundFirst(text, Recorded(text)[i], c) && FoundFirst(text, Recorded(text)[j], d)
  {
    var cs := Candidates(text);
    c, d := RecordedInTurn(cs, i, j);
    assert RecordedBy(cs, c, Recorded(text)[i]) && RecordedBy(cs, d, Recorded(text)[j]);
    RecordedByFirst(text, Recorded(text)[i], c);
    RecordedByFirst(text, Recorded(text)[j], d);
  }

  /** For the whole function: no more than three different allowed values, and fewer only if there are no more. */
  lemma InterestsTop3IsRight(text: Text, allowlist: set<string>)
    requires text.Valid()
    ensures
      var found := Recorded(text);
      var top := Top3(found, allowlist);
      && |top| <= 3 && DistinctValues(top) && InOrder(found, top)
      && (forall x | x in top :: x.value in allowlist && exists c: nat :: FoundFirst(text, x, c))
      && (forall x, c: nat | FoundFirst(text, x, c) && x.value in allowlist && x !in top ::
            |top| == 3 && forall y | y in top :: Precedes(found, y, x))
  {
    var (cs, found) := (Candidates(text), Recorded(text));
    RecordIsDistinct(cs);
    Top3IsRight(found, allowlist);
    forall x
      ensures x in found <==> exists c: nat :: FoundFirst(text, x, c)
    {
      RecordedIffFound(text, x);
    }
  }
}
