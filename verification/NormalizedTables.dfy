/** The backfill script writes two derived copies of each profile's latest evaluation; the drift script
    recomputes the expected values on its own and compares both copies. */
module NormalizedTables {
  import opened Basics

  type ProfileId = string

  const SIGNAL_KEYS: seq<string> :=
    ["emotionalDepth", "lifestylePace", "conflictStyle", "independence", "socialBattery"]

  // ---- the evaluation document

  /** A JSON value as `Number(value)` sees it. */
  datatype RawSignal = NullOrUndefined | NotFinite | Finite(n: real)

  datatype RawItem = Text(s: string) | NotText

  /** What the scripts read of an evaluation; None stands for a path that is absent or not an array. */
  datatype Evaluation =
    | NotAnObject
    | Evaluation(
        signals: Option<map<string, RawSignal>>,
        interestsTop3: Option<seq<RawItem>>,
        extendedInterests: Option<seq<RawItem>>,
        rawInterests: Option<seq<RawItem>>)

  /** `trim` and `toLowerCase`. */
  datatype TextOps = TextOps(trim: string -> string, lower: string -> string)

  ghost predicate LowerIsIdempotent(ops: TextOps) { forall s :: ops.lower(ops.lower(s)) == ops.lower(s) }

  function ToNullableSignalInt(v: RawSignal): (r: Option<int>)
    ensures r.Some? ==> 1 <= r.value <= 10
  {
    if !v.Finite? then None
    else var rounded := Round(v.n); if rounded < 1 || rounded > 10 then None else Some(rounded)
  }

  function SignalAt(ev: Evaluation, key: string): Option<int> {
    if ev.NotAnObject? || ev.signals.None? || key !in ev.signals.value then None
    else ToNullableSignalInt(ev.signals.value[key])
  }

  /** The first of the three interest lists that is a nonempty array. */
  function Candidate(ev: Evaluation): seq<RawItem> {
    if ev.NotAnObject? then []
    else if ev.interestsTop3.Some? && ev.interestsTop3.value != [] then ev.interestsTop3.value
    else if ev.extendedInterests.Some? && ev.extendedInterests.value != [] then ev.extendedInterests.value
    else if ev.rawInterests.Some? then ev.rawInterests.value
    else []
  }

  /** The first `room` texts, trimmed, that differ from those seen when lower-cased. */
  function Picked(ops: TextOps, items: seq<RawItem>, seen: set<string>, room: nat): seq<string>
    decreases |items|
  {
    if items == [] || room == 0 then []
    else if items[0].NotText? || ops.trim(items[0].s) == "" || ops.lower(ops.trim(items[0].s)) in seen
    then Picked(ops, items[1..], seen, room)
    else
      var t := ops.trim(items[0].s);
      [t] + Picked(ops, items[1..], seen + {ops.lower(t)}, room - 1)
  }

  function Lowered(ops: TextOps, tags: seq<string>): (r: seq<string>)
    ensures |r| == |tags|
  {
    seq(|tags|, i requires 0 <= i < |tags| => ops.lower(tags[i]))
  }

  /** What the writer stores, and what the checker expects before it lower-cases. */
  function WriterInterests(ops: TextOps, ev: Evaluation): seq<string> {
    Lowered(ops, Picked(ops, Candidate(ev), {}, 3))
  }

  function CheckerInterests(ops: TextOps, ev: Evaluation): seq<string> { Picked(ops, Candidate(ev), {}, 3) }

  /** The writer's loop. */
  method PickTopInterests(ops: TextOps, ev: Evaluation) returns (out: seq<string>)
    ensures out == WriterInterests(ops, ev)
  {
    var candidate := Candidate(ev);
    out := [];
    var seen: set<string> := {};
    ghost var picked: seq<string> := [];
    for i := 0 to |candidate|
      invariant |picked| == |out| <= 3 && out == Lowered(ops, picked)
      invariant picked + Picked(ops, candidate[i..], seen, 3 - |out|) == Picked(ops, candidate, {}, 3)
    {
      if |out| >= 3 { break; }
      var item := candidate[i];
      assert candidate[i..][0] == item && candidate[i..][1..] == candidate[i + 1..];
      if item.NotText? { continue; }
      var normalized := ops.trim(item.s);
      if normalized == "" { continue; }
      var key := ops.lower(normalized);
      if key in seen { continue; }
      seen := seen + {key};
      out := out + [key];
      picked := picked + [normalized];
    }
    assert picked == Picked(ops, candidate, {}, 3);
  }

  lemma {:induction false} PickedIsShort(ops: TextOps, items: seq<RawItem>, seen: set<string>, room: nat)
    ensures |Picked(ops, items, seen, room)| <= room
    decreases |items|
  {
    if items != [] && room > 0 {
      PickedIsShort(ops, items[1..], seen, room);
      if items[0].Text? {
        PickedIsShort(ops, items[1..], seen + {ops.lower(ops.trim(items[0].s))}, room - 1);
      }
    }
  }

  predicate DistinctFrom(tags: seq<string>, seen: set<string>) {
    && (forall i | 0 <= i < |tags| :: tags[i] !in seen)
    && (forall i, j | 0 <= i < j < |tags| :: tags[i] != tags[j])
  }

  /** The stored tags are distinct, so the unique index on (profile, tag) never refuses one. */
  lemma {:induction false} PickedAreDistinct(ops: TextOps, items: seq<RawItem>, seen: set<string>, room: nat)
    ensures DistinctFrom(Lowered(ops, Picked(ops, items, seen, room)), seen)
    decreases |items|
  {
    if items != [] && room > 0 {
      if items[0].NotText? || ops.trim(items[0].s) == "" || ops.lower(ops.trim(items[0].s)) in seen {
        PickedAreDistinct(ops, items[1..], seen, room);
      } else {
        var key := ops.lower(ops.trim(items[0].s));
        PickedAreDistinct(ops, items[1..], seen + {key}, room - 1);
        var rest := Lowered(ops, Picked(ops, items[1..], seen + {key}, room - 1));
        assert Lowered(ops, Picked(ops, items, seen, room)) == [key] + rest;
        ConsIsDistinct(key, rest, seen);
      }
    }
  }

  lemma ConsIsDistinct(key: string, rest: seq<string>, seen: set<string>)
    requires DistinctFrom(rest, seen + {key}) && key !in seen
    ensures DistinctFrom([key] + rest, seen)
  {
    forall i | 0 <= i < |rest|
      ensures rest[i] !in seen && rest[i] != key
    {
      assert rest[i] !in seen + {key};
    }
  }

  // ---- what an evaluation says

  /** A signal counts if it rounds to a whole number from 1 to 10: halves go up. */
  lemma SignalIff(v: RawSignal, n: int)
    ensures ToNullableSignalInt(v) == Some(n) <==>
      v.Finite? && 1 <= n <= 10 && n as real - 0.5 <= v.n < n as real + 0.5
  {
    if v.Finite? {
      RoundIsNearest(v.n);
    }
  }

  function Lists(ev: Evaluation): seq<Option<seq<RawItem>>> {
    if ev.NotAnObject? then [] else [ev.interestsTop3, ev.extendedInterests, ev.rawInterests]
  }

  /** The path is absent, or its list is empty. */
  predicate NothingIn(list: Option<seq<RawItem>>) { list == None || list == Some([]) }

  /** The enrichment's interests come before the extended ones and those before the raw ones; only an absent or
      empty list gives way to the next. */
  lemma CandidateIs(ev: Evaluation, i: nat)
    requires i < |Lists(ev)| && FirstOf(ev, i)
    ensures !NothingIn(Lists(ev)[i]) ==> Lists(ev)[i] == Some(Candidate(ev))
    ensures NothingIn(Lists(ev)[i]) && i == 2 ==> Candidate(ev) == []
  {
    var lists := Lists(ev);
    assert i > 0 ==> NothingIn(lists[0]);
    assert i > 1 ==> NothingIn(lists[1]);
  }

  predicate FirstOf(ev: Evaluation, i: nat)
    requires i <= |Lists(ev)|
  {
    forall j | 0 <= j < i :: NothingIn(Lists(ev)[j])
  }

  /** What an item is compared by; None for one that is no text or blank. */
  function KeyOf(ops: TextOps, item: RawItem): Option<string> {
    if item.NotText? || ops.trim(item.s) == "" then None else Some(ops.lower(ops.trim(item.s)))
  }

  /** The item is a tag that has not been seen, before the list or in it. */
  ghost predicate New(ops: TextOps, items: seq<RawItem>, seen: set<string>, i: nat)
    requires i < |items|
  {
    && KeyOf(ops, items[i]).Some? && KeyOf(ops, items[i]).value !in seen
    && forall j | 0 <= j < i :: KeyOf(ops, items[j]) != KeyOf(ops, items[i])
  }

  /** The places of the first `room` new tags. */
  ghost predicate FirstNew(ops: TextOps, items: seq<RawItem>, seen: set<string>, room: nat, places: seq<nat>) {
    && |places| <= room && Increasing(places) && AllNew(ops, items, seen, places)
    && forall i: nat | i < |items| && New(ops, items, seen, i) :: Met(places, room, i)
  }

  function Shifted(places: seq<nat>): (r: seq<nat>)
    ensures |r| == |places| && forall j | 0 <= j < |places| :: r[j] == places[j] + 1
  {
    seq(|places|, j requires 0 <= j < |places| => places[j] + 1)
  }

  lemma NewInRest(ops: TextOps, items: seq<RawItem>, seen: set<string>, i: nat)
    requires 0 < i < |items|
    ensures New(ops, items, seen, i) <==> New(ops, items[1..], Known(ops, items[0], seen), i - 1)
  {
    var rest := items[1..];
    assert rest[i - 1] == items[i] && forall j | 0 <= j < i - 1 :: rest[j] == items[j + 1];
    if New(ops, items, seen, i) {
      forall j | 0 <= j < i - 1
        ensures KeyOf(ops, rest[j]) != KeyOf(ops, rest[i - 1])
      {
        assert rest[j] == items[j + 1];
      }
    }
    if KeyOf(ops, items[0]) != KeyOf(ops, items[i]) &&
       forall j | 0 <= j < i - 1 :: KeyOf(ops, rest[j]) != KeyOf(ops, rest[i - 1])
    {
      forall j | 0 <= j < i
        ensures KeyOf(ops, items[j]) != KeyOf(ops, items[i])
      {
        assert j > 0 ==> items[j] == rest[j - 1];
      }
    }
  }

  function Known(ops: TextOps, item: RawItem, seen: set<string>): set<string> {
    if KeyOf(ops, item).Some? then seen + {KeyOf(ops, item).value} else seen
  }

  ghost predicate AllNew(ops: TextOps, items: seq<RawItem>, seen: set<string>, places: seq<nat>) {
    forall j | 0 <= j < |places| :: places[j] < |items| && New(ops, items, seen, places[j])
  }

  predicate Increasing(places: seq<nat>) { forall j, k | 0 <= j < k < |places| :: places[j] < places[k] }

  /** The item is among the places, or there is no room left when it comes. */
  predicate Met(places: seq<nat>, room: nat, i: nat) {
    i in places || (|places| == room && forall j | 0 <= j < |places| :: places[j] < i)
  }

  lemma ShiftedNew(ops: TextOps, items: seq<RawItem>, seen: set<string>, rest: seq<nat>)
    requires items != [] && AllNew(ops, items[1..], Known(ops, items[0], seen), rest)
    ensures AllNew(ops, items, seen, Shifted(rest))
  {
    var up := Shifted(rest);
    forall j | 0 <= j < |up|
      ensures up[j] < |items| && New(ops, items, seen, up[j])
    {
      NewInRest(ops, items, seen, up[j]);
    }
  }

  lemma ShiftedMet(rest: seq<nat>, room: nat, taken: bool, i: nat)
    requires room > 0 && i > 0 && Met(rest, if taken then room - 1 else room, i - 1)
    ensures Met((if taken then [0] else []) + Shifted(rest), room, i)
  {
    var (up, first) := (Shifted(rest), if taken then [0] else []);
    if i - 1 in rest {
      var j :| 0 <= j < |rest| && rest[j] == i - 1;
      assert up[j] == i && (first + up)[|first| + j] == i;
    }
  }

  lemma FirstNewInRest(ops: TextOps, items: seq<RawItem>, seen: set<string>, room: nat, rest: seq<nat>, taken: bool)
    requires items != [] && room > 0 && taken == New(ops, items, seen, 0)
    requires FirstNew(ops, items[1..], Known(ops, items[0], seen), if taken then room - 1 else room, rest)
    ensures FirstNew(ops, items, seen, room, (if taken then [0] else []) + Shifted(rest))
  {
    var all := (if taken then [0] else []) + Shifted(rest);
    ShiftedNew(ops, items, seen, rest);
    forall i: nat | i < |items| && New(ops, items, seen, i)
      ensures Met(all, room, i)
    {
      if i > 0 {
        NewInRest(ops, items, seen, i);
        ShiftedMet(rest, room, taken, i);
      } else {
        assert all[0] == 0;
      }
    }
  }

  /** The tags are the trimmed texts at these places. */
  predicate TagsAt(ops: TextOps, items: seq<RawItem>, places: seq<nat>, tags: seq<string>) {
    && |places| == |tags|
    && forall j | 0 <= j < |places| ::
         places[j] < |items| && items[places[j]].Text? && tags[j] == ops.trim(items[places[j]].s)
  }

  lemma ShiftedTags(ops: TextOps, items: seq<RawItem>, places: seq<nat>, tags: seq<string>)
    requires items != [] && TagsAt(ops, items[1..], places, tags)
    ensures TagsAt(ops, items, Shifted(places), tags)
    ensures items[0].Text? ==> TagsAt(ops, items, [0] + Shifted(places), [ops.trim(items[0].s)] + tags)
  {
    assert forall j | 0 <= j < |places| :: items[Shifted(places)[j]] == items[1..][places[j]];
  }

  /** The tags are the first three that are new, trimmed. */
  lemma {:induction false} PickedAreFirstNew(ops: TextOps, items: seq<RawItem>, seen: set<string>, room: nat)
    returns (places: seq<nat>)
    ensures FirstNew(ops, items, seen, room, places)
    ensures TagsAt(ops, items, places, Picked(ops, items, seen, room))
    decreases |items|
  {
    if items == [] || room == 0 {
      places := [];
    } else {
      var (known, taken) := (Known(ops, items[0], seen), New(ops, items, seen, 0));
      var left := if taken then room - 1 else room;
      var rest := PickedAreFirstNew(ops, items[1..], known, left);
      FirstNewInRest(ops, items, seen, room, rest, taken);
      places := (if taken then [0] else []) + Shifted(rest);
      PickedStep(ops, items, seen, room, taken);
      ShiftedTags(ops, items, rest, Picked(ops, items[1..], known, left));
      assert !taken ==> places == Shifted(rest);
    }
  }

  lemma PickedStep(ops: TextOps, items: seq<RawItem>, seen: set<string>, room: nat, taken: bool)
    requires items != [] && room > 0 && taken == New(ops, items, seen, 0)
    ensures taken ==> items[0].Text?
    ensures
      var rest := Picked(ops, items[1..], Known(ops, items[0], seen), if taken then room - 1 else room);
      Picked(ops, items, seen, room) == if taken then [ops.trim(items[0].s)] + rest else rest
  {
    assert !taken ==> Known(ops, items[0], seen) == seen;
  }

  // ---- the tables

  datatype ProfileRow = ProfileRow(interestsTop: seq<string>, sig: map<string, Option<int>>)

  datatype SignalRow = SignalRow(value: int, evalVersion: string)

  type SignalRows = map<(ProfileId, string), SignalRow>

  datatype InterestRow = InterestRow(tag: string, rank: int, evalVersion: string)

  datatype Tables = Tables(
    profiles: map<ProfileId, ProfileRow>,
    signals: SignalRows,
    interests: map<ProfileId, seq<InterestRow>>)

  /** The denormalised columns of an evaluation. */
  function Columns(ops: TextOps, ev: Evaluation): ProfileRow {
    ProfileRow(WriterInterests(ops, ev), map k | k in SIGNAL_KEYS :: SignalAt(ev, k))
  }

  /** The upsert loop over the keys. */
  function Upserted(signals: SignalRows, id: ProfileId, ev: Evaluation, version: string, keys: seq<string>)
    : SignalRows
  {
    if keys == [] then signals
    else
      var before := Upserted(signals, id, ev, version, keys[..|keys| - 1]);
      var v := SignalAt(ev, keys[|keys| - 1]);
      if v.None? then before else before[(id, keys[|keys| - 1]) := SignalRow(v.value, version)]
  }

  function Ranked(tags: seq<string>, version: string): seq<InterestRow> {
    seq(|tags|, i requires 0 <= i < |tags| => InterestRow(tags[i], i + 1, version))
  }

  /** The whole write for one profile. */
  function Backfilled(ops: TextOps, t: Tables, id: ProfileId, ev: Evaluation, version: string): Tables
    requires id in t.profiles
  {
    Tables(t.profiles[id := Columns(ops, ev)],
           Upserted(t.signals, id, ev, version, SIGNAL_KEYS),
           t.interests[id := Ranked(WriterInterests(ops, ev), version)])
  }

  // ---- the check

  function InsertByRank(row: InterestRow, rows: seq<InterestRow>): seq<InterestRow> {
    if rows == [] || row.rank <= rows[0].rank then [row] + rows
    else [rows[0]] + InsertByRank(row, rows[1..])
  }

  /** `orderBy: { rank: 'asc' }`. */
  function ByRank(rows: seq<InterestRow>): seq<InterestRow> {
    if rows == [] then [] else InsertByRank(rows[0], ByRank(rows[1..]))
  }

  /** `orderBy: { rank: 'asc' }, take: 3`, as tags. */
  function StoredTags(t: Tables, id: ProfileId): seq<string> {
    if id !in t.interests then []
    else
      var rows := ByRank(t.interests[id]);
      seq(if |rows| < 3 then |rows| else 3, i requires 0 <= i < |rows| => rows[i].tag)
  }

  function StoredSignal(t: Tables, id: ProfileId, key: string): Option<int> {
    if (id, key) in t.signals then Some(t.signals[(id, key)].value) else None
  }

  function Column(row: ProfileRow, key: string): Option<int> { if key in row.sig then row.sig[key] else None }

  /** The findings of the drift check on one profile. */
  datatype Drift = Drift(
    signalDrift: bool, denormMissing: bool, normalizedMissing: bool, interestDrift: bool, casingDrift: bool)

  predicate ColumnDiffers(t: Tables, id: ProfileId, ev: Evaluation, key: string)
    requires id in t.profiles
  {
    SignalAt(ev, key) != Column(t.profiles[id], key)
  }

  predicate SignalRowDiffers(t: Tables, id: ProfileId, ev: Evaluation, key: string) {
    SignalAt(ev, key) != StoredSignal(t, id, key)
  }

  predicate CasingDiffers(ops: TextOps, tags: seq<string>, expected: seq<string>) {
    exists i | 0 <= i < |tags| :: tags[i] != ops.lower(tags[i]) && (i >= |expected| || expected[i] != tags[i])
  }

  function Checked(ops: TextOps, t: Tables, id: ProfileId, ev: Evaluation): Drift
    requires id in t.profiles
  {
    var denorm := exists i | 0 <= i < |SIGNAL_KEYS| :: ColumnDiffers(t, id, ev, SIGNAL_KEYS[i]);
    var normalized := exists i | 0 <= i < |SIGNAL_KEYS| :: SignalRowDiffers(t, id, ev, SIGNAL_KEYS[i]);
    var tags := t.profiles[id].interestsTop;
    var expectedLower := Lowered(ops, CheckerInterests(ops, ev));
    Drift(denorm || normalized, denorm, normalized,
          expectedLower != Lowered(ops, tags) || expectedLower != Lowered(ops, StoredTags(t, id)),
          CasingDiffers(ops, tags, CheckerInterests(ops, ev)))
  }

  // ---- what the check finds

  predicate ColumnAgrees(row: ProfileRow, ev: Evaluation, key: string) {
    if SignalAt(ev, key).Some? then key in row.sig && row.sig[key] == SignalAt(ev, key)
    else key in row.sig ==> row.sig[key] == None
  }

  predicate RowAgrees(t: Tables, id: ProfileId, ev: Evaluation, key: string) {
    if SignalAt(ev, key).Some? then (id, key) in t.signals && t.signals[(id, key)].value == SignalAt(ev, key).value
    else (id, key) !in t.signals
  }

  ghost predicate SameButForCase(ops: TextOps, xs: seq<string>, ys: seq<string>) {
    |xs| == |ys| && forall i | 0 <= i < |xs| :: ops.lower(xs[i]) == ops.lower(ys[i])
  }

  lemma SameButForCaseIff(ops: TextOps, xs: seq<string>, ys: seq<string>)
    ensures SameButForCase(ops, xs, ys) <==> Lowered(ops, xs) == Lowered(ops, ys)
  {
    var (us, vs) := (Lowered(ops, xs), Lowered(ops, ys));
    if us == vs {
      forall i | 0 <= i < |xs|
        ensures ops.lower(xs[i]) == ops.lower(ys[i])
      {
        assert us[i] == vs[i];
      }
    }
  }

  lemma ColumnsAgreeIff(t: Tables, id: ProfileId, ev: Evaluation, key: string)
    requires id in t.profiles
    ensures ColumnDiffers(t, id, ev, key) <==> !ColumnAgrees(t.profiles[id], ev, key)
    ensures SignalRowDiffers(t, id, ev, key) <==> !RowAgrees(t, id, ev, key)
  {}

  /** Exactly what each flag of the check says. */
  lemma CheckFindsIff(ops: TextOps, t: Tables, id: ProfileId, ev: Evaluation)
    requires id in t.profiles
    ensures
      var (d, row, expected) := (Checked(ops, t, id, ev), t.profiles[id], Picked(ops, Candidate(ev), {}, 3));
      && (d.denormMissing <==> exists i :: 0 <= i < |SIGNAL_KEYS| && !ColumnAgrees(row, ev, SIGNAL_KEYS[i]))
      && (d.normalizedMissing <==> exists i :: 0 <= i < |SIGNAL_KEYS| && !RowAgrees(t, id, ev, SIGNAL_KEYS[i]))
      && (d.signalDrift <==> d.denormMissing || d.normalizedMissing)
      && (d.interestDrift <==>
            !SameButForCase(ops, expected, row.interestsTop) || !SameButForCase(ops, expected, StoredTags(t, id)))
      && (d.casingDrift <==> exists i :: 0 <= i < |row.interestsTop| && OddlyCased(ops, row.interestsTop, expected, i))
  {
    SameButForCaseIff(ops, Picked(ops, Candidate(ev), {}, 3), t.profiles[id].interestsTop);
    SameButForCaseIff(ops, Picked(ops, Candidate(ev), {}, 3), StoredTags(t, id));
    forall i | 0 <= i < |SIGNAL_KEYS|
      ensures ColumnDiffers(t, id, ev, SIGNAL_KEYS[i]) <==> !ColumnAgrees(t.profiles[id], ev, SIGNAL_KEYS[i])
      ensures SignalRowDiffers(t, id, ev, SIGNAL_KEYS[i]) <==> !RowAgrees(t, id, ev, SIGNAL_KEYS[i])
    {
      ColumnsAgreeIff(t, id, ev, SIGNAL_KEYS[i]);
    }
    CasingDriftIff(ops, t.profiles[id].interestsTop, Picked(ops, Candidate(ev), {}, 3));
  }

  /** The stored tag has capitals, and is not what the evaluation has at its place. */
  predicate OddlyCased(ops: TextOps, tags: seq<string>, expected: seq<string>, i: nat)
    requires i < |tags|
  {
    ops.lower(tags[i]) != tags[i] && !(i < |expected| && expected[i] == tags[i])
  }

  lemma CasingDriftIff(ops: TextOps, tags: seq<string>, expected: seq<string>)
    ensures CasingDiffers(ops, tags, expected) <==> exists i :: 0 <= i < |tags| && OddlyCased(ops, tags, expected, i)
  {
    if CasingDiffers(ops, tags, expected) {
      var i :| 0 <= i < |tags| && tags[i] != ops.lower(tags[i]) && (i >= |expected| || expected[i] != tags[i]);
      assert OddlyCased(ops, tags, expected, i);
    }
  }

  lemma {:induction false} InsertedRows(row: InterestRow, rows: seq<InterestRow>)
    ensures multiset(InsertByRank(row, rows)) == multiset(rows) + multiset{row}
    ensures InsertByRank(row, rows) != []
    decreases |rows|
  {
    if rows != [] && row.rank > rows[0].rank {
      InsertedRows(row, rows[1..]);
      assert rows == [rows[0]] + rows[1..];
    }
  }

  lemma {:induction false} InsertedInOrder(row: InterestRow, rows: seq<InterestRow>)
    requires InOrder(rows)
    ensures InOrder(InsertByRank(row, rows))
    decreases |rows|
  {
    if rows == [] || row.rank <= rows[0].rank {
      ConsInOrder(row, rows);
    } else {
      var rest := InsertByRank(row, rows[1..]);
      InsertedInOrder(row, rows[1..]);
      InsertedRows(row, rows[1..]);
      forall r | r in rest
        ensures rows[0].rank <= r.rank
      {
        assert r in multiset(rest);
        assert r == row || r in multiset(rows[1..]);
      }
      ConsInOrder(rows[0], rest);
    }
  }

  lemma ConsInOrder(row: InterestRow, rows: seq<InterestRow>)
    requires InOrder(rows) && (rows != [] ==> row.rank <= rows[0].rank || forall r | r in rows :: row.rank <= r.rank)
    ensures InOrder([row] + rows)
  {
    forall i | 0 <= i < |rows|
      ensures row.rank <= rows[i].rank
    {
      assert i > 0 ==> rows[0].rank <= rows[i].rank;
    }
  }

  predicate InOrder(rows: seq<InterestRow>) { forall i, j | 0 <= i < j < |rows| :: rows[i].rank <= rows[j].rank }

  /** The rows that the check reads are those of the table, by rank. */
  lemma {:induction false} ByRankSorts(rows: seq<InterestRow>)
    ensures InOrder(ByRank(rows)) && multiset(ByRank(rows)) == multiset(rows)
    decreases |rows|
  {
    if rows != [] {
      ByRankSorts(rows[1..]);
      InsertedInOrder(rows[0], ByRank(rows[1..]));
      InsertedRows(rows[0], ByRank(rows[1..]));
      assert rows == [rows[0]] + rows[1..];
    }
  }

  // ---- writer against checker

  lemma {:induction false} UpsertedRows(signals: SignalRows, id: ProfileId, ev: Evaluation, version: string,
                                        keys: seq<string>, p: ProfileId, k: string)
    ensures
      var after := Upserted(signals, id, ev, version, keys);
      if p == id && k in keys && SignalAt(ev, k).Some?
      then (p, k) in after && after[(p, k)] == SignalRow(SignalAt(ev, k).value, version)
      else ((p, k) in after <==> (p, k) in signals) && ((p, k) in signals ==> after[(p, k)] == signals[(p, k)])
    decreases |keys|
  {
    if keys != [] {
      UpsertedRows(signals, id, ev, version, keys[..|keys| - 1], p, k);
      assert keys == keys[..|keys| - 1] + [keys[|keys| - 1]];
    }
  }

  lemma {:induction false} RankedIsByRank(rows: seq<InterestRow>)
    requires forall i, j | 0 <= i < j < |rows| :: rows[i].rank <= rows[j].rank
    ensures ByRank(rows) == rows
  {
    if rows != [] {
      RankedIsByRank(rows[1..]);
      assert rows == [rows[0]] + rows[1..];
    }
  }

  lemma LoweredTwice(ops: TextOps, tags: seq<string>)
    requires LowerIsIdempotent(ops)
    ensures Lowered(ops, Lowered(ops, tags)) == Lowered(ops, tags)
  {}

  lemma StoredTagsAfterWrite(ops: TextOps, t: Tables, id: ProfileId, ev: Evaluation, version: string)
    requires id in t.profiles
    ensures StoredTags(Backfilled(ops, t, id, ev, version), id) == WriterInterests(ops, ev)
  {
    PickedIsShort(ops, Candidate(ev), {}, 3);
    RankedIsByRank(Ranked(WriterInterests(ops, ev), version));
  }

  /** A stored signal row whose key the latest evaluation no longer has. */
  predicate Orphaned(t: Tables, id: ProfileId, ev: Evaluation, key: string) {
    (id, key) in t.signals && SignalAt(ev, key).None?
  }

  predicate HasOrphan(t: Tables, id: ProfileId, ev: Evaluation) {
    exists i | 0 <= i < |SIGNAL_KEYS| :: Orphaned(t, id, ev, SIGNAL_KEYS[i])
  }

  /** Right after the write the check finds signal drift exactly if an orphaned row was there before;
      columns, interests and casing always agree. */
  lemma CheckAfterBackfill(ops: TextOps, t: Tables, id: ProfileId, ev: Evaluation, version: string)
    requires LowerIsIdempotent(ops) && id in t.profiles
    ensures
      var orphan := HasOrphan(t, id, ev);
      Checked(ops, Backfilled(ops, t, id, ev, version), id, ev) == Drift(orphan, false, orphan, false, false)
  {
    var after := Backfilled(ops, t, id, ev, version);
    forall i | 0 <= i < |SIGNAL_KEYS|
      ensures !ColumnDiffers(after, id, ev, SIGNAL_KEYS[i])
      ensures SignalRowDiffers(after, id, ev, SIGNAL_KEYS[i]) <==> Orphaned(t, id, ev, SIGNAL_KEYS[i])
    {
      UpsertedRows(t.signals, id, ev, version, SIGNAL_KEYS, id, SIGNAL_KEYS[i]);
    }
    StoredTagsAfterWrite(ops, t, id, ev, version);
    LoweredTwice(ops, CheckerInterests(ops, ev));
    assert after.profiles[id].interestsTop == Lowered(ops, CheckerInterests(ops, ev));
  }

  /** A second write of the same evaluation changes nothing. */
  lemma BackfillIsIdempotent(ops: TextOps, t: Tables, id: ProfileId, ev: Evaluation, version: string)
    requires id in t.profiles
    ensures Backfilled(ops, Backfilled(ops, t, id, ev, version), id, ev, version) == Backfilled(ops, t, id, ev, version)
  {
    var once := Backfilled(ops, t, id, ev, version);
    var twice := Backfilled(ops, once, id, ev, version);
    forall row: (ProfileId, string)
      ensures row in twice.signals <==> row in once.signals
      ensures row in once.signals ==> twice.signals[row] == once.signals[row]
    {
      UpsertedRows(t.signals, id, ev, version, SIGNAL_KEYS, row.0, row.1);
      UpsertedRows(once.signals, id, ev, version, SIGNAL_KEYS, row.0, row.1);
    }
    assert twice.signals == once.signals;
  }

  /** Writing one profile leaves every other profile's check as it was. */
  lemma BackfillKeepsOthers(ops: TextOps, t: Tables, id: ProfileId, ev: Evaluation, version: string,
                            other: ProfileId, otherEv: Evaluation)
    requires id in t.profiles && other in t.profiles && other != id
    ensures Checked(ops, Backfilled(ops, t, id, ev, version), other, otherEv) == Checked(ops, t, other, otherEv)
    ensures HasOrphan(Backfilled(ops, t, id, ev, version), other, otherEv) == HasOrphan(t, other, otherEv)
  {
    var after := Backfilled(ops, t, id, ev, version);
    forall i | 0 <= i < |SIGNAL_KEYS|
      ensures StoredSignal(after, other, SIGNAL_KEYS[i]) == StoredSignal(t, other, SIGNAL_KEYS[i])
      ensures Orphaned(after, other, otherEv, SIGNAL_KEYS[i]) == Orphaned(t, other, otherEv, SIGNAL_KEYS[i])
      ensures
        SignalRowDiffers(after, other, otherEv, SIGNAL_KEYS[i]) == SignalRowDiffers(t, other, otherEv, SIGNAL_KEYS[i])
      ensures ColumnDiffers(after, other, otherEv, SIGNAL_KEYS[i]) == ColumnDiffers(t, other, otherEv, SIGNAL_KEYS[i])
    {
      UpsertedRows(t.signals, id, ev, version, SIGNAL_KEYS, other, SIGNAL_KEYS[i]);
    }
    assert StoredTags(after, other) == StoredTags(t, other);
  }

  // ---- whole runs of the two scripts

  /** An analysed profile with its latest evaluation, if it has one. */
  datatype Job = Job(id: ProfileId, latest: Option<Evaluation>, version: string)

  /** The writer treats a missing evaluation like a document that is not an object. */
  function EvaluationOf(job: Job): Evaluation { if job.latest.Some? then job.latest.value else NotAnObject }

  predicate AllIn(t: Tables, jobs: seq<Job>) { forall i | 0 <= i < |jobs| :: jobs[i].id in t.profiles }

  function BackfilledAll(ops: TextOps, t: Tables, jobs: seq<Job>): (after: Tables)
    requires AllIn(t, jobs)
    ensures after.profiles.Keys == t.profiles.Keys
    decreases |jobs|
  {
    if jobs == [] then t
    else BackfilledAll(ops, Backfilled(ops, t, jobs[0].id, EvaluationOf(jobs[0]), jobs[0].version), jobs[1..])
  }

  /** What the drift script counts: profiles with signal drift and profiles with interest drift. */
  datatype Report = Report(
    signalDrift: nat, interestDrift: nat, casingDrift: nat, denormMissing: nat, normalizedMissing: nat)

  function One(b: bool): nat { if b then 1 else 0 }

  function Counted(r: Report, d: Drift): Report {
    Report(r.signalDrift + One(d.signalDrift), r.interestDrift + One(d.interestDrift),
           r.casingDrift + One(d.casingDrift), r.denormMissing + One(d.denormMissing),
           r.normalizedMissing + One(d.normalizedMissing))
  }

  /** What the check finds of each profile; one without an evaluation is only listed as a sample. */
  function Findings(ops: TextOps, t: Tables, jobs: seq<Job>): (ds: seq<Option<Drift>>)
    requires AllIn(t, jobs)
    ensures |ds| == |jobs|
    ensures forall i | 0 <= i < |jobs| :: ds[i] == FindingOf(ops, t, jobs[i])
  {
    seq(|jobs|, i requires 0 <= i < |jobs| => FindingOf(ops, t, jobs[i]))
  }

  function FindingOf(ops: TextOps, t: Tables, job: Job): Option<Drift>
    requires job.id in t.profiles
  {
    if job.latest.None? then None else Some(Checked(ops, t, job.id, job.latest.value))
  }

  function Tally(ds: seq<Option<Drift>>): Report {
    if ds == [] then Report(0, 0, 0, 0, 0)
    else
      var (before, last) := (Tally(ds[..|ds| - 1]), ds[|ds| - 1]);
      if last.None? then before else Counted(before, last.value)
  }

  function Validated(ops: TextOps, t: Tables, jobs: seq<Job>): Report
    requires AllIn(t, jobs)
  {
    Tally(Findings(ops, t, jobs))
  }

  predicate HeldOrphan(t: Tables, job: Job) { job.latest.Some? && HasOrphan(t, job.id, job.latest.value) }

  function Sum(ns: seq<nat>): nat { if ns == [] then 0 else Sum(ns[..|ns| - 1]) + ns[|ns| - 1] }

  /** 1 for each profile that holds an orphaned row. */
  function OrphanCounts(t: Tables, jobs: seq<Job>): (ns: seq<nat>)
    ensures |ns| == |jobs|
    ensures forall i | 0 <= i < |jobs| :: ns[i] == One(HeldOrphan(t, jobs[i]))
  {
    seq(|jobs|, i requires 0 <= i < |jobs| => One(HeldOrphan(t, jobs[i])))
  }

  /** The number of profiles that hold an orphaned row. */
  function Orphans(t: Tables, jobs: seq<Job>): nat { Sum(OrphanCounts(t, jobs)) }

  ghost predicate DistinctIds(jobs: seq<Job>) { forall i, j | 0 <= i < j < |jobs| :: jobs[i].id != jobs[j].id }

  lemma {:induction false} BackfillAllKeepsOthers(ops: TextOps, t: Tables, jobs: seq<Job>, other: ProfileId,
                                                  ev: Evaluation)
    requires AllIn(t, jobs) && other in t.profiles
    requires forall i | 0 <= i < |jobs| :: jobs[i].id != other
    ensures Checked(ops, BackfilledAll(ops, t, jobs), other, ev) == Checked(ops, t, other, ev)
    decreases |jobs|
  {
    if jobs != [] {
      BackfillKeepsOthers(ops, t, jobs[0].id, EvaluationOf(jobs[0]), jobs[0].version, other, ev);
      var once := Backfilled(ops, t, jobs[0].id, EvaluationOf(jobs[0]), jobs[0].version);
      BackfillAllKeepsOthers(ops, once, jobs[1..], other, ev);
    }
  }

  /** After the backfill of all profiles the check of each one still finds only what its orphans cause. */
  lemma {:induction false} CheckAfterBackfillAll(ops: TextOps, t: Tables, jobs: seq<Job>, i: nat)
    requires LowerIsIdempotent(ops) && AllIn(t, jobs) && DistinctIds(jobs) && i < |jobs|
    ensures
      var (ev, orphan) := (EvaluationOf(jobs[i]), HasOrphan(t, jobs[i].id, EvaluationOf(jobs[i])));
      Checked(ops, BackfilledAll(ops, t, jobs), jobs[i].id, ev) == Drift(orphan, false, orphan, false, false)
    decreases |jobs|
  {
    var (first, ev) := (jobs[0], EvaluationOf(jobs[0]));
    var once := Backfilled(ops, t, first.id, ev, first.version);
    if i == 0 {
      CheckAfterBackfill(ops, t, first.id, ev, first.version);
      BackfillAllKeepsOthers(ops, once, jobs[1..], first.id, ev);
    } else {
      CheckAfterBackfillAll(ops, once, jobs[1..], i - 1);
      BackfillKeepsOthers(ops, t, first.id, ev, first.version, jobs[i].id, EvaluationOf(jobs[i]));
    }
  }

  /** Nothing but the drift that n orphaned profiles cause, n being 0 or 1. */
  predicate OnlyOrphan(d: Option<Drift>, n: nat) {
    if d.None? then n == 0 else n <= 1 && d.value == Drift(n == 1, false, n == 1, false, false)
  }

  lemma CountedOrphan(m: nat, d: Option<Drift>, n: nat)
    requires OnlyOrphan(d, n)
    ensures
      var r := Report(m, 0, 0, 0, m);
      (if d.None? then r else Counted(r, d.value)) == Report(m + n, 0, 0, 0, m + n)
  {}

  lemma {:induction false} TallyOfOrphans(ds: seq<Option<Drift>>, ns: seq<nat>)
    requires |ds| == |ns| && forall i | 0 <= i < |ds| :: OnlyOrphan(ds[i], ns[i])
    ensures Tally(ds) == Report(Sum(ns), 0, 0, 0, Sum(ns))
    decreases |ds|
  {
    if ds != [] {
      var k := |ds| - 1;
      TallyOfOrphans(ds[..k], ns[..k]);
      assert OnlyOrphan(ds[k], ns[k]);
      CountedOrphan(Sum(ns[..k]), ds[k], ns[k]);
    }
  }

  lemma FindingAfterBackfillAll(ops: TextOps, t: Tables, jobs: seq<Job>, i: nat)
    requires LowerIsIdempotent(ops) && AllIn(t, jobs) && DistinctIds(jobs) && i < |jobs|
    ensures OnlyOrphan(FindingOf(ops, BackfilledAll(ops, t, jobs), jobs[i]), One(HeldOrphan(t, jobs[i])))
  {
    CheckAfterBackfillAll(ops, t, jobs, i);
  }

  /** A backfill of all profiles followed by the drift script: the script reports exactly the profiles
      that held orphaned signal rows before, so it exits with success if and only if there were none. */
  lemma DriftAfterFullBackfill(ops: TextOps, t: Tables, jobs: seq<Job>)
    requires LowerIsIdempotent(ops) && AllIn(t, jobs) && DistinctIds(jobs)
    ensures Validated(ops, BackfilledAll(ops, t, jobs), jobs) == Report(Orphans(t, jobs), 0, 0, 0, Orphans(t, jobs))
  {
    var after := BackfilledAll(ops, t, jobs);
    var (ds, ns) := (Findings(ops, after, jobs), OrphanCounts(t, jobs));
    forall i | 0 <= i < |jobs|
      ensures OnlyOrphan(ds[i], ns[i])
    {
      FindingAfterBackfillAll(ops, t, jobs, i);
    }
    TallyOfOrphans(ds, ns);
  }

  datatype Flag = OfSignals | OfInterests | OfCasing | OfColumns | OfRows

  predicate Raised(d: Drift, flag: Flag) {
    match flag
    case OfSignals => d.signalDrift
    case OfInterests => d.interestDrift
    case OfCasing => d.casingDrift
    case OfColumns => d.denormMissing
    case OfRows => d.normalizedMissing
  }

  /** The places of the findings with a flag. */
  ghost function Flagged(ds: seq<Option<Drift>>, flag: Flag): set<int> {
    set i | 0 <= i < |ds| && ds[i].Some? && Raised(ds[i].value, flag)
  }

  lemma FlaggedLast(ds: seq<Option<Drift>>, flag: Flag)
    requires ds != []
    ensures
      var (k, last) := (|ds| - 1, ds[|ds| - 1]);
      |Flagged(ds, flag)| == |Flagged(ds[..k], flag)| + One(last.Some? && Raised(last.value, flag))
  {
    var (rest, k) := (ds[..|ds| - 1], |ds| - 1);
    assert forall i | 0 <= i < k :: rest[i] == ds[i];
    var (all, before) := (Flagged(ds, flag), Flagged(rest, flag));
    assert forall i | i in before :: i in all;
    assert all == before + if ds[k].Some? && Raised(ds[k].value, flag) then {k} else {};
  }

  /** Each count of the report is the number of profiles with that flag. */
  lemma {:induction false} TallyCounts(ds: seq<Option<Drift>>)
    ensures
      Tally(ds) == Report(
        |Flagged(ds, OfSignals)|, |Flagged(ds, OfInterests)|, |Flagged(ds, OfCasing)|,
        |Flagged(ds, OfColumns)|, |Flagged(ds, OfRows)|)
    decreases |ds|
  {
    if ds != [] {
      TallyCounts(ds[..|ds| - 1]);
      FlaggedLast(ds, OfSignals);
      FlaggedLast(ds, OfInterests);
      FlaggedLast(ds, OfCasing);
      FlaggedLast(ds, OfColumns);
      FlaggedLast(ds, OfRows);
    }
  }

  // ---- what the write leaves

  /** Row by row: the columns, the signals that have a value with the version of the evaluation, the interests
      ranked from 1, and everything else as it was. */
  lemma BackfillWrites(ops: TextOps, t: Tables, id: ProfileId, ev: Evaluation, version: string,
                       p: ProfileId, k: string)
    requires id in t.profiles
    ensures
      var (u, tags) := (Backfilled(ops, t, id, ev, version), Picked(ops, Candidate(ev), {}, 3));
      && u.profiles.Keys == t.profiles.Keys
      && (p in t.profiles && p != id ==> u.profiles[p] == t.profiles[p])
      && (k in SIGNAL_KEYS ==> ColumnAgrees(u.profiles[id], ev, k))
      && (if p == id && k in SIGNAL_KEYS && SignalAt(ev, k).Some?
          then (p, k) in u.signals && u.signals[(p, k)] == SignalRow(SignalAt(ev, k).value, version)
          else ((p, k) in u.signals <==> (p, k) in t.signals)
               && ((p, k) in t.signals ==> u.signals[(p, k)] == t.signals[(p, k)]))
      && id in u.interests && |u.interests[id]| == |u.profiles[id].interestsTop| == |tags|
      && (forall i | 0 <= i < |tags| ::
            u.profiles[id].interestsTop[i] == ops.lower(tags[i]) &&
            u.interests[id][i] == InterestRow(ops.lower(tags[i]), i + 1, version))
      && (p != id ==> (p in u.interests <==> p in t.interests)
                      && (p in t.interests ==> u.interests[p] == t.interests[p]))
  {
    UpsertedRows(t.signals, id, ev, version, SIGNAL_KEYS, p, k);
  }

  // ---- the scripts

  class Database {
    var profiles: map<ProfileId, ProfileRow>
    var signals: SignalRows
    var interests: map<ProfileId, seq<InterestRow>>

    ghost function View(): Tables
      reads this
    {
      Tables(profiles, signals, interests)
    }

    method UpsertSignals(id: ProfileId, ev: Evaluation, version: string)
      modifies this`signals
      ensures signals == Upserted(old(signals), id, ev, version, SIGNAL_KEYS)
    {
      for i := 0 to |SIGNAL_KEYS|
        invariant signals == Upserted(old(signals), id, ev, version, SIGNAL_KEYS[..i])
      {
        assert SIGNAL_KEYS[..i + 1][..i] == SIGNAL_KEYS[..i];
        var v := SignalAt(ev, SIGNAL_KEYS[i]);
        if v.None? { continue; }
        signals := signals[(id, SIGNAL_KEYS[i]) := SignalRow(v.value, version)];
      }
      assert SIGNAL_KEYS[..|SIGNAL_KEYS|] == SIGNAL_KEYS;
    }

    method ReplaceInterests(id: ProfileId, tags: seq<string>, version: string)
      modifies this`interests
      ensures interests == old(interests)[id := Ranked(tags, version)]
    {
      var rows: seq<InterestRow> := [];
      interests := interests[id := rows];
      for i := 0 to |tags|
        invariant rows == Ranked(tags, version)[..i]
        invariant interests == old(interests)[id := rows]
      {
        rows := rows + [InterestRow(tags[i], i + 1, version)];
        interests := interests[id := rows];
      }
      assert Ranked(tags, version)[..|tags|] == Ranked(tags, version);
    }

    /** The transaction of the backfill script for one profile. */
    method WriteProfile(ops: TextOps, id: ProfileId, ev: Evaluation, version: string)
      requires id in profiles
      modifies this
      ensures View() == Backfilled(ops, old(View()), id, ev, version)
    {
      var tags := PickTopInterests(ops, ev);
      profiles := profiles[id := ProfileRow(tags, map k | k in SIGNAL_KEYS :: SignalAt(ev, k))];
      UpsertSignals(id, ev, version);
      ReplaceInterests(id, tags, version);
    }

    /** The drift check of one profile. */
    method CheckProfile(ops: TextOps, id: ProfileId, ev: Evaluation) returns (d: Drift)
      requires id in profiles
      ensures d == Checked(ops, View(), id, ev)
    {
      var hasSignalDrift, hasDenormMissing, hasNormalizedMissing := false, false, false;
      for i := 0 to |SIGNAL_KEYS|
        invariant hasDenormMissing <==> exists j | 0 <= j < i :: ColumnDiffers(View(), id, ev, SIGNAL_KEYS[j])
        invariant hasNormalizedMissing <==> exists j | 0 <= j < i :: SignalRowDiffers(View(), id, ev, SIGNAL_KEYS[j])
        invariant hasSignalDrift == (hasDenormMissing || hasNormalizedMissing)
      {
        var key := SIGNAL_KEYS[i];
        var expected := SignalAt(ev, key);
        if expected != Column(profiles[id], key) {
          hasSignalDrift, hasDenormMissing := true, true;
        }
        if expected != (if (id, key) in signals then Some(signals[(id, key)].value) else None) {
          hasSignalDrift, hasNormalizedMissing := true, true;
        }
      }
      var denorm := profiles[id].interestsTop;
      var normalized := StoredTags(Tables(profiles, signals, interests), id);
      var expected := CheckerInterests(ops, ev);
      var interestsMatch := Lowered(ops, expected) == Lowered(ops, denorm);
      var normalizedMatch := Lowered(ops, expected) == Lowered(ops, normalized);
      d := Drift(hasSignalDrift, hasDenormMissing, hasNormalizedMissing, !interestsMatch || !normalizedMatch,
                 CasingDiffers(ops, denorm, expected));
    }

    method Backfill(ops: TextOps, jobs: seq<Job>)
      requires AllIn(View(), jobs)
      modifies this
      ensures View() == BackfilledAll(ops, old(View()), jobs)
    {
      for i := 0 to |jobs|
        invariant AllIn(View(), jobs)
        invariant BackfilledAll(ops, View(), jobs[i..]) == BackfilledAll(ops, old(View()), jobs)
      {
        assert jobs[i..][0] == jobs[i] && jobs[i..][1..] == jobs[i + 1..];
        WriteProfile(ops, jobs[i].id, EvaluationOf(jobs[i]), jobs[i].version);
      }
      assert jobs[|jobs|..] == [];
    }

    method Validate(ops: TextOps, jobs: seq<Job>) returns (r: Report)
      requires AllIn(View(), jobs)
      ensures r == Validated(ops, View(), jobs)
    {
      ghost var ds := Findings(ops, View(), jobs);
      r := Report(0, 0, 0, 0, 0);
      for i := 0 to |jobs|
        invariant r == Tally(ds[..i])
      {
        assert ds[..i + 1][..i] == ds[..i] && ds[i] == FindingOf(ops, View(), jobs[i]);
        if jobs[i].latest.None? { continue; }
        var d := CheckProfile(ops, jobs[i].id, jobs[i].latest.value);
        r := Counted(r, d);
      }
      assert ds[..|jobs|] == ds;
    }
  }
}
