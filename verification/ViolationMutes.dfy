/** Progressive enforcement of content violations: an append-only log, one status field per user,
    expiry by a lazy reset on query and by a batch job. Database reads and writes interleave. */
module ViolationMutes {
  import opened Basics
  import Runs

  type Time = nat
  type User = string

  const HOUR: Time := 3600000
  const DAY: Time := 24 * HOUR

  datatype Surface = Profile | Message

  datatype Violation = Violation(user: User, surface: Surface, createdAt: Time)

  datatype Status = Ok | ProfileEditBlocked | MessagingMuted

  datatype UserRow = UserRow(status: Status, mutedUntil: Option<Time>)

  /** The updates of a user row. */
  datatype Write = Mute(until: Option<Time>) | BlockProfile | Reset

  /** The counts of message violations since an hour before, since a day before, and ever. */
  datatype Which = Hourly | Daily | Ever

  /** An operation under way: a query that has read a mute but not yet the clock, one that has found the mute
      expired, a profile enforcement that has read its count, and a message enforcement with the counts it has
      read so far. */
  datatype Pending =
    | LateRead(user: User, until: Time)
    | LateReset(user: User)
    | ProfileCheck(user: User)
    | MessageCheck(user: User, startedAt: Time, counts: map<Which, nat>)

  datatype State = State(now: Time, log: seq<Violation>, users: map<User, UserRow>, pending: map<nat, Pending>)

  datatype Step =
    | Tick(delay: Time)
    | Record(user: User, surface: Surface)
    | EnforceStart(id: nat, user: User, surface: Surface)  // for profiles, with its only count
    | CountRead(id: nat, which: Which)                     // one of the three counts of a message enforcement
    | Commit(id: nat)                                      // the write of an operation under way
    | Query(user: User)                                    // isUserBlocked, read and reset at once
    | QueryRead(id: nat, user: User)                       // isUserBlocked, its read of the row alone
    | ReadClock(id: nat)                                   // the clock that isUserBlocked reads after the row
    | ClearExpired(asOf: Time)                             // the batch job, by the clock it read before

  // ---- counting and deciding

  predicate Counts(v: Violation, user: User, surface: Surface, since: Option<int>) {
    v.user == user && v.surface == surface && (since.Some? ==> v.createdAt >= since.value)
  }

  function Count(log: seq<Violation>, user: User, surface: Surface, since: Option<int>): nat {
    if log == [] then 0
    else Count(log[..|log| - 1], user, surface, since) + if Counts(log[|log| - 1], user, surface, since) then 1 else 0
  }

  function Since(which: Which, startedAt: Time): Option<int> {
    match which
    case Hourly => Some(startedAt - HOUR)
    case Daily => Some(startedAt - DAY)
    case Ever => None
  }

  function CountOf(log: seq<Violation>, user: User, which: Which, startedAt: Time): nat {
    Count(log, user, Message, Since(which, startedAt))
  }

  function Lifetime(s: State, user: User): nat { CountOf(s.log, user, Ever, s.now) }

  function DecideMute(startedAt: Time, hourly: nat, daily: nat, ever: nat): Option<Write> {
    if ever >= 20 then Some(Mute(None))
    else if daily >= 10 then Some(Mute(Some(startedAt + DAY)))
    else if hourly >= 3 then Some(Mute(Some(startedAt + HOUR)))
    else None
  }

  /** The write an enforcement decides on when nothing comes between its reads. */
  function Decide(s: State, user: User, surface: Surface): Option<Write> {
    if surface == Profile then
      if Count(s.log, user, Profile, None) < 3 then None else Some(BlockProfile)
    else
      DecideMute(s.now, CountOf(s.log, user, Hourly, s.now), CountOf(s.log, user, Daily, s.now),
                 CountOf(s.log, user, Ever, s.now))
  }

  /** All reads are done. */
  predicate Complete(p: Pending) {
    !p.LateRead? && (p.MessageCheck? ==> Hourly in p.counts && Daily in p.counts && Ever in p.counts)
  }

  /** A query under way. */
  predicate IsQuery(p: Pending) { p.LateRead? || p.LateReset? }

  function WriteOf(p: Pending): Option<Write>
    requires Complete(p)
  {
    match p
    case LateReset(_) => Some(Reset)
    case ProfileCheck(_) => Some(BlockProfile)
    case MessageCheck(_, startedAt, counts) => DecideMute(startedAt, counts[Hourly], counts[Daily], counts[Ever])
  }

  // ---- the user row

  function Written(row: UserRow, write: Write): UserRow {
    match write
    case Mute(until) => UserRow(MessagingMuted, until)
    case BlockProfile => row.(status := ProfileEditBlocked)
    case Reset => UserRow(Ok, None)
  }

  predicate MutedForATime(row: UserRow) { row.status == MessagingMuted && row.mutedUntil.Some? }

  predicate Expired(row: UserRow, now: Time) { MutedForATime(row) && row.mutedUntil.value <= now }

  /** The row as the batch job leaves it. */
  function Settled(row: UserRow, now: Time): UserRow { if Expired(row, now) then UserRow(Ok, None) else row }

  function RowOf(s: State, user: User): UserRow { if user in s.users then s.users[user] else UserRow(Ok, None) }

  /** The answer of isUserBlocked. */
  predicate Blocked(s: State, user: User, surface: Surface) {
    var row := RowOf(s, user);
    if surface == Profile then row.status == ProfileEditBlocked
    else row.status == MessagingMuted && !Expired(row, s.now)
  }

  function SettleAll(users: map<User, UserRow>, now: Time): map<User, UserRow> {
    map u | u in users :: Settled(users[u], now)
  }

  // ---- the steps

  /** A step that makes no sense in the state changes nothing. */
  function Next(s: State, step: Step): State {
    match step
    case Tick(delay) => s.(now := s.now + delay)
    case Record(user, surface) =>
      if user in s.users then s.(log := s.log + [Violation(user, surface, s.now)]) else s
    case EnforceStart(id, user, surface) =>
      if id in s.pending || user !in s.users then s
      else if surface == Message then s.(pending := s.pending[id := MessageCheck(user, s.now, map[])])
      else if Count(s.log, user, Profile, None) < 3 then s
      else s.(pending := s.pending[id := ProfileCheck(user)])
    case CountRead(id, which) =>
      if id !in s.pending || !s.pending[id].MessageCheck? || which in s.pending[id].counts then s
      else s.(pending := s.pending[id := Counted(s.log, s.pending[id], which)])
    case Commit(id) =>
      if id !in s.pending || !Complete(s.pending[id]) then s
      else s.(users := Apply(s.users, s.pending[id].user, WriteOf(s.pending[id])), pending := s.pending - {id})
    case Query(user) =>
      if user in s.users && Expired(s.users[user], s.now) then s.(users := s.users[user := UserRow(Ok, None)]) else s
    case QueryRead(id, user) =>
      if id !in s.pending && user in s.users && MutedForATime(s.users[user])
      then s.(pending := s.pending[id := LateRead(user, s.users[user].mutedUntil.value)]) else s
    case ReadClock(id) =>
      if id !in s.pending || !s.pending[id].LateRead? then s
      else if s.pending[id].until <= s.now then s.(pending := s.pending[id := LateReset(s.pending[id].user)])
      else s.(pending := s.pending - {id})
    case ClearExpired(asOf) => if asOf <= s.now then s.(users := SettleAll(s.users, asOf)) else s
  }

  function Counted(log: seq<Violation>, p: Pending, which: Which): Pending
    requires p.MessageCheck?
  {
    p.(counts := p.counts[which := CountOf(log, p.user, which, p.startedAt)])
  }

  function Apply(users: map<User, UserRow>, user: User, write: Option<Write>): map<User, UserRow> {
    if user in users && write.Some? then users[user := Written(users[user], write.value)] else users
  }

  function Run(s: State, steps: seq<Step>): State { Runs.Run(Next, s, steps) }

  // ---- lazy and batch expiry agree

  /** The operations in `q` are the queries. */
  predicate Tagged(q: set<nat>, s: State) { forall id | id in s.pending :: id in q <==> IsQuery(s.pending[id]) }

  predicate TaggedStep(q: set<nat>, step: Step) {
    (step.QueryRead? ==> step.id in q) && (step.EnforceStart? ==> step.id !in q)
  }

  predicate TaggedSteps(q: set<nat>, steps: seq<Step>) {
    forall i | 0 <= i < |steps| :: TaggedStep(q, steps[i])
  }

  /** A step of a query or of the batch job. */
  predicate IsExpiry(q: set<nat>, step: Step) {
    step.Query? || step.ClearExpired? || step.QueryRead? || step.ReadClock? || (step.Commit? && step.id in q)
  }

  /** A run without its expiry. */
  function Core(q: set<nat>, steps: seq<Step>): seq<Step> {
    if steps == [] then []
    else if IsExpiry(q, steps[0]) then Core(q, steps[1..])
    else [steps[0]] + Core(q, steps[1..])
  }

  /** The step is not the late reset of a user who is blocked by now. */
  predicate HarmlessStep(s: State, step: Step) {
    step.Commit? && step.id in s.pending && s.pending[step.id].LateReset? ==>
      !Blocked(s, s.pending[step.id].user, Profile) && !Blocked(s, s.pending[step.id].user, Message)
  }

  predicate Harmless(s: State, steps: seq<Step>)
    decreases |steps|
  {
    steps == [] || (HarmlessStep(s, steps[0]) && Harmless(Next(s, steps[0]), steps[1..]))
  }

  /** What a row says at a time: an expired mute says nothing, and neither does a mute time without a mute. */
  function Meaning(row: UserRow, now: Time): UserRow {
    if row.status == MessagingMuted && !Expired(row, now) then row
    else UserRow(if row.status == ProfileEditBlocked then ProfileEditBlocked else Ok, None)
  }

  ghost predicate SamePending(q: set<nat>, s: State, t: State) {
    forall id | id !in q ::
      (id in s.pending <==> id in t.pending) && (id in s.pending ==> s.pending[id] == t.pending[id])
  }

  /** Two states that differ only in which expired mutes have been cleared and in the queries under way. */
  ghost predicate Agree(q: set<nat>, s: State, t: State) {
    && s.now == t.now && s.log == t.log && SamePending(q, s, t)
    && s.users.Keys == t.users.Keys
    && forall u | u in s.users :: AgreeOn(s, t, u)
  }

  ghost predicate AgreeOn(s: State, t: State, u: User)
    requires u in s.users && u in t.users
  {
    Meaning(s.users[u], s.now) == Meaning(t.users[u], s.now)
  }

  lemma AgreeingStatesAnswerAlike(q: set<nat>, s: State, t: State, user: User, surface: Surface)
    requires Agree(q, s, t)
    ensures Blocked(s, user, surface) == Blocked(t, user, surface)
  {
    if user in s.users {
      assert AgreeOn(s, t, user);
    }
  }

  lemma AgreeTransitive(q: set<nat>, s: State, t: State, v: State)
    requires Agree(q, s, t) && Agree(q, s, v)
    ensures Agree(q, t, v)
  {
    forall u | u in t.users
      ensures AgreeOn(t, v, u)
    {
      assert AgreeOn(s, t, u) && AgreeOn(s, v, u);
    }
  }

  lemma NextKeepsTagged(q: set<nat>, s: State, step: Step)
    requires Tagged(q, s) && TaggedStep(q, step)
    ensures Tagged(q, Next(s, step))
  {}

  lemma LateResetAgrees(q: set<nat>, s: State, id: nat)
    requires Tagged(q, s) && id in q && HarmlessStep(s, Commit(id))
    ensures Agree(q, s, Next(s, Commit(id)))
  {
    var t := Next(s, Commit(id));
    if id in s.pending {
      var user := s.pending[id].user;
      forall u | u in s.users
        ensures AgreeOn(s, t, u)
      {
        assert u != user ==> t.users[u] == s.users[u];
      }
    }
  }

  lemma ExpiryAgrees(q: set<nat>, s: State, step: Step)
    requires Tagged(q, s) && TaggedStep(q, step) && IsExpiry(q, step) && HarmlessStep(s, step)
    ensures Agree(q, s, Next(s, step))
  {
    if step.Commit? {
      LateResetAgrees(q, s, step.id);
    }
  }

  lemma WrittenAgrees(row: UserRow, other: UserRow, write: Write, now: Time)
    requires Meaning(row, now) == Meaning(other, now)
    ensures Meaning(Written(row, write), now) == Meaning(Written(other, write), now)
  {}

  lemma MeaningLater(row: UserRow, other: UserRow, now: Time, later: Time)
    requires Meaning(row, now) == Meaning(other, now) && now <= later
    ensures Meaning(row, later) == Meaning(other, later)
  {}

  lemma CommitAgrees(q: set<nat>, s: State, t: State, id: nat)
    requires Agree(q, s, t) && id !in q
    ensures Agree(q, Next(s, Commit(id)), Next(t, Commit(id)))
  {
    var s', t' := Next(s, Commit(id)), Next(t, Commit(id));
    forall u | u in s'.users
      ensures AgreeOn(s', t', u)
    {
      assert AgreeOn(s, t, u);
      if id in s.pending && Complete(s.pending[id]) && WriteOf(s.pending[id]).Some? {
        WrittenAgrees(s.users[u], t.users[u], WriteOf(s.pending[id]).value, s.now);
      }
    }
  }

  lemma PendingAgrees(q: set<nat>, s: State, t: State, step: Step)
    requires Agree(q, s, t) && !IsExpiry(q, step) && TaggedStep(q, step)
    requires Tagged(q, s) && Tagged(q, t)
    ensures SamePending(q, Next(s, step), Next(t, step))
  {}

  lemma NextAgrees(q: set<nat>, s: State, t: State, step: Step)
    requires Agree(q, s, t) && !IsExpiry(q, step) && TaggedStep(q, step)
    requires Tagged(q, s) && Tagged(q, t)
    ensures Agree(q, Next(s, step), Next(t, step))
  {
    if step.Commit? {
      CommitAgrees(q, s, t, step.id);
    } else {
      PendingAgrees(q, s, t, step);
      var s', t' := Next(s, step), Next(t, step);
      assert s'.users == s.users && t'.users == t.users && s'.now == t'.now && s'.log == t'.log;
      forall u | u in s.users
        ensures AgreeOn(s', t', u)
      {
        assert AgreeOn(s, t, u);
        MeaningLater(s.users[u], t.users[u], s.now, s'.now);
      }
    }
  }

  /** A harmless run agrees with its core. */
  lemma {:induction false} RunAgreesWithCore(q: set<nat>, s: State, t: State, steps: seq<Step>)
    requires Agree(q, s, t) && Tagged(q, s) && Tagged(q, t) && TaggedSteps(q, steps) && Harmless(s, steps)
    ensures Agree(q, Run(s, steps), Run(t, Core(q, steps)))
    decreases |steps|
  {
    if steps != [] {
      var step := steps[0];
      NextKeepsTagged(q, s, step);
      if IsExpiry(q, step) {
        ExpiryAgrees(q, s, step);
        AgreeTransitive(q, s, Next(s, step), t);
        RunAgreesWithCore(q, Next(s, step), t, steps[1..]);
      } else {
        NextAgrees(q, s, t, step);
        NextKeepsTagged(q, t, step);
        Runs.RunOne(Next, t, step, Core(q, steps[1..]));
        RunAgreesWithCore(q, Next(s, step), Next(t, step), steps[1..]);
      }
    }
  }

  /** Lazy and batch expiry agree: however batch clears and queries, whole or split, are inserted into a run
      or left out of it, isUserBlocked answers the same afterwards if both runs are harmless. */
  lemma ExpiryIsInvisible(q: set<nat>, s: State, steps: seq<Step>, others: seq<Step>, user: User, surface: Surface)
    requires Tagged(q, s) && TaggedSteps(q, steps) && TaggedSteps(q, others)
    requires Core(q, steps) == Core(q, others)
    requires Harmless(s, steps) && Harmless(s, others)
    ensures Blocked(Run(s, steps), user, surface) == Blocked(Run(s, others), user, surface)
  {
    RunAgreesWithCore(q, s, s, steps);
    RunAgreesWithCore(q, s, s, others);
    AgreeingStatesAnswerAlike(q, Run(s, steps), Run(s, Core(q, steps)), user, surface);
    AgreeingStatesAnswerAlike(q, Run(s, others), Run(s, Core(q, others)), user, surface);
  }

  /** At the end of a run, every user is blocked as they would be without its expiry. */
  ghost predicate SameAnswers(q: set<nat>, s: State, steps: seq<Step>) {
    forall user, surface :: Blocked(Run(s, steps), user, surface) == Blocked(Run(s, Core(q, steps)), user, surface)
  }

  lemma {:induction false} HarmlessPrefix(s: State, steps: seq<Step>, k: nat)
    requires k <= |steps| && Harmless(s, steps)
    ensures Harmless(s, steps[..k])
    decreases k
  {
    if k > 0 {
      HarmlessPrefix(Next(s, steps[0]), steps[1..], k - 1);
      assert steps[..k][1..] == steps[1..][..k - 1];
    }
  }

  lemma FirstStep(q: set<nat>, s: State, steps: seq<Step>, k: nat)
    requires k < |steps|
    ensures Run(s, steps[..k + 1]) == Run(Next(s, steps[0]), steps[1..][..k])
    ensures Core(q, steps[..k + 1]) ==
      if IsExpiry(q, steps[0]) then Core(q, steps[1..][..k]) else [steps[0]] + Core(q, steps[1..][..k])
  {
    assert steps[..k + 1] == [steps[0]] + steps[1..][..k];
    assert steps[..k + 1][1..] == steps[1..][..k];
    Runs.RunOne(Next, s, steps[0], steps[1..][..k]);
  }

  /** A late reset of a blocked user unblocks the user, and without expiry nothing does. */
  lemma LateResetShows(q: set<nat>, s: State, t: State, step: Step) returns (user: User, surface: Surface)
    requires Agree(q, s, t) && Tagged(q, s) && !HarmlessStep(s, step)
    ensures IsExpiry(q, step)
    ensures !Blocked(Next(s, step), user, surface) && Blocked(t, user, surface)
  {
    user := s.pending[step.id].user;
    surface := if Blocked(s, user, Profile) then Profile else Message;
    AgreeingStatesAnswerAlike(q, s, t, user, surface);
  }

  lemma {:induction false} HarmShows(q: set<nat>, s: State, t: State, steps: seq<Step>)
    returns (k: nat, user: User, surface: Surface)
    requires Agree(q, s, t) && Tagged(q, s) && Tagged(q, t) && TaggedSteps(q, steps) && !Harmless(s, steps)
    ensures k <= |steps|
    ensures Blocked(Run(s, steps[..k]), user, surface) != Blocked(Run(t, Core(q, steps[..k])), user, surface)
    decreases |steps|
  {
    var step := steps[0];
    if !HarmlessStep(s, step) {
      user, surface := LateResetShows(q, s, t, step);
      k := 1;
      FirstStep(q, s, steps, 0);
      assert steps[1..][..0] == [];
    } else {
      NextKeepsTagged(q, s, step);
      var t' := t;
      if IsExpiry(q, step) {
        ExpiryAgrees(q, s, step);
        AgreeTransitive(q, s, Next(s, step), t);
      } else {
        NextAgrees(q, s, t, step);
        NextKeepsTagged(q, t, step);
        t' := Next(t, step);
      }
      k, user, surface := HarmShows(q, Next(s, step), t', steps[1..]);
      FirstStep(q, s, steps, k);
      if !IsExpiry(q, step) {
        Runs.RunOne(Next, t, step, Core(q, steps[1..][..k]));
      }
      k := k + 1;
    }
  }

  /** Exactly when expiry is invisible: all along the run every answer is what it would be without the
      queries and batch clears, if and only if no late reset commits while its user is blocked. */
  lemma ExpiryIsInvisibleIff(q: set<nat>, s: State, steps: seq<Step>)
    requires Tagged(q, s) && TaggedSteps(q, steps)
    ensures (forall k | 0 <= k <= |steps| :: SameAnswers(q, s, steps[..k])) <==> Harmless(s, steps)
  {
    if Harmless(s, steps) {
      forall k | 0 <= k <= |steps|
        ensures SameAnswers(q, s, steps[..k])
      {
        HarmlessPrefix(s, steps, k);
        RunAgreesWithCore(q, s, s, steps[..k]);
        forall user, surface {
          AgreeingStatesAnswerAlike(q, Run(s, steps[..k]), Run(s, Core(q, steps[..k])), user, surface);
        }
      }
    } else {
      var k, user, surface := HarmShows(q, s, s, steps);
      assert !SameAnswers(q, s, steps[..k]);
    }
  }

  // ---- twenty lifetime violations

  predicate MutedForGood(s: State, user: User) {
    user in s.users && s.users[user] == UserRow(MessagingMuted, None) && Lifetime(s, user) >= 20
  }

  /** The operation may still write something other than the indefinite mute: a reset, a profile block, or,
      if it counted fewer than twenty lifetime violations, a mute that ends. */
  predicate MayWeaken(p: Pending) {
    p.MessageCheck? ==> Ever in p.counts && p.counts[Ever] < 20 && (Complete(p) ==> WriteOf(p).Some?)
  }

  ghost predicate NoStaleWrite(s: State, user: User) {
    forall id | id in s.pending && s.pending[id].user == user :: !MayWeaken(s.pending[id])
  }

  predicate NoProfileEnforcement(steps: seq<Step>, user: User) {
    forall i | 0 <= i < |steps| :: !(steps[i].EnforceStart? && steps[i].user == user && steps[i].surface == Profile)
  }

  /** No operation under way started in the future. */
  ghost predicate Timely(s: State) {
    forall id | id in s.pending && s.pending[id].MessageCheck? :: s.pending[id].startedAt <= s.now
  }

  lemma {:induction false} RunKeepsTimely(s: State, steps: seq<Step>)
    requires Timely(s)
    ensures Timely(Run(s, steps))
    decreases |steps|
  {
    if steps != [] {
      NextKeepsTimely(s, steps[0]);
      RunKeepsTimely(Next(s, steps[0]), steps[1..]);
    }
  }

  lemma NextKeepsTimely(s: State, step: Step)
    requires Timely(s)
    ensures Timely(Next(s, step))
  {}

  lemma CountAppend(log: seq<Violation>, v: Violation, user: User, surface: Surface, since: Option<int>)
    ensures Count(log + [v], user, surface, since)
         == Count(log, user, surface, since) + if Counts(v, user, surface, since) then 1 else 0
  {
    assert (log + [v])[..|log|] == log;
  }

  lemma NextKeepsRow(s: State, step: Step, user: User)
    requires MutedForGood(s, user) && NoStaleWrite(s, user)
    ensures MutedForGood(Next(s, step), user)
  {
    if step.Record? {
      CountAppend(s.log, Violation(step.user, step.surface, s.now), user, Message, None);
    }
  }

  lemma NextKeepsNoStaleWrite(s: State, step: Step, user: User)
    requires MutedForGood(s, user) && NoStaleWrite(s, user)
    requires !(step.EnforceStart? && step.user == user && step.surface == Profile)
    ensures NoStaleWrite(Next(s, step), user)
  {
    var t := Next(s, step);
    forall id | id in t.pending && t.pending[id].user == user
      ensures !MayWeaken(t.pending[id])
    {
      assert id in s.pending && s.pending[id].user == user ==> !MayWeaken(s.pending[id]);
    }
  }

  lemma {:induction false} StaysMuted(s: State, steps: seq<Step>, user: User)
    requires MutedForGood(s, user) && NoStaleWrite(s, user) && NoProfileEnforcement(steps, user)
    ensures MutedForGood(Run(s, steps), user)
    decreases |steps|
  {
    if steps != [] {
      NextKeepsRow(s, steps[0], user);
      NextKeepsNoStaleWrite(s, steps[0], user);
      StaysMuted(Next(s, steps[0]), steps[1..], user);
    }
  }

  // ---- how a stale operation lets the user through

  function Records(user: User, n: nat): seq<Step> {
    if n == 0 then [] else [Record(user, Message)] + Records(user, n - 1)
  }

  /** n more violations of the user now. */
  ghost predicate MoreViolations(s: State, t: State, user: User, n: nat) {
    && t == s.(log := t.log)
    && forall since: Option<int> | since.Some? ==> since.value <= s.now ::
         Count(t.log, user, Message, since) >= Count(s.log, user, Message, since) + n
  }

  lemma {:induction false} AfterRecords(s: State, user: User, n: nat)
    requires user in s.users
    ensures MoreViolations(s, Run(s, Records(user, n)), user, n)
    ensures forall i | 0 <= i < |Records(user, n)| :: Records(user, n)[i] == Record(user, Message)
    decreases n
  {
    if n > 0 {
      var t := Next(s, Record(user, Message));
      forall since: Option<int> | since.Some? ==> since.value <= s.now
        ensures Count(t.log, user, Message, since) == Count(s.log, user, Message, since) + 1
      {
        CountAppend(s.log, Violation(user, Message, s.now), user, Message, since);
      }
      AfterRecords(t, user, n - 1);
      Runs.RunOne(Next, s, Record(user, Message), Records(user, n - 1));
    }
  }

  /** When the mute that a complete operation writes ends. */
  function EndOf(p: Pending): Time
    requires Complete(p)
  {
    var w := WriteOf(p);
    if w.Some? && w.value.Mute? && w.value.until.Some? then w.value.until.value else 0
  }

  lemma CompleteWeakens(s: State, id: nat, user: User)
    requires user in s.users && id in s.pending && s.pending[id].user == user
    requires Complete(s.pending[id]) && MayWeaken(s.pending[id])
    ensures !Blocked(Run(s, [Commit(id), Tick(EndOf(s.pending[id]))]), user, Message)
  {
    Runs.RunTwo(Next, s, Commit(id), Tick(EndOf(s.pending[id])));
  }

  /** Reading the counts after ten more violations completes an operation that may weaken. */
  lemma CountsComplete(s: State, id: nat, user: User)
    requires id in s.pending && s.pending[id].user == user && s.pending[id].MessageCheck?
    requires MayWeaken(s.pending[id]) && s.pending[id].startedAt <= s.now
    requires Complete(s.pending[id]) || forall since: Option<int> | since.Some? ==> since.value <= s.now ::
               Count(s.log, user, Message, since) >= 10
    ensures
      var t := Run(s, [CountRead(id, Hourly), CountRead(id, Daily)]);
      && t.users == s.users && id in t.pending && t.pending[id].user == user
      && Complete(t.pending[id]) && MayWeaken(t.pending[id])
  {
    Runs.RunTwo(Next, s, CountRead(id, Hourly), CountRead(id, Daily));
  }

  /** Ten more violations and the missing counts: the steps by which an operation comes to its write. */
  function Finishing(user: User, id: nat): seq<Step> {
    Records(user, 10) + [CountRead(id, Hourly), CountRead(id, Daily)]
  }

  lemma Finish(s: State, id: nat, user: User)
    requires user in s.users && id in s.pending && s.pending[id].user == user && Timely(s)
    requires MayWeaken(s.pending[id]) && !s.pending[id].LateRead?
    ensures
      var t := Run(s, Finishing(user, id));
      && user in t.users && id in t.pending && t.pending[id].user == user
      && Complete(t.pending[id]) && MayWeaken(t.pending[id])
    ensures NoProfileEnforcement(Finishing(user, id), user)
  {
    var t := Run(s, Records(user, 10));
    AfterRecords(s, user, 10);
    Runs.RunAppend(Next, s, Records(user, 10), [CountRead(id, Hourly), CountRead(id, Daily)]);
    if s.pending[id].MessageCheck? {
      CountsComplete(t, id, user);
    } else {
      Runs.RunTwo(Next, t, CountRead(id, Hourly), CountRead(id, Daily));
    }
  }

  /** A query that has read a mute finds it expired once it has ended. */
  lemma AfterClock(s: State, id: nat, user: User)
    requires user in s.users && id in s.pending && s.pending[id].LateRead? && s.pending[id].user == user && Timely(s)
    ensures
      var t := Run(s, [Tick(s.pending[id].until), ReadClock(id)]);
      user in t.users && id in t.pending && t.pending[id] == LateReset(user) && Timely(t)
  {
    Runs.RunTwo(Next, s, Tick(s.pending[id].until), ReadClock(id));
    NextKeepsTimely(s, Tick(s.pending[id].until));
    NextKeepsTimely(Next(s, Tick(s.pending[id].until)), ReadClock(id));
  }

  lemma FinishedUnmutes(s: State, id: nat, user: User) returns (steps: seq<Step>)
    requires user in s.users && id in s.pending && s.pending[id].user == user && Timely(s)
    requires MayWeaken(s.pending[id]) && !s.pending[id].LateRead?
    ensures NoProfileEnforcement(steps, user) && !Blocked(Run(s, steps), user, Message)
  {
    Finish(s, id, user);
    var t := Run(s, Finishing(user, id));
    CompleteWeakens(t, id, user);
    var last := [Commit(id), Tick(EndOf(t.pending[id]))];
    Runs.RunAppend(Next, s, Finishing(user, id), last);
    steps := Finishing(user, id) + last;
  }

  /** A stale operation, then time, lets the user through. */
  lemma StaleWriteUnmutes(s: State, id: nat, user: User) returns (steps: seq<Step>)
    requires user in s.users && id in s.pending && s.pending[id].user == user && Timely(s) && MayWeaken(s.pending[id])
    ensures NoProfileEnforcement(steps, user) && !Blocked(Run(s, steps), user, Message)
  {
    if s.pending[id].LateRead? {
      var clock := [Tick(s.pending[id].until), ReadClock(id)];
      AfterClock(s, id, user);
      var rest := FinishedUnmutes(Run(s, clock), id, user);
      Runs.RunAppend(Next, s, clock, rest);
      steps := clock + rest;
    } else {
      steps := FinishedUnmutes(s, id, user);
    }
  }

  /** A user muted at twenty lifetime violations stays blocked for messages at every later time, as long
      as profile texts are not enforced, if and only if no operation on the user is under way that may
      still write something weaker. */
  lemma MutedForGoodIff(s: State, user: User)
    requires MutedForGood(s, user) && Timely(s)
    ensures
      (forall steps | NoProfileEnforcement(steps, user) :: Blocked(Run(s, steps), user, Message))
      <==> NoStaleWrite(s, user)
  {
    if NoStaleWrite(s, user) {
      forall steps | NoProfileEnforcement(steps, user)
        ensures Blocked(Run(s, steps), user, Message)
      {
        StaysMuted(s, steps, user);
      }
    } else {
      var id :| id in s.pending && s.pending[id].user == user && MayWeaken(s.pending[id]);
      var steps := StaleWriteUnmutes(s, id, user);
      assert NoProfileEnforcement(steps, user);
    }
  }

  /** The steps of an enforcement that nothing interrupts. */
  function Enforcement(id: nat, user: User, surface: Surface): seq<Step> {
    [EnforceStart(id, user, surface)] + (CountReads(id) + [Commit(id)])
  }

  function CountReads(id: nat): seq<Step> { [CountRead(id, Hourly), CountRead(id, Daily), CountRead(id, Ever)] }

  lemma AfterCounts(s: State, id: nat, user: User)
    requires id in s.pending && s.pending[id] == MessageCheck(user, s.now, map[])
    ensures
      var t := Run(s, CountReads(id));
      && t == s.(pending := t.pending) && t.pending - {id} == s.pending - {id} && id in t.pending
      && t.pending[id].user == user && Complete(t.pending[id]) && WriteOf(t.pending[id]) == Decide(s, user, Message)
  {
    Runs.RunThree(Next, s, CountRead(id, Hourly), CountRead(id, Daily), CountRead(id, Ever));
  }

  lemma NoCounts(s: State, id: nat)
    requires id in s.pending ==> !s.pending[id].MessageCheck?
    ensures Run(s, CountReads(id)) == s
  {
    Runs.RunThree(Next, s, CountRead(id, Hourly), CountRead(id, Daily), CountRead(id, Ever));
  }

  /** Without interruption an enforcement writes what it decides. */
  lemma AfterEnforcement(s: State, id: nat, user: User, surface: Surface)
    requires user in s.users && id !in s.pending
    ensures Run(s, Enforcement(id, user, surface)) == s.(users := Apply(s.users, user, Decide(s, user, surface)))
  {
    var (start, counts) := (EnforceStart(id, user, surface), CountReads(id));
    var s1 := Next(s, start);
    var s2 := Run(s1, counts);
    Runs.RunOne(Next, s, start, counts + [Commit(id)]);
    Runs.RunAppend(Next, s1, counts, [Commit(id)]);
    assert [Commit(id)] + [] == [Commit(id)];
    Runs.RunOne(Next, s2, Commit(id), []);
    if surface == Message {
      AfterCounts(s1, id, user);
    } else {
      NoCounts(s1, id);
    }
    assert s2.pending - {id} == s.pending;
  }

  /** The first message enforcement that sees twenty lifetime violations mutes for good. */
  lemma TwentiethMutes(s: State, id: nat, user: User)
    requires user in s.users && Lifetime(s, user) >= 20 && id !in s.pending
    ensures MutedForGood(Run(s, Enforcement(id, user, Message)), user)
  {
    AfterEnforcement(s, id, user, Message);
  }

  /** What an enforcement has counted is no more than there is: violations are never removed. */
  ghost predicate CountedNoMore(s: State) {
    forall id | id in s.pending :: CountNoMore(s.log, s.pending[id])
  }

  predicate CountNoMore(log: seq<Violation>, p: Pending) {
    p.MessageCheck? && Ever in p.counts ==> p.counts[Ever] <= Count(log, p.user, Message, None)
  }

  lemma NextKeepsCountedNoMore(s: State, step: Step)
    requires CountedNoMore(s)
    ensures CountedNoMore(Next(s, step))
  {
    var t := Next(s, step);
    forall id | id in t.pending
      ensures CountNoMore(t.log, t.pending[id])
    {
      assert id in s.pending ==> CountNoMore(s.log, s.pending[id]);
      if step.Record? {
        CountAppend(s.log, Violation(step.user, step.surface, s.now), t.pending[id].user, Message, None);
      }
    }
  }

  lemma {:induction false} RunKeepsCountedNoMore(s: State, steps: seq<Step>)
    requires CountedNoMore(s)
    ensures CountedNoMore(Run(s, steps))
    decreases |steps|
  {
    if steps != [] {
      NextKeepsCountedNoMore(s, steps[0]);
      RunKeepsCountedNoMore(Next(s, steps[0]), steps[1..]);
    }
  }

  /** Nothing is under way. */
  predicate Idle(s: State) { s.pending == map[] }

  /** An enforcement that has counted twenty lifetime violations is about to write. */
  predicate AboutToMute(s: State, id: nat, user: User) {
    && user in s.users && id in s.pending && s.pending[id].MessageCheck? && s.pending[id].user == user
    && Complete(s.pending[id]) && s.pending[id].counts[Ever] >= 20
  }

  /** In every interleaving, the write of an enforcement that has counted twenty lifetime violations mutes for
      good, and the user then stays blocked for messages, as long as profile texts are not enforced, if and only
      if no other operation is under way that may still write something weaker. */
  lemma TwentyMuteForGoodIff(start: State, past: seq<Step>, id: nat, user: User)
    requires Idle(start) && AboutToMute(Run(start, past), id, user)
    ensures
      var t := Next(Run(start, past), Commit(id));
      && MutedForGood(t, user)
      && ((forall steps | NoProfileEnforcement(steps, user) :: Blocked(Run(t, steps), user, Message))
          <==> NoStaleWrite(t, user))
  {
    var s := Run(start, past);
    RunKeepsTimely(start, past);
    RunKeepsCountedNoMore(start, past);
    assert CountNoMore(s.log, s.pending[id]);
    NextKeepsTimely(s, Commit(id));
    MutedForGoodIff(Next(s, Commit(id)), user);
  }

  /** Both surfaces share one status field: a profile enforcement lifts any message mute, and a message
      enforcement lifts any profile block. */
  lemma SurfacesOverwriteEachOther(s: State, id: nat, user: User, surface: Surface)
    requires user in s.users && id !in s.pending && Decide(s, user, surface).Some?
    ensures
      var t := Run(s, Enforcement(id, user, surface));
      Blocked(t, user, surface) && !Blocked(t, user, if surface == Profile then Message else Profile)
  {
    AfterEnforcement(s, id, user, surface);
  }

  /** A query reads a mute for a time, an enforcement mutes for good, the first mute ends, and then the query
      reads the clock and resets. */
  function LateQuery(i: nat, j: nat, user: User, delay: Time): seq<Step> {
    [QueryRead(i, user)] + (Enforcement(j, user, Message) + ([Tick(delay), ReadClock(i)] + [Commit(i)]))
  }

  /** A late reset that does harm: it wipes out the indefinite mute, whether or not the mute that it read had
      expired by then. The batch job, had it run before, would have prevented it only in the first case. */
  lemma SplitQueryLosesMute(s: State, i: nat, j: nat, user: User, delay: Time)
    requires user in s.users && MutedForATime(s.users[user]) && s.users[user].mutedUntil.value <= s.now + delay
    requires Lifetime(s, user) >= 20 && i != j && i !in s.pending && j !in s.pending
    ensures !Blocked(Run(s, LateQuery(i, j, user, delay)), user, Message)
    ensures Blocked(Run(Next(s, ClearExpired(s.now)), LateQuery(i, j, user, delay)), user, Message)
       <==> Expired(s.users[user], s.now)
  {
    AfterLateQuery(s, i, j, user, delay);
    AfterLateQuery(Next(s, ClearExpired(s.now)), i, j, user, delay);
  }

  lemma AfterLateQuery(s: State, i: nat, j: nat, user: User, delay: Time)
    requires user in s.users && Lifetime(s, user) >= 20
    requires i != j && i !in s.pending && j !in s.pending
    requires MutedForATime(s.users[user]) ==> s.users[user].mutedUntil.value <= s.now + delay
    ensures Blocked(Run(s, LateQuery(i, j, user, delay)), user, Message) <==> !MutedForATime(s.users[user])
  {
    var (read, clock) := (QueryRead(i, user), [Tick(delay), ReadClock(i)]);
    var (s1, enforcement) := (Next(s, read), Enforcement(j, user, Message));
    var s2 := Run(s1, enforcement);
    var s3 := Run(s2, clock);
    Runs.RunOne(Next, s, read, enforcement + (clock + [Commit(i)]));
    Runs.RunAppend(Next, s1, enforcement, clock + [Commit(i)]);
    Runs.RunAppend(Next, s2, clock, [Commit(i)]);
    AfterEnforcement(s1, j, user, Message);
    Runs.RunTwo(Next, s2, Tick(delay), ReadClock(i));
    assert [Commit(i)] + [] == [Commit(i)];
    Runs.RunOne(Next, s3, Commit(i), []);
  }

  // ---- the tiers

  /** The positions in the log of a user's violations on a surface since a time. */
  ghost function Violations(log: seq<Violation>, user: User, surface: Surface, from: int): set<int> {
    set i | 0 <= i < |log| && log[i].user == user && log[i].surface == surface && log[i].createdAt >= from
  }

  lemma {:induction false} CountIsViolations(log: seq<Violation>, user: User, surface: Surface, since: Option<int>)
    ensures Count(log, user, surface, since) ==
            |Violations(log, user, surface, if since.Some? then since.value else 0)|
    decreases |log|
  {
    if log != [] {
      CountIsViolations(log[..|log| - 1], user, surface, since);
      LastViolation(log, user, surface, if since.Some? then since.value else 0);
    }
  }

  lemma LastViolation(log: seq<Violation>, user: User, surface: Surface, from: int)
    requires log != []
    ensures |Violations(log, user, surface, from)| ==
            |Violations(log[..|log| - 1], user, surface, from)| +
            if Counts(log[|log| - 1], user, surface, Some(from)) then 1 else 0
  {
    var (rest, last) := (log[..|log| - 1], |log| - 1);
    var (all, earlier) := (Violations(log, user, surface, from), Violations(rest, user, surface, from));
    assert forall i | 0 <= i < last :: rest[i] == log[i];
    assert forall i | i in earlier :: i in all;
    assert all == earlier + if Counts(log[last], user, surface, Some(from)) then {last} else {};
  }

  /** The mute that the tiers reached at one time impose still holds at another. */
  ghost predicate MutedByTiers(log: seq<Violation>, user: User, now: Time, t: Time) {
    || |Violations(log, user, Message, 0)| >= 20
    || (|Violations(log, user, Message, now - 86400000)| >= 10 && t < now + 86400000)
    || (|Violations(log, user, Message, now - 3600000)| >= 3 && t < now + 3600000)
  }

  ghost predicate UnderAllTiers(log: seq<Violation>, user: User, now: Time) {
    && |Violations(log, user, Message, 0)| < 20
    && |Violations(log, user, Message, now - 86400000)| < 10
    && |Violations(log, user, Message, now - 3600000)| < 3
  }

  /** What each of the three reads of an enforcement counts: the violations at that time, but since an hour or a
      day before the enforcement started. */
  lemma CountReadCounts(s: State, id: nat, which: Which)
    requires id in s.pending && s.pending[id].MessageCheck? && which !in s.pending[id].counts
    ensures
      var (p, t) := (s.pending[id], Next(s, CountRead(id, which)));
      && id in t.pending && t.pending[id].MessageCheck? && which in t.pending[id].counts
      && t.pending[id].counts[which] == |Violations(s.log, p.user, Message, match which
           case Hourly => p.startedAt - 3600000
           case Daily => p.startedAt - 86400000
           case Ever => 0)|
      && t == s.(pending := t.pending) && t.pending[id] == p.(counts := t.pending[id].counts)
      && t.pending[id].counts - {which} == p.counts && t.pending - {id} == s.pending - {id}
  {
    CountIsViolations(s.log, s.pending[id].user, Message, Since(which, s.pending[id].startedAt));
  }

  /** In every interleaving, whatever the three reads counted: how long the write of an enforcement blocks. */
  lemma CommitBlocksFor(s: State, id: nat, user: User, t: Time)
    requires Timely(s) && user in s.users && s.now <= t
    requires id in s.pending && s.pending[id].MessageCheck? && s.pending[id].user == user && Complete(s.pending[id])
    ensures
      var (counts, from) := (s.pending[id].counts, s.pending[id].startedAt);
      Blocked(Next(s, Commit(id)).(now := t), user, Message) <==>
        || counts[Ever] >= 20
        || (counts[Daily] >= 10 && t < from + 86400000)
        || (counts[Hourly] >= 3 && t < from + 3600000)
        || (counts[Ever] < 20 && counts[Daily] < 10 && counts[Hourly] < 3 && Blocked(s.(now := t), user, Message))
  {}

  /** The rows after an enforcement at the state's time: at every later time the user is blocked for messages by
      the tiers reached, or, under all tiers, as before. */
  ghost predicate BlocksByTiers(s: State, user: User, users: map<User, UserRow>) {
    forall t | s.now <= t ::
      Blocked(State(t, s.log, users, map[]), user, Message) <==>
        MutedByTiers(s.log, user, s.now, t) ||
        (UnderAllTiers(s.log, user, s.now) && Blocked(State(t, s.log, s.users, map[]), user, Message))
  }

  lemma DecisionBlocks(s: State, user: User)
    requires user in s.users
    ensures BlocksByTiers(s, user, Apply(s.users, user, Decide(s, user, Message)))
  {
    MessageCounts(s, user);
  }

  lemma MessageCounts(s: State, user: User)
    ensures CountOf(s.log, user, Hourly, s.now) == |Violations(s.log, user, Message, s.now - 3600000)|
    ensures CountOf(s.log, user, Daily, s.now) == |Violations(s.log, user, Message, s.now - 86400000)|
    ensures CountOf(s.log, user, Ever, s.now) == |Violations(s.log, user, Message, 0)|
  {
    CountIsViolations(s.log, user, Message, None);
    CountIsViolations(s.log, user, Message, Some(s.now - HOUR));
    CountIsViolations(s.log, user, Message, Some(s.now - DAY));
  }

  predicate OverBy(until: Option<Time>, now: Time) { until.Some? && until.value <= now }

  /** Whom the batch job lets through: those whose mute was over by the clock it had read. */
  lemma ClearExpiredClears(s: State, asOf: Time, user: User)
    requires user in s.users && asOf <= s.now
    ensures
      var t := Next(s, ClearExpired(asOf));
      && user in t.users
      && t.users[user] == if s.users[user].status == MessagingMuted && OverBy(s.users[user].mutedUntil, asOf)
                          then UserRow(Ok, None) else s.users[user]
  {}

  /** A query whose reads and reset nothing interrupts is the whole query. */
  lemma SplitQueryIsQuery(s: State, id: nat, user: User)
    requires id !in s.pending
    ensures Run(s, [QueryRead(id, user), ReadClock(id), Commit(id)]) == Next(s, Query(user))
  {
    Runs.RunThree(Next, s, QueryRead(id, user), ReadClock(id), Commit(id));
    assert s.pending[id := LateRead(user, 0)] - {id} == s.pending;
    var t := Next(Next(s, QueryRead(id, user)), ReadClock(id));
    assert t.pending - {id} == s.pending;
  }

  // ---- the service

  datatype Reason = UnderThreshold | ThreeProfileViolations | ThreeHourly | TenDaily | TwentyLifetime

  datatype EnforcementResult = EnforcementResult(shouldBlock: bool, mutedUntil: Option<Time>, reason: Reason)

  /** What a message enforcement reports: the first tier, from the top, that is reached. */
  ghost predicate ReportsTier(r: EnforcementResult, ever: nat, daily: nat, hourly: nat, now: Time) {
    && (ever >= 20 ==> r == EnforcementResult(true, None, TwentyLifetime))
    && (ever < 20 && daily >= 10 ==> r == EnforcementResult(true, Some(now + 86400000), TenDaily))
    && (ever < 20 && daily < 10 && hourly >= 3 ==> r == EnforcementResult(true, Some(now + 3600000), ThreeHourly))
    && (ever < 20 && daily < 10 && hourly < 3 ==> r == EnforcementResult(false, None, UnderThreshold))
  }

  class ContentViolationService {
    var now: Time
    var log: seq<Violation>
    var users: map<User, UserRow>

    /** The state of the database between operations. */
    ghost function View(): State
      reads this
    {
      State(now, log, users, map[])
    }

    method RecordViolation(user: User, surface: Surface)
      requires user in users
      modifies this`log
      ensures View() == Next(old(View()), Record(user, surface))
      ensures log == old(log) + [Violation(user, surface, now)]
    {
      log := log + [Violation(user, surface, now)];
    }

    method EnforceViolationThreshold(user: User, surface: Surface) returns (result: EnforcementResult)
      requires user in users
      modifies this`users
      ensures View() == Run(old(View()), Enforcement(0, user, surface))
      ensures users.Keys == old(users).Keys && forall u | u in old(users) && u != user :: users[u] == old(users)[u]
      ensures surface == Profile ==>
        var reached := |Violations(log, user, Profile, 0)| >= 3;
        && result == EnforcementResult(reached, None, if reached then ThreeProfileViolations else UnderThreshold)
        && users[user] == UserRow(if reached then ProfileEditBlocked else old(users)[user].status,
                                  old(users)[user].mutedUntil)
      ensures surface == Message ==>
        && ReportsTier(result, |Violations(log, user, Message, 0)|, |Violations(log, user, Message, now - 86400000)|,
                       |Violations(log, user, Message, now - 3600000)|, now)
        && BlocksByTiers(old(View()), user, users)
    {
      ghost var before := View();
      AfterEnforcement(before, 0, user, surface);
      CountIsViolations(log, user, Profile, None);
      MessageCounts(before, user);
      DecisionBlocks(before, user);
      if surface == Profile {
        var count := Count(log, user, Profile, None);
        if count < 3 {
          return EnforcementResult(false, None, UnderThreshold);
        }
        users := users[user := users[user].(status := ProfileEditBlocked)];
        return EnforcementResult(true, None, ThreeProfileViolations);
      }
      var hourly := Count(log, user, Message, Some(now - HOUR));
      var daily := Count(log, user, Message, Some(now - DAY));
      var lifetime := Count(log, user, Message, None);
      var mutedUntil: Option<Time> := None;
      var reason := UnderThreshold;
      if lifetime >= 20 {
        reason := TwentyLifetime;
      } else if daily >= 10 {
        mutedUntil := Some(now + DAY);
        reason := TenDaily;
      } else if hourly >= 3 {
        mutedUntil := Some(now + HOUR);
        reason := ThreeHourly;
      }
      if reason == UnderThreshold {
        return EnforcementResult(false, None, reason);
      }
      users := users[user := UserRow(MessagingMuted, mutedUntil)];
      result := EnforcementResult(true, mutedUntil, reason);
    }

    method IsUserBlocked(user: User, surface: Surface) returns (blocked: bool)
      modifies this`users
      ensures blocked <==> Blocked(old(View()), user, surface)
      ensures blocked <==> user in old(users) && match surface
        case Profile => old(users)[user].status == ProfileEditBlocked
        case Message => old(users)[user].status == MessagingMuted && !OverBy(old(users)[user].mutedUntil, now)
      ensures users.Keys == old(users).Keys
      ensures forall u | u in users ::
        users[u] ==
          if surface == Message && u == user && old(users)[u].status == MessagingMuted
             && OverBy(old(users)[u].mutedUntil, now)
          then UserRow(Ok, None) else old(users)[u]
      ensures View() == if surface == Message then Next(old(View()), Query(user)) else old(View())
    {
      if user !in users {
        return false;
      }
      var row := users[user];
      if surface == Profile {
        return row.status == ProfileEditBlocked;
      }
      if row.status != MessagingMuted {
        return false;
      }
      if row.mutedUntil.Some? && row.mutedUntil.value <= now {
        users := users[user := UserRow(Ok, None)];
        return false;
      }
      return true;
    }

    method ClearExpiredMutes() returns (count: nat)
      modifies this`users
      ensures View() == Next(old(View()), ClearExpired(now))
      ensures users.Keys == old(users).Keys
      ensures forall u | u in users ::
        users[u] == if old(users)[u].status == MessagingMuted && OverBy(old(users)[u].mutedUntil, now)
                    then UserRow(Ok, None) else old(users)[u]
      ensures count == |set u | u in users && users[u] != old(users)[u]|
    {
      var expired := set u | u in users && Expired(users[u], now);
      users := map u | u in users :: if u in expired then UserRow(Ok, None) else users[u];
      count := |expired|;
      assert expired == set u | u in users && users[u] != old(users)[u];
    }
  }
}
