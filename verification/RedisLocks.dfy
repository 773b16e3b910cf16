/** The two uses of Redis `SET key NX EX`: the cron leader lock, which fails closed, and setNx,
    which fails open. Processes, clock, lost requests and lost replies interleave freely. */
module RedisLocks {
  import opened Basics
  import Runs

  type Time = nat

  datatype Kind = CronLock | SetNx

  /** True and false stand for acquired and not_acquired in the cron lock. */
  datatype Answer = True | False | Unavailable

  datatype Execution = Execution(at: Time, ok: bool)

  datatype Return = Return(at: Time, answer: Answer, degraded: bool)

  /** One call: `execution` is what the server did, `result` what the caller saw. A call that never
      contacts the server has `sent` false. */
  datatype Call = Call(kind: Kind, key: string, ttl: Time, configured: bool, sent: bool,
                       execution: Option<Execution>, result: Option<Return>)
  {
    ghost predicate Won() { execution.Some? && execution.value.ok }
  }

  /** `expires` is when each key that was ever set stops being visible. */
  datatype State = State(now: Time, expires: map<string, Time>, calls: map<nat, Call>)

  datatype Step =
    | Tick(delay: Time)
    | Start(id: nat, kind: Kind, key: string, ttl: Time, urlConfigured: bool, clientUp: bool)
    | Execute(id: nat)                  // the server runs the command of a call
    | Reply(id: nat)                    // the server's reply reaches the caller
    | Fail(id: nat)                     // the caller sees an error, before or after the server acts
    | Set(key: string, ttl: Time)       // plain SET EX by other code
    | Delete(key: string)

  const INITIAL := State(0, map[], map[])

  function Degraded(kind: Kind): Answer { if kind == CronLock then Unavailable else True }

  function Visible(expires: map<string, Time>, key: string, now: Time): bool { key in expires && now < expires[key] }

  /** A step that makes no sense in the state changes nothing. */
  function Next(s: State, step: Step): State {
    match step
    case Tick(delay) => s.(now := s.now + delay)
    case Start(id, kind, key, ttl, urlConfigured, clientUp) =>
      if id in s.calls then s
      else if kind == CronLock && !urlConfigured then
        s.(calls := s.calls[id := Call(kind, key, ttl, false, false, None, Some(Return(s.now, True, false)))])
      else if !clientUp then
        var answer := Return(s.now, Degraded(kind), true);
        s.(calls := s.calls[id := Call(kind, key, ttl, urlConfigured, false, None, Some(answer))])
      else
        s.(calls := s.calls[id := Call(kind, key, ttl, urlConfigured, true, None, None)])
    case Execute(id) =>
      if id !in s.calls || !s.calls[id].sent || s.calls[id].execution.Some? then s
      else
        var c := s.calls[id];
        var ok := !Visible(s.expires, c.key, s.now);
        State(s.now,
              if ok then s.expires[c.key := s.now + c.ttl] else s.expires,
              s.calls[id := c.(execution := Some(Execution(s.now, ok)))])
    case Reply(id) =>
      if id !in s.calls || s.calls[id].result.Some? || s.calls[id].execution.None? then s
      else
        var c := s.calls[id];
        var answer := if c.execution.value.ok then True else False;
        s.(calls := s.calls[id := c.(result := Some(Return(s.now, answer, false)))])
    case Fail(id) =>
      if id !in s.calls || s.calls[id].result.Some? then s
      else
        var c := s.calls[id];
        s.(calls := s.calls[id := c.(result := Some(Return(s.now, Degraded(c.kind), true)))])
    case Set(key, ttl) => s.(expires := s.expires[key := s.now + ttl])
    case Delete(key) => s.(expires := s.expires - {key})
  }

  function Run(s: State, steps: seq<Step>): State { Runs.Run(Next, s, steps) }

  /** Nothing but the calls themselves touches the key. */
  predicate OnlyCallsTouch(key: string, steps: seq<Step>) {
    forall i | 0 <= i < |steps| :: steps[i] != Delete(key) && !(steps[i].Set? && steps[i].key == key)
  }

  // ---- the invariant

  ghost predicate WonOn(s: State, key: string, id: nat) {
    id in s.calls && s.calls[id].key == key && s.calls[id].Won()
  }

  ghost function WonAt(s: State, id: nat): Time
    requires id in s.calls && s.calls[id].Won()
  {
    s.calls[id].execution.value.at
  }

  /** One of the two calls ran on the server only after the key of the other had expired. */
  ghost predicate Apart(s: State, i: nat, j: nat)
    requires i in s.calls && s.calls[i].Won() && j in s.calls && s.calls[j].Won()
  {
    || WonAt(s, i) + s.calls[i].ttl <= WonAt(s, j)
    || WonAt(s, j) + s.calls[j].ttl <= WonAt(s, i)
  }

  ghost predicate Covered(s: State, key: string, id: nat)
    requires WonOn(s, key, id)
  {
    key in s.expires && WonAt(s, id) + s.calls[id].ttl <= s.expires[key] && WonAt(s, id) <= s.now
  }

  /** What a caller's answer says about the server. */
  ghost predicate Truthful(c: Call, now: Time) {
    && (c.sent && c.result.Some? && !c.result.value.degraded ==>
          && c.execution.Some? && c.execution.value.at <= c.result.value.at
          && c.result.value.answer == if c.execution.value.ok then True else False)
    && (c.result.Some? && c.result.value.degraded ==> c.result.value.answer == Degraded(c.kind))
    && (!c.sent ==> c.execution.None? && c.result.Some?
                    && (c.result.value.degraded || (c.kind == CronLock && !c.configured)))
    && (c.execution.Some? ==> c.execution.value.at <= now)
    && (c.kind == CronLock && !c.configured ==> !c.sent && c.result.Some? && c.result.value.answer == True)
  }

  ghost predicate AllTruthful(s: State) { forall id | id in s.calls :: Truthful(s.calls[id], s.now) }

  ghost predicate Inv(s: State, key: string) {
    && AllTruthful(s)
    && (forall id | WonOn(s, key, id) :: Covered(s, key, id))
    && (forall i, j | WonOn(s, key, i) && WonOn(s, key, j) && i != j :: Apart(s, i, j))
  }

  lemma NextKeepsTruthful(s: State, step: Step)
    requires AllTruthful(s)
    ensures AllTruthful(Next(s, step))
  {
    var t := Next(s, step);
    forall id | id in t.calls
      ensures Truthful(t.calls[id], t.now)
    {
      if id in s.calls {
        assert Truthful(s.calls[id], s.now);
      }
    }
  }

  /** A call wins only while the key is invisible, and then covers itself. */
  lemma NextWin(s: State, key: string, step: Step, id: nat)
    requires WonOn(Next(s, step), key, id)
    ensures
      || (WonOn(s, key, id) && s.calls[id].execution == Next(s, step).calls[id].execution
          && s.calls[id].ttl == Next(s, step).calls[id].ttl)
      || (step == Execute(id) && !Visible(s.expires, key, s.now) && WonAt(Next(s, step), id) == s.now
          && Next(s, step).expires == s.expires[key := s.now + Next(s, step).calls[id].ttl])
  {}

  lemma NextExpires(s: State, key: string, step: Step)
    requires step != Delete(key) && !(step.Set? && step.key == key) && key in s.expires
    ensures key in Next(s, step).expires
    ensures Next(s, step).expires[key] == s.expires[key]
         || (s.expires[key] <= s.now && s.now <= Next(s, step).expires[key])
  {}

  lemma NextKeepsCovered(s: State, key: string, step: Step, id: nat)
    requires step != Delete(key) && !(step.Set? && step.key == key)
    requires WonOn(Next(s, step), key, id)
    requires WonOn(s, key, id) ==> Covered(s, key, id)
    ensures Covered(Next(s, step), key, id)
  {
    NextWin(s, key, step, id);
    if key in s.expires {
      NextExpires(s, key, step);
    }
  }

  lemma NextKeepsApart(s: State, key: string, step: Step, i: nat, j: nat)
    requires WonOn(Next(s, step), key, i) && WonOn(Next(s, step), key, j) && i != j
    requires WonOn(s, key, i) ==> Covered(s, key, i)
    requires WonOn(s, key, j) ==> Covered(s, key, j)
    requires WonOn(s, key, i) && WonOn(s, key, j) ==> Apart(s, i, j)
    ensures Apart(Next(s, step), i, j)
  {
    NextWin(s, key, step, i);
    NextWin(s, key, step, j);
  }

  lemma NextKeepsInv(s: State, key: string, step: Step)
    requires Inv(s, key) && step != Delete(key) && !(step.Set? && step.key == key)
    ensures Inv(Next(s, step), key)
  {
    var t := Next(s, step);
    NextKeepsTruthful(s, step);
    forall id | WonOn(t, key, id)
      ensures Covered(t, key, id)
    {
      NextKeepsCovered(s, key, step, id);
    }
    forall i, j | WonOn(t, key, i) && WonOn(t, key, j) && i != j
      ensures Apart(t, i, j)
    {
      NextKeepsApart(s, key, step, i, j);
    }
  }

  lemma {:induction false} RunKeepsInv(s: State, key: string, steps: seq<Step>)
    requires Inv(s, key) && OnlyCallsTouch(key, steps)
    ensures Inv(Run(s, steps), key)
    decreases |steps|
  {
    if steps != [] {
      NextKeepsInv(s, key, steps[0]);
      RunKeepsInv(Next(s, steps[0]), key, steps[1..]);
    }
  }

  // ---- the cron lock

  /** The call told its process that it leads, in a deployment with a Redis URL. */
  ghost predicate Leads(s: State, key: string, id: nat) {
    && id in s.calls && s.calls[id].key == key && s.calls[id].kind == CronLock && s.calls[id].configured
    && s.calls[id].result.Some? && s.calls[id].result.value.answer == True
  }

  /** In every interleaving, two leaders for one key hold leases that do not overlap: the later lease
      was granted by the server no earlier than the earlier one ended. */
  lemma LeasesDoNotOverlap(key: string, steps: seq<Step>, i: nat, j: nat)
    requires OnlyCallsTouch(key, steps) && i != j
    requires Leads(Run(INITIAL, steps), key, i) && Leads(Run(INITIAL, steps), key, j)
    ensures
      var s := Run(INITIAL, steps);
      && s.calls[i].Won() && s.calls[j].Won()
      && WonAt(s, i) <= s.calls[i].result.value.at && WonAt(s, j) <= s.calls[j].result.value.at
      && Apart(s, i, j)
  {
    var s := Run(INITIAL, steps);
    RunKeepsInv(INITIAL, key, steps);
    assert Truthful(s.calls[i], s.now) && Truthful(s.calls[j], s.now);
    assert WonOn(s, key, i) && WonOn(s, key, j);
  }

  // ---- what the answers mean

  /** What a caller has been told: without a URL every process leads; a call that never heard from the server is
      told to go ahead by setNx and not to by the cron lock; any other call is told what the server did. */
  ghost predicate AnsweredRight(c: Call)
    requires c.result.Some?
  {
    var r := c.result.value;
    if c.kind == CronLock && !c.configured then r.answer == True && c.execution.None?
    else if r.degraded then r.answer == (match c.kind case SetNx => True case CronLock => Unavailable)
    else c.execution.Some? && r.answer == (if c.execution.value.ok then True else False)
  }

  lemma EveryAnswerIsRight(steps: seq<Step>, id: nat)
    requires id in Run(INITIAL, steps).calls && Run(INITIAL, steps).calls[id].result.Some?
    ensures AnsweredRight(Run(INITIAL, steps).calls[id])
  {
    RunKeepsTruthful(INITIAL, steps);
    assert Truthful(Run(INITIAL, steps).calls[id], Run(INITIAL, steps).now);
  }

  lemma {:induction false} RunKeepsTruthful(s: State, steps: seq<Step>)
    requires AllTruthful(s)
    ensures AllTruthful(Run(s, steps))
    decreases |steps|
  {
    if steps != [] {
      NextKeepsTruthful(s, steps[0]);
      RunKeepsTruthful(Next(s, steps[0]), steps[1..]);
    }
  }

  /** Whoever set the key, a call wins it exactly once its lifetime is over. */
  lemma SetBlocksFor(s: State, key: string, ttl: Time, delay: Time, id: nat)
    requires id in s.calls && s.calls[id].sent && s.calls[id].execution.None? && s.calls[id].key == key
    ensures WonOn(Run(s, [Set(key, ttl), Tick(delay), Execute(id)]), key, id) <==> ttl <= delay
  {
    Runs.RunThree(Next, s, Set(key, ttl), Tick(delay), Execute(id));
  }

  lemma WinBlocksFor(s: State, key: string, delay: Time, i: nat, j: nat)
    requires i != j && i in s.calls && s.calls[i].sent && s.calls[i].execution.None? && s.calls[i].key == key
    requires j in s.calls && s.calls[j].sent && s.calls[j].execution.None? && s.calls[j].key == key
    requires key !in s.expires
    ensures WonOn(Run(s, [Execute(i), Tick(delay), Execute(j)]), key, j) <==> s.calls[i].ttl <= delay
  {
    Runs.RunThree(Next, s, Execute(i), Tick(delay), Execute(j));
  }

  function Lead(id: nat, key: string, ttl: Time): seq<Step> {
    [Start(id, CronLock, key, ttl, true, true), Execute(id), Reply(id)]
  }

  lemma AfterLead(s: State, id: nat, key: string, ttl: Time)
    requires id !in s.calls && key !in s.expires
    ensures Run(s, Lead(id, key, ttl)) ==
      State(s.now, s.expires[key := s.now + ttl],
            s.calls[id := Call(CronLock, key, ttl, true, true, Some(Execution(s.now, true)),
                               Some(Return(s.now, True, false)))])
  {
    Runs.RunThree(Next, s, Start(id, CronLock, key, ttl, true, true), Execute(id), Reply(id));
  }

  /** The condition that nothing else touches the key is needed: a delete makes two leaders at one time. */
  lemma DeleteMakesTwoLeaders(key: string, ttl: Time)
    requires ttl > 0
    ensures
      var s := Run(INITIAL, Lead(1, key, ttl) + ([Delete(key)] + Lead(2, key, ttl)));
      Leads(s, key, 1) && Leads(s, key, 2) && s.calls[1].Won() && s.calls[2].Won() && !Apart(s, 1, 2)
  {
    var s := Run(INITIAL, Lead(1, key, ttl));
    AfterLead(INITIAL, 1, key, ttl);
    Runs.RunAppend(Next, INITIAL, Lead(1, key, ttl), [Delete(key)] + Lead(2, key, ttl));
    Runs.RunOne(Next, s, Delete(key), Lead(2, key, ttl));
    AfterLead(Next(s, Delete(key)), 2, key, ttl);
  }

  // ---- how far apart the answers are

  ghost function AnsweredAt(s: State, id: nat): Time
    requires id in s.calls && s.calls[id].result.Some?
  {
    s.calls[id].result.value.at
  }

  /** Two leaders with one lifetime whose answers took at most `delay` from the server. */
  ghost predicate TwoLeaders(key: string, ttl: Time, delay: Time, steps: seq<Step>, i: nat, j: nat) {
    var s := Run(INITIAL, steps);
    && OnlyCallsTouch(key, steps) && i != j && Leads(s, key, i) && Leads(s, key, j)
    && s.calls[i].ttl == ttl && s.calls[j].ttl == ttl && s.calls[i].Won() && s.calls[j].Won()
    && AnsweredAt(s, i) <= WonAt(s, i) + delay && AnsweredAt(s, j) <= WonAt(s, j) + delay
  }

  ghost function Distance(steps: seq<Step>, i: nat, j: nat): Time {
    var s := Run(INITIAL, steps);
    if i in s.calls && j in s.calls && s.calls[i].result.Some? && s.calls[j].result.Some? then
      var (x, y) := (AnsweredAt(s, i), AnsweredAt(s, j));
      if x < y then y - x else x - y
    else 0
  }

  /** In every interleaving the answers of two such leaders are at least `gap` apart. */
  ghost predicate AlwaysApart(key: string, ttl: Time, delay: Time, gap: Time) {
    forall steps, i, j | TwoLeaders(key, ttl, delay, steps, i, j) :: gap <= Distance(steps, i, j)
  }

  lemma AnswersApart(key: string, ttl: Time, delay: Time, steps: seq<Step>, i: nat, j: nat)
    requires TwoLeaders(key, ttl, delay, steps, i, j)
    ensures ttl <= Distance(steps, i, j) + delay
  {
    LeasesDoNotOverlap(key, steps, i, j);
  }

  // ---- answers that are as close as the delay allows

  function Asked(kind: Kind, key: string, ttl: Time, execution: Option<Execution>, result: Option<Return>): Call {
    Call(kind, key, ttl, true, true, execution, result)
  }

  /** The first caller learns of its success `delay` late. */
  function LateReply(kind: Kind, key: string, ttl: Time, delay: Time): seq<Step> {
    [Start(1, kind, key, ttl, true, true), Execute(1), Tick(delay)] + [Reply(1), Start(2, kind, key, ttl, true, true)]
  }

  /** The second call succeeds the moment the key expires. */
  function PromptReply(rest: Time): seq<Step> { [Tick(rest), Execute(2), Reply(2)] }

  function Answered(kind: Kind, key: string, ttl: Time, at: Time, answered: Time): Call {
    Asked(kind, key, ttl, Some(Execution(at, true)), Some(Return(answered, True, false)))
  }

  lemma AfterLateReply(kind: Kind, key: string, ttl: Time, delay: Time)
    ensures Run(INITIAL, LateReply(kind, key, ttl, delay)) ==
      State(delay, map[key := ttl],
            map[1 := Answered(kind, key, ttl, 0, delay), 2 := Asked(kind, key, ttl, None, None)])
  {
    var (a, e, t) := (Start(1, kind, key, ttl, true, true), Execute(1), Tick(delay));
    var (r, b) := (Reply(1), Start(2, kind, key, ttl, true, true));
    Runs.RunThree(Next, INITIAL, a, e, t);
    Runs.RunAppend(Next, INITIAL, [a, e, t], [r, b]);
    var s := State(delay, map[key := ttl], map[1 := Asked(kind, key, ttl, Some(Execution(0, true)), None)]);
    assert Next(Next(Next(INITIAL, a), e), t) == s;
    Runs.RunTwo(Next, s, r, b);
  }

  lemma AfterPromptReply(kind: Kind, key: string, ttl: Time, delay: Time)
    requires delay <= ttl
    ensures Run(INITIAL, LateReply(kind, key, ttl, delay) + PromptReply(ttl - delay)) ==
      State(ttl, map[key := ttl + ttl],
            map[1 := Answered(kind, key, ttl, 0, delay), 2 := Answered(kind, key, ttl, ttl, ttl)])
  {
    AfterLateReply(kind, key, ttl, delay);
    Runs.RunAppend(Next, INITIAL, LateReply(kind, key, ttl, delay), PromptReply(ttl - delay));
    var s := Run(INITIAL, LateReply(kind, key, ttl, delay));
    Runs.RunThree(Next, s, Tick(ttl - delay), Execute(2), Reply(2));
  }

  lemma AnswersAsCloseAsDelayAllows(key: string, ttl: Time, delay: Time)
    requires delay <= ttl
    ensures
      var steps := LateReply(CronLock, key, ttl, delay) + PromptReply(ttl - delay);
      TwoLeaders(key, ttl, delay, steps, 1, 2) && Distance(steps, 1, 2) == ttl - delay
  {
    AfterPromptReply(CronLock, key, ttl, delay);
  }

  /** The separation of the answers that every interleaving guarantees is the lifetime of the key less the
      time that an answer may take: the whole lifetime only where answers arrive at once. */
  lemma AlwaysApartIff(key: string, ttl: Time, delay: Time, gap: Time)
    ensures AlwaysApart(key, ttl, delay, gap) <==> gap + delay <= ttl || gap == 0
  {
    forall steps, i, j | TwoLeaders(key, ttl, delay, steps, i, j) ensures ttl <= Distance(steps, i, j) + delay {
      AnswersApart(key, ttl, delay, steps, i, j);
    }
    var least := if delay <= ttl then delay else ttl;
    AnswersAsCloseAsDelayAllows(key, ttl, least);
    var steps := LateReply(CronLock, key, ttl, least) + PromptReply(ttl - least);
    assert TwoLeaders(key, ttl, delay, steps, 1, 2);
  }

  // ---- setNx

  /** A setNx call on the key that told its caller to go ahead. */
  ghost predicate GoesAhead(s: State, key: string, id: nat) {
    && id in s.calls && s.calls[id].key == key && s.calls[id].kind == SetNx
    && s.calls[id].result.Some? && s.calls[id].result.value.answer == True
  }

  predicate InWindow(at: Time, from: Time, length: Time) { from <= at < from + length }

  /** The calls whose answer to go ahead arrived in the window. */
  ghost function WentAheadIn(s: State, key: string, from: Time, length: Time): set<nat> {
    set id | id in s.calls && GoesAhead(s, key, id) && InWindow(AnsweredAt(s, id), from, length)
  }

  /** Those of them that never heard from the server. */
  ghost function DegradedIn(s: State, key: string, from: Time, length: Time): set<nat> {
    set id | id in WentAheadIn(s, key, from, length) && s.calls[id].result.value.degraded
  }

  ghost predicate CallIsPrompt(c: Call, delay: Time) {
    c.execution.Some? && c.result.Some? ==> c.result.value.at <= c.execution.value.at + delay
  }

  /** Every call on the key asks for at least the lifetime `ttl`, and the server's answer to it takes at
      most `delay`. */
  ghost predicate Bounded(s: State, key: string, ttl: Time, delay: Time) {
    forall id | id in s.calls && s.calls[id].key == key :: ttl <= s.calls[id].ttl && CallIsPrompt(s.calls[id], delay)
  }

  lemma AtMostOne(xs: set<nat>)
    requires forall i, j | i in xs && j in xs :: i == j
    ensures |xs| <= 1
  {
    if xs != {} {
      var i :| i in xs;
      assert xs == {i};
    }
  }

  /** The calls on the key that the server granted in the window. */
  ghost function WonIn(s: State, key: string, from: Time, length: Time): set<nat> {
    set id | id in s.calls && WonOn(s, key, id) && InWindow(WonAt(s, id), from, length)
  }

  /** By the server's clock the delay does not matter: it grants the key once in a window no longer than the
      least lifetime asked for. */
  lemma OneWinInWindow(key: string, steps: seq<Step>, ttl: Time, delay: Time, from: Time, length: Time)
    requires OnlyCallsTouch(key, steps) && Bounded(Run(INITIAL, steps), key, ttl, delay) && length <= ttl
    ensures |WonIn(Run(INITIAL, steps), key, from, length)| <= 1
  {
    var s := Run(INITIAL, steps);
    RunKeepsInv(INITIAL, key, steps);
    forall i, j | i in WonIn(s, key, from, length) && j in WonIn(s, key, from, length)
      ensures i == j
    {
      assert i != j ==> Apart(s, i, j);
      assert CallIsPrompt(s.calls[i], delay) && CallIsPrompt(s.calls[j], delay);
    }
    AtMostOne(WonIn(s, key, from, length));
  }

  /** A call that the server let go ahead has won, no later than its answer. */
  lemma GoesAheadWon(s: State, key: string, id: nat)
    requires Inv(s, key) && GoesAhead(s, key, id) && !s.calls[id].result.value.degraded
    ensures WonOn(s, key, id) && WonAt(s, id) <= AnsweredAt(s, id)
  {
    assert Truthful(s.calls[id], s.now);
  }

  lemma TwoAnswersApart(s: State, key: string, ttl: Time, delay: Time, i: nat, j: nat)
    requires Inv(s, key) && Bounded(s, key, ttl, delay) && i != j
    requires GoesAhead(s, key, i) && !s.calls[i].result.value.degraded
    requires GoesAhead(s, key, j) && !s.calls[j].result.value.degraded
    ensures AnsweredAt(s, i) + ttl <= AnsweredAt(s, j) + delay || AnsweredAt(s, j) + ttl <= AnsweredAt(s, i) + delay
  {
    GoesAheadWon(s, key, i);
    GoesAheadWon(s, key, j);
    assert Apart(s, i, j);
    assert CallIsPrompt(s.calls[i], delay) && CallIsPrompt(s.calls[j], delay);
  }

  /** In every interleaving, within a window that with the delay of the answers is no longer than the
      lifetime of the key, at most one setNx call returns true besides the degraded ones. */
  lemma SetNxWindow(key: string, steps: seq<Step>, ttl: Time, delay: Time, from: Time, length: Time)
    requires OnlyCallsTouch(key, steps) && Bounded(Run(INITIAL, steps), key, ttl, delay)
    requires length + delay <= ttl
    ensures
      var s := Run(INITIAL, steps);
      |WentAheadIn(s, key, from, length)| <= 1 + |DegradedIn(s, key, from, length)|
  {
    var s := Run(INITIAL, steps);
    RunKeepsInv(INITIAL, key, steps);
    var all, bad := WentAheadIn(s, key, from, length), DegradedIn(s, key, from, length);
    forall i, j | i in all - bad && j in all - bad
      ensures i == j
    {
      if i != j {
        TwoAnswersApart(s, key, ttl, delay, i, j);
      }
    }
    AtMostOne(all - bad);
    assert all == (all - bad) + bad;
  }

  /** The guarantee of SetNxWindow for all windows of a length, in all interleavings. */
  ghost predicate OncePerWindow(key: string, ttl: Time, delay: Time, length: Time) {
    forall steps, from | OnlyCallsTouch(key, steps) && Bounded(Run(INITIAL, steps), key, ttl, delay) ::
      SparseIn(Run(INITIAL, steps), key, from, length)
  }

  ghost predicate SparseIn(s: State, key: string, from: Time, length: Time) {
    |WentAheadIn(s, key, from, length)| <= 1 + |DegradedIn(s, key, from, length)|
  }

  lemma TwoInOneWindow(key: string, ttl: Time, delay: Time, length: Time)
    requires delay <= ttl < length + delay
    ensures
      var steps := LateReply(SetNx, key, ttl, delay) + PromptReply(ttl - delay);
      && OnlyCallsTouch(key, steps) && Bounded(Run(INITIAL, steps), key, ttl, delay)
      && !SparseIn(Run(INITIAL, steps), key, delay, length)
  {
    var s := Run(INITIAL, LateReply(SetNx, key, ttl, delay) + PromptReply(ttl - delay));
    AfterPromptReply(SetNx, key, ttl, delay);
    assert WentAheadIn(s, key, delay, length) == {1, 2};
    assert DegradedIn(s, key, delay, length) == {};
  }

  /** Exactly how long a window may be for the guarantee to hold. */
  lemma OncePerWindowIff(key: string, ttl: Time, delay: Time, length: Time)
    ensures OncePerWindow(key, ttl, delay, length) <==> length + delay <= ttl || length == 0
  {
    if length == 0 {
      forall steps, from
        ensures SparseIn(Run(INITIAL, steps), key, from, length)
      {
        assert WentAheadIn(Run(INITIAL, steps), key, from, length) == {};
      }
    } else if length + delay <= ttl {
      forall steps, from | OnlyCallsTouch(key, steps) && Bounded(Run(INITIAL, steps), key, ttl, delay)
        ensures SparseIn(Run(INITIAL, steps), key, from, length)
      {
        SetNxWindow(key, steps, ttl, delay, from, length);
      }
    } else {
      var least := if delay <= ttl then delay else ttl;
      TwoInOneWindow(key, ttl, least, length);
      var steps := LateReply(SetNx, key, ttl, least) + PromptReply(ttl - least);
      BoundedByMore(Run(INITIAL, steps), key, ttl, least, delay);
    }
  }

  lemma BoundedByMore(s: State, key: string, ttl: Time, delay: Time, more: Time)
    requires Bounded(s, key, ttl, delay) && delay <= more
    ensures Bounded(s, key, ttl, more)
  {
    forall id | id in s.calls && s.calls[id].key == key
      ensures CallIsPrompt(s.calls[id], more)
    {
      assert CallIsPrompt(s.calls[id], delay);
    }
  }

  // ---- the service

  /** What happens to one command: it goes through, it is lost before the server sees it,
      or its reply is lost. */
  datatype Network = Fine | LostRequest | LostReply

  function Traffic(id: nat, network: Network): seq<Step> {
    match network
    case Fine => [Execute(id), Reply(id)]
    case LostRequest => [Fail(id)]
    case LostReply => [Execute(id), Fail(id)]
  }

  /** What a call looks like once its command has met the network. */
  function AfterNetwork(c: Call, ok: bool, now: Time, network: Network): Call {
    match network
    case Fine =>
      c.(execution := Some(Execution(now, ok)), result := Some(Return(now, if ok then True else False, false)))
    case LostRequest => c.(result := Some(Return(now, Degraded(c.kind), true)))
    case LostReply => c.(execution := Some(Execution(now, ok)), result := Some(Return(now, Degraded(c.kind), true)))
  }

  lemma AfterTraffic(s: State, id: nat, network: Network)
    requires id in s.calls && s.calls[id].sent && s.calls[id].execution.None? && s.calls[id].result.None?
    ensures
      var (c, ok) := (s.calls[id], !Visible(s.expires, s.calls[id].key, s.now));
      Run(s, Traffic(id, network)) ==
        State(s.now,
              if ok && network != LostRequest then s.expires[c.key := s.now + c.ttl] else s.expires,
              s.calls[id := AfterNetwork(c, ok, s.now, network)])
  {
    if network == LostRequest {
      assert [Fail(id)] + [] == [Fail(id)];
      Runs.RunOne(Next, s, Fail(id), []);
    } else {
      Runs.RunTwo(Next, s, Execute(id), if network == Fine then Reply(id) else Fail(id));
    }
  }

  /** The steps of one call that nothing else interrupts. */
  function CallSteps(id: nat, kind: Kind, key: string, ttl: Time, urlConfigured: bool, clientUp: bool,
                     network: Network): seq<Step>
  {
    [Start(id, kind, key, ttl, urlConfigured, clientUp)] +
    if (kind == CronLock && !urlConfigured) || !clientUp then [] else Traffic(id, network)
  }

  class RedisCacheService {
    var now: Time
    var expires: map<string, Time>
    var urlConfigured: bool
    var clientUp: bool
    ghost var calls: map<nat, Call>

    ghost function View(): State
      reads this
    {
      State(now, expires, calls)
    }

    /** `client.set(key, ..., { NX, EX })`: None is a rejected promise. */
    method SetNxEx(key: string, ttl: Time, network: Network, ghost id: nat) returns (reply: Option<bool>)
      requires id in calls && calls[id].sent && calls[id].execution.None? && calls[id].result.None?
      requires calls[id].key == key && calls[id].ttl == ttl
      modifies this`expires, this`calls
      ensures View() == Run(old(View()), Traffic(id, network))
      ensures reply.None? <==> network != Fine
      ensures id in calls && calls[id].result.Some? && calls[id].result.value.degraded == reply.None?
      ensures calls[id].result.value.answer ==
        if reply.None? then Degraded(old(calls[id].kind)) else if reply.value then True else False
      ensures reply.Some? ==> reply.value == !(key in old(expires) && now < old(expires)[key])
      ensures expires ==
        if network != LostRequest && !(key in old(expires) && now < old(expires)[key])
        then old(expires)[key := now + ttl] else old(expires)
    {
      AfterTraffic(View(), id, network);
      ghost var after := Run(View(), Traffic(id, network)).calls;
      if network == LostRequest {
        reply := None;
      } else {
        var ok := !(key in expires && now < expires[key]);
        if ok {
          expires := expires[key := now + ttl];
        }
        reply := if network == Fine then Some(ok) else None;
      }
      calls := after;
    }

    method TryAcquireCronLock(key: string, ttl: Time, network: Network, ghost id: nat) returns (answer: Answer)
      requires id !in calls
      modifies this`expires, this`calls
      ensures View() == Run(old(View()), CallSteps(id, CronLock, key, ttl, urlConfigured, clientUp, network))
      ensures id in calls && calls[id].result.Some? && answer == calls[id].result.value.answer
      ensures !urlConfigured ==> answer == True
      ensures urlConfigured && (!clientUp || network != Fine) ==> answer == Unavailable
      ensures urlConfigured && clientUp && network == Fine ==>
        answer == if key in old(expires) && now < old(expires)[key] then False else True
      ensures expires ==
        if urlConfigured && clientUp && network != LostRequest && !(key in old(expires) && now < old(expires)[key])
        then old(expires)[key := now + ttl] else old(expires)
    {
      ghost var start := Start(id, CronLock, key, ttl, urlConfigured, clientUp);
      Runs.RunOne(Next, View(), start, []);
      Runs.RunOne(Next, View(), start, Traffic(id, network));
      calls := Next(View(), start).calls;
      if !urlConfigured {
        return True;
      }
      if !clientUp {
        return Unavailable;
      }
      var reply := SetNxEx(key, ttl, network, id);
      answer := if reply.None? then Unavailable else if reply.value then True else False;
    }

    method SetNx(key: string, ttl: Time, network: Network, ghost id: nat) returns (answer: bool)
      requires id !in calls
      modifies this`expires, this`calls
      ensures View() == Run(old(View()), CallSteps(id, Kind.SetNx, key, ttl, urlConfigured, clientUp, network))
      ensures id in calls && calls[id].result.Some? && calls[id].result.value.answer == if answer then True else False
      ensures !clientUp || network != Fine ==> answer
      ensures clientUp && network == Fine ==> (answer <==> !(key in old(expires) && now < old(expires)[key]))
      ensures expires ==
        if clientUp && network != LostRequest && !(key in old(expires) && now < old(expires)[key])
        then old(expires)[key := now + ttl] else old(expires)
    {
      ghost var start := Start(id, Kind.SetNx, key, ttl, urlConfigured, clientUp);
      Runs.RunOne(Next, View(), start, []);
      Runs.RunOne(Next, View(), start, Traffic(id, network));
      calls := Next(View(), start).calls;
      if !clientUp {
        return true;
      }
      var reply := SetNxEx(key, ttl, network, id);
      answer := if reply.None? then true else reply.value;
    }
  }
}
