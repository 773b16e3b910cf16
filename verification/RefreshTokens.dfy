/** Refresh-token rotation over the revocation table, with every table call a step of its own. */
module RefreshTokens {
  import opened Basics
  import Runs

  type Time = nat
  type User = string

  /** A refresh token is determined by its claims; `jti` tells apart the tokens of one user. */
  datatype Token = Token(sub: User, jti: nat)

  datatype Row = Row(userId: User, expiresAt: Time, revokedAt: Option<Time>)

  /** Where a rotation stands: about to read, having read an active row, having revoked it, or over. */
  datatype Phase = Verified | ReadActive | Revoked | Issued(token: Token) | Unauthorized | Aborted

  datatype Rotation = Rotation(token: Token, phase: Phase, readAt: nat, revokedAt: nat)

  /** `steps` counts the steps so far; `root` traces every issued token back to its login. */
  datatype State = State(
    now: Time,
    steps: nat,
    rows: map<Token, Row>,
    rotations: map<nat, Rotation>,
    root: map<Token, Token>)

  datatype Step =
    | Tick(delay: Time)
    | Login(created: Token, ttl: Time)
    | Begin(id: nat, token: Token)          // a rotation whose token verified
    | Read(id: nat)                         // isActive
    | Revoke(id: nat)                       // the rotation's revoke
    | Store(id: nat, created: Token, ttl: Time)
    | Abort(id: nat)                        // the process stops, or signing fails
    | Logout(token: Token)
    | LogoutEverywhere(user: User)

  const INITIAL := State(0, 0, map[], map[], map[])

  // ---- the table

  function RevokeRow(row: Row, now: Time): Row {
    if row.revokedAt.None? then row.(revokedAt := Some(now)) else row
  }

  function RevokeToken(rows: map<Token, Row>, token: Token, now: Time): map<Token, Row> {
    if token in rows then rows[token := RevokeRow(rows[token], now)] else rows
  }

  function RevokeAll(rows: map<Token, Row>, user: User, now: Time): map<Token, Row> {
    map t | t in rows :: if rows[t].userId == user then RevokeRow(rows[t], now) else rows[t]
  }

  predicate Active(rows: map<Token, Row>, token: Token, now: Time) {
    token in rows && rows[token].revokedAt.None? && now < rows[token].expiresAt
  }

  /** A row not yet revoked; every active token has one. */
  predicate Unrevoked(s: State, token: Token) { token in s.rows && s.rows[token].revokedAt.None? }

  // ---- the steps

  predicate InPhase(s: State, id: nat, phase: Phase) { id in s.rotations && s.rotations[id].phase == phase }

  function Advance(s: State, id: nat, phase: Phase): State
    requires id in s.rotations
  {
    s.(rotations := s.rotations[id := s.rotations[id].(phase := phase)])
  }

  /** A step that makes no sense in the state only counts. */
  function Act(s: State, step: Step): State {
    match step
    case Tick(delay) => s.(now := s.now + delay)
    case Login(created, ttl) =>
      if created in s.rows then s
      else s.(rows := s.rows[created := Row(created.sub, s.now + ttl, None)], root := s.root[created := created])
    case Begin(id, token) =>
      if id in s.rotations then s
      else s.(rotations := s.rotations[id := Rotation(token, Verified, 0, 0)])
    case Read(id) =>
      if !InPhase(s, id, Verified) then s
      else if !Active(s.rows, s.rotations[id].token, s.now) then Advance(s, id, Unauthorized)
      else s.(rotations := s.rotations[id := s.rotations[id].(phase := ReadActive, readAt := s.steps)])
    case Revoke(id) =>
      if !InPhase(s, id, ReadActive) then s
      else s.(rows := RevokeToken(s.rows, s.rotations[id].token, s.now),
              rotations := s.rotations[id := s.rotations[id].(phase := Revoked, revokedAt := s.steps)])
    case Store(id, created, ttl) =>
      if !InPhase(s, id, Revoked) || s.rotations[id].token !in s.root || created.sub != s.rotations[id].token.sub then s
      else if created in s.rows then Advance(s, id, Aborted)
      else Advance(s, id, Issued(created)).(
          rows := s.rows[created := Row(created.sub, s.now + ttl, None)],
          root := s.root[created := s.root[s.rotations[id].token]])
    case Abort(id) => if InFlight(s, id) || InPhase(s, id, Verified) then Advance(s, id, Aborted) else s
    case Logout(token) => s.(rows := RevokeToken(s.rows, token, s.now))
    case LogoutEverywhere(user) => s.(rows := RevokeAll(s.rows, user, s.now))
  }

  function Next(s: State, step: Step): State {
    var t := Act(s, step); t.(steps := s.steps + 1)
  }

  function Run(s: State, steps: seq<Step>): State { Runs.Run(Next, s, steps) }

  /** The rotation has read its token active and has not finished. */
  predicate InFlight(s: State, id: nat) { InPhase(s, id, ReadActive) || InPhase(s, id, Revoked) }

  // ---- revocation is final

  /** The row stays, and once revoked keeps its first revokedAt. */
  ghost predicate RowKept(s: State, t: State, k: Token) {
    k in s.rows ==>
      && k in t.rows
      && t.rows[k].userId == s.rows[k].userId
      && t.rows[k].expiresAt == s.rows[k].expiresAt
      && (s.rows[k].revokedAt.Some? ==> t.rows[k].revokedAt == s.rows[k].revokedAt)
  }

  lemma NextKeepsRow(s: State, step: Step, k: Token)
    ensures RowKept(s, Next(s, step), k) && s.now <= Next(s, step).now
  {}

  lemma {:induction false} RevocationIsFinal(s: State, steps: seq<Step>, k: Token)
    ensures RowKept(s, Run(s, steps), k) && s.now <= Run(s, steps).now
    decreases |steps|
  {
    if steps != [] {
      NextKeepsRow(s, steps[0], k);
      RevocationIsFinal(Next(s, steps[0]), steps[1..], k);
    }
  }

  /** A token that has become inactive never becomes active again. */
  lemma InactiveForever(s: State, steps: seq<Step>, token: Token)
    requires token in s.rows && !Active(s.rows, token, s.now)
    ensures !Active(Run(s, steps).rows, token, Run(s, steps).now)
  {
    RevocationIsFinal(s, steps, token);
  }

  ghost predicate NeverIssues(s: State, id: nat, token: Token) {
    id in s.rotations && s.rotations[id].token == token ==>
      !InFlight(s, id) && !s.rotations[id].phase.Issued?
  }

  /** A rotation that has not read its token when the revoke commits issues nothing, whatever follows. */
  lemma {:induction false} LateRotationIssuesNothing(s: State, steps: seq<Step>, id: nat, token: Token)
    requires token in s.rows && s.rows[token].revokedAt.Some?
    requires NeverIssues(s, id, token)
    ensures NeverIssues(Run(s, steps), id, token)
    decreases |steps|
  {
    if steps != [] {
      NextKeepsRow(s, steps[0], token);
      NextIssuesNothing(s, steps[0], id, token);
      LateRotationIssuesNothing(Next(s, steps[0]), steps[1..], id, token);
    }
  }

  lemma NextIssuesNothing(s: State, step: Step, id: nat, token: Token)
    requires token in s.rows && s.rows[token].revokedAt.Some?
    requires NeverIssues(s, id, token)
    ensures NeverIssues(Next(s, step), id, token)
  {}

  // ---- two successors need overlapping rotations

  predicate PastRead(s: State, id: nat) {
    InFlight(s, id) || (id in s.rotations && s.rotations[id].phase.Issued?)
  }

  predicate PastRevoke(s: State, id: nat) {
    InPhase(s, id, Revoked) || (id in s.rotations && s.rotations[id].phase.Issued?)
  }

  ghost predicate Recorded(s: State, id: nat) {
    && (PastRead(s, id) ==> s.rotations[id].readAt < s.steps && s.rotations[id].token in s.rows)
    && (PastRevoke(s, id) ==> s.rotations[id].revokedAt < s.steps
                              && s.rows[s.rotations[id].token].revokedAt.Some?)
  }

  ghost predicate ReadBeforeRevoke(s: State, i: nat, j: nat) {
    PastRead(s, i) && PastRevoke(s, j) && s.rotations[i].token == s.rotations[j].token ==>
      s.rotations[i].readAt < s.rotations[j].revokedAt
  }

  ghost predicate RootedAt(s: State, k: Token) {
    (k in s.rows <==> k in s.root) && (k in s.root ==> s.root[k] in s.rows)
  }

  /** Every stored token has a root that is itself stored. */
  ghost predicate Rooted(s: State) { forall k :: RootedAt(s, k) }

  ghost predicate Inv(s: State) {
    && Rooted(s)
    && (forall id | id in s.rotations :: Recorded(s, id))
    && (forall i, j | i in s.rotations && j in s.rotations && i != j :: ReadBeforeRevoke(s, i, j))
  }

  lemma NextPhases(s: State, step: Step, id: nat)
    ensures PastRead(Next(s, step), id) ==>
      || (PastRead(s, id) && Next(s, step).rotations[id].readAt == s.rotations[id].readAt
          && Next(s, step).rotations[id].token == s.rotations[id].token)
      || (step == Read(id) && Next(s, step).rotations[id].readAt == s.steps && id in s.rotations
          && Next(s, step).rotations[id].token == s.rotations[id].token
          && Active(s.rows, s.rotations[id].token, s.now) && !PastRevoke(Next(s, step), id))
    ensures PastRevoke(Next(s, step), id) ==>
      || (PastRevoke(s, id) && Next(s, step).rotations[id].revokedAt == s.rotations[id].revokedAt
          && Next(s, step).rotations[id].token == s.rotations[id].token)
      || (step == Revoke(id) && Next(s, step).rotations[id].revokedAt == s.steps && InPhase(s, id, ReadActive)
          && Next(s, step).rotations[id].token == s.rotations[id].token
          && Next(s, step).rows == RevokeToken(s.rows, s.rotations[id].token, s.now))
  {}

  /** What a step does to one entry of the table of roots. */
  lemma NextRoot(s: State, step: Step, k: Token)
    ensures k in s.root ==> k in Next(s, step).root && (k in s.rows ==> Next(s, step).root[k] == s.root[k])
    ensures k in Next(s, step).rows && k !in s.rows ==>
      && k in Next(s, step).root
      && (Next(s, step).root[k] == k || exists u :: u in s.root && Next(s, step).root[k] == s.root[u])
    ensures k !in Next(s, step).rows ==> (k in Next(s, step).root <==> k in s.root)
  {}

  lemma NextKeepsRooted(s: State, step: Step)
    requires Rooted(s)
    ensures Rooted(Next(s, step))
  {
    var t := Next(s, step);
    forall k
      ensures RootedAt(t, k)
    {
      assert RootedAt(s, k);
      NextRoot(s, step, k);
      NextKeepsRow(s, step, k);
      if k in t.rows && k !in s.rows && t.root[k] != k {
        var u :| u in s.root && t.root[k] == s.root[u];
        assert RootedAt(s, u);
        NextKeepsRow(s, step, s.root[u]);
      } else if k in s.rows {
        NextKeepsRow(s, step, s.root[k]);
      }
    }
  }

  lemma NextKeepsRecorded(s: State, step: Step, id: nat)
    requires id in s.rotations ==> Recorded(s, id)
    ensures Recorded(Next(s, step), id)
  {
    NextPhases(s, step, id);
    if id in s.rotations {
      NextKeepsRow(s, step, s.rotations[id].token);
    }
  }

  lemma NextKeepsReadBeforeRevoke(s: State, step: Step, i: nat, j: nat)
    requires i in s.rotations ==> Recorded(s, i)
    requires j in s.rotations ==> Recorded(s, j)
    requires i in s.rotations && j in s.rotations ==> ReadBeforeRevoke(s, i, j)
    requires i != j
    ensures ReadBeforeRevoke(Next(s, step), i, j)
  {
    NextPhases(s, step, i);
    NextPhases(s, step, j);
  }

  lemma NextKeepsInv(s: State, step: Step)
    requires Inv(s)
    ensures Inv(Next(s, step))
  {
    var t := Next(s, step);
    NextKeepsRooted(s, step);
    forall id | id in t.rotations
      ensures Recorded(t, id)
    {
      NextKeepsRecorded(s, step, id);
    }
    forall i, j | i in t.rotations && j in t.rotations && i != j
      ensures ReadBeforeRevoke(t, i, j)
    {
      NextKeepsReadBeforeRevoke(s, step, i, j);
    }
  }

  lemma {:induction false} RunKeepsInv(s: State, steps: seq<Step>)
    requires Inv(s)
    ensures Inv(Run(s, steps))
    decreases |steps|
  {
    if steps != [] {
      NextKeepsInv(s, steps[0]);
      RunKeepsInv(Next(s, steps[0]), steps[1..]);
    }
  }

  ghost predicate Succeeds(s: State, id: nat, token: Token) {
    id in s.rotations && s.rotations[id].token == token && s.rotations[id].phase.Issued?
  }

  /** If two rotations of one token both issue a successor, they overlapped: each read the token
      active before the other revoked it. */
  lemma TwoSuccessorsOverlap(steps: seq<Step>, i: nat, j: nat, token: Token)
    requires i != j && Succeeds(Run(INITIAL, steps), i, token) && Succeeds(Run(INITIAL, steps), j, token)
    ensures
      var r := Run(INITIAL, steps).rotations;
      r[i].readAt < r[j].revokedAt && r[j].readAt < r[i].revokedAt
  {
    RunKeepsInv(INITIAL, steps);
    var s := Run(INITIAL, steps);
    assert ReadBeforeRevoke(s, i, j) && ReadBeforeRevoke(s, j, i);
  }

  // ---- without overlap, one successor and one live descendant

  /** No rotation reads its token while another rotation of that token is in flight. */
  ghost predicate Exclusive(s: State, steps: seq<Step>)
    decreases |steps|
  {
    steps == [] || (ExclusiveStep(s, steps[0]) && Exclusive(Next(s, steps[0]), steps[1..]))
  }

  ghost predicate ExclusiveStep(s: State, step: Step) {
    step.Read? && step.id in s.rotations ==>
      forall j | j in s.rotations && j != step.id && InFlight(s, j) ::
        s.rotations[j].token != s.rotations[step.id].token
  }

  ghost predicate SameToken(s: State, i: nat, j: nat) {
    PastRead(s, i) && PastRead(s, j) && s.rotations[i].token == s.rotations[j].token
  }

  ghost predicate InFlightOn(s: State, k: Token) {
    exists id :: id in s.rotations && InFlight(s, id) && s.rotations[id].token == k
  }

  /** A token that is live, or from which a rotation in flight may still produce a live one. */
  ghost predicate Carrier(s: State, k: Token) { k in s.rows && (Unrevoked(s, k) || InFlightOn(s, k)) }

  ghost predicate SeparateRoots(s: State, k: Token, l: Token) {
    Carrier(s, k) && Carrier(s, l) && k != l ==> k in s.root && l in s.root && s.root[k] != s.root[l]
  }

  ghost predicate LineageInv(s: State) {
    && Rooted(s)
    && (forall id | id in s.rotations :: Recorded(s, id))
    && (forall i, j | i in s.rotations && j in s.rotations && i != j :: !SameToken(s, i, j))
    && (forall k, l | k in s.rows && l in s.rows :: SeparateRoots(s, k, l))
  }

  lemma NextKeepsSingle(s: State, step: Step, i: nat, j: nat)
    requires LineageInv(s) && ExclusiveStep(s, step) && i != j
    ensures !SameToken(Next(s, step), i, j)
  {
    NextPhases(s, step, i);
    NextPhases(s, step, j);
    assert i in s.rotations ==> Recorded(s, i);
    assert j in s.rotations ==> Recorded(s, j);
    assert i in s.rotations && j in s.rotations ==> !SameToken(s, i, j);
  }

  lemma NextInFlightOn(s: State, step: Step, k: Token)
    requires InFlightOn(Next(s, step), k)
    ensures InFlightOn(s, k) || Unrevoked(s, k)
  {
    var t := Next(s, step);
    var id :| id in t.rotations && InFlight(t, id) && t.rotations[id].token == k;
    NextPhases(s, step, id);
  }

  lemma NextStored(s: State, step: Step, k: Token)
    requires k !in s.rows && k in Next(s, step).rows
    ensures CreatedBy(s, step, k)
  {}

  lemma NextCarrier(s: State, step: Step, k: Token)
    requires LineageInv(s) && ExclusiveStep(s, step) && Carrier(Next(s, step), k)
    ensures Carrier(s, k) || (k !in s.rows && CreatedBy(s, step, k))
  {
    if k !in s.rows {
      NextStored(s, step, k);
    } else if InFlightOn(Next(s, step), k) {
      NextInFlightOn(s, step, k);
    } else {
      NextKeepsRow(s, step, k);
    }
  }

  /** The step stores k: as a new root, or as the successor of the token of a rotation. */
  ghost predicate CreatedBy(s: State, step: Step, k: Token) {
    || (step.Login? && step.created == k && Next(s, step).root == s.root[k := k])
    || (step.Store? && step.created == k && InPhase(s, step.id, Revoked) && s.rotations[step.id].token in s.root
        && Next(s, step).root == s.root[k := s.root[s.rotations[step.id].token]])
  }

  /** Storing the successor ends the parent's turn as the carrier of its lineage. */
  lemma StoreEndsParent(s: State, step: Step, k: Token)
    requires LineageInv(s) && k !in s.rows && step.Store? && k in Next(s, step).rows && CreatedBy(s, step, k)
    ensures !Carrier(Next(s, step), s.rotations[step.id].token) && Carrier(s, s.rotations[step.id].token)
  {
    var t, parent := Next(s, step), s.rotations[step.id].token;
    assert Recorded(s, step.id);
    forall id | id in t.rotations && t.rotations[id].token == parent
      ensures !InFlight(t, id)
    {
      NextPhases(s, step, id);
      assert id in s.rotations && id != step.id ==> !SameToken(s, id, step.id);
    }
  }

  lemma NewCarrierIsSeparate(s: State, step: Step, k: Token, l: Token)
    requires LineageInv(s) && ExclusiveStep(s, step) && k != l
    requires k !in s.rows && CreatedBy(s, step, k) && Carrier(Next(s, step), k) && Carrier(Next(s, step), l)
    ensures SeparateRoots(Next(s, step), k, l)
  {
    NextCarrier(s, step, l);
    assert RootedAt(s, l);
    if step.Store? {
      StoreEndsParent(s, step, k);
      assert SeparateRoots(s, s.rotations[step.id].token, l);
    }
  }

  lemma NextKeepsSeparate(s: State, step: Step, k: Token, l: Token)
    requires LineageInv(s) && ExclusiveStep(s, step)
    ensures SeparateRoots(Next(s, step), k, l)
  {
    var t := Next(s, step);
    if Carrier(t, k) && Carrier(t, l) && k != l {
      NextCarrier(s, step, k);
      NextCarrier(s, step, l);
      if Carrier(s, k) && Carrier(s, l) {
        assert SeparateRoots(s, k, l);
        NextRoot(s, step, k);
        NextRoot(s, step, l);
      } else if k !in s.rows {
        NewCarrierIsSeparate(s, step, k, l);
      } else {
        NewCarrierIsSeparate(s, step, l, k);
      }
    }
  }

  lemma NextKeepsLineageInv(s: State, step: Step)
    requires LineageInv(s) && ExclusiveStep(s, step)
    ensures LineageInv(Next(s, step))
  {
    var t := Next(s, step);
    NextKeepsRooted(s, step);
    forall id | id in t.rotations
      ensures Recorded(t, id)
    {
      NextKeepsRecorded(s, step, id);
    }
    forall i, j | i in t.rotations && j in t.rotations && i != j
      ensures !SameToken(t, i, j)
    {
      NextKeepsSingle(s, step, i, j);
    }
    forall k, l | k in t.rows && l in t.rows
      ensures SeparateRoots(t, k, l)
    {
      NextKeepsSeparate(s, step, k, l);
    }
  }

  lemma {:induction false} RunKeepsLineageInv(s: State, steps: seq<Step>)
    requires LineageInv(s) && Exclusive(s, steps)
    ensures LineageInv(Run(s, steps))
    decreases |steps|
  {
    if steps != [] {
      NextKeepsLineageInv(s, steps[0]);
      RunKeepsLineageInv(Next(s, steps[0]), steps[1..]);
    }
  }

  /** In runs without overlap every refresh token has at most one successor, and of all the tokens that
      descend from one login at most one is unrevoked, so at most one is active. */
  lemma OneLiveDescendant(steps: seq<Step>, i: nat, j: nat, token: Token, k: Token, l: Token)
    requires Exclusive(INITIAL, steps)
    ensures
      var s := Run(INITIAL, steps);
      && (Succeeds(s, i, token) && Succeeds(s, j, token) ==> i == j)
      && (Unrevoked(s, k) && Unrevoked(s, l) && k in s.root && l in s.root && s.root[k] == s.root[l] ==> k == l)
  {
    var s := Run(INITIAL, steps);
    RunKeepsLineageInv(INITIAL, steps);
    assert i in s.rotations && j in s.rotations && i != j ==> !SameToken(s, i, j);
    if Unrevoked(s, k) && Unrevoked(s, l) {
      assert SeparateRoots(s, k, l);
    }
  }

  /** Overlap is also enough: two rotations that both get to read one active token both issue a
      successor, and the two successors are live descendants of one login. */
  lemma OverlapMakesTwo(s: State, i: nat, j: nat, token: Token, c: Token, d: Token, ttl: Time)
    requires Rooted(s) && i != j && InPhase(s, i, Verified) && InPhase(s, j, Verified)
    requires s.rotations[i].token == s.rotations[j].token == token && Active(s.rows, token, s.now)
    requires c !in s.rows && d !in s.rows && c != d && c.sub == d.sub == token.sub
    ensures
      var t := Run(s, [Read(i), Read(j)] + [Revoke(i), Store(i, c, ttl)] + [Revoke(j), Store(j, d, ttl)]);
      Unrevoked(t, c) && Unrevoked(t, d) && c in t.root && d in t.root && t.root[c] == t.root[d]
  {
    assert RootedAt(s, token);
    var s2 := Run(s, [Read(i), Read(j)]);
    Runs.RunTwo(Next, s, Read(i), Read(j));
    var s4 := Run(s2, [Revoke(i), Store(i, c, ttl)]);
    RevokeThenStore(s2, i, c, ttl);
    RevokeThenStore(s4, j, d, ttl);
    Runs.RunAppend(Next, s, [Read(i), Read(j)], [Revoke(i), Store(i, c, ttl)]);
    Runs.RunAppend(Next, s, [Read(i), Read(j)] + [Revoke(i), Store(i, c, ttl)], [Revoke(j), Store(j, d, ttl)]);
  }

  /** A rotation in flight that is left to finish stores its successor. */
  lemma RevokeThenStore(s: State, id: nat, c: Token, ttl: Time)
    requires InFlight(s, id) && s.rotations[id].token in s.root && s.rotations[id].token in s.rows
    requires c !in s.rows && c.sub == s.rotations[id].token.sub
    ensures
      var t := Run(s, [Revoke(id), Store(id, c, ttl)]);
      && t.now == s.now
      && t.rows == RevokedFirst(s, id)[c := Row(c.sub, s.now + ttl, None)]
      && t.root == s.root[c := s.root[s.rotations[id].token]]
      && t.rotations.Keys == s.rotations.Keys
      && InPhase(t, id, Issued(c)) && t.rotations[id].token == s.rotations[id].token
      && (forall k | k in s.rotations && k != id :: t.rotations[k] == s.rotations[k])
  {
    Runs.RunTwo(Next, s, Revoke(id), Store(id, c, ttl));
    AfterRevoke(s, id);
    AfterStore(Next(s, Revoke(id)), id, c, ttl);
  }

  lemma AfterRevoke(s: State, id: nat)
    requires InFlight(s, id) && s.rotations[id].token in s.rows
    ensures
      var t := Next(s, Revoke(id));
      && t.now == s.now && t.rows == RevokedFirst(s, id) && t.root == s.root && t.rotations.Keys == s.rotations.Keys
      && InPhase(t, id, Revoked) && t.rotations[id].token == s.rotations[id].token
      && (forall k | k in s.rotations && k != id :: t.rotations[k] == s.rotations[k])
  {}

  lemma AfterStore(s: State, id: nat, c: Token, ttl: Time)
    requires InPhase(s, id, Revoked) && s.rotations[id].token in s.root
    requires c !in s.rows && c.sub == s.rotations[id].token.sub
    ensures
      var t := Next(s, Store(id, c, ttl));
      && t.now == s.now && t.rows == s.rows[c := Row(c.sub, s.now + ttl, None)]
      && t.root == s.root[c := s.root[s.rotations[id].token]] && t.rotations.Keys == s.rotations.Keys
      && InPhase(t, id, Issued(c)) && t.rotations[id].token == s.rotations[id].token
      && (forall k | k in s.rotations && k != id :: t.rotations[k] == s.rotations[k])
  {}

  function RevokedFirst(s: State, id: nat): map<Token, Row>
    requires id in s.rotations
  {
    if InPhase(s, id, ReadActive) then RevokeToken(s.rows, s.rotations[id].token, s.now) else s.rows
  }

  // ---- logging out everywhere

  /** Rows belong to the user their token names. */
  ghost predicate Owned(s: State) { forall k | k in s.rows :: s.rows[k].userId == k.sub }

  lemma NextKeepsOwned(s: State, step: Step)
    requires Owned(s)
    ensures Owned(Next(s, step))
  {
    var t := Next(s, step);
    forall k | k in t.rows
      ensures t.rows[k].userId == k.sub
    {
      NextKeepsRow(s, step, k);
    }
  }

  lemma {:induction false} RunKeepsOwned(s: State, steps: seq<Step>)
    requires Owned(s)
    ensures Owned(Run(s, steps))
    decreases |steps|
  {
    if steps != [] {
      NextKeepsOwned(s, steps[0]);
      RunKeepsOwned(Next(s, steps[0]), steps[1..]);
    }
  }

  ghost predicate InFlightFor(s: State, user: User) {
    exists id :: id in s.rotations && InFlight(s, id) && s.rotations[id].token.sub == user
  }

  ghost predicate NoneLive(s: State, user: User) { forall k | k in s.rows && k.sub == user :: !Unrevoked(s, k) }

  predicate NoLogin(steps: seq<Step>, user: User) {
    forall i | 0 <= i < |steps| :: !(steps[i].Login? && steps[i].created.sub == user)
  }

  lemma NextStaysOut(s: State, step: Step, user: User)
    requires NoneLive(s, user) && !InFlightFor(s, user)
    ensures !InFlightFor(Next(s, step), user)
  {
    var t := Next(s, step);
    forall id | id in t.rotations && t.rotations[id].token.sub == user
      ensures !InFlight(t, id)
    {
      NextPhases(s, step, id);
      assert id in s.rotations && s.rotations[id].token.sub == user ==> !InFlight(s, id);
    }
  }

  lemma NextStaysRevoked(s: State, step: Step, user: User)
    requires NoneLive(s, user) && !InFlightFor(s, user) && !(step.Login? && step.created.sub == user)
    ensures NoneLive(Next(s, step), user)
  {
    var t := Next(s, step);
    forall k | k in t.rows && k.sub == user
      ensures !Unrevoked(t, k)
    {
      if k in s.rows {
        NextKeepsRow(s, step, k);
      } else {
        NewRow(s, step, k);
      }
    }
  }

  lemma NewRow(s: State, step: Step, k: Token)
    requires k in Next(s, step).rows && k !in s.rows
    ensures
      || (step.Login? && step.created == k)
      || (step.Store? && InPhase(s, step.id, Revoked) && s.rotations[step.id].token.sub == k.sub)
  {}

  lemma {:induction false} StaysQuiet(s: State, steps: seq<Step>, user: User)
    requires NoneLive(s, user) && !InFlightFor(s, user) && NoLogin(steps, user)
    ensures NoneLive(Run(s, steps), user)
    decreases |steps|
  {
    if steps != [] {
      NextStaysOut(s, steps[0], user);
      NextStaysRevoked(s, steps[0], user);
      StaysQuiet(Next(s, steps[0]), steps[1..], user);
    }
  }

  lemma {:induction false} FreshToken(rows: map<Token, Row>, keys: set<Token>, user: User) returns (c: Token)
    requires keys <= rows.Keys
    ensures c.sub == user && forall k | k in keys :: k.jti < c.jti
    decreases keys
  {
    if keys == {} {
      c := Token(user, 0);
    } else {
      var k :| k in keys;
      var smaller := FreshToken(rows, keys - {k}, user);
      c := Token(user, if smaller.jti > k.jti then smaller.jti else k.jti + 1);
    }
  }

  lemma AfterLogout(s: State, user: User)
    requires Owned(s)
    ensures NoneLive(Next(s, LogoutEverywhere(user)), user)
    ensures InFlightFor(Next(s, LogoutEverywhere(user)), user) <==> InFlightFor(s, user)
  {
    var t := Next(s, LogoutEverywhere(user));
    assert t.rotations == s.rotations;
    assert InFlightFor(t, user) <==> InFlightFor(s, user) by {
      assert forall id :: InFlight(t, id) <==> InFlight(s, id);
    }
    forall k | k in t.rows && k.sub == user
      ensures !Unrevoked(t, k)
    {
      assert s.rows[k].userId == user;
    }
  }

  /** A rotation in flight gets through. */
  lemma InFlightStores(s: State, id: nat, user: User) returns (steps: seq<Step>, c: Token)
    requires Rooted(s) && InFlight(s, id) && Recorded(s, id) && s.rotations[id].token.sub == user
    ensures NoLogin(steps, user) && c.sub == user && Unrevoked(Run(s, steps), c)
  {
    c := FreshToken(s.rows, s.rows.Keys, user);
    assert RootedAt(s, s.rotations[id].token);
    RevokeThenStore(s, id, c, 1);
    steps := [Revoke(id), Store(id, c, 1)];
  }

  lemma InFlightGetsThrough(s: State, user: User) returns (steps: seq<Step>)
    requires Inv(s) && InFlightFor(s, user)
    ensures NoLogin(steps, user) && !NoneLive(Run(Next(s, LogoutEverywhere(user)), steps), user)
  {
    var t := Next(s, LogoutEverywhere(user));
    NextKeepsInv(s, LogoutEverywhere(user));
    var id :| id in s.rotations && InFlight(s, id) && s.rotations[id].token.sub == user;
    assert t.rotations == s.rotations && InFlight(t, id) && Recorded(t, id);
    var c;
    steps, c := InFlightStores(t, id, user);
  }

  /** Logging out everywhere is final, short of a new login, if and only if no rotation of the user
      is in flight when it commits. */
  lemma LogoutEverywhereIsFinalIff(past: seq<Step>, user: User)
    ensures
      var s := Run(INITIAL, past);
      (forall steps | NoLogin(steps, user) :: NoneLive(Run(Next(s, LogoutEverywhere(user)), steps), user))
      <==> !InFlightFor(s, user)
  {
    var s := Run(INITIAL, past);
    RunKeepsInv(INITIAL, past);
    RunKeepsOwned(INITIAL, past);
    AfterLogout(s, user);
    if InFlightFor(s, user) {
      var steps := InFlightGetsThrough(s, user);
      assert NoLogin(steps, user);
    } else {
      forall steps | NoLogin(steps, user)
        ensures NoneLive(Run(Next(s, LogoutEverywhere(user)), steps), user)
      {
        StaysQuiet(Next(s, LogoutEverywhere(user)), steps, user);
      }
    }
  }

  // ---- logging out of one session

  /** Exactly which steps revoke a token, and when they say so. */
  lemma RevokedByIff(s: State, step: Step, token: Token)
    requires Owned(s) && Unrevoked(s, token)
    ensures
      var t := Next(s, step);
      && (!Unrevoked(t, token) <==>
           || step == Logout(token)
           || step == LogoutEverywhere(token.sub)
           || (step.Revoke? && InPhase(s, step.id, ReadActive) && s.rotations[step.id].token == token))
      && (!Unrevoked(t, token) ==> token in t.rows && t.rows[token].revokedAt == Some(s.now))
  {}

  /** A session that was logged out is over, and only that one. */
  lemma LogoutIsFinal(s: State, token: Token, steps: seq<Step>, other: Token)
    requires token in s.rows && other != token
    ensures !Active(Run(Next(s, Logout(token)), steps).rows, token, Run(Next(s, Logout(token)), steps).now)
    ensures
      var t := Next(s, Logout(token));
      && (other in t.rows <==> other in s.rows) && (other in s.rows ==> t.rows[other] == s.rows[other])
      && t.rotations == s.rotations && t.now == s.now
  {
    InactiveForever(Next(s, Logout(token)), steps, token);
  }

  /** A rotation that has not read its token when the user logs out never issues a successor. */
  lemma LogoutStopsRotation(s: State, token: Token, steps: seq<Step>, id: nat, created: Token)
    requires token in s.rows
    requires id in s.rotations ==> InPhase(s, id, Verified)
    ensures
      var t := Run(Next(s, Logout(token)), steps);
      InPhase(t, id, Issued(created)) ==> t.rotations[id].token != token
  {
    LateRotationIssuesNothing(Next(s, Logout(token)), steps, id, token);
  }

  ghost predicate NoNewSuccessor(s: State, t: State, token: Token) {
    forall id :: Succeeds(t, id, token) ==> Succeeds(s, id, token)
  }

  ghost predicate NoNewInFlight(s: State, token: Token) {
    token in s.rows && s.rows[token].revokedAt.Some? && !InFlightOn(s, token)
  }

  lemma NextAddsNoSuccessor(s: State, step: Step, token: Token)
    requires NoNewInFlight(s, token)
    ensures NoNewInFlight(Next(s, step), token) && NoNewSuccessor(s, Next(s, step), token)
  {
    var t := Next(s, step);
    NextKeepsRow(s, step, token);
    forall id | id in t.rotations && t.rotations[id].token == token
      ensures !InFlight(t, id) && (Succeeds(t, id, token) ==> Succeeds(s, id, token))
    {
      NextPhases(s, step, id);
      assert id in s.rotations && s.rotations[id].token == token ==> !InFlight(s, id);
    }
  }

  lemma {:induction false} RunAddsNoSuccessor(s: State, steps: seq<Step>, token: Token)
    requires NoNewInFlight(s, token)
    ensures NoNewSuccessor(s, Run(s, steps), token)
    decreases |steps|
  {
    if steps != [] {
      NextAddsNoSuccessor(s, steps[0], token);
      RunAddsNoSuccessor(Next(s, steps[0]), steps[1..], token);
      forall id
        ensures Succeeds(Run(s, steps), id, token) ==> Succeeds(s, id, token)
      {
        assert Succeeds(Run(s, steps), id, token) ==> Succeeds(Next(s, steps[0]), id, token);
      }
    }
  }

  lemma InFlightSucceeds(s: State, token: Token) returns (steps: seq<Step>)
    requires Inv(s) && InFlightOn(s, token)
    ensures !NoNewSuccessor(s, Run(s, steps), token)
  {
    var id :| id in s.rotations && InFlight(s, id) && s.rotations[id].token == token;
    var c := FreshToken(s.rows, s.rows.Keys, token.sub);
    assert Recorded(s, id) && RootedAt(s, token);
    RevokeThenStore(s, id, c, 1);
    steps := [Revoke(id), Store(id, c, 1)];
    assert Succeeds(Run(s, steps), id, token) && !Succeeds(s, id, token);
  }

  /** Logging out of a session leaves no way on from its token if and only if no rotation of it is in flight. */
  lemma LogoutIsFinalIff(past: seq<Step>, token: Token)
    requires token in Run(INITIAL, past).rows
    ensures
      var s := Run(INITIAL, past);
      (forall steps :: NoNewSuccessor(s, Run(Next(s, Logout(token)), steps), token)) <==> !InFlightOn(s, token)
  {
    var s := Run(INITIAL, past);
    var t := Next(s, Logout(token));
    RunKeepsInv(INITIAL, past);
    NextKeepsInv(s, Logout(token));
    assert t.rotations == s.rotations;
    assert forall id :: Succeeds(t, id, token) <==> Succeeds(s, id, token);
    assert forall id :: InFlight(t, id) <==> InFlight(s, id);
    assert InFlightOn(t, token) <==> InFlightOn(s, token);
    if InFlightOn(s, token) {
      var steps := InFlightSucceeds(t, token);
      assert !NoNewSuccessor(s, Run(t, steps), token);
    } else {
      forall steps
        ensures NoNewSuccessor(s, Run(t, steps), token)
      {
        RunAddsNoSuccessor(t, steps, token);
      }
    }
  }

  /** A token lives for its lifetime, unless it is revoked: whether a login or a rotation stored it. */
  lemma StoredTokenLasts(s: State, step: Step, created: Token, ttl: Time, steps: seq<Step>)
    requires created !in s.rows && created in Next(s, step).rows
    requires step == Login(created, ttl) || (step.Store? && step.created == created && step.ttl == ttl)
    ensures Unrevoked(Next(s, step), created)
    ensures
      var t := Run(Next(s, step), steps);
      Active(t.rows, created, t.now) <==> Unrevoked(t, created) && t.now < s.now + ttl
  {
    RevocationIsFinal(Next(s, step), steps, created);
  }

  // ---- exactly when two rotations of one token can both issue

  /** The rotation has read its token active, or may still do so. */
  predicate MayIssue(s: State, id: nat) {
    || PastRead(s, id)
    || (InPhase(s, id, Verified)
        && (s.rotations[id].token !in s.rows || Active(s.rows, s.rotations[id].token, s.now)))
  }

  lemma NextCannotIssue(s: State, step: Step, id: nat)
    requires id in s.rotations && !MayIssue(s, id)
    ensures id in Next(s, step).rotations && !MayIssue(Next(s, step), id)
  {
    NextPhases(s, step, id);
    NextKeepsRow(s, step, s.rotations[id].token);
    NextKeepsToken(s, step, id);
  }

  lemma NextKeepsToken(s: State, step: Step, id: nat)
    requires id in s.rotations
    ensures id in Next(s, step).rotations && Next(s, step).rotations[id].token == s.rotations[id].token
    ensures InPhase(Next(s, step), id, Verified) ==> InPhase(s, id, Verified)
  {}

  lemma {:induction false} CannotIssue(s: State, steps: seq<Step>, id: nat)
    requires id in s.rotations && !MayIssue(s, id)
    ensures id in Run(s, steps).rotations && !PastRead(Run(s, steps), id)
    decreases |steps|
  {
    if steps != [] {
      NextCannotIssue(s, steps[0], id);
      CannotIssue(Next(s, steps[0]), steps[1..], id);
    }
  }

  /** The rotation has read its token active, or will do so if it reads now. */
  predicate ReadsActive(s: State, id: nat) {
    PastRead(s, id) || (InPhase(s, id, Verified) && Active(s.rows, s.rotations[id].token, s.now))
  }

  lemma AfterRead(s: State, id: nat, j: nat)
    requires ReadsActive(s, id)
    ensures
      var t := Next(s, Read(id));
      && PastRead(t, id) && t.rows == s.rows && t.root == s.root && t.now == s.now
      && t.rotations[id].token == s.rotations[id].token
      && (id != j && j in s.rotations ==> j in t.rotations && t.rotations[j] == s.rotations[j])
  {}

  lemma AfterBothRead(s: State, i: nat, j: nat)
    requires i != j && ReadsActive(s, i) && ReadsActive(s, j)
    ensures
      var t := Run(s, [Read(i), Read(j)]);
      && PastRead(t, i) && PastRead(t, j) && t.rows == s.rows && t.root == s.root
      && t.rotations[i].token == s.rotations[i].token && t.rotations[j].token == s.rotations[j].token
  {
    Runs.RunTwo(Next, s, Read(i), Read(j));
    AfterRead(s, i, j);
    AfterRead(Next(s, Read(i)), j, i);
  }

  /** Finishing a rotation, which leaves one that has already issued as it is. */
  lemma AfterFinish(s: State, id: nat, c: Token, j: nat)
    requires PastRead(s, id) && s.rotations[id].token in s.root && s.rotations[id].token in s.rows
    requires c !in s.rows && c.sub == s.rotations[id].token.sub
    ensures
      var t := Run(s, [Revoke(id), Store(id, c, 1)]);
      && Succeeds(t, id, s.rotations[id].token)
      && t.rows.Keys <= s.rows.Keys + {c} && s.rows.Keys <= t.rows.Keys && s.root.Keys <= t.root.Keys
      && (id != j && j in s.rotations ==> j in t.rotations && t.rotations[j] == s.rotations[j])
  {
    if InFlight(s, id) {
      RevokeThenStore(s, id, c, 1);
    } else {
      Runs.RunTwo(Next, s, Revoke(id), Store(id, c, 1));
    }
  }

  lemma AfterBothFinish(s: State, i: nat, j: nat, token: Token, c: Token, d: Token)
    requires i != j && PastRead(s, i) && PastRead(s, j) && token in s.root && token in s.rows
    requires s.rotations[i].token == s.rotations[j].token == token
    requires c !in s.rows && d !in s.rows && c != d && c.sub == d.sub == token.sub
    ensures
      var t := Run(s, [Revoke(i), Store(i, c, 1)] + [Revoke(j), Store(j, d, 1)]);
      Succeeds(t, i, token) && Succeeds(t, j, token)
  {
    var s1 := Run(s, [Revoke(i), Store(i, c, 1)]);
    AfterFinish(s, i, c, j);
    AfterFinish(s1, j, d, i);
    Runs.RunAppend(Next, s, [Revoke(i), Store(i, c, 1)], [Revoke(j), Store(j, d, 1)]);
  }

  /** If need be the token is stored by a login, and then both rotations read before either revokes. */
  lemma BothCanIssue(s: State, i: nat, j: nat, token: Token) returns (steps: seq<Step>)
    requires Inv(s) && i != j && i in s.rotations && j in s.rotations
    requires s.rotations[i].token == s.rotations[j].token == token && MayIssue(s, i) && MayIssue(s, j)
    ensures Succeeds(Run(s, steps), i, token) && Succeeds(Run(s, steps), j, token)
  {
    var login := Login(token, 1);
    var s1 := Next(s, login);
    NextKeepsInv(s, login);
    AfterLogin(s, i, token);
    AfterLogin(s, j, token);
    AfterBothRead(s1, i, j);
    var s2 := Run(s1, [Read(i), Read(j)]);
    var c := FreshToken(s1.rows, s1.rows.Keys, token.sub);
    var d := Token(token.sub, c.jti + 1);
    assert RootedAt(s1, token);
    assert d !in s1.rows;
    AfterBothFinish(s2, i, j, token, c, d);
    var finish := [Revoke(i), Store(i, c, 1)] + [Revoke(j), Store(j, d, 1)];
    Runs.RunAppend(Next, s1, [Read(i), Read(j)], finish);
    Runs.RunOne(Next, s, login, [Read(i), Read(j)] + finish);
    steps := [login] + ([Read(i), Read(j)] + finish);
  }

  lemma AfterLogin(s: State, id: nat, token: Token)
    requires id in s.rotations && s.rotations[id].token == token && MayIssue(s, id) && Recorded(s, id)
    ensures
      var t := Next(s, Login(token, 1));
      && ReadsActive(t, id) && token in t.rows && id in t.rotations && t.rotations[id].token == token
  {}

  /** Two rotations of one token can both come to issue a successor if and only if each has read the token
      active, or has still to read it and finds it active or not yet stored. */
  lemma BothIssueIff(past: seq<Step>, i: nat, j: nat, token: Token)
    requires
      var s := Run(INITIAL, past);
      && i != j && i in s.rotations && j in s.rotations
      && s.rotations[i].token == s.rotations[j].token == token
    ensures
      var s := Run(INITIAL, past);
      (exists steps :: Succeeds(Run(s, steps), i, token) && Succeeds(Run(s, steps), j, token))
      <==> MayIssue(s, i) && MayIssue(s, j)
  {
    var s := Run(INITIAL, past);
    RunKeepsInv(INITIAL, past);
    if MayIssue(s, i) && MayIssue(s, j) {
      var steps := BothCanIssue(s, i, j, token);
    } else {
      forall steps
        ensures !(Succeeds(Run(s, steps), i, token) && Succeeds(Run(s, steps), j, token))
      {
        if MayIssue(s, i) {
          CannotIssue(s, steps, j);
        } else {
          CannotIssue(s, steps, i);
        }
      }
    }
  }

  // ---- the classes

  /** Afterwards the chosen rows are revoked, now or before; nothing else has changed. */
  ghost predicate RevokedOnly(rows: map<Token, Row>, after: map<Token, Row>, chosen: Token -> bool, now: Time) {
    && after.Keys == rows.Keys
    && forall k | k in rows ::
      after[k] == if chosen(k) && rows[k].revokedAt == None then rows[k].(revokedAt := Some(now)) else rows[k]
  }

  class RefreshTokenRepository {
    var now: Time
    var rows: map<Token, Row>

    /** `refreshToken.create`: a duplicate hash is an error. */
    method Store(token: Token, expiresAt: Time) returns (ok: bool)
      modifies this`rows
      ensures ok <==> token !in old(rows)
      ensures rows == if ok then old(rows)[token := Row(token.sub, expiresAt, None)] else old(rows)
    {
      ok := token !in rows;
      if ok {
        rows := rows[token := Row(token.sub, expiresAt, None)];
      }
    }

    method IsActive(token: Token) returns (active: bool)
      ensures active <==> token in rows && rows[token].revokedAt.None? && now < rows[token].expiresAt
    {
      if token !in rows {
        return false;
      }
      if rows[token].revokedAt.Some? {
        return false;
      }
      return rows[token].expiresAt > now;
    }

    method Revoke(token: Token)
      modifies this`rows
      ensures rows == RevokeToken(old(rows), token, now)
      ensures RevokedOnly(old(rows), rows, k => k == token, now)
    {
      if token in rows && rows[token].revokedAt.None? {
        rows := rows[token := rows[token].(revokedAt := Some(now))];
      }
      assert rows == RevokeToken(old(rows), token, now);
    }

    method RevokeAllForUser(userId: User)
      modifies this`rows
      ensures rows == RevokeAll(old(rows), userId, now)
      ensures RevokedOnly(old(rows), rows, k => k in old(rows) && old(rows)[k].userId == userId, now)
    {
      rows := map t | t in rows ::
        if rows[t].userId == userId && rows[t].revokedAt.None? then rows[t].(revokedAt := Some(now)) else rows[t];
    }
  }

  class TokenService {
    const refreshTokens: RefreshTokenRepository
    const refreshTtl: Time

    constructor (repository: RefreshTokenRepository, ttl: Time)
      ensures refreshTokens == repository && refreshTtl == ttl
    {
      refreshTokens := repository;
      refreshTtl := ttl;
    }

    /** Rotation by one process that nothing interrupts; None is an error. `verified` says whether the
        token's signature and claims are good, `created` is the token the generator signs next. */
    method RotateRefreshToken(token: Token, verified: bool, created: Token) returns (issued: Option<Token>)
      requires created.sub == token.sub
      modifies refreshTokens`rows
      ensures issued.Some? ==> issued == Some(created)
      ensures issued.Some? <==>
        && verified && Active(old(refreshTokens.rows), token, refreshTokens.now)
        && created !in old(refreshTokens.rows)
      ensures issued.Some? ==>
        && created in refreshTokens.rows
        && refreshTokens.rows[created] == Row(token.sub, refreshTokens.now + refreshTtl, None)
        && RevokedOnly(old(refreshTokens.rows), refreshTokens.rows - {created}, k => k == token, refreshTokens.now)
      ensures issued.None? ==>
        if verified && Active(old(refreshTokens.rows), token, refreshTokens.now) then
          RevokedOnly(old(refreshTokens.rows), refreshTokens.rows, k => k == token, refreshTokens.now)
        else refreshTokens.rows == old(refreshTokens.rows)
      ensures refreshTokens.rows ==
        RotatedRows(old(refreshTokens.rows), token, verified, created, refreshTokens.now, refreshTtl)
    {
      if !verified {
        return None;
      }
      var active := refreshTokens.IsActive(token);
      if !active {
        return None;
      }
      refreshTokens.Revoke(token);
      var ok := refreshTokens.Store(created, refreshTokens.now + refreshTtl);
      issued := if ok then Some(created) else None;
    }

    method RevokeRefreshToken(token: Token)
      modifies refreshTokens`rows
      ensures RevokedOnly(old(refreshTokens.rows), refreshTokens.rows, k => k == token, refreshTokens.now)
      ensures forall s: State | s.rows == old(refreshTokens.rows) && s.now == refreshTokens.now ::
        Next(s, Logout(token)).rows == refreshTokens.rows
    {
      refreshTokens.Revoke(token);
    }

    method RevokeAllRefreshTokens(userId: User)
      modifies refreshTokens`rows
      ensures RevokedOnly(old(refreshTokens.rows), refreshTokens.rows,
                          k => k in old(refreshTokens.rows) && old(refreshTokens.rows)[k].userId == userId,
                          refreshTokens.now)
      ensures forall s: State | s.rows == old(refreshTokens.rows) && s.now == refreshTokens.now ::
        Next(s, LogoutEverywhere(userId)).rows == refreshTokens.rows
    {
      refreshTokens.RevokeAllForUser(userId);
    }
  }

  /** The table after one uninterrupted rotation. */
  function RotatedRows(rows: map<Token, Row>, token: Token, verified: bool, created: Token, now: Time, ttl: Time)
    : map<Token, Row>
  {
    if !verified || !Active(rows, token, now) then rows
    else if created in rows then RevokeToken(rows, token, now)
    else RevokeToken(rows, token, now)[created := Row(created.sub, now + ttl, None)]
  }

  lemma AfterBegin(s: State, id: nat, token: Token)
    requires id !in s.rotations
    ensures
      var t := Run(s, [Begin(id, token), Read(id)]);
      && t.rows == s.rows && t.root == s.root && t.now == s.now && id in t.rotations && t.rotations[id].token == token
      && t.rotations[id].phase == if Active(s.rows, token, s.now) then ReadActive else Unauthorized
  {
    Runs.RunTwo(Next, s, Begin(id, token), Read(id));
  }

  lemma AfterRest(s: State, id: nat, created: Token, ttl: Time)
    requires id in s.rotations && s.rotations[id].phase in {ReadActive, Unauthorized}
    requires InPhase(s, id, ReadActive) ==> s.rotations[id].token in s.root && s.rotations[id].token in s.rows
    requires created.sub == s.rotations[id].token.sub
    ensures
      Run(s, [Revoke(id), Store(id, created, ttl)]).rows ==
        if InPhase(s, id, Unauthorized) then s.rows
        else if created in s.rows then RevokedFirst(s, id)
        else RevokedFirst(s, id)[created := Row(created.sub, s.now + ttl, None)]
  {
    if InFlight(s, id) && created !in s.rows {
      RevokeThenStore(s, id, created, ttl);
    } else {
      Runs.RunTwo(Next, s, Revoke(id), Store(id, created, ttl));
    }
  }

  /** An uninterrupted rotation is the interleaving of its steps with nothing in between. */
  lemma RotationIsItsSteps(s: State, id: nat, token: Token, created: Token, ttl: Time)
    requires Rooted(s) && id !in s.rotations && created.sub == token.sub
    ensures
      Run(s, [Begin(id, token), Read(id)] + [Revoke(id), Store(id, created, ttl)]).rows ==
      RotatedRows(s.rows, token, true, created, s.now, ttl)
  {
    assert RootedAt(s, token);
    Runs.RunAppend(Next, s, [Begin(id, token), Read(id)], [Revoke(id), Store(id, created, ttl)]);
    AfterBegin(s, id, token);
    AfterRest(Run(s, [Begin(id, token), Read(id)]), id, created, ttl);
  }
}
