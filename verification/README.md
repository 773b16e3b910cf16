# Verified model of the dating API's matching core

Dafny proofs about the parts of the dating API in which several calls, runs or tables have to agree:
the ranked match list and its cursor, the Redis lock and guard, refresh-token rotation, the violation
mutes, the score of a pair, the text selection loops, the backfill and its drift check, the profile
merge, CRC-32 and Pearson correlation.

Operations that change state are methods and classes, proved against functions or step machines. The
theorems are about those: runs are arbitrary sequences of steps, and interleavings split every call at its
reads and writes. The functions and steps in turn are tied to what they are for: counts of log positions,
least squares, the residue of the CRC, balances of weighted similarities. `dafny verify dfyconfig.toml` checks everything.

## Components

| file | what it models |
|---|---|
| `CursorCodec.dfy` | the cursor text: JSON string escapes, UTF-8, base64url, and the way back |
| `SortedWalk.dfy` | paging through a sorted list by an opaque key, for any strict order and any codec |
| `MatchList.dfy` | the three-key order, the list builder's comparator, and the walk over both read paths |
| `Runs.dfy` | runs of any state machine |
| `RedisLocks.dfy` | `SET NX EX` with clock, lost requests and lost replies; the cron lock and setNx |
| `RefreshTokens.dfy` | the token table and rotations interleaved with revocations and logouts |
| `ViolationMutes.dfy` | thresholds, mutes, lazy and batch expiry |
| `Signals.dfy`, `CompatibilityScore.dfy`, `Friction.dfy`, `Scoring.dfy` | similarity, the tension table, the composed score |
| `Dealbreakers.dfy`, `LifestyleConflicts.dfy` | rules over gaps, and the cap |
| `KeywordHelpers.dfy`, `Interests.dfy`, `ExplicitLists.dfy` | choosing values by keyword |
| `NormalizedTables.dfy` | the backfill writer and the drift checker over the same tables |
| `MergeProfiles.dfy` | id allocation and the three merge loops |
| `ShiftRegister.dfy`, `Crc32.dfy` | a linear shift register in general, and CRC-32 with PNG chunks |
| `Pearson.dfy` | the coefficient over exact reals, and pairing of columns with gaps |
| `Basics.dfy` | options, rounding, decimal digits |

Scores are exact reals and `Math.round(x)` is floor(x + 0.5). Regular expressions, `trim`, lower-casing,
`Math.sqrt`, `exec` and the printing of numbers are parameters; where a proof needs a property of one
(lower-casing twice is lower-casing once, a root squares to its argument, a match is not empty and lies in the
text after `lastIndex`, a printed number reads back)
it is a precondition. `WholeNumbersRoundTrip` shows that the one about numbers can be met.

## What the proofs found

- A cursor for an item with an empty id does not decode, so the next request is refused
  (`dating-api/src/me-profile/matches/core/me-matches.service.ts:142-148`): the round trip holds exactly
  for nonempty ids, and the walks are stated for lists of such ids.
- The walk repeats no (bucket, score, id) key, but when scores change between pages a client may get a
  profile twice (`ProfileComesTwice`) or never (`ProfileIsMissed`). `ProfileWalk` says which moves do that.
  A list that is not ready when its page is filled is answered as the end of the walk (`HydrationOnlyDrops`).
- The cron lock separates leases on the server by the lifetime of the key, but not the answers: a leader
  whose reply is late learns of its lease when it is nearly over. `AlwaysApartIff` gives the exact
  separation. The same holds of the answers of setNx: a window in which it returns true at most once must
  be shorter than the lifetime by the delay of the answers (`OncePerWindowIff`).
- Two overlapping rotations of one refresh token both succeed; `BothIssueIff` says when they can. A logout
  everywhere that commits while a rotation of the user is in flight leaves a live token behind;
  `LogoutEverywhereIsFinalIff` says that is the only way. `LogoutIsFinalIff` says the same of a logout.
- Lazy and batch expiry agree only as long as no late reset of a query commits while its user is blocked
  (`ExpiryIsInvisibleIff`). A query reads the row first and the clock afterwards, so a reset can be late for
  a mute that had not expired when it was read. An indefinite mute can be undone by such a reset and by an
  enforcement that counted before the twentieth violation, and a profile enforcement lifts a message mute
  because both share one status field. `MutedForGoodIff` gives the exact condition.
- The drift check keeps reporting a profile that the backfill has just written exactly if it holds a
  signal row for a key that its latest evaluation lacks: the writer never deletes one.
- The friction penalty drops from just below 12 to 10.8 at friction 4. It is monotone on whole frictions
  only; `PenaltyMonotoneIff` has the exact pairs.
- A hard dealbreaker can leave a better score than softer ones: of 50, one hard finding leaves 45 and one
  penalty 35. `HardIsMilderIff` says when.
- Two different profile ids can share one file, and the first profile that comes with the id `merged_1`
  can lose it to a renamed one. `NothingLostIff` and `FirstHolderKeepsIff` tell from the input lists when.
  A stored or archived profile without an id ends the merge with an error.
- The correlation report writes 1.000 on its diagonal also for columns that have no coefficient with
  themselves, because all their values are the same or there are fewer than two (`DiagonalIff`).
- Leaving out a signal never makes a tension rule fire, except one: an absent attachmentSecurity counts as 0
  in the rule on directness, and so as low (`AttachmentRuleIff`, `HidingAttachmentIff`).
- The CRC field of a chunk holds its highest byte first, which the register shifts out last. A corruption of
  four consecutive bytes that reaches from the data into that field can go unnoticed, unlike one inside the
  data (`StraddlingBurstGoesUnnoticed`); `UnnoticedIff` says which do.

Where comments and code differ the model follows the code: the coverage factor runs from 0.9 to 1
(`dating-api/src/engine/coverage.ts:22-23` says 0.88), the friction penalty has a factor 0.9 from 4 on
(`dating-api/src/engine/friction.ts:7-9` does not mention it), and `computeCompatibility` applies no
coverage penalty (`dating-api/src/compatibility/compatibility-score.ts:164` says it does). Relationship clarity
of 7 against 4 is no finding (`dating-api/src/domain/dealbreakers.ts:164` says it is a warning;
`ClarityExamples`).

## Model

| member | source | states |
|---|---|---|
| `CursorCodec.RoundTrip` | dating-api/src/cache/match-list-cache.ts:44-65 | decoding an encoded cursor gives it back, for every bucket 0 or 1, every score and every id text, except that an empty id gives no cursor |
| `CursorCodec.EncodeInjective` | dating-api/src/cache/match-list-cache.ts:44-46 | different cursors with nonempty ids have different texts |
| `CursorCodec.ParseStringified` | dating-api/src/cache/match-list-cache.ts:44-52 | the JSON text of a cursor parses to the cursor or, without an id, to none |
| `CursorCodec.ParseEscaped` | dating-api/src/cache/match-list-cache.ts:45 | any code units, lone surrogates included, survive JSON string escaping |
| `CursorCodec.EscapeIsWellFormed` | dating-api/src/cache/match-list-cache.ts:45 | escaped text holds no lone surrogate, so UTF-8 loses nothing |
| `CursorCodec.Utf8RoundTrip` | dating-api/src/cache/match-list-cache.ts:45-51 | UTF-8 decodes what it encoded, for every well-formed text |
| `CursorCodec.Base64RoundTrip` | dating-api/src/cache/match-list-cache.ts:45-51 | unpadded base64url decodes what it encoded, for every byte sequence |
| `CursorCodec.WholeNumbersRoundTrip` | dating-api/src/cache/match-list-cache.ts:45 | decimal notation of whole numbers meets the assumption on numbers |
| `CursorCodec.KnownObject` | dating-api/src/cache/match-list-cache.ts:45 | the JSON object behind a cursor, with its three members in order |
| `CursorCodec.KnownEscapes` | dating-api/src/cache/match-list-cache.ts:45 | escapes as JSON.stringify chooses them, for a quote, a control character and a lone surrogate |
| `CursorCodec.KnownUtf8` | dating-api/src/cache/match-list-cache.ts:45 | the bytes of a character of three bytes and of one of four |
| `CursorCodec.KnownBase64` | dating-api/src/cache/match-list-cache.ts:45 | the test vectors of section 10 of RFC 4648 without padding, and the two characters of base64url |
| `SortedWalk.Order.ReceivedIsSorted` | dating-api/src/cache/match-list-cache.ts:85-103 | what a client receives over lists that change between pages is strictly increasing and lies after its cursor |
| `SortedWalk.Order.ReceivedHasStableKey` | dating-api/src/cache/match-list-cache.ts:85-103 | a key that every list holds has been received once the walk ends |
| `SortedWalk.Order.ReceivedAtMostOnce` | dating-api/src/cache/match-list-cache.ts:85-103 | an entity whose key never moves later from list to list is received at most once |
| `SortedWalk.Order.ReceivedAtLeastOnce` | dating-api/src/cache/match-list-cache.ts:85-103 | one that is in every list and whose key never moves earlier has been received once the walk ends |
| `SortedWalk.Order.StartAfterItem` | dating-api/src/cache/match-list-cache.ts:91-95 | the page after the cursor of an item starts at the next item |
| `SortedWalk.Pager.PageHolds` | dating-api/src/cache/match-list-cache.ts:85-103 | a page is the first `limit` items after the cursor, or all that are left, counted; hasMore and the cursor say which |
| `SortedWalk.Pager.NextCursorDecodes` | dating-api/src/cache/match-list-cache.ts:96-101 | the next cursor decodes to the key of the last item of the page |
| `SortedWalk.Pager.WalkDelivers` | dating-api/src/cache/match-list-cache.ts:85-103 | the walk over opaque texts delivers what the walk over keys does |
| `SortedWalk.Pager.WalkFinishes` | dating-api/src/cache/match-list-cache.ts:85-103 | hasMore turns false exactly when the walk over keys ends |
| `SortedWalk.Pager.WholeWalk` | dating-api/src/cache/match-list-cache.ts:85-103 | for any strict order and codec: the keys delivered strictly increase, so none comes twice, and a key that every list holds comes exactly once by the end |
| `SortedWalk.Pager.FixedListWalk` | dating-api/src/cache/match-list-cache.ts:85-103 | over one list the walk ends within max(1, ceil(n / limit)) requests and its pages concatenate to the list |
| `MatchList.AfterIsStrictTotalOrder` | dating-api/src/cache/match-list-cache.ts:75-83 | isAfterMatchListCursor is irreflexive, transitive and total on keys |
| `MatchList.SortedByComparator` | dating-api/src/me-profile/matches/list/ranking/match-list-response-assembler.service.ts:55-63 | a list of distinct ids sorted by the builder's comparator is strictly sorted for the cursor |
| `MatchList.MatchListWalk` | dating-api/src/cache/match-list-cache.ts:44-103 | the whole walk over match lists that are rebuilt between pages, with the real codec, told by (bucket, score, id) keys: in order, none twice, and one that every list holds exactly once by the end |
| `MatchList.ProfileWalk` | dating-api/src/cache/match-list-cache.ts:44-103 | the same walk told by profiles, whose scores may change between pages: at most once if the profile never moves later in cursor order, at least once by the end if it is always there and never moves earlier |
| `MatchList.ProfileComesTwice` | dating-api/src/cache/match-list-cache.ts:44-103 | a walk in which a profile whose score falls between pages comes twice |
| `MatchList.ProfileIsMissed` | dating-api/src/cache/match-list-cache.ts:44-103 | a walk in which one whose score rises between pages never comes, though every list holds it |
| `MatchList.FixedMatchListWalk` | dating-api/src/cache/match-list-cache.ts:44-103 | the whole walk over one match list delivers it |
| `MatchList.RankPageIsPaginate` | dating-api/src/me-profile/matches/list/match-list-materialized.ts:49-71 | the rows of the page from the ranking table, with the look-ahead row, are the page of the in-memory list |
| `MatchList.HydrationOnlyDrops` | dating-api/src/me-profile/matches/list/match-list-materialized.ts:78-129 | with each request filled by what is there at its time: the client receives the walk without the items that are gone, up to the first request whose list is not ready, which answers that there is no more |
| `MatchList.SteadyHydration` | dating-api/src/me-profile/matches/list/match-list-materialized.ts:78-129 | when always the same items are gone, the client receives the walk without them |
| `RedisLocks.RunKeepsInv` | dating-api/src/cache/redis-cache.service.ts:137-195 | every step of every interleaving keeps the invariant: successful sets on a key are a lifetime apart and answers are truthful |
| `RedisLocks.EveryAnswerIsRight` | dating-api/src/cache/redis-cache.service.ts:137-195 | over every run: a setNx that did not hear from the server is told true and a lock unavailable, a lock without a URL is acquired, and any other answer is what the server did |
| `RedisLocks.SetBlocksFor` | dating-api/src/cache/redis-cache.service.ts:88-105 | a key set by other code is won exactly once its lifetime is over |
| `RedisLocks.WinBlocksFor` | dating-api/src/cache/redis-cache.service.ts:146-158 | a key won by a call is won again exactly once its lifetime is over |
| `RedisLocks.DeleteMakesTwoLeaders` | dating-api/src/cache/redis-cache.service.ts:111-129 | a delete between two locks makes two leaders at one time, so the premise that nothing else touches the key is needed |
| `RedisLocks.LeasesDoNotOverlap` | dating-api/src/cache/redis-cache.service.ts:167-195 | two leaders for one key hold leases that do not overlap on the server |
| `RedisLocks.AnswersApart` | dating-api/src/cache/redis-cache.service.ts:167-195 | their answers are a lifetime apart, less the time an answer took |
| `RedisLocks.AnswersAsCloseAsDelayAllows` | dating-api/src/cache/redis-cache.service.ts:167-195 | a run that reaches that bound, for every key, lifetime and delay |
| `RedisLocks.AlwaysApartIff` | dating-api/src/cache/redis-cache.service.ts:167-195 | the separation guaranteed in all interleavings is exactly the lifetime less the delay |
| `RedisLocks.SetNxWindow` | dating-api/src/cache/redis-cache.service.ts:137-165 | within a window that with the delay of the answers is no longer than the lifetime, at most one setNx call returns true besides the degraded ones, by the time of the answers |
| `RedisLocks.OncePerWindowIff` | dating-api/src/cache/redis-cache.service.ts:137-165 | the windows for which that holds in all interleavings are exactly those |
| `RedisLocks.TwoInOneWindow` | dating-api/src/cache/redis-cache.service.ts:137-165 | a run with two true answers in any longer window |
| `RedisLocks.OneWinInWindow` | dating-api/src/cache/redis-cache.service.ts:146-158 | by the time of the server, it grants a key once in a window no longer than its lifetime |
| `RedisLocks.RedisCacheService.SetNxEx` | dating-api/src/cache/redis-cache.service.ts:146-158 | one command under each network outcome is the sequence of its machine steps |
| `RedisLocks.RedisCacheService.TryAcquireCronLock` | dating-api/src/cache/redis-cache.service.ts:167-195 | without a URL acquired, with the client down or the command failing unavailable, otherwise acquired exactly if the key was absent or expired; the key afterwards; the method is its steps in the machine |
| `RedisLocks.RedisCacheService.SetNx` | dating-api/src/cache/redis-cache.service.ts:137-165 | true if the client is down or the command fails, otherwise true exactly if the key was absent or expired; the key afterwards; the method is its steps in the machine |
| `RefreshTokens.RevocationIsFinal` | dating-api/src/auth/refresh-token.repository.ts:34-47 | over every run a row stays, and once revoked keeps its first revokedAt |
| `RefreshTokens.InactiveForever` | dating-api/src/auth/refresh-token.repository.ts:23-32 | an inactive token never becomes active again |
| `RefreshTokens.LateRotationIssuesNothing` | dating-api/src/auth/token.service.ts:84-97 | once its token is revoked, a rotation that has not read by then issues nothing |
| `RefreshTokens.TwoSuccessorsOverlap` | dating-api/src/auth/token.service.ts:84-97 | two successors of one token imply that both rotations read it before either revoked it |
| `RefreshTokens.OneLiveDescendant` | dating-api/src/auth/token.service.ts:84-97 | without overlap a token has at most one successor and a login at most one unrevoked descendant |
| `RefreshTokens.OverlapMakesTwo` | dating-api/src/auth/token.service.ts:84-97 | two rotations that both get to read make two live descendants of one login |
| `RefreshTokens.BothIssueIff` | dating-api/src/auth/token.service.ts:84-97 | from any reachable state, two rotations of one token can both come to issue if and only if each has read it active or may still do so |
| `RefreshTokens.LogoutEverywhereIsFinalIff` | dating-api/src/auth/token.service.ts:103-105 | no token of the user is live after any later run without a login, if and only if no rotation of the user is in flight |
| `RefreshTokens.RevokedByIff` | dating-api/src/auth/token.service.ts:96-105 | exactly the steps that revoke a token: its logout, the logout everywhere of its user and the revoke of a rotation of it |
| `RefreshTokens.LogoutIsFinal` | dating-api/src/auth/token.service.ts:99-101 | after a logout its token is never active again, in every later run, and every other token keeps its row |
| `RefreshTokens.LogoutStopsRotation` | dating-api/src/auth/token.service.ts:84-101 | a rotation that has not read its token when the logout commits never issues a successor |
| `RefreshTokens.LogoutIsFinalIff` | dating-api/src/auth/token.service.ts:84-101 | no rotation issues another successor of a token after its logout, if and only if none of it is in flight |
| `RefreshTokens.StoredTokenLasts` | dating-api/src/auth/token.service.ts:53-55 | a token that a login or a rotation stored is active exactly until its lifetime is over or it is revoked |
| `RefreshTokens.RotationIsItsSteps` | dating-api/src/auth/token.service.ts:84-97 | a rotation without interruption is its steps in a row |
| `RefreshTokens.RefreshTokenRepository.Store` | dating-api/src/auth/refresh-token.repository.ts:9-21 | adds one row, or fails on a token that is there |
| `RefreshTokens.RefreshTokenRepository.IsActive` | dating-api/src/auth/refresh-token.repository.ts:23-32 | true exactly for a row that is neither revoked nor expired |
| `RefreshTokens.RefreshTokenRepository.Revoke` | dating-api/src/auth/refresh-token.repository.ts:34-40 | sets revokedAt of one row if it has none and changes nothing else |
| `RefreshTokens.RefreshTokenRepository.RevokeAllForUser` | dating-api/src/auth/refresh-token.repository.ts:42-47 | the same for every row of a user |
| `RefreshTokens.TokenService.RotateRefreshToken` | dating-api/src/auth/token.service.ts:84-97 | issues the new token exactly if the old one verifies, is active and the new row can be stored; then the new row is there with its lifetime, the old one is revoked and nothing else has changed |
| `RefreshTokens.TokenService.RevokeRefreshToken` | dating-api/src/auth/token.service.ts:99-101 | revokes the row of the token if it was not, changes nothing else, and is the logout step of the machine |
| `RefreshTokens.TokenService.RevokeAllRefreshTokens` | dating-api/src/auth/token.service.ts:103-105 | the same for every row of the user, and the step of the logout everywhere |
| `ViolationMutes.ExpiryIsInvisible` | dating-api/src/content-moderation/content-violation.service.ts:169-208 | batch clears and queries, whole or split at the read of the row, the read of the clock and the reset, may be inserted or dropped without changing an answer, as long as no late reset commits while its user is blocked |
| `ViolationMutes.ExpiryIsInvisibleIff` | dating-api/src/content-moderation/content-violation.service.ts:169-208 | all along a run every answer is what it would be without its expiry, if and only if no late reset commits while its user is blocked |
| `ViolationMutes.SplitQueryLosesMute` | dating-api/src/content-moderation/content-violation.service.ts:173-188 | for every timed mute, a run in which a query that has read it, and reads the clock later, wipes an indefinite mute; a batch clear before it prevents that exactly if the timed mute has expired by then |
| `ViolationMutes.MutedForGoodIff` | dating-api/src/content-moderation/content-violation.service.ts:117-188 | a user muted at twenty stays blocked for messages in every run without profile enforcement, if and only if no operation under way may still write something weaker: an enforcement by what it has counted so far, or a query that has read a timed mute |
| `ViolationMutes.RunKeepsTimely` | dating-api/src/content-moderation/content-violation.service.ts:117-119 | over every run, no enforcement under way started in the future |
| `ViolationMutes.AfterEnforcement` | dating-api/src/content-moderation/content-violation.service.ts:97-167 | the reads and the write of an enforcement, with nothing in between, write what the counts decide |
| `ViolationMutes.CountReadCounts` | dating-api/src/content-moderation/content-violation.service.ts:121-131 | what each of the three reads counts: the positions in the log at that time, since an hour or a day before the start, or ever |
| `ViolationMutes.CommitBlocksFor` | dating-api/src/content-moderation/content-violation.service.ts:133-157 | in every interleaving, how long a write blocks, by the counts it was given: for good from 20 ever, for a day from 10, for an hour from 3, otherwise as before |
| `ViolationMutes.SplitQueryIsQuery` | dating-api/src/content-moderation/content-violation.service.ts:169-191 | a query whose steps nothing interrupts is the whole query |
| `ViolationMutes.ClearExpiredClears` | dating-api/src/content-moderation/repositories/prisma-content-violation.repository.ts:94-106 | the batch job resets exactly the mutes that are over by the clock it has read |
| `ViolationMutes.TwentiethMutes` | dating-api/src/content-moderation/content-violation.service.ts:117-155 | an uninterrupted message enforcement that sees twenty lifetime violations mutes for good |
| `ViolationMutes.RunKeepsCountedNoMore` | dating-api/src/content-moderation/content-violation.service.ts:117-119 | over every run, no enforcement under way has counted more lifetime violations than there are |
| `ViolationMutes.TwentyMuteForGoodIff` | dating-api/src/content-moderation/content-violation.service.ts:117-188 | in every interleaving, the write of an enforcement that has counted twenty mutes for good, and the user stays blocked in every run without profile enforcement if and only if no other operation under way may still write something weaker |
| `ViolationMutes.SurfacesOverwriteEachOther` | dating-api/src/content-moderation/repositories/prisma-content-violation.repository.ts:64-82 | an enforcement on one surface blocks it and lifts the block of the other |
| `ViolationMutes.ContentViolationService.RecordViolation` | dating-api/src/content-moderation/content-violation.service.ts:26-65 | appends one violation to the log |
| `ViolationMutes.ContentViolationService.EnforceViolationThreshold` | dating-api/src/content-moderation/content-violation.service.ts:97-167 | from the log alone: the user is blocked at a later time exactly by the tier reached (20 ever, 10 in a day, 3 in an hour, 3 for profiles) or, under all of them, as before; the result names that tier and its end; the method is its steps in the machine |
| `ViolationMutes.ContentViolationService.IsUserBlocked` | dating-api/src/content-moderation/content-violation.service.ts:169-195 | answers by status and clock, resets an expired mute and nothing else |
| `ViolationMutes.ContentViolationService.ClearExpiredMutes` | dating-api/src/content-moderation/content-violation.service.ts:197-208 | resets exactly the expired mutes and counts the rows it changed |
| `CompatibilityScore.ComputeCompatibility` | dating-api/src/compatibility/compatibility-score.ts:166-243 | the loop computes the specified result |
| `CompatibilityScore.PairScoreAntitone` | dating-api/src/compatibility/compatibility-score.ts:149-154 | similarity lies in 0..10 and does not rise with the gap |
| `CompatibilityScore.PairScoreIsSimilarity` | dating-api/src/compatibility/compatibility-score.ts:149-154 | similarity is the square of what the gap leaves of 10, below the straight line except at its ends |
| `CompatibilityScore.ScoreBalances` | dating-api/src/compatibility/compatibility-score.ts:166-243 | the score is where the weighted similarities of the compared keys balance, rounded, less 5 for each of the six hard keys that is at least 7 apart, and not below 0 |
| `CompatibilityScore.ResultLists` | dating-api/src/compatibility/compatibility-score.ts:179-208 | one right entry for each key that both people have, their share of the fifteen, and the hard ones among them |
| `CompatibilityScore.ResultMonotone` | dating-api/src/compatibility/compatibility-score.ts:166-243 | with the same comparable keys among the fifteen and no larger gaps, the score is no smaller and the hard mismatches no more |
| `CompatibilityScore.ResultSwapped` | dating-api/src/compatibility/compatibility-score.ts:166-243 | swapping the sides keeps score, coverage and counts and mirrors breakdown and mismatches |
| `CompatibilityScore.EqualPeopleScoreFull` | dating-api/src/compatibility/compatibility-score.ts:166-243 | the score is in 0..100; people who agree on every compared key that both have score 100, given one |
| `CompatibilityScore.ComputeValuesAlignment` | dating-api/src/compatibility/compatibility-score.ts:250-270 | the loop computes the specified alignment |
| `CompatibilityScore.AlignmentBalances` | dating-api/src/compatibility/compatibility-score.ts:250-270 | the alignment is where the similarities of the tier-1 keys balance, each weighing the same |
| `CompatibilityScore.AlignmentInRange` | dating-api/src/compatibility/compatibility-score.ts:250-270 | the tier-1 alignment lies in 0..100 |
| `CompatibilityScore.AlignmentMonotone` | dating-api/src/compatibility/compatibility-score.ts:250-270 | it does not fall when tier-1 gaps shrink |
| `CompatibilityScore.AlignmentSwapped` | dating-api/src/compatibility/compatibility-score.ts:250-270 | it is symmetric |
| `CompatibilityScore.AlignmentFull` | dating-api/src/compatibility/compatibility-score.ts:250-270 | it is 100 for people who agree on every tier-1 key that both have, given one |
| `Friction.ComputeFriction` | dating-api/src/engine/compute-friction.ts:68-89 | the loop returns the firing rules in table order and their capped sum |
| `Friction.FrictionSplits` | dating-api/src/engine/compute-friction.ts:74-89 | the friction of two tables together is the sum of theirs, but at most 10 |
| `Friction.FrictionOfOne` | dating-api/src/engine/compute-friction.ts:74-89 | that of one rule is its penalty if it fires, but at most 10 |
| `Friction.TensionsArePlaces` | dating-api/src/engine/compute-friction.ts:74-84 | the tensions are exactly the rules that hold, each once, in table order |
| `Friction.DepthRuleIff` | dating-api/src/engine/tension-rules.ts:113-124 | a rule on a distance fires exactly if both values are there and that far apart |
| `Friction.TableIsSymmetric` | dating-api/src/engine/tension-rules.ts:96-726 | of each of the 48 rules, written as its tests on the two sides read: exchanging the sides permutes its needs, its cases and their tests |
| `Friction.OneSidedIsNotSymmetric` | dating-api/src/engine/tension-rules.ts:96-726 | a one-sided rule can be written and fires for one order of two people only |
| `Friction.FrictionSwapped` | dating-api/src/engine/tension-rules.ts:96-726 | for the whole table, swapping the two people keeps the tensions, their order and the friction |
| `Friction.FrictionMonotone` | dating-api/src/engine/compute-friction.ts:68-89 | if every firing rule also fires for another pair, its friction is no smaller |
| `Friction.TriggersNeverLowerFriction` | dating-api/src/engine/compute-friction.ts:38-63 | keyword triggers remove no tension from any pair and never lower friction |
| `Friction.TableOnlyHelped` | dating-api/src/engine/tension-rules.ts:96-726 | no rule asks that a signal which the triggers raise be low, or looks at its distance |
| `Friction.TriggersIdempotent` | dating-api/src/engine/compute-friction.ts:38-63 | applying the triggers twice is applying them once |
| `Friction.TriggersRaiseTo` | dating-api/src/engine/compute-friction.ts:38-62 | a keyword raises its signal to 9 or 8 and no further, and changes no other |
| `Friction.TriggeredPairClashes` | dating-api/src/engine/compute-friction.ts:38-62 | a fusion text against a boundaries text always fires their rule, for a friction of 7 at least |
| `Friction.HidingCreatesNoTension` | dating-api/src/engine/tension-rules.ts:74-726 | for every rule but one, a rule that fires with signals left out fires with them |
| `Friction.AttachmentRuleIff` | dating-api/src/engine/tension-rules.ts:84-178 | the one rule fires exactly if one side counts at most 2 in attachmentSecurity, absent counting as 0, and the other at least 8 in directness |
| `Friction.HidingAttachmentIff` | dating-api/src/engine/tension-rules.ts:84-178 | exactly when leaving out attachmentSecurity makes it fire |
| `Scoring.CompatibilityBetween` | dating-api/src/engine/scoring.ts:29-44 | the blend lies between its least and greatest input |
| `Scoring.BlendShares` | dating-api/src/engine/scoring.ts:11-44 | what a change of each of the five alignments is worth in the blend |
| `Scoring.CoverageFactorMonotone` | dating-api/src/engine/coverage.ts:25-29 | the factor is nondecreasing and lies in 0.9..1 |
| `Scoring.CoverageFactorIsBroken` | dating-api/src/engine/coverage.ts:25-29 | the factor climbs steadily from 0.9 to 0.96 at half coverage and on to 1, and is level outside |
| `Scoring.CoveragePercentInRange` | dating-api/src/engine/coverage.ts:35-41 | the percentage is one |
| `Scoring.CoveragePercentIsNearest` | dating-api/src/engine/coverage.ts:35-41 | it is the whole percentage nearest to the share |
| `Scoring.PenaltyMonotoneIff` | dating-api/src/engine/friction.ts:10-16 | the exact pairs of real frictions on which the penalty is monotone |
| `Scoring.PenaltyMonotoneOnIntegers` | dating-api/src/engine/friction.ts:10-16 | it is monotone on whole frictions |
| `Scoring.PenaltyOfFriction` | dating-api/src/engine/friction.ts:10-16 | what each friction from 0 to 10 costs |
| `Scoring.FinalScoreIsNearest` | dating-api/src/engine/scoring.ts:65-67 | the whole number nearest to the raw score, within 0..100 |
| `Scoring.ScoreMonotone` | dating-api/src/engine/scoring.ts:29-67 | the composed score is in 0..100 and nondecreasing in alignments and coverage and nonincreasing in friction |
| `Scoring.ScoreBetween` | dating-api/src/engine/scoring.ts:29-67 | it lies between the rounded 0.9 min - 15.75 and the rounded max of the alignments |
| `Scoring.ScoreBoundsAreTight` | dating-api/src/engine/scoring.ts:29-67 | both bounds are reached |
| `Scoring.PairScoreSwapped` | dating-api/src/engine/scoring.ts:29-67 | swapping the people and the directed alignments keeps the score, through the tension table |
| `Scoring.MoreTensionsScoreNoBetter` | dating-api/src/engine/scoring.ts:29-67 | a pair with all the tensions of another scores no better |
| `Dealbreakers.ComputeDealbreakers` | dating-api/src/domain/dealbreakers.ts:148-300 | the method pushes the findings of the seven rules in order |
| `Dealbreakers.FindingsSwapped` | dating-api/src/domain/dealbreakers.ts:148-300 | swapping the sides keeps codes, severities and order and exchanges the sides of each explanation |
| `Dealbreakers.WiderIsNoMilder` | dating-api/src/domain/dealbreakers.ts:165-272 | clarity and status severities never weaken when the interval between the two values widens |
| `Dealbreakers.HardIff` | dating-api/src/domain/dealbreakers.ts:165-192 | clarity is hard exactly for one value at most 3 and one at least 9: its gap test adds nothing; status is never milder than clarity |
| `Dealbreakers.SeverityBands` | dating-api/src/domain/dealbreakers.ts:165-275 | the bands of clarity and status by the ends of the interval: both find the same pairs of values and differ only in the gap from which a finding is more than a warning |
| `Dealbreakers.ClarityExamples` | dating-api/src/domain/dealbreakers.ts:164 | the examples in the comment, of which the third is not met: 7 against 4 is no finding |
| `Dealbreakers.FindingIff` | dating-api/src/domain/dealbreakers.ts:148-296 | exactly the findings of a pair, with severity and evidence |
| `Dealbreakers.PairIsHardIff` | dating-api/src/domain/dealbreakers.ts:148-296 | exactly which pairs are capped, told from the two people |
| `Dealbreakers.PairLoses` | dating-api/src/domain/dealbreakers.ts:148-326 | what a pair that is not capped loses, told from the two people |
| `Dealbreakers.CapIgnoresOrder` | dating-api/src/domain/dealbreakers.ts:300-326 | the cap depends on the multiset of findings only |
| `Dealbreakers.CapMonotone` | dating-api/src/domain/dealbreakers.ts:306-326 | the capped score is monotone in the score |
| `Dealbreakers.CapSplits` | dating-api/src/domain/dealbreakers.ts:309-326 | findings taken off one after another are taken off together |
| `Dealbreakers.CapOfOne` | dating-api/src/domain/dealbreakers.ts:309-326 | what one finding leaves of a score |
| `Dealbreakers.CapInRangeIff` | dating-api/src/domain/dealbreakers.ts:306-326 | it lies between 0 and the score exactly if the score is not negative |
| `Dealbreakers.SoftPairLosesAtMost90` | dating-api/src/domain/dealbreakers.ts:148-326 | a computed list without a hard finding takes at most 90 |
| `Dealbreakers.NinetyIsReached` | dating-api/src/domain/dealbreakers.ts:148-326 | two people for whom it takes 90 |
| `Dealbreakers.HardIsMilderIff` | dating-api/src/domain/dealbreakers.ts:306-326 | for every score, exactly when a hard finding leaves a better one than softer findings |
| `Dealbreakers.HardIsMilderAtFifty` | dating-api/src/domain/dealbreakers.ts:306-326 | of 50, one hard finding leaves 45 and one penalty 35 |
| `LifestyleConflicts.DetectLifestyleConflicts` | dating-api/src/compatibility/lifestyle-conflicts.ts:46-118 | the rules and the tier-1 loop compute the specified result |
| `LifestyleConflicts.ConflictsSwapped` | dating-api/src/compatibility/lifestyle-conflicts.ts:46-118 | swapping the sides changes nothing |
| `LifestyleConflicts.SeverityCountsConflicts` | dating-api/src/compatibility/lifestyle-conflicts.ts:46-118 | severity is in 0..10, zero exactly without conflicts, and at least two for each conflict |
| `LifestyleConflicts.ConflictIff` | dating-api/src/compatibility/lifestyle-conflicts.ts:46-108 | exactly when each conflict is found, told from the signals; none twice, in a fixed order |
| `LifestyleConflicts.SeverityIs` | dating-api/src/compatibility/lifestyle-conflicts.ts:46-118 | the severity from the gaps over their limits and the mean tier-1 gap, rounded and at most 10 |
| `LifestyleConflicts.SeverityMonotone` | dating-api/src/compatibility/lifestyle-conflicts.ts:46-118 | no smaller gap on the keys the rules read, with the same absent signals, loses no conflict and never lowers the severity |
| `KeywordHelpers.FirstMatching` | dating-api/src/evaluate/enrichment-keyword-helpers.ts:33-41 | the value of the first rule that matches anywhere, or none if no rule does |
| `KeywordHelpers.FirstMatchingEarliest` | dating-api/src/evaluate/enrichment-keyword-helpers.ts:44-66 | the value at the lexicographically least (match index, rule order) over all patterns, or none without a match |
| `KeywordHelpers.EarliestIsUnique` | dating-api/src/evaluate/enrichment-keyword-helpers.ts:44-66 | that of the earliest match determines its value |
| `KeywordHelpers.FirstIsUnique` | dating-api/src/evaluate/enrichment-keyword-helpers.ts:33-41 | the specification of firstMatching determines its value |
| `KeywordHelpers.EarliestAgainstFirst` | dating-api/src/evaluate/enrichment-keyword-helpers.ts:33-66 | the earliest rule is the first matching rule or a later one that beats every match of it |
| `KeywordHelpers.BothOrNeither` | dating-api/src/evaluate/enrichment-keyword-helpers.ts:33-66 | one finds a value exactly if the other does |
| `Interests.RecordPhrases` | dating-api/src/evaluate/enrichment-interest-keywords.ts:254-262 | the phrase loop records each value at the first rule that finds it |
| `Interests.RecordToken` | dating-api/src/evaluate/enrichment-interest-keywords.ts:316-331 | the exec loop of a rule terminates and records the first match it allows unless the value is there |
| `Interests.HitsInOrder` | dating-api/src/evaluate/enrichment-interest-keywords.ts:319-320 | the matches that repeated exec finds come in text order and do not overlap |
| `Interests.HitsFollow` | dating-api/src/evaluate/enrichment-interest-keywords.ts:319-320 | each match is what exec finds from the end of the match before it, until it finds none |
| `Interests.FirstAllowedIff` | dating-api/src/evaluate/enrichment-interest-keywords.ts:321-325 | the index a rule records is that of its first match that is no form of run and passes the guard |
| `Interests.RecordRuns` | dating-api/src/evaluate/enrichment-interest-keywords.ts:336-343 | the running loop terminates and records its first match unless the value is there |
| `Interests.Cut` | dating-api/src/evaluate/enrichment-interest-keywords.ts:346-355 | the last loop keeps the first three allowed entries |
| `Interests.InterestsTop3` | dating-api/src/evaluate/enrichment-interest-keywords.ts:249-356 | the phases together name the first three of the sorted allowed record |
| `Interests.RecordedIff` | dating-api/src/evaluate/enrichment-interest-keywords.ts:254-343 | a value is recorded exactly with the index of the first rule in table order that finds it |
| `Interests.RecordIsDistinct` | dating-api/src/evaluate/enrichment-interest-keywords.ts:254-343 | no value is recorded twice |
| `Interests.RecordedIffFound` | dating-api/src/evaluate/enrichment-interest-keywords.ts:254-343 | a value is recorded with an index exactly if the first rule of the table that finds it finds it there: a phrase or token whose match is no form of run and passes its guard, or running |
| `Interests.RecordedInRuleOrder` | dating-api/src/evaluate/enrichment-interest-keywords.ts:254-343 | values are recorded in the order of the rules that find them first |
| `Interests.SortedInOrder` | dating-api/src/evaluate/enrichment-interest-keywords.ts:345 | the sort is by index, ties in order of recording |
| `Interests.Top3IsRight` | dating-api/src/evaluate/enrichment-interest-keywords.ts:345-355 | at most three different allowed entries, in order; one is left out only if there are three, and then all precede it |
| `Interests.InterestsTop3IsRight` | dating-api/src/evaluate/enrichment-interest-keywords.ts:249-356 | the same for the whole function, told from the expressions of the table |
| `ExplicitLists.BuildExplicitExtendedLists` | dating-api/src/evaluate/explicit-extended-lists.ts:340-378 | the nested loops compute the greedy lists |
| `ExplicitLists.GreedyIsRight` | dating-api/src/evaluate/explicit-extended-lists.ts:362-371 | a rule is accepted if and only if it matches, its meaning is not taken by an earlier accepted rule and its list has room |
| `ExplicitLists.OnlyRightChoice` | dating-api/src/evaluate/explicit-extended-lists.ts:362-371 | no other choice of rules has that property |
| `ExplicitLists.MeaningsAreUsedOnce` | dating-api/src/evaluate/explicit-extended-lists.ts:352-371 | no semanticId is accepted twice across the lists |
| `ExplicitLists.ListsFollowTables` | dating-api/src/evaluate/explicit-extended-lists.ts:362-371 | each list holds the values of its accepted rules in table order, at most five |
| `ExplicitLists.WhyMissing` | dating-api/src/evaluate/explicit-extended-lists.ts:362-371 | a matching rule that is missing met a full list or a taken meaning |
| `ExplicitLists.LaterTablesDoNotMatter` | dating-api/src/evaluate/explicit-extended-lists.ts:362-371 | a list depends only on its own table and those of higher priority |
| `NormalizedTables.PickTopInterests` | dating-api/scripts/backfill-normalized-tables.ts:30-61 | the loop picks the specified tags |
| `NormalizedTables.PickedAreDistinct` | dating-api/scripts/backfill-normalized-tables.ts:48-60 | the stored tags are distinct in lower case |
| `NormalizedTables.SignalIff` | dating-api/scripts/backfill-normalized-tables.ts:21-28 | a signal counts as n exactly if it is a finite number that rounds to n in 1..10, halves up |
| `NormalizedTables.CandidateIs` | dating-api/scripts/backfill-normalized-tables.ts:30-46 | the first of the three lists that is there and not empty |
| `NormalizedTables.PickedAreFirstNew` | dating-api/scripts/backfill-normalized-tables.ts:48-60 | the tags are the first three texts that are not blank and new when lower-cased, trimmed |
| `NormalizedTables.BackfillWrites` | dating-api/scripts/backfill-normalized-tables.ts:136-168 | what the write leaves, row by row: columns, signals with their version, interests ranked from 1, and all else as it was |
| `NormalizedTables.CheckFindsIff` | dating-api/scripts/validate-signal-interest-drift.ts:167-253 | exactly what each flag of the check says |
| `NormalizedTables.ByRankSorts` | dating-api/scripts/validate-signal-interest-drift.ts:132-138 | the interest rows that the check reads are those of the table, by rank |
| `NormalizedTables.TallyCounts` | dating-api/scripts/validate-signal-interest-drift.ts:156-253 | each count of the report is the number of profiles with that flag |
| `NormalizedTables.CheckAfterBackfill` | dating-api/scripts/validate-signal-interest-drift.ts:156-253 | after the write the check finds signal drift exactly for an orphaned row, and never a column, interest or casing difference |
| `NormalizedTables.BackfillIsIdempotent` | dating-api/scripts/backfill-normalized-tables.ts:120-189 | a second write changes nothing |
| `NormalizedTables.BackfillKeepsOthers` | dating-api/scripts/backfill-normalized-tables.ts:120-189 | a write leaves the check of every other profile as it was |
| `NormalizedTables.CheckAfterBackfillAll` | dating-api/scripts/validate-signal-interest-drift.ts:156-253 | the same after the backfill of all profiles |
| `NormalizedTables.DriftAfterFullBackfill` | dating-api/scripts/validate-signal-interest-drift.ts:156-281 | the report after a full backfill counts exactly the profiles with orphaned rows |
| `NormalizedTables.Database.WriteProfile` | dating-api/scripts/backfill-normalized-tables.ts:132-189 | the transaction leaves the specified tables |
| `NormalizedTables.Database.CheckProfile` | dating-api/scripts/validate-signal-interest-drift.ts:167-253 | the loops set exactly the specified flags |
| `NormalizedTables.Database.Backfill` | dating-api/scripts/backfill-normalized-tables.ts:120-189 | the loop over profiles |
| `NormalizedTables.Database.Validate` | dating-api/scripts/validate-signal-interest-drift.ts:156-253 | the loop over profiles counts what the checks find |
| `MergeProfiles.MergeRun.EnsureUniqueId` | dating-api/scripts/merge-profiles.ts:88-94 | terminates, and takes and returns the least free merged id |
| `MergeProfiles.TakenIsBounded` | dating-api/scripts/merge-profiles.ts:88-94 | pigeonhole: a set of ids holds no more merged ids than members |
| `MergeProfiles.MergedIsNamed` | dating-api/scripts/merge-profiles.ts:88-94 | the new ids are named merged_1, merged_10 |
| `MergeProfiles.SanitizeIs` | dating-api/scripts/merge-profiles.ts:22-24 | letters, digits, _ and - of an id stay, anything else becomes _ |
| `MergeProfiles.AllJobsFollow` | dating-api/scripts/merge-profiles.ts:157-213 | the order of a run: the profiles stored, those from the archive, and the generated ones |
| `MergeProfiles.MintsFill` | dating-api/scripts/merge-profiles.ts:197-211 | what a generated profile is filled up with |
| `MergeProfiles.MergeRun.WriteProfile` | dating-api/scripts/merge-profiles.ts:146-155 | refuses exactly the empty id, and otherwise replaces one file |
| `MergeProfiles.MergeRun.Merge` | dating-api/scripts/merge-profiles.ts:157-216 | the three loops write every profile up to the first refusal under its final id; the ids in use |
| `MergeProfiles.FinalIdsAreDistinct` | dating-api/scripts/merge-profiles.ts:157-216 | all written ids are pairwise distinct |
| `MergeProfiles.RenamedToLeastFree` | dating-api/scripts/merge-profiles.ts:157-216 | a profile that does not keep its id gets the least free merged id |
| `MergeProfiles.AssignedIff` | dating-api/scripts/merge-profiles.ts:157-216 | the ids of a run, told from its three input lists: the ids the profiles come with, and as many of the first free merged ids as there are other profiles |
| `MergeProfiles.KeptIff` | dating-api/scripts/merge-profiles.ts:157-216 | a profile keeps its id if and only if it has one that no earlier profile came with and that is not among the merged ids given out before, told from the input |
| `MergeProfiles.FirstHolderKeepsIff` | dating-api/scripts/merge-profiles.ts:157-216 | the first holder of an id keeps it unless it is such a merged id |
| `MergeProfiles.RenamedTo` | dating-api/scripts/merge-profiles.ts:88-94 | the new id is the first merged id not assigned before, told from the input |
| `MergeProfiles.NumbersIncrease` | dating-api/scripts/merge-profiles.ts:157-216 | new numbers increase and never exceed the number of profiles so far |
| `MergeProfiles.UsedIdsCountProfiles` | dating-api/scripts/merge-profiles.ts:215 | the logged total is the number of profiles |
| `MergeProfiles.CompletesIff` | dating-api/scripts/merge-profiles.ts:157-216 | the run ends without an error exactly if every stored and archived profile has an id |
| `MergeProfiles.NothingLostIff` | dating-api/scripts/merge-profiles.ts:146-216 | every profile is in its file afterwards, if and only if no id with an unsafe character that a profile comes with has the file name of another assigned id, told from the input |
| `MergeProfiles.SafeIdsLoseNothing` | dating-api/scripts/merge-profiles.ts:22-24 | ids in the safe alphabet have files of their own |
| `MergeProfiles.OtherFilesStay` | dating-api/scripts/merge-profiles.ts:146-155 | files of ids that the run does not give out stay as they are |
| `MergeProfiles.OneFileForTwoIds` | dating-api/scripts/merge-profiles.ts:22-24 | two ids with one file |
| `MergeProfiles.FirstHolderRenamed` | dating-api/scripts/merge-profiles.ts:157-216 | three profiles of which the first holder of merged_1 is renamed |
| `Crc32.ComputeCrc` | dating-api/scripts/seed-qa50-pool.ts:48-57 | the nested loops compute the register specification |
| `Crc32.ResidueLaw` | dating-api/scripts/seed-qa50-pool.ts:48-57 | the CRC of nothing is 0, and a buffer followed by its own CRC, lowest byte first, has the residue 0x2144df1c, for every buffer |
| `Crc32.CrcOfIend` | dating-api/scripts/seed-qa50-pool.ts:48-57 | the CRC of the type IEND is 0xae426082 |
| `Crc32.CrcIsAffine` | dating-api/scripts/seed-qa50-pool.ts:48-57 | crc(a) xor crc(b) xor crc(c) = crc(a xor b xor c) for equal lengths |
| `Crc32.ShiftInjective` | dating-api/scripts/seed-qa50-pool.ts:52-54 | one bit step of the register loses nothing |
| `Crc32.RegisterIsBits` | dating-api/scripts/seed-qa50-pool.ts:48-57 | feeding bytes is feeding their bits, the lowest first |
| `Crc32.BitBurstChangesCrc` | dating-api/scripts/seed-qa50-pool.ts:48-57 | every change confined to 32 consecutive bits, wherever they start, changes the CRC |
| `Crc32.BurstChangesCrc` | dating-api/scripts/seed-qa50-pool.ts:48-57 | in particular every change confined to four consecutive bytes |
| `Crc32.PngChunk` | dating-api/scripts/seed-qa50-pool.ts:59-66 | the method builds length, type, data and CRC |
| `Crc32.ChunkIsIntact` | dating-api/scripts/seed-qa50-pool.ts:59-66 | a chunk reads back as its type and data and its fields are right |
| `Crc32.IendChunk` | dating-api/scripts/seed-qa50-pool.ts:59-66 | the twelve bytes of the chunk that ends a PNG file |
| `Crc32.HeaderLength` | dating-api/scripts/seed-qa50-pool.ts:59-66 | the length field of a chunk of thirteen bytes |
| `Crc32.CorruptedChunkIsNoticed` | dating-api/scripts/seed-qa50-pool.ts:59-66 | a reader notices every change of at most 32 consecutive bits of type and data, and every change of the CRC field |
| `Crc32.UnnoticedIff` | dating-api/scripts/seed-qa50-pool.ts:59-66 | exactly when a change of type, data and CRC field goes unnoticed: the field is flipped by what the register makes of the flips in the data |
| `Crc32.StraddlingBurstGoesUnnoticed` | dating-api/scripts/seed-qa50-pool.ts:59-66 | in every chunk with two bytes of type and data, a change of four consecutive bytes across the border to the CRC field that goes unnoticed |
| `Pearson.Pearson` | dating-api/scripts/phase1-eq-correlation-report.ts:40-57 | the loops compute the specified coefficient |
| `Pearson.LeastSquares` | dating-api/scripts/phase1-eq-correlation-report.ts:40-57 | the least squared error of any line is the share 1 - r*r of the spread of ys, and the line that has it rises for r > 0 and falls for r < 0: that determines the coefficient |
| `Pearson.CauchySchwarz` | dating-api/scripts/phase1-eq-correlation-report.ts:47-55 | num squared never exceeds denX times denY |
| `Pearson.CorrelationDefinedIff` | dating-api/scripts/phase1-eq-correlation-report.ts:40-57 | a number exactly for two or more points with neither series constant |
| `Pearson.CorrelationInRange` | dating-api/scripts/phase1-eq-correlation-report.ts:40-57 | it lies in -1..1 |
| `Pearson.CorrelationSymmetric` | dating-api/scripts/phase1-eq-correlation-report.ts:40-57 | exchanging the series keeps it |
| `Pearson.CorrelationOnLine` | dating-api/scripts/phase1-eq-correlation-report.ts:40-57 | points on a line give the sign of its slope |
| `Pearson.PerfectIffCollinear` | dating-api/scripts/phase1-eq-correlation-report.ts:40-57 | it is 1 or -1 exactly for points on one line |
| `Pearson.SelfCorrelation` | dating-api/scripts/phase1-eq-correlation-report.ts:40-57 | a series has coefficient 1 with itself unless it has none |
| `Pearson.PairCorrelation` | dating-api/scripts/phase1-eq-correlation-report.ts:59-76 | the loop passes on the rows where both columns hold a number, in two series of one length |
| `Pearson.BothIff` | dating-api/scripts/phase1-eq-correlation-report.ts:66-74 | a row counts exactly if both columns have a number there |
| `Pearson.RowsAreIncreasing` | dating-api/scripts/phase1-eq-correlation-report.ts:66-74 | those rows, all of them, in order |
| `Pearson.PairsAreRows` | dating-api/scripts/phase1-eq-correlation-report.ts:66-74 | the pairs passed on are the values of those rows |
| `Pearson.PairCorrelationSwapped` | dating-api/scripts/phase1-eq-correlation-report.ts:59-76 | exchanging the columns keeps coefficient and count, even for columns of different length |
| `Pearson.DiagonalIff` | dating-api/scripts/phase1-eq-correlation-report.ts:113-117 | for a column and itself pairCorrelation gives 1 exactly if the column has two different values; the report writes 1.000 without asking |

## Left out

- Regular expressions, `trim`, lower-casing and the wording of the keyword tables: a match is an oracle.
- Cursor texts that nobody encoded: the JSON reader takes flat objects of strings and numbers without
  white space, and malformed UTF-8 or characters outside the base64url alphabet give no cursor, where
  Node may substitute or skip them.
- Printing of numbers: the values a number can have are a parameter with a printed form that reads back.
- Match list payload beyond id, score and bucket, the rescoring of a filled page, and the database collation,
  taken to be code-unit order.
- Redis beyond one server without eviction or failover, and the other cache operations.
- JWT signing and SHA-256: a token is determined by its subject and its jti, and hashes are taken to be
  injective on issued tokens.
- Statistics, admin queries and notifications of content moderation.
- Ties of creation time between evaluations, the preference upsert, sample lists and report text of the
  two table scripts.
- Names and explanations of the tension rules. A signal that is not a finite number is treated as absent.
- Floating-point rounding of scores and of the correlation.
- The clock during a merge: all profiles of one run that lack savedAt get one time.
- `normalizeListItem`: the extended lists are right for any function in its place. `checkDealbreakers`, `joinBlocks`
  and `isNegatedBefore`: no property above depends on them.
- The guards that read a window of text around an interest: a rule's guard is a parameter.
- Stored or archived profiles whose id is not a string, which loading does not rule out
  (`dating-api/scripts/merge-profiles.ts:104`, `:124`): writing a stored one fails, an archived one is taken by the
  text of its id.
- The match engine, product scores, extraction, rate limits, Nest modules, controllers, configuration and UI.
- RefreshTokens.OneLiveDescendant: only for runs in which no rotation reads a token while another of it is in flight; OverlapMakesTwo shows that overlap makes two.
