/** Merging three sources of profiles without giving two of them one id. */
module MergeProfiles {
  import opened Basics
  import opened CursorCodec

  // ---- ids

  const MERGED: Text := [0x6d, 0x65, 0x72, 0x67, 0x65, 0x64, 0x5f]

  /** `merged_${n}`. */
  function Merged(n: nat): Text { MERGED + ShowNat(n) }

  lemma MergedInjective(m: nat, n: nat)
    requires Merged(m) == Merged(n)
    ensures m == n
  {
    assert ShowNat(m) == Merged(m)[7..] == Merged(n)[7..] == ShowNat(n);
    ShowNatRoundTrip(m);
    ShowNatRoundTrip(n);
  }

  predicate TakenBelow(used: set<Text>, n: nat) { forall k | 1 <= k < n :: Merged(k) in used }

  predicate LeastFree(used: set<Text>, n: nat) { n >= 1 && Merged(n) !in used && TakenBelow(used, n) }

  function MergedUpTo(m: nat): set<Text> {
    if m == 0 then {} else MergedUpTo(m - 1) + {Merged(m)}
  }

  lemma {:induction false} MergedUpToTaken(used: set<Text>, m: nat)
    requires TakenBelow(used, m + 1)
    ensures MergedUpTo(m) <= used
  {
    if m > 0 {
      MergedUpToTaken(used, m - 1);
      assert Merged(m) in used;
    }
  }

  lemma {:induction false} LaterNotInMergedUpTo(m: nat, n: nat)
    requires m < n
    ensures Merged(n) !in MergedUpTo(m)
  {
    if m > 0 {
      LaterNotInMergedUpTo(m - 1, n);
      if Merged(m) == Merged(n) {
        MergedInjective(m, n);
      }
    }
  }

  lemma {:induction false} MergedUpToSize(m: nat)
    ensures |MergedUpTo(m)| == m
  {
    if m > 0 {
      MergedUpToSize(m - 1);
      LaterNotInMergedUpTo(m - 1, m);
    }
  }

  lemma SubsetSize<T>(small: set<T>, large: set<T>)
    requires small <= large
    ensures |small| <= |large|
  {
    assert large == small + (large - small);
  }

  /** Pigeonhole: a set of ids cannot hold more merged ids than it has members. */
  lemma TakenIsBounded(used: set<Text>, n: nat)
    requires n >= 1 && TakenBelow(used, n)
    ensures n - 1 <= |used|
  {
    MergedUpToTaken(used, n - 1);
    MergedUpToSize(n - 1);
    SubsetSize(MergedUpTo(n - 1), used);
  }

  lemma {:induction false} LeastFreeExists(used: set<Text>, n: nat)
    requires n >= 1 && TakenBelow(used, n)
    ensures exists least: nat :: LeastFree(used, least)
    decreases |used| + 1 - n
  {
    TakenIsBounded(used, n);
    if Merged(n) in used {
      assert TakenBelow(used, n + 1);
      TakenIsBounded(used, n + 1);
      LeastFreeExists(used, n + 1);
    } else {
      assert LeastFree(used, n);
    }
  }

  ghost function FirstFree(used: set<Text>): (n: nat)
    ensures LeastFree(used, n)
  {
    LeastFreeExists(used, 1);
    var n: nat :| LeastFree(used, n);
    n
  }

  lemma LeastFreeIsUnique(used: set<Text>, m: nat, n: nat)
    requires LeastFree(used, m) && LeastFree(used, n)
    ensures m == n
  {}

  // ---- profiles

  datatype Evaluation = Stub | Stored(json: Text)

  datatype Texts = Texts(aboutMe: Text, aboutPartner: Text, aboutRelationship: Text)

  datatype Payload = Payload(id: Text, name: Text, texts: Texts, evaluation: Evaluation, savedAt: Text)

  datatype RawProfile = RawProfile(
    id: Option<Text>, name: Text, aboutMe: Option<Text>, aboutPartner: Option<Text>, aboutRelationship: Option<Text>)

  const UNKNOWN: Text := [0x55, 0x6e, 0x6b, 0x6e, 0x6f, 0x77, 0x6e]

  function OrEmpty(t: Option<Text>): Text { if t.Some? then t.value else [] }

  function FromRaw(r: RawProfile, now: Text): Payload {
    Payload(OrEmpty(r.id), if r.name == [] then UNKNOWN else r.name,
            Texts(OrEmpty(r.aboutMe), OrEmpty(r.aboutPartner), OrEmpty(r.aboutRelationship)), Stub, now)
  }

  predicate SafeUnit(u: CodeUnit) {
    0x30 <= u <= 0x39 || 0x41 <= u <= 0x5a || 0x61 <= u <= 0x7a || u == 0x5f || u == 0x2d
  }

  predicate Safe(id: Text) { forall i | 0 <= i < |id| :: SafeUnit(id[i]) }

  function Sanitize(id: Text): (r: Text)
    ensures |r| == |id| && Safe(r)
  {
    seq(|id|, i requires 0 <= i < |id| => if SafeUnit(id[i]) then id[i] else 0x5f)
  }

  lemma SanitizeFixesIff(id: Text)
    ensures Sanitize(id) == id <==> Safe(id)
  {
    if Safe(id) {
      assert Sanitize(id) == id;
    }
  }

  // ---- what a run should do

  /** One profile to write; `mint` if the source gives a profile without an id a new one. */
  datatype Job = Job(payload: Payload, mint: bool)

  function IdSet(ids: seq<Text>): set<Text> { set i | 0 <= i < |ids| :: ids[i] }

  ghost function Choose(used: set<Text>, job: Job): Text {
    var id := job.payload.id;
    if id in used || (job.mint && id == []) then Merged(FirstFree(used)) else id
  }

  ghost function FinalIds(jobs: seq<Job>): (ids: seq<Text>)
    ensures |ids| == |jobs|
  {
    if jobs == [] then []
    else
      var ids := FinalIds(jobs[..|jobs| - 1]);
      ids + [Choose(IdSet(ids), jobs[|jobs| - 1])]
  }

  /** The file that `writeProfile` leaves for a profile. */
  function Filed(p: Payload, id: Text, now: Text): Payload {
    p.(id := id, savedAt := if p.savedAt == [] then now else p.savedAt)
  }

  type Files = map<Text, Payload>

  ghost function Written(files: Files, jobs: seq<Job>, now: Text): Files {
    if jobs == [] then files
    else
      var id := FinalIds(jobs)[|jobs| - 1];
      Written(files, jobs[..|jobs| - 1], now)[Sanitize(id) := Filed(jobs[|jobs| - 1].payload, id, now)]
  }

  function AllJobs(existing: seq<Payload>, zipped: seq<Payload>, generated: seq<RawProfile>, now: Text)
    : (jobs: seq<Job>)
    ensures |jobs| == |existing| + |zipped| + |generated|
  {
    KeepIds(existing) + KeepIds(zipped) + MintIds(generated, now)
  }

  /** From `start`, the jobs keep the ids of these profiles. */
  predicate Keeps(all: seq<Job>, start: nat, ps: seq<Payload>) {
    start + |ps| <= |all| && forall k | start <= k < start + |ps| :: all[k] == Job(ps[k - start], false)
  }

  predicate Mints(all: seq<Job>, start: nat, rs: seq<RawProfile>, now: Text) {
    start + |rs| <= |all| && forall k | start <= k < start + |rs| :: all[k] == Job(FromRaw(rs[k - start], now), true)
  }

  /** The order of a run: the profiles stored, those from the archive, and the generated ones. */
  lemma AllJobsFollow(existing: seq<Payload>, zipped: seq<Payload>, generated: seq<RawProfile>, now: Text)
    ensures
      var all := AllJobs(existing, zipped, generated, now);
      && Keeps(all, 0, existing)
      && Keeps(all, |existing|, zipped)
      && Mints(all, |existing| + |zipped|, generated, now)
  {}

  predicate Refused(job: Job) { job.payload.id == [] && !job.mint }

  /** How many profiles are written before the first one that is refused. */
  function Completed(jobs: seq<Job>): (n: nat)
    ensures n <= |jobs|
    ensures n < |jobs| ==> Refused(jobs[n])
    ensures forall i | 0 <= i < n :: !Refused(jobs[i])
  {
    if jobs == [] then 0
    else
      var (last, n) := (|jobs| - 1, Completed(jobs[..|jobs| - 1]));
      if n < last || Refused(jobs[last]) then n else last + 1
  }

  function KeepIds(ps: seq<Payload>): (jobs: seq<Job>)
    ensures |jobs| == |ps|
    ensures forall i | 0 <= i < |ps| :: jobs[i] == Job(ps[i], false)
  {
    seq(|ps|, i requires 0 <= i < |ps| => Job(ps[i], false))
  }

  function MintIds(rs: seq<RawProfile>, now: Text): (jobs: seq<Job>)
    ensures |jobs| == |rs|
    ensures forall i | 0 <= i < |rs| :: jobs[i] == Job(FromRaw(rs[i], now), true)
  {
    seq(|rs|, i requires 0 <= i < |rs| => Job(FromRaw(rs[i], now), true))
  }

  // ---- one more profile

  lemma IdSetGrows(ids: seq<Text>, id: Text)
    ensures IdSet(ids + [id]) == IdSet(ids) + {id}
  {
    var more := ids + [id];
    assert forall i | 0 <= i < |ids| :: more[i] == ids[i];
    assert more[|ids|] == id;
  }

  lemma OneId(id: Text)
    ensures IdSet([]) == {} && IdSet([id]) == {id}
  {
    IdSetGrows([], id);
    assert [] + [id] == [id];
  }

  lemma FinalIdsStep(all: seq<Job>, k: nat)
    requires k < |all|
    ensures FinalIds(all[..k + 1]) == FinalIds(all[..k]) + [Choose(IdSet(FinalIds(all[..k])), all[k])]
  {
    assert all[..k + 1][..k] == all[..k];
  }

  lemma WrittenStep(files: Files, all: seq<Job>, k: nat, now: Text)
    requires k < |all|
    ensures
      var id := Choose(IdSet(FinalIds(all[..k])), all[k]);
      Written(files, all[..k + 1], now) == Written(files, all[..k], now)[Sanitize(id) := Filed(all[k].payload, id, now)]
  {
    FinalIdsStep(all, k);
    assert all[..k + 1][..k] == all[..k];
  }

  lemma CompletedStep(all: seq<Job>, k: nat)
    requires k < |all|
    ensures
      var done := Completed(all[..k]);
      Completed(all[..k + 1]) == if done < k || Refused(all[k]) then done else k + 1
  {
    assert all[..k + 1][..k] == all[..k];
  }

  lemma {:induction false} FinalIdsAreNotEmpty(all: seq<Job>, k: nat)
    requires k <= |all| && Completed(all[..k]) == k
    ensures [] !in IdSet(FinalIds(all[..k]))
  {
    if k > 0 {
      CompletedStep(all, k - 1);
      FinalIdsAreNotEmpty(all, k - 1);
      FinalIdsStep(all, k - 1);
      IdSetGrows(FinalIds(all[..k - 1]), FinalIds(all[..k])[k - 1]);
    }
  }

  /** The states of a run: after k profiles the ids in use and the files, and how many profiles it writes. */
  datatype Plan = Plan(used: nat -> set<Text>, files: nat -> Files, done: nat)

  /** After k profiles the plan is where the specification says. */
  ghost predicate StandsAt(plan: Plan, initial: Files, jobs: seq<Job>, k: nat, now: Text)
    requires k <= |jobs|
  {
    plan.used(k) == IdSet(FinalIds(jobs[..k])) && plan.files(k) == Written(initial, jobs[..k], now)
  }

  ghost predicate IsPlanOf(plan: Plan, initial: Files, jobs: seq<Job>, now: Text) {
    plan.done == Completed(jobs) && forall k | 0 <= k <= |jobs| :: StandsAt(plan, initial, jobs, k, now)
  }

  lemma MakePlan(initial: Files, jobs: seq<Job>, now: Text) returns (plan: Plan)
    ensures IsPlanOf(plan, initial, jobs, now)
  {
    plan := Plan((k: nat) => if k <= |jobs| then IdSet(FinalIds(jobs[..k])) else {},
                 (k: nat) => if k <= |jobs| then Written(initial, jobs[..k], now) else initial,
                 Completed(jobs));
  }

  /** One profile takes the ids and files from one state to the next if it is accepted. */
  ghost predicate Moves(accepted: bool, used: set<Text>, files: Files, used': set<Text>,
                        files': Files, job: Job, now: Text) {
    var id := Choose(used, job);
    && (accepted <==> id != [])
    && (accepted ==> used' == used + {id} && files' == files[Sanitize(id) := Filed(job.payload, id, now)])
  }

  ghost predicate Turn(plan: Plan, k: nat, job: Job, now: Text) {
    Moves(k < plan.done, plan.used(k), plan.files(k), plan.used(k + 1), plan.files(k + 1), job, now)
  }

  ghost predicate IsPlan(plan: Plan, jobs: seq<Job>, now: Text) {
    plan.done <= |jobs| && forall k | 0 <= k <= plan.done && k < |jobs| :: Turn(plan, k, jobs[k], now)
  }

  lemma CompletedUpTo(jobs: seq<Job>, k: nat)
    requires k <= Completed(jobs)
    ensures Completed(jobs[..k]) == k
  {
    assert forall i | 0 <= i < k :: jobs[..k][i] == jobs[i];
  }

  lemma NextId(jobs: seq<Job>, k: nat)
    requires k < |jobs| && k <= Completed(jobs)
    ensures
      var used := IdSet(FinalIds(jobs[..k]));
      && (Choose(used, jobs[k]) == [] <==> Refused(jobs[k]))
      && IdSet(FinalIds(jobs[..k + 1])) == used + {Choose(used, jobs[k])}
  {
    CompletedUpTo(jobs, k);
    FinalIdsAreNotEmpty(jobs, k);
    FinalIdsStep(jobs, k);
    IdSetGrows(FinalIds(jobs[..k]), Choose(IdSet(FinalIds(jobs[..k])), jobs[k]));
  }

  lemma NextMove(initial: Files, jobs: seq<Job>, k: nat, now: Text)
    requires k < |jobs| && k <= Completed(jobs)
    ensures Moves(k < Completed(jobs), IdSet(FinalIds(jobs[..k])), Written(initial, jobs[..k], now),
                  IdSet(FinalIds(jobs[..k + 1])), Written(initial, jobs[..k + 1], now), jobs[k], now)
  {
    NextId(jobs, k);
    WrittenStep(initial, jobs, k, now);
  }

  lemma NextTurn(plan: Plan, initial: Files, jobs: seq<Job>, k: nat, now: Text)
    requires k < |jobs| && k <= plan.done && plan.done == Completed(jobs)
    requires StandsAt(plan, initial, jobs, k, now) && StandsAt(plan, initial, jobs, k + 1, now)
    ensures Turn(plan, k, jobs[k], now)
  {
    NextMove(initial, jobs, k, now);
  }

  lemma PlanOfIsPlan(plan: Plan, initial: Files, jobs: seq<Job>, now: Text)
    requires IsPlanOf(plan, initial, jobs, now)
    ensures IsPlan(plan, jobs, now)
  {
    forall k | 0 <= k <= plan.done && k < |jobs| ensures Turn(plan, k, jobs[k], now) {
      assert StandsAt(plan, initial, jobs, k, now) && StandsAt(plan, initial, jobs, k + 1, now);
      NextTurn(plan, initial, jobs, k, now);
    }
  }

  // ---- the script

  class MergeRun {
    var usedIds: set<Text>
    var files: Files

    constructor (onDisk: Files)
      ensures usedIds == {} && files == onDisk
    {
      usedIds, files := {}, onDisk;
    }

    method EnsureUniqueId() returns (candidate: Text)
      modifies this`usedIds
      ensures candidate == Merged(FirstFree(old(usedIds)))
      ensures usedIds == old(usedIds) + {candidate}
    {
      var n := 1;
      while Merged(n) in usedIds
        invariant n >= 1 && TakenBelow(usedIds, n) && usedIds == old(usedIds)
        decreases |usedIds| + 1 - n
      {
        assert TakenBelow(usedIds, n + 1);
        TakenIsBounded(usedIds, n + 1);
        n := n + 1;
      }
      assert LeastFree(usedIds, n);
      LeastFreeIsUnique(usedIds, n, FirstFree(usedIds));
      candidate := Merged(n);
      usedIds := usedIds + {candidate};
    }

    /** Refuses an empty id. */
    method WriteProfile(p: Payload, now: Text) returns (ok: bool)
      modifies this`files
      ensures ok <==> p.id != []
      ensures files == if ok then old(files)[Sanitize(p.id) := Filed(p, p.id, now)] else old(files)
    {
      var safeId := Sanitize(p.id);
      if safeId == [] {
        return false;
      }
      files := files[safeId := p.(savedAt := if p.savedAt == [] then now else p.savedAt)];
      return true;
    }

    /** Where the run stands once it has been through k profiles; `ok` is false after the error. */
    ghost predicate Through(plan: Plan, k: nat, ok: bool)
      reads this
    {
      && (ok <==> k <= plan.done)
      && (ok ==> usedIds == plan.used(k))
      && files == plan.files(if ok then k else plan.done)
    }

    method MergeOneExisting(p: Payload, now: Text, ghost plan: Plan, ghost k: nat) returns (ok: bool)
      requires Through(plan, k, true) && Turn(plan, k, Job(p, false), now)
      modifies this
      ensures Through(plan, k + 1, ok)
    {
      if p.id in usedIds {
        var newId := EnsureUniqueId();
        ok := WriteProfile(p.(id := newId), now);
      } else {
        usedIds := usedIds + {p.id};
        ok := WriteProfile(p, now);
      }
    }

    method MergeOneZipped(p: Payload, now: Text, ghost plan: Plan, ghost k: nat) returns (ok: bool)
      requires Through(plan, k, true) && Turn(plan, k, Job(p, false), now)
      modifies this
      ensures Through(plan, k + 1, ok)
    {
      var finalId := p.id;
      if p.id in usedIds {
        finalId := EnsureUniqueId();
      }
      if finalId == p.id {
        usedIds := usedIds + {p.id};
      }
      ok := WriteProfile(p.(id := finalId), now);
    }

    method MergeOneGenerated(r: RawProfile, now: Text, ghost plan: Plan, ghost k: nat) returns (ok: bool)
      requires Through(plan, k, true) && Turn(plan, k, Job(FromRaw(r, now), true), now)
      modifies this
      ensures Through(plan, k + 1, ok)
    {
      var finalId := OrEmpty(r.id);
      if finalId in usedIds || finalId == [] {
        finalId := EnsureUniqueId();
      }
      if finalId !in usedIds {
        usedIds := usedIds + {finalId};
      }
      ok := WriteProfile(FromRaw(r, now).(id := finalId), now);
    }

    method MergeExisting(existing: seq<Payload>, now: Text, ghost plan: Plan, ghost all: seq<Job>) returns (ok: bool)
      requires IsPlan(plan, all, now) && Keeps(all, 0, existing)
      requires Through(plan, 0, true)
      modifies this
      ensures Through(plan, |existing|, ok)
    {
      for i := 0 to |existing|
        invariant Through(plan, i, true)
      {
        assert Turn(plan, i, all[i], now);
        var wrote := MergeOneExisting(existing[i], now, plan, i);
        if !wrote {
          return false;
        }
      }
      return true;
    }

    method MergeZipped(zipped: seq<Payload>, now: Text, ghost plan: Plan, ghost all: seq<Job>, ghost start: nat)
      returns (ok: bool)
      requires IsPlan(plan, all, now) && Keeps(all, start, zipped)
      requires Through(plan, start, true)
      modifies this
      ensures Through(plan, start + |zipped|, ok)
    {
      for i := 0 to |zipped|
        invariant Through(plan, start + i, true)
      {
        assert Turn(plan, start + i, all[start + i], now);
        var wrote := MergeOneZipped(zipped[i], now, plan, start + i);
        if !wrote {
          return false;
        }
      }
      return true;
    }

    method MergeGenerated(generated: seq<RawProfile>, now: Text, ghost plan: Plan, ghost all: seq<Job>,
                          ghost start: nat)
      returns (ok: bool)
      requires IsPlan(plan, all, now) && Mints(all, start, generated, now)
      requires Through(plan, start, true)
      modifies this
      ensures Through(plan, start + |generated|, ok)
    {
      for i := 0 to |generated|
        invariant Through(plan, start + i, true)
      {
        assert Turn(plan, start + i, all[start + i], now);
        var wrote := MergeOneGenerated(generated[i], now, plan, start + i);
        if !wrote {
          return false;
        }
      }
      return true;
    }

    method MergeLists(existing: seq<Payload>, zipped: seq<Payload>, generated: seq<RawProfile>, now: Text,
                      ghost plan: Plan, ghost all: seq<Job>)
      returns (ok: bool)
      requires IsPlan(plan, all, now) && |all| == |existing| + |zipped| + |generated|
      requires Keeps(all, 0, existing) && Keeps(all, |existing|, zipped)
      requires Mints(all, |existing| + |zipped|, generated, now)
      requires Through(plan, 0, true)
      modifies this
      ensures Through(plan, |all|, ok)
    {
      ok := MergeExisting(existing, now, plan, all);
      if ok {
        ok := MergeZipped(zipped, now, plan, all, |existing|);
      }
      if ok {
        ok := MergeGenerated(generated, now, plan, all, |existing| + |zipped|);
      }
    }

    /** `main`, from the three lists it loads; false is the error that ends it. */
    method Merge(existing: seq<Payload>, zipped: seq<Payload>, generated: seq<RawProfile>, now: Text) returns (ok: bool)
      requires usedIds == {}
      modifies this
      ensures
        var all := AllJobs(existing, zipped, generated, now);
        && (ok <==> Completed(all) == |all|)
        && (ok ==> usedIds == IdSet(FinalIds(all)))
        && files == Written(old(files), all[..Completed(all)], now)
    {
      ghost var all := AllJobs(existing, zipped, generated, now);
      ghost var initial := files;
      ghost var plan := MakePlan(files, all, now);
      PlanOfIsPlan(plan, files, all, now);
      AllJobsFollow(existing, zipped, generated, now);
      AtStart(plan, files, all, now);
      ok := MergeLists(existing, zipped, generated, now, plan, all);
      AtEnd(plan, initial, all, now, ok);
    }

    lemma AtStart(plan: Plan, initial: Files, all: seq<Job>, now: Text)
      requires usedIds == {} && files == initial && IsPlanOf(plan, initial, all, now)
      ensures Through(plan, 0, true)
    {
      assert StandsAt(plan, initial, all, 0, now);
      assert all[..0] == [];
      OneId([]);
    }

    lemma AtEnd(plan: Plan, initial: Files, all: seq<Job>, now: Text, ok: bool)
      requires IsPlanOf(plan, initial, all, now) && Through(plan, |all|, ok)
      ensures ok <==> Completed(all) == |all|
      ensures ok ==> usedIds == IdSet(FinalIds(all))
      ensures files == Written(initial, all[..Completed(all)], now)
    {
      assert StandsAt(plan, initial, all, |all|, now) && StandsAt(plan, initial, all, plan.done, now);
      assert all[..|all|] == all;
    }
  }

  // ---- what a run guarantees

  predicate Distinct(ids: seq<Text>) { forall i, j | 0 <= i < j < |ids| :: ids[i] != ids[j] }

  lemma ChosenIsNew(used: set<Text>, job: Job)
    ensures Choose(used, job) !in used
  {}

  /** No two profiles get one id. */
  lemma {:induction false} FinalIdsAreDistinct(jobs: seq<Job>)
    ensures Distinct(FinalIds(jobs))
    decreases |jobs|
  {
    if jobs != [] {
      var ids := FinalIds(jobs[..|jobs| - 1]);
      FinalIdsAreDistinct(jobs[..|jobs| - 1]);
      ChosenIsNew(IdSet(ids), jobs[|jobs| - 1]);
      forall i | 0 <= i < |ids| ensures ids[i] != FinalIds(jobs)[|ids|] {
        assert ids[i] in IdSet(ids);
      }
    }
  }

  lemma {:induction false} FinalIdAt(jobs: seq<Job>, k: nat)
    requires k < |jobs|
    ensures FinalIds(jobs)[k] == Choose(IdSet(FinalIds(jobs)[..k]), jobs[k])
    decreases |jobs|
  {
    var last := |jobs| - 1;
    var ids := FinalIds(jobs[..last]);
    if k < last {
      FinalIdAt(jobs[..last], k);
      assert FinalIds(jobs)[..k] == ids[..k];
    } else {
      assert FinalIds(jobs)[..k] == ids;
    }
  }

  predicate Nameless(job: Job) { job.mint && job.payload.id == [] }

  ghost predicate Kept(jobs: seq<Job>, k: nat)
    requires k < |jobs|
  {
    FinalIds(jobs)[k] == jobs[k].payload.id
  }

  /** A profile that does not keep its id gets the first free merged id. */
  lemma RenamedToLeastFree(jobs: seq<Job>, k: nat)
    requires k < |jobs|
    ensures
      var earlier := IdSet(FinalIds(jobs)[..k]);
      if jobs[k].payload.id in earlier || Nameless(jobs[k]) then
        !Kept(jobs, k) && FinalIds(jobs)[k] == Merged(FirstFree(earlier))
      else Kept(jobs, k)
  {
    FinalIdAt(jobs, k);
    ChosenIsNew(IdSet(FinalIds(jobs)[..k]), jobs[k]);
  }

  ghost predicate NumberedAt(jobs: seq<Job>, k: nat, n: nat)
    requires k < |jobs|
  {
    !Kept(jobs, k) && FinalIds(jobs)[k] == Merged(n)
  }

  lemma IdSetSize(ids: seq<Text>)
    ensures |IdSet(ids)| <= |ids|
    ensures Distinct(ids) ==> |IdSet(ids)| == |ids|
    decreases |ids|
  {
    if ids == [] {
      assert IdSet(ids) == {};
    } else {
      var (init, last) := (ids[..|ids| - 1], ids[|ids| - 1]);
      IdSetSize(init);
      IdSetGrows(init, last);
      assert ids == init + [last];
      if Distinct(ids) {
        assert last !in IdSet(init);
      }
    }
  }

  lemma NumberIsLeastFree(jobs: seq<Job>, k: nat, n: nat)
    requires k < |jobs| && NumberedAt(jobs, k, n)
    ensures LeastFree(IdSet(FinalIds(jobs)[..k]), n)
  {
    var earlier := IdSet(FinalIds(jobs)[..k]);
    FinalIdAt(jobs, k);
    MergedInjective(n, FirstFree(earlier));
  }

  /** New numbers go up, and no further than the number of profiles so far. */
  lemma NumbersIncrease(jobs: seq<Job>, i: nat, j: nat, m: nat, n: nat)
    requires i < j < |jobs| && NumberedAt(jobs, i, m) && NumberedAt(jobs, j, n)
    ensures m < n <= j + 1
  {
    var ids := FinalIds(jobs);
    NumberIsLeastFree(jobs, i, m);
    NumberIsLeastFree(jobs, j, n);
    var (early, late) := (IdSet(ids[..i]), IdSet(ids[..j]));
    assert ids[..j][i] == Merged(m);
    assert early <= late by {
      forall id | id in early ensures id in late {
        var k :| 0 <= k < i && ids[..i][k] == id;
        assert ids[..j][k] == id;
      }
    }
    TakenIsBounded(late, n);
    IdSetSize(ids[..j]);
  }

  /** The total in the last line of the log. */
  lemma UsedIdsCountProfiles(jobs: seq<Job>)
    ensures |IdSet(FinalIds(jobs))| == |jobs|
  {
    FinalIdsAreDistinct(jobs);
    IdSetSize(FinalIds(jobs));
  }

  // ---- which ids a run gives out, told from its input

  /** The ids that the profiles come with. */
  function Named(jobs: seq<Job>): set<Text> {
    if jobs == [] then {}
    else
      var (before, last) := (Named(jobs[..|jobs| - 1]), jobs[|jobs| - 1]);
      if Nameless(last) then before else before + {last.payload.id}
  }

  /** A merged id that was given out, so that no smaller one is free. */
  ghost predicate Minted(used: set<Text>, id: Text) {
    exists m: nat :: m >= 1 && id == Merged(m) && TakenBelow(used, m)
  }

  lemma MintedStays(used: set<Text>, more: set<Text>, id: Text)
    requires Minted(used, id) && used <= more
    ensures Minted(more, id)
  {
    var m: nat :| m >= 1 && id == Merged(m) && TakenBelow(used, m);
    assert TakenBelow(more, m);
  }

  ghost predicate NamedOrMinted(jobs: seq<Job>, used: set<Text>) {
    Named(jobs) <= used && forall id | id in used :: id in Named(jobs) || Minted(used, id)
  }

  lemma {:induction false} UsedAreNamedOrMinted(jobs: seq<Job>)
    ensures NamedOrMinted(jobs, IdSet(FinalIds(jobs)))
    decreases |jobs|
  {
    if jobs == [] {
      assert IdSet([]) == {};
    } else {
      var last := |jobs| - 1;
      var ids := FinalIds(jobs[..last]);
      var (used, id) := (IdSet(ids), Choose(IdSet(ids), jobs[last]));
      UsedAreNamedOrMinted(jobs[..last]);
      IdSetGrows(ids, id);
      ChosenIsNamedOrMinted(used, jobs[last]);
      forall x | x in used && x !in Named(jobs[..last])
        ensures Minted(used + {id}, x)
      {
        MintedStays(used, used + {id}, x);
      }
    }
  }

  lemma ChosenIsNamedOrMinted(used: set<Text>, job: Job)
    ensures
      var id := Choose(used, job);
      && (Minted(used + {id}, id) || (!Nameless(job) && id == job.payload.id))
      && (Nameless(job) || job.payload.id in used + {id})
  {
    var n := FirstFree(used);
    assert TakenBelow(used + {Choose(used, job)}, n);
  }

  lemma MergedUpToHolds(m: nat, k: nat)
    requires 1 <= k <= m
    ensures Merged(k) in MergedUpTo(m)
    decreases m
  {
    if k < m {
      MergedUpToHolds(m - 1, k);
    }
  }

  lemma {:induction false} TakenThrough(used: set<Text>, m: nat)
    requires m >= 1 && TakenBelow(used, m) && Merged(m) in used
    ensures MergedUpTo(m) <= used
  {
    MergedUpToTaken(used, m - 1);
  }

  /** How many merged ids a run gives out. */
  function NewIds(jobs: seq<Job>): int { |jobs| - |Named(jobs)| }

  lemma NewIdsAreTheRest(jobs: seq<Job>)
    ensures |IdSet(FinalIds(jobs)) - Named(jobs)| == NewIds(jobs)
  {
    var used := IdSet(FinalIds(jobs));
    UsedIdsCountProfiles(jobs);
    UsedAreNamedOrMinted(jobs);
    assert used == (used - Named(jobs)) + Named(jobs);
  }

  /** The m-th merged id, if no profile comes with it, is among the first ones that are free and given out. */
  predicate AmongNewIds(jobs: seq<Job>, m: nat) { |MergedUpTo(m) - Named(jobs)| <= NewIds(jobs) }

  lemma GivenOutIsWithin(jobs: seq<Job>, m: nat)
    requires m >= 1 && Merged(m) in IdSet(FinalIds(jobs)) && Merged(m) !in Named(jobs)
    ensures AmongNewIds(jobs, m)
  {
    var used := IdSet(FinalIds(jobs));
    UsedAreNamedOrMinted(jobs);
    var n: nat :| n >= 1 && Merged(m) == Merged(n) && TakenBelow(used, n);
    MergedInjective(m, n);
    TakenThrough(used, m);
    NewIdsAreTheRest(jobs);
    SubsetSize(MergedUpTo(m) - Named(jobs), used - Named(jobs));
  }

  lemma WithinIsGivenOut(jobs: seq<Job>, m: nat)
    requires m >= 1 && Merged(m) !in IdSet(FinalIds(jobs))
    ensures !AmongNewIds(jobs, m)
  {
    var used := IdSet(FinalIds(jobs));
    UsedAreNamedOrMinted(jobs);
    NewIdsAreTheRest(jobs);
    var (free, given) := (MergedUpTo(m) - Named(jobs), used - Named(jobs));
    MergedUpToHolds(m, m);
    forall x | x in given
      ensures x in free && x != Merged(m)
    {
      var n: nat :| n >= 1 && x == Merged(n) && TakenBelow(used, n);
      assert n <= m;
      MergedUpToHolds(m, n);
    }
    SubsetSize(given + {Merged(m)}, free);
  }

  /** A profile comes with this id, or it is one of the merged ids that the run gives out. */
  ghost predicate Assigned(jobs: seq<Job>, id: Text) {
    id in Named(jobs) || exists m: nat :: m >= 1 && id == Merged(m) && AmongNewIds(jobs, m)
  }

  /** The ids that a run uses, told from its input alone. */
  lemma AssignedIff(jobs: seq<Job>, id: Text)
    ensures id in IdSet(FinalIds(jobs)) <==> Assigned(jobs, id)
  {
    var used := IdSet(FinalIds(jobs));
    UsedAreNamedOrMinted(jobs);
    if id in used && id !in Named(jobs) {
      var m: nat :| m >= 1 && id == Merged(m) && TakenBelow(used, m);
      GivenOutIsWithin(jobs, m);
    }
    if m: nat :| m >= 1 && id == Merged(m) && AmongNewIds(jobs, m) {
      if Merged(m) !in used {
        WithinIsGivenOut(jobs, m);
      }
    }
  }

  lemma {:induction false} FinalIdsPrefix(jobs: seq<Job>, k: nat)
    requires k <= |jobs|
    ensures FinalIds(jobs)[..k] == FinalIds(jobs[..k])
    decreases |jobs|
  {
    if k < |jobs| {
      var last := |jobs| - 1;
      FinalIdsPrefix(jobs[..last], k);
      assert jobs[..last][..k] == jobs[..k];
      assert FinalIds(jobs)[..k] == FinalIds(jobs[..last])[..k];
    } else {
      assert jobs[..k] == jobs;
    }
  }

  /** A profile keeps its id if and only if it has one, no earlier profile came with it, and it is not one of
      the merged ids given out before. */
  lemma KeptIff(jobs: seq<Job>, k: nat)
    requires k < |jobs|
    ensures Kept(jobs, k) <==> !Nameless(jobs[k]) && !Assigned(jobs[..k], jobs[k].payload.id)
  {
    RenamedToLeastFree(jobs, k);
    FinalIdsPrefix(jobs, k);
    AssignedIff(jobs[..k], jobs[k].payload.id);
  }

  /** The first profile that comes with an id keeps it unless it is a merged id given out before. */
  lemma FirstHolderKeepsIff(jobs: seq<Job>, k: nat)
    requires k < |jobs| && !Nameless(jobs[k]) && jobs[k].payload.id !in Named(jobs[..k])
    ensures Kept(jobs, k) <==>
      !exists m: nat :: m >= 1 && jobs[k].payload.id == Merged(m) && AmongNewIds(jobs[..k], m)
  {
    KeptIff(jobs, k);
  }

  /** A profile that does not keep its id gets the first merged id that is not assigned before it. */
  lemma RenamedTo(jobs: seq<Job>, k: nat) returns (n: nat)
    requires k < |jobs| && !Kept(jobs, k)
    ensures n >= 1 && FinalIds(jobs)[k] == Merged(n) && !Assigned(jobs[..k], Merged(n))
    ensures forall i | 1 <= i < n :: Assigned(jobs[..k], Merged(i))
  {
    RenamedToLeastFree(jobs, k);
    FinalIdsPrefix(jobs, k);
    n := FirstFree(IdSet(FinalIds(jobs[..k])));
    AssignedIff(jobs[..k], Merged(n));
    forall i | 1 <= i < n
      ensures Assigned(jobs[..k], Merged(i))
    {
      AssignedIff(jobs[..k], Merged(i));
    }
  }

  /** The run ends without an error exactly if the stored profiles and those of the archive all have an id. */
  lemma CompletesIff(existing: seq<Payload>, zipped: seq<Payload>, generated: seq<RawProfile>, now: Text)
    ensures
      var all := AllJobs(existing, zipped, generated, now);
      Completed(all) == |all| <==> forall p | p in existing + zipped :: p.id != []
  {
    var all := AllJobs(existing, zipped, generated, now);
    AllJobsFollow(existing, zipped, generated, now);
    var stored := existing + zipped;
    assert forall i | 0 <= i < |stored| :: all[i] == Job(stored[i], false);
    if Completed(all) == |all| {
      forall p | p in stored ensures p.id != [] {
        var i :| 0 <= i < |stored| && stored[i] == p;
        assert !Refused(all[i]);
      }
    } else {
      var i := Completed(all);
      assert Refused(all[i]);
      assert i < |stored|;
      assert stored[i] in stored;
    }
  }

  // ---- files

  /** The profile under its final id, saved now unless it says when. */
  predicate IsCopyOf(file: Payload, p: Payload, id: Text, now: Text) {
    && file.id == id && file.name == p.name && file.texts == p.texts && file.evaluation == p.evaluation
    && file.savedAt == if p.savedAt == [] then now else p.savedAt
  }

  ghost predicate InItsFile(files: Files, jobs: seq<Job>, k: nat, now: Text)
    requires k < |jobs|
  {
    var id := FinalIds(jobs)[k];
    && Sanitize(id) in files
    && IsCopyOf(files[Sanitize(id)], jobs[k].payload, id, now)
  }

  ghost predicate NothingLost(files: Files, jobs: seq<Job>, now: Text) {
    forall k | 0 <= k < |jobs| :: InItsFile(files, jobs, k, now)
  }

  predicate FilesApart(ids: seq<Text>) {
    forall i, j | 0 <= i < j < |ids| :: Sanitize(ids[i]) != Sanitize(ids[j])
  }

  lemma {:induction false} FilesApartKeepAll(files: Files, jobs: seq<Job>, now: Text)
    requires FilesApart(FinalIds(jobs))
    ensures NothingLost(Written(files, jobs, now), jobs, now)
    decreases |jobs|
  {
    if jobs != [] {
      var last := |jobs| - 1;
      var (init, ids) := (jobs[..last], FinalIds(jobs));
      assert forall i | 0 <= i < last :: FinalIds(init)[i] == ids[i];
      FilesApartKeepAll(files, init, now);
      forall k | 0 <= k < |jobs| ensures InItsFile(Written(files, jobs, now), jobs, k, now) {
        if k < last {
          assert InItsFile(Written(files, init, now), init, k, now);
          assert Sanitize(ids[k]) != Sanitize(ids[last]);
        }
      }
    }
  }

  /** A run touches no file but those of the ids it gives out. */
  lemma {:induction false} OtherFilesStay(files: Files, jobs: seq<Job>, now: Text, name: Text)
    requires forall k | 0 <= k < |jobs| :: Sanitize(FinalIds(jobs)[k]) != name
    ensures
      var after := Written(files, jobs, now);
      (name in after <==> name in files) && (name in files ==> after[name] == files[name])
    decreases |jobs|
  {
    if jobs != [] {
      var (init, ids) := (jobs[..|jobs| - 1], FinalIds(jobs));
      assert forall k | 0 <= k < |init| :: FinalIds(init)[k] == ids[k];
      OtherFilesStay(files, init, now, name);
    }
  }

  lemma SharedFileHoldsOne(files: Files, jobs: seq<Job>, now: Text, i: nat, j: nat)
    requires i < j < |jobs| && Sanitize(FinalIds(jobs)[i]) == Sanitize(FinalIds(jobs)[j])
    ensures !(InItsFile(files, jobs, i, now) && InItsFile(files, jobs, j, now))
  {
    FinalIdsAreDistinct(jobs);
  }

  predicate Alike(x: Text, y: Text) { x != y && Sanitize(x) == Sanitize(y) }

  predicate Given(jobs: seq<Job>, id: Text) {
    id != [] && exists k :: 0 <= k < |jobs| && jobs[k].payload.id == id
  }

  lemma MergedIsSafe(n: nat)
    ensures Safe(Merged(n))
  {
    ShowNatRoundTrip(n);
  }

  lemma UnsafeIsGiven(jobs: seq<Job>, k: nat)
    requires k < |jobs| && !Safe(FinalIds(jobs)[k])
    ensures Given(jobs, FinalIds(jobs)[k])
  {
    FinalIdAt(jobs, k);
    MergedIsSafe(FirstFree(IdSet(FinalIds(jobs)[..k])));
  }

  lemma GivenIsUsed(jobs: seq<Job>, k: nat)
    requires k < |jobs| && jobs[k].payload.id != []
    ensures jobs[k].payload.id in FinalIds(jobs)
  {
    FinalIdAt(jobs, k);
    var (ids, id) := (FinalIds(jobs), jobs[k].payload.id);
    if id in IdSet(ids[..k]) {
      var i :| 0 <= i < k && ids[..k][i] == id;
      assert ids[i] == id;
    }
  }

  /** An id with an unsafe character that a profile comes with turns into the file name of another
      assigned id. */
  ghost predicate Clash(jobs: seq<Job>, x: Text, y: Text) {
    Given(jobs, x) && !Safe(x) && Assigned(jobs, y) && Alike(x, y)
  }

  lemma AssignedIsFinal(jobs: seq<Job>, y: Text)
    ensures Assigned(jobs, y) <==> y in FinalIds(jobs)
  {
    AssignedIff(jobs, y);
  }

  lemma SharedFileIsClash(jobs: seq<Job>, i: nat, j: nat)
    requires i < j < |jobs| && Sanitize(FinalIds(jobs)[i]) == Sanitize(FinalIds(jobs)[j])
    ensures exists x, y :: Clash(jobs, x, y)
  {
    FinalIdsAreDistinct(jobs);
    var (x, y) := (FinalIds(jobs)[i], FinalIds(jobs)[j]);
    SanitizeFixesIff(x);
    SanitizeFixesIff(y);
    AssignedIsFinal(jobs, x);
    AssignedIsFinal(jobs, y);
    if !Safe(x) {
      UnsafeIsGiven(jobs, i);
      assert Clash(jobs, x, y);
    } else {
      UnsafeIsGiven(jobs, j);
      assert Clash(jobs, y, x);
    }
  }

  lemma ClashSharesFile(jobs: seq<Job>, x: Text, y: Text)
    requires Clash(jobs, x, y)
    ensures !FilesApart(FinalIds(jobs))
  {
    var ids := FinalIds(jobs);
    AssignedIsFinal(jobs, y);
    var k :| 0 <= k < |jobs| && jobs[k].payload.id == x;
    GivenIsUsed(jobs, k);
    var i :| 0 <= i < |ids| && ids[i] == x;
    var j :| 0 <= j < |ids| && ids[j] == y;
    assert if i < j then Sanitize(ids[i]) == Sanitize(ids[j]) else Sanitize(ids[j]) == Sanitize(ids[i]);
  }

  /** Every profile is in its file after the run, unless a given id with a character outside `a-zA-Z0-9_-`
      has the file name of another id. */
  lemma NothingLostIff(files: Files, jobs: seq<Job>, now: Text)
    ensures NothingLost(Written(files, jobs, now), jobs, now) <==> !exists x, y :: Clash(jobs, x, y)
  {
    var after := Written(files, jobs, now);
    if FilesApart(FinalIds(jobs)) {
      FilesApartKeepAll(files, jobs, now);
      forall x, y ensures !Clash(jobs, x, y) {
        if Clash(jobs, x, y) {
          ClashSharesFile(jobs, x, y);
        }
      }
    } else {
      var i, j :| 0 <= i < j < |jobs| && Sanitize(FinalIds(jobs)[i]) == Sanitize(FinalIds(jobs)[j]);
      SharedFileIsClash(jobs, i, j);
      SharedFileHoldsOne(after, jobs, now, i, j);
    }
  }

  lemma SafeIdsLoseNothing(files: Files, jobs: seq<Job>, now: Text)
    requires forall k | 0 <= k < |jobs| :: Safe(jobs[k].payload.id)
    ensures NothingLost(Written(files, jobs, now), jobs, now)
  {
    NothingLostIff(files, jobs, now);
  }

  // ---- the inputs of a run

  /** The regular expression `[a-zA-Z0-9_-]`. */
  predicate SafeChar(c: char) {
    'a' <= c <= 'z' || 'A' <= c <= 'Z' || '0' <= c <= '9' || c == '_' || c == '-'
  }

  /** The file of an id: letters, digits, `_` and `-` stay, anything else becomes `_`. */
  lemma SanitizeIs(id: Text, i: nat)
    requires i < |id|
    ensures |Sanitize(id)| == |id|
    ensures (exists c :: SafeChar(c) && c as int == id[i]) ==> Sanitize(id)[i] == id[i]
    ensures !(exists c :: SafeChar(c) && c as int == id[i]) ==> Sanitize(id)[i] == '_' as int
  {
    if SafeUnit(id[i]) {
      var c := id[i] as char;
      assert SafeChar(c) && c as int == id[i];
    }
  }

  lemma MergedIsNamed()
    ensures Merged(1) == Units("merged_1") && Merged(10) == Units("merged_10")
  {
    assert Digits(1) == [1] && Digits(10) == Digits(1) + [0] == [1, 0];
  }

  /** From `start`, the jobs are made from these profiles. */
  predicate Fills(all: seq<Job>, start: nat, rs: seq<RawProfile>, now: Text) {
    && start + |rs| <= |all|
    && forall k | start <= k < start + |rs| :: all[k].mint && IsMadeFrom(all[k].payload, rs[k - start], now)
  }

  /** A generated profile has a stub for an evaluation, empty texts where none are given, and a name in any case. */
  lemma MintsFill(all: seq<Job>, start: nat, rs: seq<RawProfile>, now: Text)
    requires Mints(all, start, rs, now)
    ensures Fills(all, start, rs, now)
  {
    forall k | start <= k < start + |rs|
      ensures all[k].mint && IsMadeFrom(all[k].payload, rs[k - start], now)
    {
      MadeFromRaw(rs[k - start], now);
    }
  }

  lemma MadeFromRaw(r: RawProfile, now: Text)
    ensures IsMadeFrom(FromRaw(r, now), r, now)
  {}

  predicate IsMadeFrom(p: Payload, r: RawProfile, now: Text) {
    && IsOrEmpty(p.id, r.id) && IsOrEmpty(p.texts.aboutMe, r.aboutMe)
    && IsOrEmpty(p.texts.aboutPartner, r.aboutPartner) && IsOrEmpty(p.texts.aboutRelationship, r.aboutRelationship)
    && (if r.name == [] then p.name == Units("Unknown") else p.name == r.name)
    && p.evaluation == Stub && p.savedAt == now
  }

  predicate IsOrEmpty(t: Text, given: Option<Text>) { t == match given case Some(u) => u case None => [] }

  // ---- two surprises

  function Sample(id: Text): Payload { Payload(id, [], Texts([], [], []), Stub, [0x30]) }

  /** `a b` and `a_b` are different ids with one file. */
  lemma OneFileForTwoIds(now: Text)
    ensures
      var jobs := [Job(Sample([0x61, 0x20, 0x62]), false), Job(Sample([0x61, 0x5f, 0x62]), false)];
      && FinalIds(jobs) == [[0x61, 0x20, 0x62], [0x61, 0x5f, 0x62]]
      && |Written(map[], jobs, now)| == 1
  {
    var (x, y) := ([0x61, 0x20, 0x62], [0x61, 0x5f, 0x62]);
    var (j0, j1) := (Job(Sample(x), false), Job(Sample(y), false));
    assert x[1] != y[1];
    assert [j0, j1][..1] == [j0] && [j0][..0] == [];
    OneId(x);
    assert FinalIds([j0]) == [x];
    assert Sanitize(x) == y == Sanitize(y);
    assert Written(map[], [j0], now).Keys == {y};
    assert Written(map[], [j0, j1], now).Keys == {y};
    assert |Written(map[], [j0, j1], now)| == |{y}|;
  }

  /** The first profile that comes with the id `merged_1` does not keep it if a clash before it was
      already given that id. */
  lemma FirstHolderRenamed()
    ensures
      var (a, m) := (Job(Sample([0x61]), false), Job(Sample(Merged(1)), false));
      FinalIds([a, a, m]) == [[0x61], Merged(1), Merged(2)]
  {
    var x: Text := [0x61];
    var (a, m) := (Job(Sample(x), false), Job(Sample(Merged(1)), false));
    assert [a, a, m][..2] == [a, a] && [a, a][..1] == [a] && [a][..0] == [];
    assert Merged(1)[0] == 0x6d && Merged(2)[0] == 0x6d;
    OneId(x);
    assert FinalIds([a]) == [x];
    LeastFreeIsUnique({x}, 1, FirstFree({x}));
    assert FinalIds([a, a]) == [x, Merged(1)];
    IdSetGrows([x], Merged(1));
    if Merged(2) == Merged(1) {
      MergedInjective(2, 1);
    }
    LeastFreeIsUnique({x, Merged(1)}, 2, FirstFree({x, Merged(1)}));
  }
}
