/** Cleanup of normal recordings: oldest first, until the total is at most half the limit. */
module Cleanup {
  import opened Totals
  import opened Options
  import opened Packets
  import Sorting

  datatype Status = InProgress | Completed | Stopped | Partial | Failed | Truncated | OtherStatus

  /** What readRecovery finds in a recording's directory. */
  datatype Desired = NoRecoveryFile | DesiredRunning | DesiredStopped | Unreadable

  /** Where a recording is kept: a date directory, and in it one named after the session. */
  datatype Directory = Directory(date: Name, name: Name)

  /** A recording as a scan finds it. `directory` is where it is kept, `sessionID` is the ID
      its metadata carries; `key` is its finish, creation or modification time, whichever is known. */
  datatype Recording = Recording(
    directory: Directory, sessionID: Name, size: nat, key: Time, hasMetadata: bool, status: Status,
    desired: Desired, hasSymlink: bool)

  datatype Outcome = Outcome(sizeBefore: nat, sizeAfter: nat, deletedSize: nat, deleted: seq<Recording>, failures: seq<Recording>)

  predicate Terminal(status: Status) {
    status.Completed? || status.Stopped? || status.Partial? || status.Failed? || status.Truncated?
  }

  /** inspectSessionDirectory's verdict; activity is looked up by directory name. */
  predicate Deletable(r: Recording, active: set<Name>) {
    && r.hasMetadata && Terminal(r.status) && r.directory.name !in active
    && !r.desired.DesiredRunning? && !r.desired.Unreadable? && !r.hasSymlink
  }

  /** validateDeletionCandidate's verdict; activity is looked up by session ID. */
  predicate Validated(r: Recording, active: set<Name>) {
    r.sessionID !in active && !r.desired.DesiredRunning? && !r.desired.Unreadable?
  }

  /** What may be deleted, field by field: a finished recording with metadata, of a session neither
      active nor to be resumed, without symbolic links; a real run also looks at the metadata's ID. */
  ghost predicate MayGo(r: Recording, active: set<Name>, dryRun: bool) {
    && r.hasMetadata && r.status != InProgress && r.status != OtherStatus && !r.hasSymlink
    && (r.desired == NoRecoveryFile || r.desired == DesiredStopped)
    && r.directory.name !in active && (dryRun || r.sessionID !in active)
  }

  lemma EligibleIff(r: Recording, active: set<Name>, dryRun: bool)
    ensures Eligible(r, active, dryRun) <==> MayGo(r, active, dryRun)
    ensures Deletable(r, active) <==> MayGo(r, active, true)
    ensures Validated(r, active) <==> r.sessionID !in active && (r.desired == NoRecoveryFile || r.desired == DesiredStopped)
  {
  }

  // ---------- Oldest first ----------

  predicate Older(a: Recording, b: Recording) {
    a.key < b.key || (a.key == b.key && a.sessionID < b.sessionID)
  }

  /** The scan, oldest recording first. */
  function Sort(s: seq<Recording>): seq<Recording> {
    Sorting.Sort(s, Older)
  }

  lemma SortSorts(s: seq<Recording>)
    ensures multiset(Sort(s)) == multiset(s) && forall r :: r in Sort(s) <==> r in s
    ensures OldestFirst(Sort(s))
  {
    assert Sorting.WeakOrder(Older);
    Sorting.SortSorts(s, Older);
    forall i, j | 0 <= i < j < |Sort(s)| ensures NotAfter(Sort(s)[i], Sort(s)[j]) {
      assert !Older(Sort(s)[j], Sort(s)[i]);
    }
  }

  ghost predicate OldestFirst(s: seq<Recording>) {
    forall i, j :: 0 <= i < j < |s| ==> NotAfter(s[i], s[j])
  }

  /** a is the older of the two, or of the same time and not behind by session ID. */
  ghost predicate NotAfter(a: Recording, b: Recording) {
    a.key < b.key || (a.key == b.key && a.sessionID <= b.sessionID)
  }

  // ---------- The plan ----------

  function SizeOf(r: Recording): nat {
    r.size
  }

  /** May this run delete the recording? A dry run does not re-validate. */
  predicate Eligible(r: Recording, active: set<Name>, dryRun: bool) {
    Deletable(r, active) && (dryRun || Validated(r, active))
  }

  function Candidates(s: seq<Recording>, active: set<Name>, dryRun: bool): seq<Recording> {
    if s == [] then []
    else if Eligible(s[|s| - 1], active, dryRun) then Candidates(s[..|s| - 1], active, dryRun) + [s[|s| - 1]]
    else Candidates(s[..|s| - 1], active, dryRun)
  }

  /** The shortest run of candidates, oldest first, whose deletion reaches the target, or all of them
      if it cannot be reached. */
  ghost predicate ShortestPlan(plan: seq<Recording>, candidates: seq<Recording>, total: nat, target: nat) {
    && plan <= candidates
    && (total - Total(plan, SizeOf) <= target || plan == candidates)
    && NoneSpare(plan, total, target)
  }

  /** Every recording of the plan was needed when its turn came. */
  ghost predicate NoneSpare(plan: seq<Recording>, total: nat, target: nat) {
    forall k :: 0 <= k < |plan| ==> total - Total(plan[..k], SizeOf) > target
  }

  lemma PlanIsUnique(p: seq<Recording>, q: seq<Recording>, candidates: seq<Recording>, total: nat, target: nat)
    requires ShortestPlan(p, candidates, total, target) && ShortestPlan(q, candidates, total, target)
    ensures p == q
  {
    forall k | 0 <= k < |p| ensures total - Total(candidates[..k], SizeOf) > target {
      assert p[..k] == candidates[..k];
    }
    forall k | 0 <= k < |q| ensures total - Total(candidates[..k], SizeOf) > target {
      assert q[..k] == candidates[..k];
    }
    assert p == candidates[..|p|] && q == candidates[..|q|];
  }

  lemma {:induction false} CandidatesEligible(s: seq<Recording>, active: set<Name>, dryRun: bool)
    ensures forall k :: 0 <= k < |Candidates(s, active, dryRun)| ==> Eligible(Candidates(s, active, dryRun)[k], active, dryRun)
    decreases |s|
  {
    if s != [] {
      CandidatesEligible(s[..|s| - 1], active, dryRun);
    }
  }

  /** A real run's candidates are the dry run's that validate. */
  function Validating(s: seq<Recording>, active: set<Name>): seq<Recording> {
    if s == [] then []
    else if Validated(s[|s| - 1], active) then Validating(s[..|s| - 1], active) + [s[|s| - 1]]
    else Validating(s[..|s| - 1], active)
  }

  lemma {:induction false} RealCandidates(s: seq<Recording>, active: set<Name>)
    ensures Candidates(s, active, false) == Validating(Candidates(s, active, true), active)
    decreases |s|
  {
    if s != [] {
      var front, last := s[..|s| - 1], s[|s| - 1];
      RealCandidates(front, active);
      var c := Candidates(front, active, true);
      if Deletable(last, active) {
        assert Candidates(s, active, true) == c + [last] && (c + [last])[..|c|] == c;
      } else {
        assert Candidates(s, active, true) == c;
        assert Candidates(s, active, false) == Candidates(front, active, false);
      }
    }
  }

  lemma {:induction false} ValidatingKeepsPrefix(s: seq<Recording>, k: nat, active: set<Name>)
    requires k <= |s| && forall i :: 0 <= i < k ==> Validated(s[i], active)
    ensures s[..k] <= Validating(s, active) && (k == |s| ==> Validating(s, active) == s)
    decreases |s|
  {
    if k < |s| {
      ValidatingKeepsPrefix(s[..|s| - 1], k, active);
      assert s[..|s| - 1][..k] == s[..k];
    } else if s != [] {
      ValidatingKeepsPrefix(s[..k - 1], k - 1, active);
      assert s == s[..k - 1] + [s[k - 1]];
    }
  }

  /** A real run on an unchanged store deletes exactly what the dry run listed, if and only if every
      recording on that list passes validation. */
  lemma RealIsDryIff(scanned: seq<Recording>, active: set<Name>, dry: seq<Recording>, real': seq<Recording>, total: nat, target: nat)
    requires ShortestPlan(dry, Candidates(scanned, active, true), total, target)
    requires ShortestPlan(real', Candidates(scanned, active, false), total, target)
    ensures real' == dry <==> forall i :: 0 <= i < |dry| ==> Validated(dry[i], active)
  {
    var c, rc := Candidates(scanned, active, true), Candidates(scanned, active, false);
    RealCandidates(scanned, active);
    CandidatesEligible(scanned, active, false);
    if real' == dry {
      forall i | 0 <= i < |dry| ensures Validated(dry[i], active) {
        assert rc[i] == dry[i];
      }
    }
    if forall i :: 0 <= i < |dry| ==> Validated(dry[i], active) {
      assert forall i :: 0 <= i < |dry| ==> c[i] == dry[i];
      ValidatingKeepsPrefix(c, |dry|, active);
      assert c[..|dry|] == dry;
      PlanIsUnique(dry, real', rc, total, target);
    }
  }

  /** In a store whose directories are named after their sessions, as the manager names them, every
      listed recording validates, so the two runs always agree. */
  lemma NamedStoresAgree(scanned: seq<Recording>, active: set<Name>, dry: seq<Recording>, real': seq<Recording>, total: nat, target: nat)
    requires forall r :: r in scanned ==> r.sessionID == r.directory.name
    requires ShortestPlan(dry, Candidates(scanned, active, true), total, target)
    requires ShortestPlan(real', Candidates(scanned, active, false), total, target)
    ensures real' == dry
  {
    RealIsDryIff(scanned, active, dry, real', total, target);
    CandidatesEligible(scanned, active, true);
    forall i | 0 <= i < |dry| ensures Validated(dry[i], active) {
      var c := Candidates(scanned, active, true);
      assert dry[i] == c[i];
      CandidatesFromScan(scanned, active, true, i);
    }
  }

  /** The two runs do differ where a directory carries the ID of a session that is active elsewhere. */
  lemma MisnamedStoreDiffers(r: Recording, total: nat)
    requires r.directory.name != r.sessionID && Deletable(r, {r.sessionID}) && total > 0
    ensures ShortestPlan([r], Candidates([r], {r.sessionID}, true), total, 0)
    ensures ShortestPlan([], Candidates([r], {r.sessionID}, false), total, 0)
    ensures Candidates([r], {r.sessionID}, true) == [r] && Candidates([r], {r.sessionID}, false) == []
  {
    assert [r][..0] == [];
  }

  lemma {:induction false} CandidatesFromScan(s: seq<Recording>, active: set<Name>, dryRun: bool, k: nat)
    requires k < |Candidates(s, active, dryRun)|
    ensures Candidates(s, active, dryRun)[k] in s
    decreases |s|
  {
    var n := |s| - 1;
    if k < |Candidates(s[..n], active, dryRun)| {
      CandidatesFromScan(s[..n], active, dryRun, k);
    }
  }

  // ---------- Removal ----------

  function Without(s: seq<Recording>, directory: Directory): seq<Recording> {
    if s == [] then []
    else if s[|s| - 1].directory == directory then Without(s[..|s| - 1], directory)
    else Without(s[..|s| - 1], directory) + [s[|s| - 1]]
  }

  ghost predicate Distinct(s: seq<Recording>) {
    forall i, j :: 0 <= i < j < |s| ==> s[i].directory != s[j].directory
  }

  lemma {:induction false} WithoutAbsent(s: seq<Recording>, directory: Directory)
    requires forall r :: r in s ==> r.directory != directory
    ensures Without(s, directory) == s
    decreases |s|
  {
    if s != [] {
      var front, last := s[..|s| - 1], s[|s| - 1];
      assert s == front + [last] && last in s;
      WithoutAbsent(front, directory);
    }
  }

  lemma {:induction false} WithoutHolds(s: seq<Recording>, directory: Directory)
    ensures forall r :: r in Without(s, directory) <==> r in s && r.directory != directory
    decreases |s|
  {
    if s != [] {
      WithoutHolds(s[..|s| - 1], directory);
      assert s == s[..|s| - 1] + [s[|s| - 1]];
    }
  }

  lemma {:induction false} WithoutOne(s: seq<Recording>, r: Recording)
    requires Distinct(s) && r in s
    ensures Total(Without(s, r.directory), SizeOf) == Total(s, SizeOf) - r.size && Distinct(Without(s, r.directory))
    decreases |s|
  {
    var n := |s| - 1;
    var front := s[..n];
    if s[n].directory == r.directory {
      assert s[n] == r;
      WithoutAbsent(front, r.directory);
      assert Without(s, r.directory) == front;
    } else {
      assert r in front;
      WithoutOne(front, r);
      var rest := Without(front, r.directory);
      WithoutHolds(front, r.directory);
      TotalPush(rest, s[n], SizeOf);
      forall i | 0 <= i < |rest| ensures rest[i].directory != s[n].directory {
        assert rest[i] in rest;
        assert rest[i] in front;
      }
    }
  }

  lemma CandidatesPush(s: seq<Recording>, i: nat, active: set<Name>, dryRun: bool)
    requires i < |s|
    ensures Candidates(s[..i + 1], active, dryRun) ==
            if Eligible(s[i], active, dryRun) then Candidates(s[..i], active, dryRun) + [s[i]]
            else Candidates(s[..i], active, dryRun)
  {
    assert s[..i + 1][..i] == s[..i];
  }

  lemma {:induction false} CandidatesWithin(s: seq<Recording>, k: nat, active: set<Name>, dryRun: bool)
    requires k <= |s|
    ensures Total(Candidates(s[..k], active, dryRun), SizeOf) <= Total(s, SizeOf)
    decreases |s|
  {
    if k < |s| {
      CandidatesWithin(s[..|s| - 1], k, active, dryRun);
      assert s[..|s| - 1][..k] == s[..k];
    } else if s != [] {
      var front, last := s[..k - 1], s[k - 1];
      assert s[..k] == s && front[..k - 1] == front;
      CandidatesWithin(front, k - 1, active, dryRun);
      TotalPush(Candidates(front, active, dryRun), last, SizeOf);
    }
  }

  /** Distinctness does not depend on the order. */
  lemma DistinctPush(s: seq<Recording>, x: Recording)
    requires Distinct(s) && forall r :: r in s ==> r.directory != x.directory
    ensures Distinct(s + [x])
  {
  }

  lemma {:induction false} InsertDistinct(x: Recording, s: seq<Recording>)
    requires Distinct(s) && forall r :: r in s ==> r.directory != x.directory
    ensures Distinct(Sorting.Insert(x, s, Older))
    decreases |s|
  {
    if s == [] || !Older(x, s[|s| - 1]) {
      DistinctPush(s, x);
    } else {
      var n := |s| - 1;
      InsertDistinct(x, s[..n]);
      Sorting.InsertHolds(x, s[..n], Older);
      LastApart(s);
      hide Distinct;
      DistinctPush(Sorting.Insert(x, s[..n], Older), s[n]);
    }
  }

  lemma LastApart(s: seq<Recording>)
    requires Distinct(s) && s != []
    ensures forall r :: r in s[..|s| - 1] ==> r.directory != s[|s| - 1].directory
  {
  }

  lemma {:induction false} SortTotal(s: seq<Recording>)
    requires Distinct(s)
    ensures Total(Sort(s), SizeOf) == Total(s, SizeOf) && Distinct(Sort(s)) && forall r :: r in Sort(s) <==> r in s
    decreases |s|
  {
    SortSorts(s);
    TotalSort(s, Older, SizeOf);
    if s != [] {
      var front, last := s[..|s| - 1], s[|s| - 1];
      SortTotal(front);
      LastApart(s);
      InsertDistinct(last, Sort(front));
    }
  }

  /** The report after i recordings of the sorted scan. */
  ghost predicate Reported(total: nat, target: nat, sorted: seq<Recording>, i: nat, active: set<Name>, dryRun: bool, result: Outcome)
    requires i <= |sorted|
  {
    && result.sizeBefore == total == result.sizeAfter + result.deletedSize && result.deletedSize == Total(result.deleted, SizeOf)
    && result.deleted == Candidates(sorted[..i], active, dryRun)
    && result.failures == Failing(sorted[..i], active, dryRun)
    && NoneSpare(result.deleted, total, target)
  }

  /** The recordings a real run finds deletable but may not delete. */
  function Failing(s: seq<Recording>, active: set<Name>, dryRun: bool): seq<Recording> {
    if s == [] then []
    else if Deletable(s[|s| - 1], active) && !Eligible(s[|s| - 1], active, dryRun)
    then Failing(s[..|s| - 1], active, dryRun) + [s[|s| - 1]]
    else Failing(s[..|s| - 1], active, dryRun)
  }

  lemma FailingPush(s: seq<Recording>, i: nat, active: set<Name>, dryRun: bool)
    requires i < |s|
    ensures Failing(s[..i + 1], active, dryRun) ==
            if Deletable(s[i], active) && !Eligible(s[i], active, dryRun) then Failing(s[..i], active, dryRun) + [s[i]]
            else Failing(s[..i], active, dryRun)
  {
    assert s[..i + 1][..i] == s[..i];
  }

  lemma {:induction false} FailingHolds(s: seq<Recording>, active: set<Name>, dryRun: bool)
    ensures forall r :: r in Failing(s, active, dryRun) <==> r in s && Deletable(r, active) && !Eligible(r, active, dryRun)
    decreases |s|
  {
    if s != [] {
      FailingHolds(s[..|s| - 1], active, dryRun);
      assert s == s[..|s| - 1] + [s[|s| - 1]];
    }
  }

  lemma {:induction false} CandidatesHold(s: seq<Recording>, active: set<Name>, dryRun: bool)
    ensures forall r :: r in Candidates(s, active, dryRun) <==> r in s && Eligible(r, active, dryRun)
    decreases |s|
  {
    if s != [] {
      CandidatesHold(s[..|s| - 1], active, dryRun);
      assert s == s[..|s| - 1] + [s[|s| - 1]];
    }
  }

  function Reporting(result: Outcome, item: Recording): Outcome {
    result.(deleted := result.deleted + [item], deletedSize := result.deletedSize + item.size,
            sizeAfter := if result.sizeAfter > item.size then result.sizeAfter - item.size else 0)
  }

  lemma ReportStep(total: nat, target: nat, sorted: seq<Recording>, i: nat, active: set<Name>, dryRun: bool, result: Outcome)
    requires i < |sorted| && Total(sorted, SizeOf) == total && Reported(total, target, sorted, i, active, dryRun, result)
    requires result.sizeAfter > target
    ensures Reported(total, target, sorted, i + 1, active, dryRun, Looked(result, sorted[i], active, dryRun))
    ensures Eligible(sorted[i], active, dryRun) ==>
              Reporting(result, sorted[i]).sizeAfter == result.sizeAfter - sorted[i].size
  {
    hide Eligible, Deletable, Candidates, Failing, Total, NoneSpare;
    CandidatesPush(sorted, i, active, dryRun);
    CandidatesWithin(sorted, i + 1, active, dryRun);
    FailingPush(sorted, i, active, dryRun);
    if Eligible(sorted[i], active, dryRun) {
      ReportTaken(total, target, sorted, i, active, dryRun, result);
    }
  }

  /** The report after one more recording was looked at. */
  function Looked(result: Outcome, item: Recording, active: set<Name>, dryRun: bool): Outcome {
    if Eligible(item, active, dryRun) then Reporting(result, item)
    else if Deletable(item, active) then result.(failures := result.failures + [item])
    else result
  }

  lemma ReportTaken(total: nat, target: nat, sorted: seq<Recording>, i: nat, active: set<Name>, dryRun: bool, result: Outcome)
    requires i < |sorted| && Reported(total, target, sorted, i, active, dryRun, result) && result.sizeAfter > target
    requires Candidates(sorted[..i + 1], active, dryRun) == result.deleted + [sorted[i]]
    requires Total(result.deleted + [sorted[i]], SizeOf) <= total
    requires Failing(sorted[..i + 1], active, dryRun) == result.failures
    ensures Reported(total, target, sorted, i + 1, active, dryRun, Reporting(result, sorted[i]))
    ensures Reporting(result, sorted[i]).sizeAfter == result.sizeAfter - sorted[i].size
  {
    hide Candidates, Failing, Total, NoneSpare;
    TotalPush(result.deleted, sorted[i], SizeOf);
    PlanPush(result.deleted, sorted[i], total, target);
  }

  lemma PlanPush(plan: seq<Recording>, item: Recording, total: nat, target: nat)
    requires total - Total(plan, SizeOf) > target && NoneSpare(plan, total, target)
    ensures NoneSpare(plan + [item], total, target)
  {
    var more := plan + [item];
    forall k | 0 <= k < |more| ensures total - Total(more[..k], SizeOf) > target {
      if k < |plan| {
        assert more[..k] == plan[..k];
      } else {
        assert more[..k] == plan;
      }
    }
  }

  // ---------- The operation ----------

  class Store {
    const limit: nat
    var recordings: seq<Recording>
    var active: set<Name>

    constructor (limit: nat, recordings: seq<Recording>, active: set<Name>)
      requires Distinct(recordings)
      ensures this.limit == limit && this.recordings == recordings && this.active == active
    {
      this.limit, this.recordings, this.active := limit, recordings, active;
    }

    method Remove(r: Recording)
      requires Distinct(recordings) && r in recordings
      modifies this`recordings
      ensures Distinct(recordings) && Total(recordings, SizeOf) == Total(old(recordings), SizeOf) - r.size
      ensures forall x :: x in recordings <==> x in old(recordings) && x.directory != r.directory
    {
      WithoutOne(recordings, r);
      WithoutHolds(recordings, r.directory);
      recordings := Without(recordings, r.directory);
    }

    /** What is left in the store after i recordings of the sorted scan. */
    ghost predicate Remaining(before: seq<Recording>, sorted: seq<Recording>, i: nat, dryRun: bool, result: Outcome)
      reads this
    {
      && Distinct(recordings) && (forall k :: i <= k < |sorted| ==> sorted[k] in recordings)
      && if dryRun then recordings == before
         else Total(recordings, SizeOf) == result.sizeAfter && forall r :: r in recordings <==> r in before && r !in result.deleted
    }

    /** Deletes one eligible recording. */
    method Delete(ghost before: seq<Recording>, ghost sorted: seq<Recording>, ghost i: nat, item: Recording, result: Outcome)
      requires i < |sorted| && item == sorted[i] && Distinct(sorted) && Distinct(before) && item in before
      requires Remaining(before, sorted, i, false, result) && Reporting(result, item).sizeAfter == result.sizeAfter - item.size
      modifies this`recordings
      ensures Remaining(before, sorted, i + 1, false, Reporting(result, item))
    {
      hide Distinct, Total;
      assert forall k :: i < k < |sorted| ==> sorted[k].directory != item.directory by {
        Apart(sorted, i);
      }
      SameDirectory(before, item);
      Remove(item);
    }

    /** CleanSessionRecordings; a limit of zero disables it. */
    method CleanSessionRecordings(dryRun: bool) returns (result: Option<Outcome>)
      requires Distinct(recordings)
      modifies this`recordings
      ensures Distinct(recordings)
      ensures result.None? <==> limit == 0
      ensures result.None? ==> recordings == old(recordings)
      ensures result.Some? ==>
                && ShortestPlan(result.value.deleted, Candidates(Sort(old(recordings)), active, dryRun), Total(old(recordings), SizeOf), limit / 2)
                && Justified(result.value, limit / 2, old(recordings), active, dryRun)
                && result.value.sizeBefore == Total(old(recordings), SizeOf) == result.value.sizeAfter + result.value.deletedSize
                && (if dryRun then recordings == old(recordings)
                    else result.value.sizeAfter == Total(recordings, SizeOf)
                         && forall r :: r in recordings <==> r in old(recordings) && r !in result.value.deleted)
    {
      hide Sort, Total, Distinct, Deletable, Justified;
      if limit == 0 {
        return None;
      }
      var outcome := Clean(dryRun);
      return Some(outcome);
    }

    /** The cleanup itself, on a store nobody else changes. */
    method Clean(dryRun: bool) returns (result: Outcome)
      requires limit > 0 && Distinct(recordings)
      modifies this`recordings
      ensures Distinct(recordings)
      ensures ShortestPlan(result.deleted, Candidates(Sort(old(recordings)), active, dryRun), Total(old(recordings), SizeOf), limit / 2)
      ensures result.sizeBefore == Total(old(recordings), SizeOf) == result.sizeAfter + result.deletedSize
      ensures result.deletedSize == Total(result.deleted, SizeOf)
      ensures Justified(result, limit / 2, old(recordings), active, dryRun)
      ensures if dryRun then recordings == old(recordings)
              else result.sizeAfter == Total(recordings, SizeOf)
                   && forall r :: r in recordings <==> r in old(recordings) && r !in result.deleted
    {
      hide Sort, Total, Distinct, OldestFirst, Justified, ShortestPlan, Remaining, Candidates, Failing, Reporting;
      SortTotal(recordings);
      SortSorts(recordings);
      var sorted := Sort(recordings);
      var i;
      i, result := Sweep(sorted, dryRun);
      WhatWent(result, result.sizeBefore, limit / 2, sorted, i, active, dryRun);
      SameRecordings(result, limit / 2, sorted, old(recordings), active, dryRun);
      RemainingDone(old(recordings), sorted, i, dryRun, result);
      if !dryRun {
        result := result.(sizeAfter := Total(recordings, SizeOf));
      }
    }

    /** The loop over the sorted scan. */
    method Sweep(sorted: seq<Recording>, dryRun: bool) returns (i: nat, result: Outcome)
      requires Distinct(recordings) && Distinct(sorted) && Total(sorted, SizeOf) == Total(recordings, SizeOf)
      requires forall r :: r in sorted <==> r in recordings
      modifies this`recordings
      ensures i <= |sorted| && Remaining(old(recordings), sorted, i, dryRun, result)
      ensures ShortestPlan(result.deleted, Candidates(sorted, active, dryRun), Total(old(recordings), SizeOf), limit / 2)
      ensures result.sizeBefore == Total(old(recordings), SizeOf) == result.sizeAfter + result.deletedSize
      ensures result.deletedSize == Total(result.deleted, SizeOf) && result.failures == Failing(sorted[..i], active, dryRun)
      ensures result.sizeAfter > limit / 2 ==>
                result.deleted == Candidates(sorted, active, dryRun) && result.failures == Failing(sorted, active, dryRun)
    {
      var total, target := Total(recordings, SizeOf), limit / 2;
      i, result := 0, Outcome(total, total, 0, [], []);
      ReportStart(total, target, sorted, active, dryRun);
      hide Reported, Total, Distinct;
      assert forall k :: 0 <= k < |sorted| ==> sorted[k] in recordings;
      assert Remaining(recordings, sorted, 0, dryRun, result);
      hide Remaining, ShortestPlan, Candidates, Failing;
      while i < |sorted| && result.sizeAfter > target
        invariant 0 <= i <= |sorted|
        invariant Reported(total, target, sorted, i, active, dryRun, result)
        invariant Remaining(old(recordings), sorted, i, dryRun, result)
        decreases |sorted| - i
      {
        i, result := CleanOne(old(recordings), sorted, i, dryRun, result);
      }
      ReportDone(total, target, sorted, i, active, dryRun, result);
    }

    lemma RemainingDone(before: seq<Recording>, sorted: seq<Recording>, i: nat, dryRun: bool, result: Outcome)
      requires Remaining(before, sorted, i, dryRun, result)
      ensures Distinct(recordings)
      ensures if dryRun then recordings == before
              else result.sizeAfter == Total(recordings, SizeOf) && forall r :: r in recordings <==> r in before && r !in result.deleted
    {
    }

    /** One turn of the loop over the scan. */
    method CleanOne(ghost before: seq<Recording>, sorted: seq<Recording>, i: nat, dryRun: bool, result: Outcome)
      returns (i': nat, next: Outcome)
      requires i < |sorted| && Distinct(sorted) && Distinct(before) && Total(sorted, SizeOf) == Total(before, SizeOf)
      requires (forall r :: r in sorted ==> r in before) && result.sizeAfter > limit / 2
      requires Reported(Total(before, SizeOf), limit / 2, sorted, i, active, dryRun, result)
      requires Remaining(before, sorted, i, dryRun, result)
      modifies this`recordings
      ensures i' == i + 1 && Reported(Total(before, SizeOf), limit / 2, sorted, i', active, dryRun, next)
      ensures Remaining(before, sorted, i', dryRun, next)
    {
      hide Distinct, Total, Candidates, Reported, Deletable, Validated;
      i' := i + 1;
      var item := sorted[i];
      ReportStep(Total(before, SizeOf), limit / 2, sorted, i, active, dryRun, result);
      if Deletable(item, active) && (dryRun || Validated(item, active)) {
        if !dryRun {
          Delete(before, sorted, i, item, result);
        }
        next := Reporting(result, item);
      } else if Deletable(item, active) {
        next := result.(failures := result.failures + [item]);
      } else {
        next := result;
      }
    }
  }

  lemma ReportStart(total: nat, target: nat, sorted: seq<Recording>, active: set<Name>, dryRun: bool)
    ensures Reported(total, target, sorted, 0, active, dryRun, Outcome(total, total, 0, [], []))
  {
    assert sorted[..0] == [];
  }

  lemma ReportDone(total: nat, target: nat, sorted: seq<Recording>, i: nat, active: set<Name>, dryRun: bool, result: Outcome)
    requires i <= |sorted| && Reported(total, target, sorted, i, active, dryRun, result)
    requires i == |sorted| || result.sizeAfter <= target
    ensures ShortestPlan(result.deleted, Candidates(sorted, active, dryRun), total, target)
    ensures result.sizeBefore == total == result.sizeAfter + result.deletedSize && result.deletedSize == Total(result.deleted, SizeOf)
    ensures result.failures == Failing(sorted[..i], active, dryRun)
    ensures result.sizeAfter > target ==>
              result.deleted == Candidates(sorted, active, dryRun) && result.failures == Failing(sorted, active, dryRun)
  {
    CandidatesPrefix(sorted, i, active, dryRun);
    if i == |sorted| {
      assert sorted[..i] == sorted;
    }
  }

  /** The result in terms of the recordings themselves: what went was allowed to go, and no younger than
      what could have gone instead; if the target was missed, all that could go went. */
  ghost predicate Justified(result: Outcome, target: nat, recordings: seq<Recording>, active: set<Name>, dryRun: bool) {
    && (forall d :: d in result.deleted ==> d in recordings && MayGo(d, active, dryRun))
    && (forall d, r :: d in result.deleted && r in recordings && r !in result.deleted && MayGo(r, active, dryRun) ==> NotAfter(d, r))
    && (forall r :: r in result.failures ==> r in recordings && MayGo(r, active, true) && !MayGo(r, active, dryRun))
    && (result.sizeAfter > target ==>
          forall r :: r in recordings ==>
            && (MayGo(r, active, dryRun) ==> r in result.deleted)
            && (MayGo(r, active, true) && !MayGo(r, active, dryRun) ==> r in result.failures))
  }

  lemma {:induction false} CandidatesInOrder(s: seq<Recording>, active: set<Name>, dryRun: bool)
    requires OldestFirst(s)
    ensures OldestFirst(Candidates(s, active, dryRun))
    decreases |s|
  {
    if s != [] {
      var front, last := s[..|s| - 1], s[|s| - 1];
      CandidatesInOrder(front, active, dryRun);
      CandidatesHold(front, active, dryRun);
      var c := Candidates(front, active, dryRun);
      forall i | 0 <= i < |c| ensures NotAfter(c[i], last) {
        assert c[i] in c;
        var k :| 0 <= k < |front| && front[k] == c[i];
        assert s[k] == c[i];
      }
    }
  }

  lemma WhatWent(result: Outcome, total: nat, target: nat, sorted: seq<Recording>, i: nat, active: set<Name>, dryRun: bool)
    requires i <= |sorted| && OldestFirst(sorted)
    requires ShortestPlan(result.deleted, Candidates(sorted, active, dryRun), total, target)
    requires result.failures == Failing(sorted[..i], active, dryRun)
    requires result.sizeAfter > target ==>
               result.deleted == Candidates(sorted, active, dryRun) && result.failures == Failing(sorted, active, dryRun)
    ensures Justified(result, target, sorted, active, dryRun)
  {
    CandidatesHold(sorted, active, dryRun);
    FailingHolds(sorted, active, dryRun);
    FailingHolds(sorted[..i], active, dryRun);
    PlanIsOldest(result.deleted, sorted, active, dryRun);
    forall r ensures (Eligible(r, active, dryRun) <==> MayGo(r, active, dryRun)) && (Deletable(r, active) <==> MayGo(r, active, true)) {
      EligibleIff(r, active, dryRun);
    }
    assert forall r :: r in sorted[..i] ==> r in sorted;
    hide Eligible, Deletable, MayGo, NotAfter, Candidates, Failing, OldestFirst, ShortestPlan;
  }

  /** Whatever a plan leaves out of the candidates is no older than what is in it. */
  lemma PlanIsOldest(plan: seq<Recording>, sorted: seq<Recording>, active: set<Name>, dryRun: bool)
    requires plan <= Candidates(sorted, active, dryRun) && OldestFirst(sorted)
    ensures forall d :: d in plan ==> d in Candidates(sorted, active, dryRun)
    ensures forall d, r :: d in plan && r in Candidates(sorted, active, dryRun) && r !in plan ==> NotAfter(d, r)
  {
    var c, n := Candidates(sorted, active, dryRun), |plan|;
    CandidatesInOrder(sorted, active, dryRun);
    hide Candidates, NotAfter;
    assert c == plan + c[n..];
    forall d, r | d in plan && r in c && r !in plan ensures NotAfter(d, r) {
      var p :| 0 <= p < n && plan[p] == d;
      var q :| 0 <= q < |c[n..]| && c[n..][q] == r;
      assert c[p] == d && c[n + q] == r;
    }
  }

  lemma SameRecordings(result: Outcome, target: nat, a: seq<Recording>, b: seq<Recording>, active: set<Name>, dryRun: bool)
    requires Justified(result, target, a, active, dryRun) && forall r :: r in a <==> r in b
    ensures Justified(result, target, b, active, dryRun)
  {
    hide MayGo, NotAfter;
  }

  lemma {:induction false} CandidatesPrefix(s: seq<Recording>, k: nat, active: set<Name>, dryRun: bool)
    requires k <= |s|
    ensures Candidates(s[..k], active, dryRun) <= Candidates(s, active, dryRun)
    decreases |s|
  {
    if k < |s| {
      CandidatesPrefix(s[..|s| - 1], k, active, dryRun);
      assert s[..|s| - 1][..k] == s[..k];
    } else {
      assert s[..k] == s;
    }
  }

  lemma Apart(s: seq<Recording>, i: nat)
    requires Distinct(s) && i < |s|
    ensures forall k :: i < k < |s| ==> s[k].directory != s[i].directory
  {
  }

  lemma SameDirectory(s: seq<Recording>, r: Recording)
    requires Distinct(s) && r in s
    ensures forall x :: x in s && x.directory == r.directory ==> x == r
  {
  }
}
