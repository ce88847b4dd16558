/**
 * The backend's build-job table: jobs are added, listed per project newest first,
 * and claimed by build servers, one pending job of the requested TwinCAT version
 * at a time, oldest first.
 *
 * Ids are strings (a Guid's text form) and instants are tick counts; the current
 * time of a claim is a parameter.
 */
module BuildJobRepository {
  import opened Wrappers

  datatype BuildStatus = Pending | Claimed | InProgress | Completed | Failed

  datatype BuildJob = BuildJob(
    id: string,
    projectId: string,
    twinCatVersion: string,
    status: BuildStatus,
    includeDeploy: bool,
    targetAmsNetId: Option<string>,
    requestedBy: string,
    claimedBy: Option<string>,
    commitSha: Option<string>,
    errorMessage: Option<string>,
    createdAt: int,
    startedAt: Option<int>,
    completedAt: Option<int>)

  /** A job a build server for `version` may claim. */
  predicate Claimable(job: BuildJob, version: string)
  {
    job.status == Pending && job.twinCatVersion == version
  }

  /** The position of a claimable job with the least creation time; the first such in table order. */
  function OldestClaimable(jobs: seq<BuildJob>, version: string): (r: Option<nat>)
    ensures r.None? <==> forall i :: 0 <= i < |jobs| ==> !Claimable(jobs[i], version)
    ensures r.Some? ==>
      r.value < |jobs| && Claimable(jobs[r.value], version) &&
      forall i :: 0 <= i < |jobs| && Claimable(jobs[i], version) ==> jobs[r.value].createdAt <= jobs[i].createdAt
    decreases |jobs|
  {
    if |jobs| == 0 then None
    else
      var last := |jobs| - 1;
      var r := OldestClaimable(jobs[..last], version);
      if !Claimable(jobs[last], version) then r
      else if r.Some? && jobs[r.value].createdAt <= jobs[last].createdAt then r
      else Some(last)
  }

  /** A job as a claim leaves it. */
  function Claim(job: BuildJob, claimedBy: string, now: int): BuildJob
  {
    job.(status := Claimed, claimedBy := Some(claimedBy), startedAt := Some(now))
  }

  /** The table after the job at `i` is claimed. */
  function ClaimAt(jobs: seq<BuildJob>, i: nat, claimedBy: string, now: int): (r: seq<BuildJob>)
    requires i < |jobs|
    ensures |r| == |jobs|
    ensures r[i].status == Claimed && r[i].claimedBy == Some(claimedBy) && r[i].startedAt == Some(now)
    ensures r[i] == jobs[i].(status := Claimed, claimedBy := Some(claimedBy), startedAt := Some(now))
    ensures forall k :: 0 <= k < |jobs| && k != i ==> r[k] == jobs[k]
  {
    jobs[i := Claim(jobs[i], claimedBy, now)]
  }

  /** Jobs ordered by creation time, newest first. */
  ghost predicate NewestFirst(s: seq<BuildJob>)
  {
    forall i, j :: 0 <= i < j < |s| ==> s[i].createdAt >= s[j].createdAt
  }

  /** The jobs of one project, in table order. */
  function OfProject(jobs: seq<BuildJob>, projectId: string): (r: seq<BuildJob>)
    ensures forall j :: j in r <==> j in jobs && j.projectId == projectId
    ensures forall j: BuildJob :: j.projectId == projectId ==> multiset(r)[j] == multiset(jobs)[j]
    ensures forall j: BuildJob :: j.projectId != projectId ==> multiset(r)[j] == 0
    decreases |jobs|
  {
    if |jobs| == 0 then []
    else
      assert jobs == [jobs[0]] + jobs[1..];
      (if jobs[0].projectId == projectId then [jobs[0]] else []) + OfProject(jobs[1..], projectId)
  }

  /** Places `job` before the first job not newer than it. */
  function InsertNewestFirst(job: BuildJob, s: seq<BuildJob>): (r: seq<BuildJob>)
    requires NewestFirst(s)
    ensures NewestFirst(r)
    ensures multiset(r) == multiset(s) + multiset{job}
    decreases |s|
  {
    if |s| == 0 then [job]
    else if job.createdAt >= s[0].createdAt then
      InsertFront(job, s);
      [job] + s
    else
      var rest := InsertNewestFirst(job, s[1..]);
      InsertBehind(job, s, rest);
      [s[0]] + rest
  }

  lemma InsertFront(job: BuildJob, s: seq<BuildJob>)
    requires NewestFirst(s) && |s| > 0 && job.createdAt >= s[0].createdAt
    ensures NewestFirst([job] + s)
  {
    var r := [job] + s;
    forall a, b | 0 <= a < b < |r| ensures r[a].createdAt >= r[b].createdAt {
      assert r[b] == s[b - 1];
      if a > 0 {
        assert r[a] == s[a - 1];
      } else {
        assert s[0].createdAt >= s[b - 1].createdAt;
      }
    }
  }

  lemma InsertBehind(job: BuildJob, s: seq<BuildJob>, rest: seq<BuildJob>)
    requires NewestFirst(s) && |s| > 0 && job.createdAt < s[0].createdAt
    requires NewestFirst(rest) && multiset(rest) == multiset(s[1..]) + multiset{job}
    ensures NewestFirst([s[0]] + rest)
    ensures multiset([s[0]] + rest) == multiset(s) + multiset{job}
  {
    assert s == [s[0]] + s[1..];
    forall k | 0 <= k < |rest| ensures rest[k].createdAt <= s[0].createdAt {
      var x := rest[k];
      assert x in multiset(rest);
      if x != job {
        assert x in multiset(s[1..]);
        var m :| 0 <= m < |s[1..]| && s[1..][m] == x;
        assert s[m + 1] == x;
      }
    }
    var r := [s[0]] + rest;
    forall a, b | 0 <= a < b < |r| ensures r[a].createdAt >= r[b].createdAt {
      assert r[b] == rest[b - 1];
      if a > 0 {
        assert r[a] == rest[a - 1];
      }
    }
  }

  /** `OrderByDescending(b => b.CreatedAt)`: newest first, the order among equal times left open. */
  function SortNewestFirst(s: seq<BuildJob>): (r: seq<BuildJob>)
    ensures NewestFirst(r)
    ensures multiset(r) == multiset(s)
    decreases |s|
  {
    if |s| == 0 then []
    else
      assert s == [s[0]] + s[1..];
      InsertNewestFirst(s[0], SortNewestFirst(s[1..]))
  }

  /** `GetByProjectIdAsync`'s query. */
  function ProjectJobsNewestFirst(jobs: seq<BuildJob>, projectId: string): seq<BuildJob>
  {
    SortNewestFirst(OfProject(jobs, projectId))
  }

  /** The listing holds exactly the project's jobs, each as often as the table does, newest first. */
  lemma ProjectListing(jobs: seq<BuildJob>, projectId: string)
    ensures NewestFirst(ProjectJobsNewestFirst(jobs, projectId))
    ensures forall j :: j in ProjectJobsNewestFirst(jobs, projectId) <==> j in jobs && j.projectId == projectId
    ensures forall j: BuildJob :: j.projectId == projectId ==>
      multiset(ProjectJobsNewestFirst(jobs, projectId))[j] == multiset(jobs)[j]
  {
    var r := ProjectJobsNewestFirst(jobs, projectId);
    forall j ensures j in r <==> j in jobs && j.projectId == projectId {
      assert j in r <==> j in multiset(r);
      assert j in OfProject(jobs, projectId) <==> j in multiset(OfProject(jobs, projectId));
    }
  }

  /** A claim takes a job out of the claimable set and changes nothing else about it. */
  lemma ClaimRemovesOne(jobs: seq<BuildJob>, i: nat, claimedBy: string, now: int, version: string)
    requires i < |jobs|
    ensures forall k :: 0 <= k < |jobs| ==>
      (Claimable(ClaimAt(jobs, i, claimedBy, now)[k], version) <==> k != i && Claimable(jobs[k], version))
  {
  }

  /** Two claims in a row never hand out the same job, whatever versions they ask for. */
  lemma SecondClaimDiffers(jobs: seq<BuildJob>, version: string, claimedBy: string, now: int,
                           version2: string, claimedBy2: string, now2: int)
    requires OldestClaimable(jobs, version).Some?
    ensures var i := OldestClaimable(jobs, version).value;
      OldestClaimable(ClaimAt(jobs, i, claimedBy, now), version2) != Some(i)
  {
    var i := OldestClaimable(jobs, version).value;
    ClaimRemovesOne(jobs, i, claimedBy, now, version2);
  }

  /** The job table. */
  class JobTable {
    var jobs: seq<BuildJob>

    constructor (jobs: seq<BuildJob>)
      ensures this.jobs == jobs
    {
      this.jobs := jobs;
    }

    /** `GetByProjectIdAsync`. */
    method GetByProjectId(projectId: string) returns (r: seq<BuildJob>)
      ensures r == ProjectJobsNewestFirst(jobs, projectId)
    {
      r := SortNewestFirst(OfProject(jobs, projectId));
    }

    /** `AddAsync`: the job is stored and handed back. */
    method Add(job: BuildJob) returns (r: BuildJob)
      modifies this
      ensures jobs == old(jobs) + [job] && r == job
    {
      jobs := jobs + [job];
      r := job;
    }

    /**
     * `ClaimNextAsync`: the oldest pending job of `version` is marked claimed by
     * `claimedBy` at `now` and returned; with none pending, nothing changes.
     */
    method ClaimNext(version: string, claimedBy: string, now: int) returns (claimed: Option<BuildJob>)
      modifies this
      ensures claimed.None? <==> forall k :: 0 <= k < |old(jobs)| ==> !Claimable(old(jobs)[k], version)
      ensures claimed.None? ==> jobs == old(jobs)
      ensures claimed.Some? ==>
        exists i :: 0 <= i < |old(jobs)| && Claimable(old(jobs)[i], version) &&
          (forall k :: 0 <= k < |old(jobs)| && Claimable(old(jobs)[k], version) ==>
             old(jobs)[i].createdAt <= old(jobs)[k].createdAt) &&
          jobs == ClaimAt(old(jobs), i, claimedBy, now) && claimed.value == jobs[i]
    {
      var found := OldestClaimable(jobs, version);
      if found.None? {
        return None;
      }
      var i := found.value;
      jobs := ClaimAt(jobs, i, claimedBy, now);
      claimed := Some(jobs[i]);
    }
  }
}
