/** Vault jobs grouped by chain, one worker a chain, all workers interleaved. */
module JobsRunner {
  import opened Multisets
  import opened Wrappers

  /** A job, and what its update does in this run: `None` throws. */
  datatype Job = Job(chain: int, protocol: string, feature: string, outcome: Option<seq<string>>)

  datatype Info = Info(chain: int, protocolName: string, featureName: string)

  datatype Notification = Notification(info: Info, items: seq<string>)

  datatype Group = Group(chain: int, jobs: seq<Job>)

  function InfoOf(job: Job): Info {
    Info(job.chain, job.protocol, job.feature)
  }

  // ---------------------------------------------------------------------------------------
  // Grouping
  // ---------------------------------------------------------------------------------------

  /** Adds the job to its chain's group, in place, or opens a group at the end. */
  function Push(groups: seq<Group>, job: Job): seq<Group> {
    if groups == [] then [Group(job.chain, [job])]
    else if groups[0].chain == job.chain then [Group(job.chain, groups[0].jobs + [job])] + groups[1..]
    else [groups[0]] + Push(groups[1..], job)
  }

  function Grouped(jobs: seq<Job>, groups: seq<Group>): seq<Group>
    decreases |jobs|
  {
    if jobs == [] then groups else Grouped(jobs[1..], Push(groups, jobs[0]))
  }

  function JobsOf(groups: seq<Group>): seq<Job> {
    if groups == [] then [] else groups[0].jobs + JobsOf(groups[1..])
  }

  ghost predicate ByChain(groups: seq<Group>) {
    && (forall i, j :: 0 <= i < j < |groups| ==> groups[i].chain != groups[j].chain)
    && (forall i :: 0 <= i < |groups| ==> forall job :: job in groups[i].jobs ==> job.chain == groups[i].chain)
  }

  lemma {:induction false} PushChains(groups: seq<Group>, job: Job, i: nat)
    requires i < |Push(groups, job)|
    ensures Push(groups, job)[i].chain == if i < |groups| then groups[i].chain else job.chain
    ensures i == |groups| ==> forall j :: 0 <= j < |groups| ==> groups[j].chain != job.chain
    ensures |groups| <= |Push(groups, job)| <= |groups| + 1
  {
    if groups != [] && groups[0].chain != job.chain {
      PushChains(groups[1..], job, if i > 0 then i - 1 else 0);
      if i == |groups| {
        forall j | 0 <= j < |groups|
          ensures groups[j].chain != job.chain
        {
          if j > 0 {
            assert groups[j] == groups[1..][j - 1];
          }
        }
      }
    }
  }

  lemma {:induction false} PushKeepsByChain(groups: seq<Group>, job: Job)
    requires ByChain(groups)
    ensures ByChain(Push(groups, job))
  {
    var r := Push(groups, job);
    forall i, j | 0 <= i < j < |r|
      ensures r[i].chain != r[j].chain
    {
      PushChains(groups, job, i);
      PushChains(groups, job, j);
    }
    forall i, x | 0 <= i < |r| && x in r[i].jobs
      ensures x.chain == r[i].chain
    {
      PushedJobs(groups, job, i, x);
      PushChains(groups, job, i);
    }
  }

  lemma {:induction false} PushedJobs(groups: seq<Group>, job: Job, i: nat, x: Job)
    requires i < |Push(groups, job)| && x in Push(groups, job)[i].jobs
    ensures (i < |groups| && x in groups[i].jobs) || (x == job && Push(groups, job)[i].chain == job.chain)
  {
    if groups != [] && groups[0].chain != job.chain && i > 0 {
      PushedJobs(groups[1..], job, i - 1, x);
    }
  }

  lemma {:induction false} PushAddsJob(groups: seq<Group>, job: Job)
    ensures multiset(JobsOf(Push(groups, job))) == multiset(JobsOf(groups)) + multiset{job}
  {
    if groups == [] {
      assert [Group(job.chain, [job])][1..] == [];
      assert JobsOf(Push(groups, job)) == [job] + [];
    } else if groups[0].chain == job.chain {
      var r := Push(groups, job);
      assert r[1..] == groups[1..];
    } else {
      PushAddsJob(groups[1..], job);
      assert Push(groups, job)[1..] == Push(groups[1..], job);
    }
  }

  /** Grouping keeps every job once and gives every chain one group. */
  lemma {:induction false} GroupingKeepsJobs(jobs: seq<Job>, groups: seq<Group>)
    requires ByChain(groups)
    ensures ByChain(Grouped(jobs, groups))
    ensures multiset(JobsOf(Grouped(jobs, groups))) == multiset(JobsOf(groups)) + multiset(jobs)
    decreases |jobs|
  {
    hide Push, ByChain, JobsOf;
    if jobs != [] {
      PushKeepsByChain(groups, jobs[0]);
      PushAddsJob(groups, jobs[0]);
      GroupingKeepsJobs(jobs[1..], Push(groups, jobs[0]));
      assert jobs == [jobs[0]] + jobs[1..];
    }
  }

  method SortJobs(jobs: seq<Job>) returns (sortedJobs: seq<Group>)
    ensures sortedJobs == Grouped(jobs, [])
  {
    sortedJobs := [];
    for k := 0 to |jobs|
      invariant Grouped(jobs[k..], sortedJobs) == Grouped(jobs, [])
    {
      assert jobs[k..][1..] == jobs[k + 1..];
      sortedJobs := PushJob(sortedJobs, jobs[k]);
    }
  }

  lemma PushPast(groups: seq<Group>, job: Job, i: nat)
    requires i < |groups| && groups[i].chain != job.chain
    ensures groups[..i] + Push(groups[i..], job) == groups[..i + 1] + Push(groups[i + 1..], job)
  {
    assert groups[i..][1..] == groups[i + 1..];
    var rest := Push(groups[i + 1..], job);
    assert Push(groups[i..], job) == [groups[i]] + rest;
    hide Push;
    assert groups[..i + 1] == groups[..i] + [groups[i]];
  }

  lemma PushHere(groups: seq<Group>, job: Job, i: nat)
    requires i < |groups| && groups[i].chain == job.chain
    ensures Push(groups[i..], job) == [Group(job.chain, groups[i].jobs + [job])] + groups[i + 1..]
  {
    assert groups[i..][1..] == groups[i + 1..];
  }

  lemma PushLast(job: Job)
    ensures Push([], job) == [Group(job.chain, [job])]
  {
  }

  method PushJob(groups: seq<Group>, job: Job) returns (r: seq<Group>)
    ensures r == Push(groups, job)
  {
    hide Push;
    var i := 0;
    assert groups[..0] + Push(groups[0..], job) == Push(groups, job) by { assert groups[0..] == groups; }
    while i < |groups| && groups[i].chain != job.chain
      invariant 0 <= i <= |groups|
      invariant Push(groups, job) == groups[..i] + Push(groups[i..], job)
    {
      PushPast(groups, job, i);
      i := i + 1;
    }
    if i < |groups| {
      var own := Group(job.chain, groups[i].jobs + [job]);
      PushHere(groups, job, i);
      r := groups[i := own];
      assert r == groups[..i] + ([own] + groups[i + 1..]);
    } else {
      assert groups[..i] == groups && groups[i..] == [];
      PushLast(job);
      r := groups + [Group(job.chain, [job])];
    }
  }

  // ---------------------------------------------------------------------------------------
  // What should be notified
  // ---------------------------------------------------------------------------------------

  /** The successful jobs' notifications, in order. */
  function NotificationsOf(jobs: seq<Job>): seq<Notification> {
    if jobs == [] then []
    else
      NotificationsOf(jobs[..|jobs| - 1]) +
      match jobs[|jobs| - 1].outcome
      case None => []
      case Some(items) => [Notification(InfoOf(jobs[|jobs| - 1]), items)]
  }

  function NotificationsOfGroups(groups: seq<Group>): seq<Notification> {
    if groups == [] then []
    else NotificationsOfGroups(groups[..|groups| - 1]) + NotificationsOf(groups[|groups| - 1].jobs)
  }

  // ---------------------------------------------------------------------------------------
  // The interleaved workers
  // ---------------------------------------------------------------------------------------

  /** One chain's worker: the job it awaits next, and the results it collected. */
  datatype Worker = Worker(next: nat, results: seq<seq<string>>)

  class Runner {
    /** The descriptions of the finished jobs, per chain, shared by all workers. */
    var jobsDataMap: map<int, seq<Info>>
    var workers: seq<Worker>

    /** The shared lists and each worker's own results describe the same jobs, in step. */
    ghost predicate InStep(groups: seq<Group>)
      reads this
    {
      && |workers| == |groups|
      && forall w :: 0 <= w < |groups| ==> WorkerInStep(groups[w], workers[w], jobsDataMap)
    }

    /** The worker's awaited job settles: its description goes to the shared list, its items to
        the worker's own. */
    method Resume(groups: seq<Group>, w: nat)
      requires ByChain(groups) && InStep(groups) && w < |groups| && workers[w].next < |groups[w].jobs|
      modifies this
      ensures InStep(groups)
      ensures workers[w].next == old(workers[w].next) + 1
      ensures forall v :: 0 <= v < |groups| && v != w ==> workers[v] == old(workers[v])
    {
      var worker := workers[w];
      var job := groups[w].jobs[worker.next];
      InStepAfter(groups[w], worker, jobsDataMap);
      match job.outcome
      case None =>
        workers := workers[w := worker.(next := worker.next + 1)];
      case Some(items) =>
        var check := jobsDataMap[groups[w].chain];
        jobsDataMap := jobsDataMap[groups[w].chain := check + [InfoOf(job)]];
        workers := workers[w := Worker(worker.next + 1, worker.results + [items])];
    }

    /** One update. `schedule` says which worker resumes next, and lets all of them finish.
        Whatever it is, the notified list pairs every successful job's description with that
        job's own items, chain after chain, and holds nothing else. */
    method Update(jobs: seq<Job>, schedule: seq<nat>) returns (dataToNotify: seq<Notification>)
      requires Finishes(schedule, Grouped(jobs, []))
      modifies this
      ensures dataToNotify == NotificationsOfGroups(Grouped(jobs, []))
    {
      hide Grouped, NotificationsOfGroups, Turns;
      var sortedJobs := SortJobs(jobs);
      assert ByChain(Grouped(jobs, [])) by { GroupingKeepsJobs(jobs, []); }
      Start(sortedJobs);
      Run(sortedJobs, schedule);
      dataToNotify := Collect(sortedJobs);
    }

    /** Every worker starts with an empty shared list. */
    method Start(groups: seq<Group>)
      requires ByChain(groups)
      modifies this
      ensures InStep(groups) && forall w :: 0 <= w < |groups| ==> workers[w].next == 0
    {
      jobsDataMap := map[];
      workers := [];
      for w := 0 to |groups|
        invariant |workers| == w
        invariant forall v :: 0 <= v < w ==> workers[v] == Worker(0, [])
        invariant forall v :: 0 <= v < w ==> groups[v].chain in jobsDataMap && jobsDataMap[groups[v].chain] == []
      {
        jobsDataMap := jobsDataMap[groups[w].chain := []];
        workers := workers + [Worker(0, [])];
      }
    }

    method Run(groups: seq<Group>, schedule: seq<nat>)
      requires ByChain(groups) && InStep(groups) && Finishes(schedule, groups)
      requires forall w :: 0 <= w < |groups| ==> workers[w].next == 0
      modifies this
      ensures InStep(groups) && forall w :: 0 <= w < |groups| ==> workers[w].next == |groups[w].jobs|
    {
      hide WorkerInStep;
      assert schedule[..0] == [];
      for k := 0 to |schedule|
        invariant InStep(groups)
        invariant forall w :: 0 <= w < |groups| ==> workers[w].next == Least(Turns(schedule[..k], w), |groups[w].jobs|)
      {
        assert schedule[..k + 1][..k] == schedule[..k];
        var w := schedule[k];
        if w < |groups| && workers[w].next < |groups[w].jobs| {
          Resume(groups, w);
        }
      }
      assert schedule[..|schedule|] == schedule;
    }

    /** Lists every worker's results beside the descriptions at the same index. */
    method Collect(groups: seq<Group>) returns (dataToNotify: seq<Notification>)
      requires InStep(groups)
      requires forall w :: 0 <= w < |groups| ==> workers[w].next == |groups[w].jobs|
      ensures dataToNotify == NotificationsOfGroups(groups)
    {
      dataToNotify := [];
      for w := 0 to |groups|
        invariant dataToNotify == NotificationsOfGroups(groups[..w])
      {
        assert groups[..w + 1][..w] == groups[..w];
        var results := workers[w].results;
        var jobInfo := jobsDataMap[groups[w].chain];
        assert groups[w].jobs[..|groups[w].jobs|] == groups[w].jobs;
        assert Zip(jobInfo, results) == NotificationsOf(groups[w].jobs);
        ghost var before := dataToNotify;
        for index := 0 to |results|
          invariant dataToNotify == before + Zip(jobInfo, results)[..index]
        {
          assert Zip(jobInfo, results)[..index + 1] == Zip(jobInfo, results)[..index] + [Zip(jobInfo, results)[index]];
          dataToNotify := dataToNotify + [Notification(jobInfo[index], results[index])];
        }
        assert Zip(jobInfo, results)[..|results|] == Zip(jobInfo, results);
      }
      assert groups[..|groups|] == groups;
    }
  }

  function Zip(infos: seq<Info>, results: seq<seq<string>>): (r: seq<Notification>)
    requires |infos| == |results|
    ensures |r| == |infos| && forall i :: 0 <= i < |r| ==> r[i] == Notification(infos[i], results[i])
  {
    seq(|infos|, i requires 0 <= i < |infos| && |infos| == |results| => Notification(infos[i], results[i]))
  }

  ghost predicate WorkerInStep(group: Group, worker: Worker, jobsDataMap: map<int, seq<Info>>) {
    && group.chain in jobsDataMap && worker.next <= |group.jobs|
    && |jobsDataMap[group.chain]| == |worker.results|
    && Zip(jobsDataMap[group.chain], worker.results) == NotificationsOf(group.jobs[..worker.next])
  }

  lemma InStepAfter(group: Group, worker: Worker, jobsDataMap: map<int, seq<Info>>)
    requires WorkerInStep(group, worker, jobsDataMap) && worker.next < |group.jobs|
    ensures var job := group.jobs[worker.next];
            match job.outcome
            case None => WorkerInStep(group, worker.(next := worker.next + 1), jobsDataMap)
            case Some(items) =>
              WorkerInStep(group, Worker(worker.next + 1, worker.results + [items]),
                           jobsDataMap[group.chain := jobsDataMap[group.chain] + [InfoOf(job)]])
  {
    var done := group.jobs[..worker.next + 1];
    assert done[..|done| - 1] == group.jobs[..worker.next];
  }

  function Turns(schedule: seq<nat>, w: nat): nat {
    if schedule == [] then 0 else Turns(schedule[..|schedule| - 1], w) + if schedule[|schedule| - 1] == w then 1 else 0
  }

  function Least(x: nat, y: nat): nat {
    if x < y then x else y
  }

  /** Every worker gets a turn for each of its jobs. */
  ghost predicate Finishes(schedule: seq<nat>, groups: seq<Group>) {
    forall w :: 0 <= w < |groups| ==> Turns(schedule, w) >= |groups[w].jobs|
  }

  // ---------------------------------------------------------------------------------------
  // The notified list against the jobs as registered
  // ---------------------------------------------------------------------------------------

  lemma {:induction false} NotificationsAppend(a: seq<Job>, b: seq<Job>)
    ensures NotificationsOf(a + b) == NotificationsOf(a) + NotificationsOf(b)
  {
    if b == [] {
      assert a + b == a;
    } else {
      assert (a + b)[..|a + b| - 1] == a + b[..|b| - 1];
      NotificationsAppend(a, b[..|b| - 1]);
    }
  }

  lemma {:induction false} GroupsFlatten(groups: seq<Group>)
    ensures NotificationsOfGroups(groups) == NotificationsOf(JobsOf(groups))
  {
    if groups != [] {
      var init, last := groups[..|groups| - 1], groups[|groups| - 1];
      GroupsFlatten(init);
      JobsOfSnoc(init, last);
      assert groups == init + [last];
      NotificationsAppend(JobsOf(init), last.jobs);
    }
  }

  lemma {:induction false} JobsOfSnoc(groups: seq<Group>, last: Group)
    ensures JobsOf(groups + [last]) == JobsOf(groups) + last.jobs
  {
    if groups == [] {
      assert groups + [last] == [last] && [last][1..] == [];
      assert JobsOf([last]) == last.jobs + [];
    } else {
      assert (groups + [last])[1..] == groups[1..] + [last];
      JobsOfSnoc(groups[1..], last);
    }
  }

  lemma NotificationsWithout(jobs: seq<Job>, i: nat)
    requires i < |jobs|
    ensures multiset(NotificationsOf(jobs)) ==
            multiset(NotificationsOf(jobs[..i] + jobs[i + 1..])) + multiset(NotificationsOf([jobs[i]]))
  {
    hide NotificationsOf;
    NotificationsAppend(jobs[..i] + [jobs[i]], jobs[i + 1..]);
    NotificationsAppend(jobs[..i], [jobs[i]]);
    NotificationsAppend(jobs[..i], jobs[i + 1..]);
    assert jobs == jobs[..i] + [jobs[i]] + jobs[i + 1..];
    TakeMiddle(NotificationsOf(jobs[..i]), NotificationsOf([jobs[i]]), NotificationsOf(jobs[i + 1..]));
  }

  lemma TakeMiddle<T>(x: seq<T>, y: seq<T>, z: seq<T>)
    ensures multiset(x + y + z) == multiset(x + z) + multiset(y)
  {
  }

  lemma {:induction false} NotificationsPermute(a: seq<Job>, b: seq<Job>)
    requires multiset(a) == multiset(b)
    ensures multiset(NotificationsOf(a)) == multiset(NotificationsOf(b))
  {
    if a == [] {
      assert |multiset(b)| == |b| == 0;
    } else {
      var i := MatchLast(a, b);
      NotificationsPermute(a[..|a| - 1], b[..i] + b[i + 1..]);
      NotificationsWithout(b, i);
      NotificationsWithout(a, |a| - 1);
      assert a[..|a| - 1] + a[|a| - 1 + 1..] == a[..|a| - 1];
    }
  }

  /** How many of the jobs succeed with this description and these items. */
  function Successes(jobs: seq<Job>, n: Notification): nat {
    if jobs == [] then 0
    else
      Successes(jobs[1..], n) +
      if jobs[0].chain == n.info.chain && jobs[0].protocol == n.info.protocolName
         && jobs[0].feature == n.info.featureName && jobs[0].outcome == Some(n.items) then 1 else 0
  }

  lemma {:induction false} NotificationsCount(jobs: seq<Job>, n: Notification)
    ensures multiset(NotificationsOf(jobs))[n] == Successes(jobs, n)
  {
    if jobs != [] {
      NotificationsCount(jobs[1..], n);
      assert jobs == [jobs[0]] + jobs[1..];
      NotificationsAppend([jobs[0]], jobs[1..]);
      assert [jobs[0]][..0] == [];
      assert NotificationsOf([]) == [];
    }
  }

  /** The notified list holds a notification exactly as often as jobs succeed with its chain,
      protocol, feature and items: every success once, and nothing else. */
  lemma EverySuccessIsNotifiedOnce(jobs: seq<Job>, n: Notification)
    ensures multiset(NotificationsOfGroups(Grouped(jobs, [])))[n] == Successes(jobs, n)
  {
    hide Grouped, NotificationsOf, NotificationsOfGroups, Successes, ByChain;
    assert ByChain([]) by { NoGroups(); }
    GroupingKeepsJobs(jobs, []);
    GroupsFlatten(Grouped(jobs, []));
    assert JobsOf([]) == [];
    NotificationsPermute(JobsOf(Grouped(jobs, [])), jobs);
    NotificationsCount(jobs, n);
  }

  lemma NoGroups()
    ensures ByChain([])
  {
  }
}
