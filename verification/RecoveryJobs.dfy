/** The task and job objects of ansible/recover_server.py, updated in place by one server's thread. */
module RecoveryJobs {
  import opened Common
  import opened Recovery

  class Task {
    const taskname: TaskId
    const dryRun: bool
    var returncode: Option<int>

    constructor (taskname: TaskId, dryRun: bool)
      ensures this.taskname == taskname && this.dryRun == dryRun && returncode == None
    {
      this.taskname, this.dryRun, returncode := taskname, dryRun, None;
    }

    method Call(codes: Oracle)
      modifies this
      ensures returncode == if dryRun then old(returncode) else Some(codes(taskname))
    {
      if !dryRun {
        returncode := Some(codes(taskname));
      }
    }
  }

  class Job {
    const tasks: seq<Task>
    const ignoreErrors: bool
    const dryRun: bool
    var failedTask: Option<nat>

    constructor (tasks: seq<Task>, ignoreErrors: bool, dryRun: bool)
      ensures this.tasks == tasks && this.ignoreErrors == ignoreErrors && this.dryRun == dryRun && failedTask == None
    {
      this.tasks, this.ignoreErrors, this.dryRun, failedTask := tasks, ignoreErrors, dryRun, None;
    }

    function Names(): seq<TaskId> {
      seq(|tasks|, k requires 0 <= k < |tasks| => tasks[k].taskname)
    }

    function Spec(): JobSpec {
      JobSpec(Names(), ignoreErrors)
    }

    /** Tasks are objects of their own that have not run yet. */
    ghost predicate Ready()
      reads this, tasks
    {
      && failedTask == None && Shaped()
      && forall k :: 0 <= k < |tasks| ==> tasks[k].returncode == None
    }

    /** What the tasks have returned so far. */
    ghost function Codes(): (cs: seq<Option<int>>)
      reads tasks
      ensures |cs| == |tasks| && forall k :: 0 <= k < |tasks| ==> cs[k] == tasks[k].returncode
    {
      seq(|tasks|, k requires 0 <= k < |tasks| reads tasks => tasks[k].returncode)
    }

    ghost predicate Shaped() {
      Distinct(tasks) && forall k :: 0 <= k < |tasks| ==> tasks[k].dryRun == dryRun
    }

    /** Task k is reached: every task before it returns 0. */
    ghost predicate Reached(codes: Oracle, k: nat)
      requires k < |tasks|
    {
      AllZero(codes, Names()[..k])
    }

    /** Task k is the first one to return a code other than 0. */
    ghost predicate FirstFailure(codes: Oracle, k: nat)
      requires k < |tasks|
    {
      codes(tasks[k].taskname) != 0 && forall m :: 0 <= m < k ==> codes(tasks[m].taskname) == 0
    }

    /** Runs the tasks in order up to the first that fails. */
    method RunTasks(codes: Oracle)
      requires Ready()
      modifies this, tasks
      ensures dryRun ==> failedTask == None && forall k :: 0 <= k < |tasks| ==> tasks[k].returncode == None
      ensures !dryRun && failedTask.None? ==>
                forall k :: 0 <= k < |tasks| ==> codes(tasks[k].taskname) == 0 && tasks[k].returncode == Some(0)
      ensures failedTask.Some? ==> !dryRun && failedTask.value < |tasks| && FirstFailure(codes, failedTask.value)
      ensures failedTask.Some? ==> forall k :: 0 <= k < |tasks| ==>
                tasks[k].returncode == if k <= failedTask.value then Some(codes(tasks[k].taskname)) else None
    {
      for i := 0 to |tasks|
        invariant failedTask == None
        invariant !dryRun ==> forall k :: 0 <= k < i ==> codes(tasks[k].taskname) == 0 && tasks[k].returncode == Some(0)
        invariant dryRun ==> forall k :: 0 <= k < i ==> tasks[k].returncode == None
        invariant forall k :: i <= k < |tasks| ==> tasks[k].returncode == None
      {
        tasks[i].Call(codes);
        if !dryRun && tasks[i].returncode != Some(0) {
          failedTask := Some(i);
          return;
        }
      }
    }

    lemma NamesZero(codes: Oracle, k: nat)
      requires k <= |tasks|
      ensures AllZero(codes, Names()[..k]) <==> forall m :: 0 <= m < k ==> codes(tasks[m].taskname) == 0
      ensures AllZero(codes, Names()) <==> forall m :: 0 <= m < |tasks| ==> codes(tasks[m].taskname) == 0
    {
      var names := Names();
      assert forall m :: 0 <= m < k ==> names[..k][m] == tasks[m].taskname;
      assert forall m :: 0 <= m < |tasks| ==> names[m] == tasks[m].taskname;
    }

    /** The whole call; true where the source raises. Afterwards each task shows whether it was reached. */
    method Call(codes: Oracle) returns (raised: bool)
      requires Ready()
      modifies this, tasks
      ensures raised <==> !dryRun && Fatal(codes, Spec())
      ensures forall k :: 0 <= k < |tasks| ==>
                tasks[k].returncode == if !dryRun && Reached(codes, k) then Some(codes(tasks[k].taskname)) else None
      ensures failedTask.None? <==> dryRun || AllZero(codes, Names())
    {
      RunTasks(codes);
      NamesZero(codes, |tasks|);
      forall k | 0 <= k < |tasks|
        ensures tasks[k].returncode == if !dryRun && Reached(codes, k) then Some(codes(tasks[k].taskname)) else None
      {
        NamesZero(codes, k);
      }
      raised := failedTask.Some? && !ignoreErrors;
    }
  }

  function Specs(jobs: seq<Job>): (specs: seq<JobSpec>)
    ensures |specs| == |jobs| && forall j :: 0 <= j < |jobs| ==> specs[j] == jobs[j].Spec()
  {
    seq(|jobs|, i requires 0 <= i < |jobs| => jobs[i].Spec())
  }

  /** Jobs are objects of their own, and no task object belongs to two of them. */
  ghost predicate Separate(jobs: seq<Job>) {
    && Distinct(jobs)
    && forall j, l, t: Task :: 0 <= j < l < |jobs| && t in jobs[j].tasks ==> t !in jobs[l].tasks
  }

  ghost function AllTasks(jobs: seq<Job>): set<Task> {
    set j, t | 0 <= j < |jobs| && t in jobs[j].tasks :: t
  }

  ghost predicate AllNone(cs: seq<Option<int>>) {
    forall k :: 0 <= k < |cs| ==> cs[k] == None
  }

  /** A job that has not run. */
  ghost predicate Idle(job: Job)
    reads job, job.tasks
  {
    !job.dryRun && job.Shaped() && job.failedTask == None && AllNone(job.Codes())
  }

  /** What the tasks of the j-th job are expected to return. */
  ghost function ExpectedCodes(codes: Oracle, jobs: seq<Job>, j: nat): (cs: seq<Option<int>>)
    requires j < |jobs|
    ensures |cs| == |jobs[j].tasks| && forall k :: 0 <= k < |cs| ==> cs[k] == Expected(codes, Specs(jobs), j, k)
  {
    seq(|jobs[j].tasks|, k requires 0 <= k < |jobs[j].tasks| => Expected(codes, Specs(jobs), j, k))
  }

  lemma ExpectedInJob(codes: Oracle, jobs: seq<Job>, j: nat, k: nat)
    requires j < |jobs| && k < |jobs[j].tasks|
    ensures Expected(codes, Specs(jobs), j, k) ==
            if jobs[j].Reached(codes, k) && (forall i :: 0 <= i < j ==> !Fatal(codes, jobs[i].Spec()))
            then Some(codes(jobs[j].tasks[k].taskname)) else None
  {
    assert forall i :: 0 <= i < |jobs| ==> Specs(jobs)[i] == jobs[i].Spec();
  }

  lemma SkippedJob(codes: Oracle, jobs: seq<Job>, i: nat, j: nat)
    requires i < j < |jobs| && Fatal(codes, jobs[i].Spec())
    ensures forall k :: 0 <= k < |jobs[j].tasks| ==> ExpectedCodes(codes, jobs, j)[k] == None
  {
    forall k | 0 <= k < |jobs[j].tasks| ensures ExpectedCodes(codes, jobs, j)[k] == None {
      ExpectedInJob(codes, jobs, j, k);
    }
  }

  /** Runs one job of a list none of whose earlier jobs was fatal. */
  method RunJob(jobs: seq<Job>, i: nat, codes: Oracle) returns (raised: bool)
    requires i < |jobs| && Idle(jobs[i])
    requires forall m :: 0 <= m < i ==> !Fatal(codes, jobs[m].Spec())
    modifies jobs[i], jobs[i].tasks
    ensures raised <==> Fatal(codes, jobs[i].Spec())
    ensures jobs[i].Codes() == ExpectedCodes(codes, jobs, i)
  {
    assert forall k :: 0 <= k < |jobs[i].tasks| ==> jobs[i].Codes()[k] == jobs[i].tasks[k].returncode;
    raised := jobs[i].Call(codes);
    forall k | 0 <= k < |jobs[i].tasks| ensures jobs[i].tasks[k].returncode == Expected(codes, Specs(jobs), i, k) {
      ExpectedInJob(codes, jobs, i, k);
    }
  }

  /** The same, seen from the list: the other jobs do not change. */
  method RunJobInList(jobs: seq<Job>, i: nat, codes: Oracle) returns (raised: bool)
    requires Separate(jobs) && i < |jobs| && Idle(jobs[i])
    requires forall m :: 0 <= m < i ==> !Fatal(codes, jobs[m].Spec())
    modifies jobs, AllTasks(jobs)
    ensures raised <==> Fatal(codes, jobs[i].Spec())
    ensures jobs[i].Codes() == ExpectedCodes(codes, jobs, i)
    ensures forall j :: 0 <= j < |jobs| && j != i ==> jobs[j].Codes() == old(jobs[j].Codes())
    ensures forall j :: 0 <= j < |jobs| && j != i ==> jobs[j].failedTask == old(jobs[j].failedTask)
  {
    assert forall t :: t in jobs[i].tasks ==> t in AllTasks(jobs);
    assert forall j, t: Task :: 0 <= j < |jobs| && j != i && t in jobs[j].tasks ==> t !in jobs[i].tasks;
    raised := RunJob(jobs, i, codes);
    forall j | 0 <= j < |jobs| && j != i ensures jobs[j].Codes() == old(jobs[j].Codes()) {
      assert forall k :: 0 <= k < |jobs[j].tasks| ==> jobs[j].tasks[k] in jobs[j].tasks;
    }
  }

  /** The loop of `_do_jobs`: it stops at the first job that raises. */
  method DoJobs(jobs: seq<Job>, codes: Oracle)
    requires Separate(jobs) && forall j :: 0 <= j < |jobs| ==> Idle(jobs[j])
    modifies jobs, AllTasks(jobs)
    ensures forall j :: 0 <= j < |jobs| ==> jobs[j].Codes() == ExpectedCodes(codes, jobs, j)
  {
    for i := 0 to |jobs|
      invariant forall j :: i <= j < |jobs| ==> Idle(jobs[j])
      invariant forall m :: 0 <= m < i ==> !Fatal(codes, jobs[m].Spec())
      invariant forall j :: 0 <= j < i ==> jobs[j].Codes() == ExpectedCodes(codes, jobs, j)
    {
      var raised := RunJobInList(jobs, i, codes);
      if raised {
        forall j | i < j < |jobs| ensures jobs[j].Codes() == ExpectedCodes(codes, jobs, j) {
          SkippedJob(codes, jobs, i, j);
        }
        return;
      }
    }
  }

  /**
   The join loop: `finish[t]` is the polling round from which thread t is no longer alive. It returns in the
   first round in which every thread has finished.
   */
  method JoinAll(threads: seq<Server>, finish: map<Server, nat>, latest: nat) returns (round: nat)
    requires forall t :: t in threads ==> t in finish && finish[t] <= latest
    ensures forall t :: t in threads ==> finish[t] <= round
    ensures round > 0 ==> exists t :: t in threads && finish[t] == round
  {
    var alive := threads;
    round := 0;
    while true
      invariant forall t :: t in threads && t !in alive ==> finish[t] < round
      invariant forall t :: t in alive ==> t in threads && finish[t] >= round
      invariant round > 0 ==> alive != []
      decreases latest - round
    {
      ghost var before, kept: seq<Server> := alive, [];
      for i := 0 to |alive|
        invariant alive == before[i..] + kept
        invariant forall t :: t in kept ==> t in before && finish[t] > round
        invariant forall k :: 0 <= k < i && before[k] !in kept ==> finish[before[k]] <= round
      {
        var t := alive[0];
        alive := alive[1..];
        if finish[t] > round {
          alive, kept := alive + [t], kept + [t];
        }
      }
      assert alive == kept;
      if alive == [] {
        if round > 0 { assert before[0] in threads && finish[before[0]] == round; }
        break;
      }
      assert alive[0] in threads;
      forall t | t in threads && t !in alive ensures finish[t] <= round {
        if t in before {
          var k :| 0 <= k < |before| && before[k] == t;
        }
      }
      round := round + 1;
    }
  }
}
