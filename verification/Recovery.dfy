/**
 The recovery runner of ansible/recover_server.py: one thread per server runs its jobs in order, a job runs its
 tasks in order. Return codes come from an oracle, one code for each task.
 */
module Recovery {
  import opened Common

  type TaskId = string
  type Server = string

  /** `codes` is the exit status each task's subprocess would have. */
  type Oracle = TaskId -> int

  datatype JobSpec = JobSpec(tasks: seq<TaskId>, ignoreErrors: bool)

  // ---- the job list of a server ----

  function InitTestbed(tbname: string): JobSpec {
    JobSpec([tbname + "_add_topo", tbname + "_deloy_mg"], true)
  }

  function TestbedJobs(tbs: seq<string>): (jobs: seq<JobSpec>)
    ensures |jobs| == |tbs| && forall i :: 0 <= i < |tbs| ==> jobs[i] == InitTestbed(tbs[i])
  {
    seq(|tbs|, i requires 0 <= i < |tbs| => InitTestbed(tbs[i]))
  }

  function BuildJobs(server: Server, tbs: seq<string>, skipCleanup: bool, ceos: bool): seq<JobSpec> {
    var jobs := TestbedJobs(tbs);
    var started := if ceos then jobs else [JobSpec([server + "_start_vms"], false)] + jobs;
    if skipCleanup then started else [JobSpec([server + "_cleanup_vmhost"], false)] + started
  }

  // ---- which tasks run ----

  ghost predicate AllZero(codes: Oracle, tasks: seq<TaskId>) {
    forall k :: 0 <= k < |tasks| ==> codes(tasks[k]) == 0
  }

  /** The job ends its server's run: one of its tasks fails, and errors are not ignored. */
  ghost predicate Fatal(codes: Oracle, job: JobSpec) {
    !job.ignoreErrors && !AllZero(codes, job.tasks)
  }

  /** Task k of job j runs: earlier tasks of the job returned 0, and no earlier job was fatal. */
  ghost predicate Runs(codes: Oracle, jobs: seq<JobSpec>, j: nat, k: nat)
    requires j < |jobs| && k < |jobs[j].tasks|
  {
    AllZero(codes, jobs[j].tasks[..k]) && forall i :: 0 <= i < j ==> !Fatal(codes, jobs[i])
  }

  /** The return code a task ends with; None if it never ran. */
  ghost function Expected(codes: Oracle, jobs: seq<JobSpec>, j: nat, k: nat): Option<int>
    requires j < |jobs| && k < |jobs[j].tasks|
  {
    if Runs(codes, jobs, j, k) then Some(codes(jobs[j].tasks[k])) else None
  }

  // ---- threads as machines, outside dry run ----

  /** A thread is about to run task `task` of job `job`; codes holds what finished tasks returned. */
  datatype Thread = Thread(jobs: seq<JobSpec>, job: nat, task: nat, codes: map<(nat, nat), int>, done: bool)

  function Start(jobs: seq<JobSpec>): Thread {
    Thread(jobs, 0, 0, map[], false)
  }

  /** One step: finish the list, leave a job, or run one task. */
  function Step(codes: Oracle, t: Thread): Thread {
    if t.done then t
    else if t.job >= |t.jobs| then t.(done := true)
    else if t.task >= |t.jobs[t.job].tasks| then t.(job := t.job + 1, task := 0)
    else
      var code := codes(t.jobs[t.job].tasks[t.task]);
      var u := t.(codes := t.codes[(t.job, t.task) := code]);
      if code == 0 then u.(task := t.task + 1)
      else if t.jobs[t.job].ignoreErrors then u.(job := t.job + 1, task := 0)
      else u.(done := true)
  }

  type System = map<Server, Thread>

  function StepServer(codes: Oracle, sys: System, s: Server): System {
    if s in sys then sys[s := Step(codes, sys[s])] else sys
  }

  /** An interleaving is the sequence of servers whose threads take the next step. */
  function Execute(codes: Oracle, sys: System, schedule: seq<Server>): System {
    if schedule == [] then sys
    else StepServer(codes, Execute(codes, sys, schedule[..|schedule| - 1]), schedule[|schedule| - 1])
  }

  function StartAll(jobs: map<Server, seq<JobSpec>>): System {
    map s | s in jobs :: Start(jobs[s])
  }

  // ---- one thread ----

  /** The position (j, k) has been passed or left behind by the thread. */
  ghost predicate Behind(t: Thread, j: nat, k: nat) {
    t.done || j < t.job || (j == t.job && k < t.task)
  }

  ghost predicate Stopped(codes: Oracle, t: Thread) {
    t.job >= |t.jobs| || Fatal(codes, t.jobs[t.job])
  }

  /** What the thread has recorded is what the tasks behind it are expected to return, and nothing else. */
  ghost predicate ThreadInv(codes: Oracle, t: Thread) {
    && (forall i :: 0 <= i < t.job && i < |t.jobs| ==> !Fatal(codes, t.jobs[i]))
    && (t.job < |t.jobs| && !t.done ==>
        t.task <= |t.jobs[t.job].tasks| && AllZero(codes, t.jobs[t.job].tasks[..t.task]))
    && (t.done ==> Stopped(codes, t))
    && (forall j, k :: (j, k) in t.codes ==> j < |t.jobs| && k < |t.jobs[j].tasks| && Behind(t, j, k))
    && (forall j: nat, k: nat :: j < |t.jobs| && k < |t.jobs[j].tasks| && Behind(t, j, k) ==>
          Lookup(t.codes, (j, k)) == Expected(codes, t.jobs, j, k))
  }

  lemma StartInv(codes: Oracle, jobs: seq<JobSpec>)
    ensures ThreadInv(codes, Start(jobs))
  {
  }

  lemma PrefixZero(codes: Oracle, tasks: seq<TaskId>, k: nat)
    requires k < |tasks| && AllZero(codes, tasks[..k])
    ensures AllZero(codes, tasks[..k + 1]) <==> codes(tasks[k]) == 0
    ensures codes(tasks[k]) != 0 ==> !AllZero(codes, tasks)
    ensures codes(tasks[k]) != 0 ==> forall m :: k < m < |tasks| ==> !AllZero(codes, tasks[..m])
  {
    forall m | k < m < |tasks| && codes(tasks[k]) != 0 ensures !AllZero(codes, tasks[..m]) {
      assert tasks[..m][k] == tasks[k];
    }
    assert tasks[..k + 1][k] == tasks[k];
  }

  /** Running the next task records its expected code and passes it. */
  lemma RunTaskKeeps(codes: Oracle, t: Thread)
    requires ThreadInv(codes, t) && !t.done && t.job < |t.jobs| && t.task < |t.jobs[t.job].tasks|
    ensures ThreadInv(codes, Step(codes, t))
  {
    var tasks := t.jobs[t.job].tasks;
    PrefixZero(codes, tasks, t.task);
    var r := Step(codes, t);
    assert Runs(codes, t.jobs, t.job, t.task);
    forall j: nat, k: nat | j < |r.jobs| && k < |r.jobs[j].tasks| && Behind(r, j, k)
      ensures Lookup(r.codes, (j, k)) == Expected(codes, r.jobs, j, k)
    {
      if Behind(t, j, k) {
        assert (j, k) != (t.job, t.task);
      } else if j == t.job && k > t.task {
        assert !AllZero(codes, tasks[..k]);
      } else if j > t.job {
        assert Fatal(codes, t.jobs[t.job]);
      }
    }
  }

  lemma LeaveJobKeeps(codes: Oracle, t: Thread)
    requires ThreadInv(codes, t) && !t.done && t.job < |t.jobs| && t.task == |t.jobs[t.job].tasks|
    ensures ThreadInv(codes, Step(codes, t))
  {
    assert t.jobs[t.job].tasks[..t.task] == t.jobs[t.job].tasks;
  }

  lemma StepKeeps(codes: Oracle, t: Thread)
    requires ThreadInv(codes, t)
    ensures ThreadInv(codes, Step(codes, t)) && Step(codes, t).jobs == t.jobs
  {
    if !t.done && t.job < |t.jobs| {
      if t.task < |t.jobs[t.job].tasks| { RunTaskKeeps(codes, t); } else { LeaveJobKeeps(codes, t); }
    }
  }

  /** Steps still needed: one for each task and job ahead, and one to stop. */
  function Rank(t: Thread): nat {
    if t.done then 0 else 1 + JobsRank(t.jobs, t.job, t.task)
  }

  function JobsRank(jobs: seq<JobSpec>, job: nat, task: nat): nat
    decreases |jobs| - job
  {
    if job >= |jobs| then 0
    else 1 + (if task < |jobs[job].tasks| then |jobs[job].tasks| - task else 0) + JobsRank(jobs, job + 1, 0)
  }

  /** Each step of an unfinished thread brings it nearer to its end. */
  lemma StepProgresses(codes: Oracle, t: Thread)
    requires !t.done
    ensures Rank(Step(codes, t)) < Rank(t)
  {
  }

  // ---- all threads ----

  lemma {:induction false} ExecuteKeeps(codes: Oracle, jobs: map<Server, seq<JobSpec>>, schedule: seq<Server>,
                                        s: Server)
    requires s in jobs
    ensures var sys := Execute(codes, StartAll(jobs), schedule);
            s in sys && sys[s].jobs == jobs[s] && ThreadInv(codes, sys[s])
  {
    if schedule == [] {
      StartInv(codes, jobs[s]);
    } else {
      ExecuteKeeps(codes, jobs, schedule[..|schedule| - 1], s);
      StepKeeps(codes, Execute(codes, StartAll(jobs), schedule[..|schedule| - 1])[s]);
    }
  }

  /**
   In every interleaving, at every moment: a task that has returned is one that runs, with its own code; and
   once its server's thread is done, exactly the tasks that run have returned. Other servers play no part.
   */
  lemma TaskReturnsExactlyIfItRuns(codes: Oracle, jobs: map<Server, seq<JobSpec>>, schedule: seq<Server>, s: Server,
                                   j: nat, k: nat)
    requires s in jobs && j < |jobs[s]| && k < |jobs[s][j].tasks|
    ensures s in Execute(codes, StartAll(jobs), schedule)
    ensures var t := Execute(codes, StartAll(jobs), schedule)[s];
            && ((j, k) in t.codes ==> Runs(codes, jobs[s], j, k) && t.codes[(j, k)] == codes(jobs[s][j].tasks[k]))
            && (t.done ==> Lookup(t.codes, (j, k)) == Expected(codes, jobs[s], j, k))
  {
    ExecuteKeeps(codes, jobs, schedule, s);
  }

  /** How many steps a schedule gives to a server. */
  function Turns(schedule: seq<Server>, s: Server): nat {
    if schedule == [] then 0
    else Turns(schedule[..|schedule| - 1], s) + if schedule[|schedule| - 1] == s then 1 else 0
  }

  /** Every thread ends: no interleaving that gives it enough steps leaves it running. */
  lemma {:induction false} EnoughTurnsFinish(codes: Oracle, jobs: map<Server, seq<JobSpec>>, schedule: seq<Server>,
                                             s: Server)
    requires s in jobs
    ensures s in Execute(codes, StartAll(jobs), schedule)
    ensures var t := Execute(codes, StartAll(jobs), schedule)[s];
            t.done || Rank(t) + Turns(schedule, s) <= Rank(Start(jobs[s]))
    ensures Turns(schedule, s) >= Rank(Start(jobs[s])) ==> Execute(codes, StartAll(jobs), schedule)[s].done
  {
    if schedule == [] {
    } else {
      var init := schedule[..|schedule| - 1];
      EnoughTurnsFinish(codes, jobs, init, s);
      var t := Execute(codes, StartAll(jobs), init)[s];
      if !t.done { StepProgresses(codes, t); }
    }
  }

  ghost predicate AllDone(sys: System) {
    forall s :: s in sys ==> sys[s].done
  }

  /** The same tasks run with the same codes in any two complete interleavings, such as one server after another. */
  lemma InterleavingsAgree(codes: Oracle, jobs: map<Server, seq<JobSpec>>, one: seq<Server>, other: seq<Server>,
                           s: Server)
    requires s in jobs
    requires AllDone(Execute(codes, StartAll(jobs), one)) && AllDone(Execute(codes, StartAll(jobs), other))
    ensures s in Execute(codes, StartAll(jobs), one) && s in Execute(codes, StartAll(jobs), other)
    ensures Execute(codes, StartAll(jobs), one)[s].codes == Execute(codes, StartAll(jobs), other)[s].codes
  {
    ExecuteKeeps(codes, jobs, one, s);
    ExecuteKeeps(codes, jobs, other, s);
    CodesDetermined(codes, Execute(codes, StartAll(jobs), one)[s], Execute(codes, StartAll(jobs), other)[s]);
  }

  lemma CodesDetermined(codes: Oracle, t: Thread, u: Thread)
    requires ThreadInv(codes, t) && ThreadInv(codes, u) && t.jobs == u.jobs && t.done && u.done
    ensures t.codes == u.codes
  {
    forall j: nat, k: nat ensures Lookup(t.codes, (j, k)) == Lookup(u.codes, (j, k)) {
      if (j, k) in t.codes || (j, k) in u.codes {
        assert Lookup(t.codes, (j, k)) == Expected(codes, t.jobs, j, k) == Lookup(u.codes, (j, k));
      }
    }
    assert forall p :: p in t.codes <==> p in u.codes by {
      forall p: (nat, nat) ensures p in t.codes <==> p in u.codes {
        assert p == (p.0, p.1);
        assert Lookup(t.codes, (p.0, p.1)) == Lookup(u.codes, (p.0, p.1));
      }
    }
    forall p | p in t.codes ensures t.codes[p] == u.codes[p] {
      assert p == (p.0, p.1);
      assert Lookup(t.codes, (p.0, p.1)) == Lookup(u.codes, (p.0, p.1));
    }
  }

  // ---- what this means for testbeds ----

  /** The jobs before the testbeds: cleanup unless skipped, start-vms unless the VMs are containers. */
  function Preliminaries(server: Server, skipCleanup: bool, ceos: bool): seq<JobSpec> {
    (if skipCleanup then [] else [JobSpec([server + "_cleanup_vmhost"], false)])
    + (if ceos then [] else [JobSpec([server + "_start_vms"], false)])
  }

  lemma JobsAre(server: Server, tbs: seq<string>, skipCleanup: bool, ceos: bool)
    ensures BuildJobs(server, tbs, skipCleanup, ceos) == Preliminaries(server, skipCleanup, ceos) + TestbedJobs(tbs)
  {
    Prepended(skipCleanup, ceos, [JobSpec([server + "_cleanup_vmhost"], false)],
              [JobSpec([server + "_start_vms"], false)], TestbedJobs(tbs));
  }

  lemma Prepended(skipFirst: bool, skipSecond: bool, first: seq<JobSpec>, second: seq<JobSpec>, rest: seq<JobSpec>)
    ensures (if skipFirst then [] else first) + (if skipSecond then [] else second) + rest
            == var behind := if skipSecond then rest else second + rest; if skipFirst then behind else first + behind
  {
  }

  /** Behind any list of preliminary jobs, a testbed's tasks depend on that list and on each other only. */
  lemma TestbedRuns(codes: Oracle, first: seq<JobSpec>, tbs: seq<string>, i: nat)
    requires i < |tbs|
    ensures var jobs, j := first + TestbedJobs(tbs), |first| + i;
            && jobs[j] == InitTestbed(tbs[i])
            && (Runs(codes, jobs, j, 0) <==> forall m :: 0 <= m < |first| ==> !Fatal(codes, first[m]))
            && (Runs(codes, jobs, j, 1) <==> Runs(codes, jobs, j, 0) && codes(tbs[i] + "_add_topo") == 0)
  {
    var jobs, j := first + TestbedJobs(tbs), |first| + i;
    forall m | 0 <= m < j ensures Fatal(codes, jobs[m]) <==> m < |first| && Fatal(codes, first[m]) {
    }
    if m :| 0 <= m < |first| && Fatal(codes, first[m]) {
      assert Fatal(codes, jobs[m]);
    }
    assert jobs[j].tasks[..1][0] == tbs[i] + "_add_topo";
  }

  lemma SingleTaskFatal(codes: Oracle, task: TaskId)
    ensures Fatal(codes, JobSpec([task], false)) <==> codes(task) != 0
  {
    assert [task][0] == task;
  }

  /**
   A testbed's topology is added exactly when the server-wide jobs that were asked for returned 0, and its
   minigraph deployed exactly when the topology was added with code 0: no other testbed matters.
   */
  lemma TestbedsIndependent(codes: Oracle, server: Server, tbs: seq<string>, skipCleanup: bool, ceos: bool, i: nat)
    requires i < |tbs|
    ensures var jobs, j := BuildJobs(server, tbs, skipCleanup, ceos), |Preliminaries(server, skipCleanup, ceos)| + i;
            && j < |jobs| && jobs[j] == JobSpec([tbs[i] + "_add_topo", tbs[i] + "_deloy_mg"], true)
            && var ready := (skipCleanup || codes(server + "_cleanup_vmhost") == 0)
                && (ceos || codes(server + "_start_vms") == 0);
            && (Runs(codes, jobs, j, 0) <==> ready)
            && (Runs(codes, jobs, j, 1) <==> ready && codes(tbs[i] + "_add_topo") == 0)
  {
    var first := Preliminaries(server, skipCleanup, ceos);
    JobsAre(server, tbs, skipCleanup, ceos);
    TestbedRuns(codes, first, tbs, i);
    SingleTaskFatal(codes, server + "_cleanup_vmhost");
    SingleTaskFatal(codes, server + "_start_vms");
    assert |first| >= 1 ==>
             first[0] == JobSpec([server + (if skipCleanup then "_start_vms" else "_cleanup_vmhost")], false);
    assert |first| >= 2 ==> first[1] == JobSpec([server + "_start_vms"], false);
    assert (forall m :: 0 <= m < |first| ==> !Fatal(codes, first[m]))
      <==> (|first| >= 1 ==> !Fatal(codes, first[0])) && (|first| >= 2 ==> !Fatal(codes, first[1]));
  }

  /** The server-wide jobs: cleanup always runs if asked for, and the VMs start unless a cleanup failed. */
  lemma PreliminariesRun(codes: Oracle, server: Server, tbs: seq<string>, skipCleanup: bool, ceos: bool)
    ensures var jobs := BuildJobs(server, tbs, skipCleanup, ceos);
            && (!skipCleanup ==>
                  |jobs| > 0 && jobs[0] == JobSpec([server + "_cleanup_vmhost"], false) && Runs(codes, jobs, 0, 0))
            && (!ceos ==>
                  var j := if skipCleanup then 0 else 1;
                  && j < |jobs| && jobs[j] == JobSpec([server + "_start_vms"], false)
                  && (Runs(codes, jobs, j, 0) <==> skipCleanup || codes(server + "_cleanup_vmhost") == 0))
  {
    SingleTaskFatal(codes, server + "_cleanup_vmhost");
  }
}
