/** How runs can go on: every run can be continued until the job is done, and the output of a
    finished job is certain exactly as long as no timeout reclaims a task. */
module MapReduceProgress {
  import opened Collections
  import opened Jobs
  import opened Coordination
  import opened Workers
  import opened MapReduceSystem

  // ---- The job can always be finished

  /** The number of tasks not completed. */
  function Pending(t: Table): nat {
    if t == [] then 0 else Pending(t[..|t| - 1]) + if t[|t| - 1].completed then 0 else 1
  }

  lemma {:induction false} PendingFinish(t: Table, i: int)
    requires 0 <= i < |t| && !t[i].completed
    ensures Pending(t[i := Finished(t[i])]) == Pending(t) - 1
  {
    var n := |t| - 1;
    var u := t[i := Finished(t[i])];
    if i < n {
      PendingFinish(t[..n], i);
      assert u[..n] == t[..n][i := Finished(t[i])];
    } else {
      assert u[..n] == t[..n];
    }
  }

  lemma {:induction false} PendingSame(t: Table, u: Table)
    requires |t| == |u| && forall i :: 0 <= i < |t| ==> t[i].completed == u[i].completed
    ensures Pending(t) == Pending(u)
  {
    if t != [] { PendingSame(t[..|t| - 1], u[..|u| - 1]); }
  }

  /** A longer run, clean if the shorter one is. */
  ghost predicate Prolongs(job: Job, run: seq<System>, steps: seq<Step>, run': seq<System>, steps': seq<Step>) {
    IsRun(job, run', steps') && run <= run' && (CleanRun(job, run, steps) ==> CleanRun(job, run', steps'))
  }

  /** A longer run, clean if the shorter one is, in which no worker has lost a task. */
  ghost predicate Continues(job: Job, run: seq<System>, steps: seq<Step>, run': seq<System>, steps': seq<Step>)
    requires run != []
  {
    Prolongs(job, run, steps, run', steps') && run[|run| - 1].held <= run'[|run'| - 1].held
  }

  lemma Extend(job: Job, run: seq<System>, steps: seq<Step>, step: Step, s: System)
    requires IsRun(job, run, steps) && Next(job, run[|run| - 1], step, s)
    ensures IsRun(job, run + [s], steps + [step])
    ensures CleanRun(job, run, steps) && Clean(job, run[|run| - 1], step) ==> CleanRun(job, run + [s], steps + [step])
  {
    var run', steps' := run + [s], steps + [step];
    assert Shaped(job, run[|run| - 1]);
    hide Next, Clean, Shaped;
    forall k | 0 <= k < |steps'| ensures Next(job, run'[k], steps'[k], run'[k + 1]) {
      if k < |steps| { assert Next(job, run[k], steps[k], run[k + 1]); }
    }
    if CleanRun(job, run, steps) && Clean(job, run[|run| - 1], step) {
      forall k | 0 <= k < |steps'| ensures Shaped(job, run'[k]) && Clean(job, run'[k], steps'[k]) {
        if k < |steps| { assert Shaped(job, run[k]) && Clean(job, run[k], steps[k]); }
      }
    }
  }

  lemma ExtendCleanly(job: Job, run: seq<System>, steps: seq<Step>, step: Step, s: System)
    returns (run': seq<System>, steps': seq<Step>)
    requires IsRun(job, run, steps) && Next(job, run[|run| - 1], step, s)
      && Clean(job, run[|run| - 1], step)
    ensures Prolongs(job, run, steps, run', steps') && run' != [] && run'[|run'| - 1] == s
  {
    Extend(job, run, steps, step, s);
    run', steps' := run + [s], steps + [step];
  }

  lemma ProlongsTransitive(job: Job, run: seq<System>, steps: seq<Step>, run1: seq<System>, steps1: seq<Step>,
        run2: seq<System>, steps2: seq<Step>)
    requires Prolongs(job, run, steps, run1, steps1) && Prolongs(job, run1, steps1, run2, steps2)
    ensures Prolongs(job, run, steps, run2, steps2)
  {
    hide IsRun, CleanRun;
  }

  /** What executing a map task leaves in the files. */
  ghost function FilesAfter(job: Job, files: Files, kvs: seq<KeyValue>, id: int, n: int): Files
    requires 0 <= n
  {
    if n == 0 then files else FilesAfter(job, files, kvs, id, n - 1)[(id, n - 1) := InBucket(job, kvs, n - 1)]
  }

  lemma {:induction false} FilesAfterWritten(job: Job, files: Files, kvs: seq<KeyValue>, id: int, n: int)
    requires 0 <= n
    ensures Written(job, files, kvs, id, n, FilesAfter(job, files, kvs, id, n))
  {
    if n > 0 { FilesAfterWritten(job, files, kvs, id, n - 1); }
  }

  lemma {:induction false} SomeKeys(kvs: seq<KeyValue>) returns (ks: seq<string>)
    ensures ListsKeys(kvs, ks)
  {
    if kvs == [] {
      ks := [];
    } else {
      var rest, last := kvs[..|kvs| - 1], kvs[|kvs| - 1];
      ks := SomeKeys(rest);
      assert kvs == rest + [last];
      forall k ensures HasKey(kvs, k) <==> HasKey(rest, k) || last.key == k {
        HasKeyConcat(rest, [last], k);
        assert HasKey([last], k) <==> [last][0].key == k;
      }
      assert forall t :: 0 <= t < |ks| ==> ks[t] in ks;
      if !HasKey(rest, last.key) { ks := ks + [last.key]; }
    }
  }

  ghost predicate SameCompletion(t: Table, u: Table) {
    |t| == |u| && forall i :: 0 <= i < |t| ==> t[i].completed == u[i].completed
  }

  /** No task is assigned. */
  ghost predicate Settled(t: Table) {
    forall i :: 0 <= i < |t| ==> t[i].completed || t[i].Free()
  }

  lemma AllFree(t: Table, hs: seq<History>, clock: int)
    requires |t| == |hs| && TableAccounted(t, hs, clock)
    ensures var u := Reclaimed(t, clock + TIMEOUT + 1); SameCompletion(t, u) && Settled(u)
  {
    var u := Reclaimed(t, clock + TIMEOUT + 1);
    forall i | 0 <= i < |u| ensures u[i].completed || u[i].Free() { AccountedAt(t, hs, clock, i); }
  }

  /** Waiting out the timeout makes every unfinished task free. */
  lemma WaitOut(job: Job, run: seq<System>, steps: seq<Step>) returns (run': seq<System>, steps': seq<Step>)
    requires IsRun(job, run, steps)
    ensures Continues(job, run, steps, run', steps')
    ensures var c, d := run[|run| - 1].coord, run'[|run'| - 1].coord;
      SameCompletion(c.maps, d.maps) && SameCompletion(c.reduces, d.reduces) && Settled(d.maps) && Settled(d.reduces)
    ensures var s, s' := run[|run| - 1], run'[|run'| - 1];
      && Shaped(job, s)
      && s'.maps == ReclaimedIn(s.maps, s.coord.maps, s.clock + TIMEOUT + 1)
      && s'.reduces == ReclaimedIn(s.reduces, s.coord.reduces, s.clock + TIMEOUT + 1)
  {
    var s := run[|run| - 1];
    hide IsRun, CleanRun, TableAccounted, Output, Written, Gathered, AllPresent, SameCompletion, Settled;
    RunKeepsTasks(job, run, steps, |run| - 1);
    var s1 := s.(clock := s.clock + TIMEOUT + 1);
    Extend(job, run, steps, Tick(s1.clock), s1);
    var s2 := s1.(coord := TimedOut(s1.coord, s1.clock), maps := ReclaimedIn(s1.maps, s1.coord.maps, s1.clock),
      reduces := ReclaimedIn(s1.reduces, s1.coord.reduces, s1.clock));
    Extend(job, run + [s1], steps + [Tick(s1.clock)], CheckTimeouts, s2);
    run', steps' := run + [s1] + [s2], steps + [Tick(s1.clock)] + [CheckTimeouts];
    AllFree(s.coord.maps, s.maps, s.clock);
    AllFree(s.coord.reduces, s.reduces, s.clock);
  }

  lemma ExecuteMap(job: Job, s: System, i: int) returns (t: Task, step: Step, s': System)
    requires Shaped(job, s) && 0 <= i < |job.files| && MapTaskOf(job.files, job.nReduce, i) in s.held
    ensures Next(job, s, step, s') && Clean(job, s, step) && s'.coord == s.coord && s'.held == s.held - multiset{t}
      && !step.CheckTimeouts?
    ensures t == MapTaskOf(job.files, job.nReduce, i) && t in s'.reports
  {
    hide Written, Gathered, AllPresent, Output;
    t := MapTaskOf(job.files, job.nReduce, i);
    var files := FilesAfter(job, s.files, Emitted(job, i), i, job.nReduce);
    FilesAfterWritten(job, s.files, Emitted(job, i), i, job.nReduce);
    step := RunMap(t, files);
    s' := s.(held := s.held - multiset{t}, reports := s.reports + multiset{t}, files := files,
      maps := s.maps[i := HasRun(s.maps[i])]);
  }

  lemma SomeOutput(job: Job, kvs: seq<KeyValue>) returns (out: seq<string>)
    ensures Output(job, kvs, out)
  {
    var ks := SomeKeys(kvs);
    out := LinesFor(job, kvs, ks);
  }

  lemma ExecuteReduce(job: Job, s: System, i: int) returns (t: Task, step: Step, s': System)
    requires TasksInv(job, s) && 0 <= i < job.nReduce && AllDone(s.coord.maps)
      && ReduceTaskOf(|job.files|, i) in s.held
    ensures Next(job, s, step, s') && Clean(job, s, step) && s'.coord == s.coord && s'.held == s.held - multiset{t}
      && !step.CheckTimeouts?
    ensures t == ReduceTaskOf(|job.files|, i) && t in s'.reports
  {
    hide TableAccounted, FilesPresent, ReportsRan, Output, Written, Gathered, AllPresent;
    t := ReduceTaskOf(|job.files|, i);
    InputsPresent(job, s, i);
    var out := SomeOutput(job, Gathered(s.files, i, |job.files|));
    step := RunReduce(t, out);
    s' := s.(held := s.held - multiset{t}, reports := s.reports + multiset{t}, outs := s.outs[i := out],
      reduces := s.reduces[i := HasRun(s.reduces[i])]);
  }

  /** The task that a reply hands out. */
  ghost predicate IsGiven(job: Job, r: Reply, t: Task) {
    match r
    case GiveMap(i) => 0 <= i < |job.files| && t == MapTaskOf(job.files, job.nReduce, i)
    case GiveReduce(i) => 0 <= i < job.nReduce && t == ReduceTaskOf(|job.files|, i)
    case _ => false
  }

  /** Where no task is assigned and the job is unfinished, a request is answered with a task. */
  lemma SomethingGiven(c: Coord)
    requires Settled(c.maps) && Settled(c.reduces) && !(AllDone(c.maps) && AllDone(c.reduces))
    ensures Replied(c).GiveMap? || Replied(c).GiveReduce?
  {
    WaitMeans(c);
  }

  lemma GivenFacts(job: Job, s: System, t: Task)
    requires Shaped(job, s) && IsGiven(job, Replied(s.coord), t)
    ensures var s1 := AfterRequest(job, s);
      Shaped(job, s1) && s1.coord == Assigned(s.coord, s.clock) && s1.held == s.held + multiset{t}
    ensures Replied(s.coord).GiveReduce? ==> AllDone(AfterRequest(job, s).coord.maps)
  {
  }

  /** After a request that was answered with a task, the task can be executed. */
  lemma ExecuteGiven(job: Job, s: System, t: Task) returns (step: Step, s': System)
    requires Shaped(job, s) && TasksInv(job, AfterRequest(job, s))
      && IsGiven(job, Replied(s.coord), t)
    ensures Shaped(job, AfterRequest(job, s)) && Next(job, AfterRequest(job, s), step, s')
      && Clean(job, AfterRequest(job, s), step)
    ensures s'.coord == Assigned(s.coord, s.clock) && s'.held == s.held && t in s'.reports && !step.CheckTimeouts?
  {
    hide TasksInv, Replied, Next, Clean, AfterRequest, Assigned;
    GivenFacts(job, s, t);
    assert s.held + multiset{t} - multiset{t} == s.held;
    var s1, t' := AfterRequest(job, s), t;
    if Replied(s.coord).GiveMap? {
      t', step, s' := ExecuteMap(job, s1, t.id);
    } else {
      t', step, s' := ExecuteReduce(job, s1, t.id);
    }
  }

  lemma ReportStep(job: Job, s: System, t: Task) returns (s': System)
    requires Shaped(job, s) && t in s.reports && (IsMapTask(job, t) || IsReduceTask(job, t))
    ensures Next(job, s, Report(t), s') && Clean(job, s, Report(t)) && s'.coord == Reported(s.coord, t)
      && s'.held == s.held
  {
    s' := s.(reports := s.reports - multiset{t}, coord := Reported(s.coord, t));
  }

  lemma NextShaped(job: Job, s: System, step: Step, s': System)
    requires TasksInv(job, s) && Next(job, s, step, s')
    ensures Shaped(job, s')
  {
    hide TasksInv;
    NextTasks(job, s, step, s');
    TasksShaped(job, s');
  }

  lemma TasksShaped(job: Job, s: System)
    requires TasksInv(job, s)
    ensures Shaped(job, s)
  {
  }

  /** The task given in reply to a request. */
  lemma Given(job: Job, c: Coord) returns (t: Task)
    requires |c.maps| == |job.files| && |c.reduces| == job.nReduce && (Replied(c).GiveMap? || Replied(c).GiveReduce?)
    ensures IsGiven(job, Replied(c), t) && (IsMapTask(job, t) || IsReduceTask(job, t))
  {
    t := if Replied(c).GiveMap? then MapTaskOf(job.files, job.nReduce, Replied(c).i)
      else ReduceTaskOf(|job.files|, Replied(c).i);
  }

  /** Executing and reporting the task handed out completes it and nothing else. */
  lemma OneLessPending(job: Job, c: Coord, now: int, t: Task)
    requires |c.maps| == |job.files| && |c.reduces| == job.nReduce && IsGiven(job, Replied(c), t)
    requires Settled(c.maps) && Settled(c.reduces)
    ensures var d := Reported(Assigned(c, now), t); Settled(d.maps) && Settled(d.reduces)
    ensures var d := Reported(Assigned(c, now), t);
      && Pending(d.maps) + Pending(d.reduces) < Pending(c.maps) + Pending(c.reduces)
      && |d.reduces| == |c.reduces| && forall i ::
        0 <= i < |d.reduces| && Replied(c) != GiveReduce(i) ==> d.reduces[i].completed == c.reduces[i].completed
  {
    var a := Assigned(c, now);
    hide Pending;
    PendingSame(c.maps, a.maps);
    PendingSame(c.reduces, a.reduces);
    if t.taskType.Map? { PendingFinish(a.maps, t.id); } else { PendingFinish(a.reduces, t.id); }
  }

  lemma ThreeSteps(job: Job, s: System, step1: Step, s1: System, step2: Step, s2: System, step3: Step, s3: System)
    requires Next(job, s, step1, s1) && Next(job, s1, step2, s2) && Next(job, s2, step3, s3)
    requires !step1.CheckTimeouts? && !step2.CheckTimeouts? && !step3.CheckTimeouts?
    ensures SameReclaims(s.maps, s3.maps) && SameReclaims(s.reduces, s3.reduces)
  {
    hide Next;
    NextSameReclaims(job, s, step1, s1);
    NextSameReclaims(job, s1, step2, s2);
    NextSameReclaims(job, s2, step3, s3);
  }

  /** One worker asks for a task, executes it and reports it. */
  lemma WorkOnce(job: Job, s: System) returns (s1: System, step: Step, s2: System, t: Task, s3: System)
    requires TasksInv(job, s) && !JobDone(s) && Settled(s.coord.maps) && Settled(s.coord.reduces)
    ensures Next(job, s, Request, s1) && Next(job, s1, step, s2) && Next(job, s2, Report(t), s3)
    ensures Shaped(job, s1) && Clean(job, s1, step) && s3.held == s.held && !step.CheckTimeouts?
    ensures SameReclaims(s.maps, s3.maps) && SameReclaims(s.reduces, s3.reduces)
    ensures |s.coord.maps| == |job.files| && |s.coord.reduces| == job.nReduce && IsGiven(job, Replied(s.coord), t)
    ensures var a := Assigned(s.coord, s.clock);
      |a.maps| == |job.files| && |a.reduces| == job.nReduce && s3.coord == Reported(a, t)
  {
    TasksShaped(job, s);
    hide TasksInv, Settled, AfterRequest, Assigned, Reported, Replied, IsGiven, IsMapTask, IsReduceTask;
    SomethingGiven(s.coord);
    RequestTasks(job, s);
    s1 := AfterRequest(job, s);
    assert Next(job, s, Request, s1);
    hide Next, Clean, SameReclaims;
    t := Given(job, s.coord);
    step, s2 := ExecuteGiven(job, s, t);
    NextShaped(job, s1, step, s2);
    s3 := ReportStep(job, s2, t);
    ThreeSteps(job, s, Request, s1, step, s2, Report(t), s3);
  }

  lemma ExtendThree(job: Job, run: seq<System>, steps: seq<Step>, s1: System, step: Step, s2: System, t: Task,
        s3: System)
    returns (run': seq<System>, steps': seq<Step>)
    requires IsRun(job, run, steps)
    requires Next(job, run[|run| - 1], Request, s1) && Next(job, s1, step, s2) && Next(job, s2, Report(t), s3)
    requires Shaped(job, s1) && Clean(job, s1, step) && s3.held == run[|run| - 1].held
    ensures Continues(job, run, steps, run', steps') && run'[|run'| - 1] == s3
  {
    assert run != [] && Clean(job, run[|run| - 1], Request) && Clean(job, s2, Report(t));
    hide IsRun, CleanRun, Next, Clean;
    var run1, steps1 := ExtendCleanly(job, run, steps, Request, s1);
    var run2, steps2 := ExtendCleanly(job, run1, steps1, step, s2);
    run', steps' := ExtendCleanly(job, run2, steps2, Report(t), s3);
    ProlongsTransitive(job, run, steps, run1, steps1, run2, steps2);
    ProlongsTransitive(job, run, steps, run2, steps2, run', steps');
  }

  /** A continuation in which no task is reclaimed. */
  ghost predicate Quietly(job: Job, run: seq<System>, steps: seq<Step>, run': seq<System>, steps': seq<Step>)
    requires run != []
  {
    && Continues(job, run, steps, run', steps')
    && SameReclaims(run[|run| - 1].maps, run'[|run'| - 1].maps)
    && SameReclaims(run[|run| - 1].reduces, run'[|run'| - 1].reduces)
  }

  ghost predicate AllSettled(s: System) { Settled(s.coord.maps) && Settled(s.coord.reduces) }

  /** From a state in which no task is assigned, one more task can be completed. */
  lemma CompleteOne(job: Job, run: seq<System>, steps: seq<Step>) returns (run': seq<System>, steps': seq<Step>)
    requires IsRun(job, run, steps) && !JobDone(run[|run| - 1]) && AllSettled(run[|run| - 1])
    ensures Quietly(job, run, steps, run', steps') && AllSettled(run'[|run'| - 1])
    ensures var c, d := run[|run| - 1].coord, run'[|run'| - 1].coord;
      && Pending(d.maps) + Pending(d.reduces) < Pending(c.maps) + Pending(c.reduces)
      && |d.reduces| == |c.reduces| && forall i ::
        0 <= i < |d.reduces| && Replied(c) != GiveReduce(i) ==> d.reduces[i].completed == c.reduces[i].completed
  {
    var s := run[|run| - 1];
    RunKeepsTasks(job, run, steps, |run| - 1);
    hide IsRun, CleanRun, TasksInv, Pending, Settled, Next, Assigned, Reported, Replied, IsGiven, SameReclaims;
    var s1, step, s2, t, s3 := WorkOnce(job, s);
    run', steps' := ExtendThree(job, run, steps, s1, step, s2, t, s3);
    OneLessPending(job, s.coord, s.clock, t);
  }

  lemma ContinuesTransitive(job: Job, run: seq<System>, steps: seq<Step>, run1: seq<System>, steps1: seq<Step>,
        run2: seq<System>, steps2: seq<Step>)
    requires run != [] && Continues(job, run, steps, run1, steps1)
      && Continues(job, run1, steps1, run2, steps2)
    ensures Continues(job, run, steps, run2, steps2)
  {
    hide IsRun, CleanRun;
  }

  lemma QuietlyTransitive(job: Job, run: seq<System>, steps: seq<Step>, run1: seq<System>, steps1: seq<Step>,
        run2: seq<System>, steps2: seq<Step>)
    requires run != [] && Quietly(job, run, steps, run1, steps1)
      && Quietly(job, run1, steps1, run2, steps2)
    ensures Quietly(job, run, steps, run2, steps2)
  {
    hide Continues;
    ContinuesTransitive(job, run, steps, run1, steps1, run2, steps2);
  }

  lemma QuietlySelf(job: Job, run: seq<System>, steps: seq<Step>)
    requires IsRun(job, run, steps)
    ensures Quietly(job, run, steps, run, steps)
  {
  }

  lemma QuietlyRun(job: Job, run: seq<System>, steps: seq<Step>, run': seq<System>, steps': seq<Step>)
    requires run != [] && Quietly(job, run, steps, run', steps')
    ensures IsRun(job, run', steps') && run' != [] && Continues(job, run, steps, run', steps')
  {
  }

  /** Where no task is assigned the job can be finished without any timeout. */
  lemma {:induction false} FinishQuietly(job: Job, run: seq<System>, steps: seq<Step>)
    returns (run': seq<System>, steps': seq<Step>)
    requires IsRun(job, run, steps) && AllSettled(run[|run| - 1])
    ensures Quietly(job, run, steps, run', steps') && JobDone(run'[|run'| - 1])
    decreases Pending(run[|run| - 1].coord.maps) + Pending(run[|run| - 1].coord.reduces)
  {
    QuietlySelf(job, run, steps);
    hide Pending, Settled, Replied, Quietly, JobDone, AllSettled;
    if JobDone(run[|run| - 1]) {
      return run, steps;
    }
    var run1, steps1 := CompleteOne(job, run, steps);
    QuietlyRun(job, run, steps, run1, steps1);
    run', steps' := FinishQuietly(job, run1, steps1);
    QuietlyTransitive(job, run, steps, run1, steps1, run', steps');
  }

  /** No state is a dead end: every run can be continued until the job is done. */
  lemma CanFinish(job: Job, run: seq<System>, steps: seq<Step>) returns (run': seq<System>, steps': seq<Step>)
    requires IsRun(job, run, steps)
    ensures Continues(job, run, steps, run', steps') && JobDone(run'[|run'| - 1])
  {
    hide SameCompletion, Settled, JobDone;
    var run1, steps1 := WaitOut(job, run, steps);
    run', steps' := FinishQuietly(job, run1, steps1);
    ContinuesTransitive(job, run, steps, run1, steps1, run', steps');
  }

  // ---- Exactly when the output is certain

  /** Task `r` is assigned and no other task is. */
  ghost predicate OnlyAssigned(t: Table, r: int) {
    && 0 <= r < |t| && t[r].isAssigned && !t[r].completed
    && forall i :: 0 <= i < |t| && i != r ==> t[i].completed || t[i].Free()
  }

  /** Without any timeout, a run can be continued until a worker holds a given reduce task and no
      other task is assigned. */
  lemma {:induction false} CanHand(job: Job, run: seq<System>, steps: seq<Step>, r: int)
    returns (run': seq<System>, steps': seq<Step>)
    requires IsRun(job, run, steps) && AllSettled(run[|run| - 1])
    requires 0 <= r < |run[|run| - 1].coord.reduces| && !run[|run| - 1].coord.reduces[r].completed
    ensures Quietly(job, run, steps, run', steps') && ReduceTaskOf(|job.files|, r) in run'[|run'| - 1].held
    ensures Settled(run'[|run'| - 1].coord.maps) && OnlyAssigned(run'[|run'| - 1].coord.reduces, r)
    decreases Pending(run[|run| - 1].coord.maps) + Pending(run[|run| - 1].coord.reduces)
  {
    if Replied(run[|run| - 1].coord) == GiveReduce(r) {
      run', steps' := HandOut(job, run, steps, r);
    } else {
      assert !JobDone(run[|run| - 1]);
      hide Pending, Settled, Replied, IsRun, Quietly, AllSettled, OnlyAssigned, JobDone;
      var run1, steps1 := CompleteOne(job, run, steps);
      QuietlyRun(job, run, steps, run1, steps1);
      run', steps' := CanHand(job, run1, steps1, r);
      QuietlyTransitive(job, run, steps, run1, steps1, run', steps');
    }
  }

  lemma HandOutFacts(job: Job, s: System, r: int)
    requires Shaped(job, s) && Replied(s.coord) == GiveReduce(r) && AllSettled(s)
    ensures var s1 := AfterRequest(job, s);
      && s1.held == s.held + multiset{ReduceTaskOf(|job.files|, r)}
      && Settled(s1.coord.maps) && OnlyAssigned(s1.coord.reduces, r)
  {
  }

  lemma HandOut(job: Job, run: seq<System>, steps: seq<Step>, r: int) returns (run': seq<System>, steps': seq<Step>)
    requires IsRun(job, run, steps) && Replied(run[|run| - 1].coord) == GiveReduce(r)
    requires AllSettled(run[|run| - 1])
    ensures Quietly(job, run, steps, run', steps') && ReduceTaskOf(|job.files|, r) in run'[|run'| - 1].held
    ensures Settled(run'[|run'| - 1].coord.maps) && OnlyAssigned(run'[|run'| - 1].coord.reduces, r)
  {
    ShapedAt(job, run, steps);
    var s := run[|run| - 1];
    var s1 := AfterRequest(job, s);
    HandOutFacts(job, s, r);
    assert Next(job, s, Request, s1) && Clean(job, s, Request);
    NextSameReclaims(job, s, Request, s1);
    hide IsRun, CleanRun, AfterRequest, Next, Clean, SameReclaims, Settled, OnlyAssigned;
    Extend(job, run, steps, Request, s1);
    run', steps' := run + [s1], steps + [Request];
  }

  lemma ShapedAt(job: Job, run: seq<System>, steps: seq<Step>)
    requires IsRun(job, run, steps)
    ensures run != [] && Shaped(job, run[|run| - 1])
  {
    RunKeepsTasks(job, run, steps, |run| - 1);
  }

  lemma {:induction false} JoinedLength(outs: seq<seq<string>>, r: int)
    requires 0 <= r < |outs|
    ensures |Joined(outs[r := []])| == |Joined(outs)| - |outs[r]|
  {
    var n := |outs| - 1;
    if r < n {
      JoinedLength(outs[..n], r);
      assert outs[r := []][..n] == outs[..n][r := []];
    } else {
      assert outs[r := []][..n] == outs[..n];
    }
  }

  lemma SomeLine(job: Job, kvs: seq<KeyValue>, out: seq<string>, k: string)
    requires Output(job, kvs, out) && HasKey(kvs, k)
    ensures out != []
  {
    var ks :| ListsKeys(kvs, ks) && out == LinesFor(job, kvs, ks);
    assert k in ks;
  }

  lemma SameLength(job: Job, kvs: seq<KeyValue>, a: seq<string>, b: seq<string>)
    requires Output(job, kvs, a) && Output(job, kvs, b)
    ensures |a| == |b|
  {
    OutputUnique(job, kvs, a, b);
    assert |multiset(a)| == |multiset(b)|;
  }

  /** Emptying the output of a bucket that has a key makes the output of the job wrong. */
  lemma LostLines(job: Job, s: System, r: int, k: string, s': System)
    requires Inv(job, s) && JobDone(s) && 0 <= r < job.nReduce
      && HasKey(BucketPairs(job, r, |job.files|), k)
    requires s' == s.(outs := s.outs[r := []])
    ensures !Right(job, s')
  {
    hide Output, TableAccounted, HasKey, BucketPairs;
    DoneOutputs(job, s);
    AllRan(s.coord.reduces, s.reduces, s.clock);
    SomeLine(job, BucketPairs(job, r, |job.files|), s.outs[r], k);
    var outs := OutFiles(job, s);
    JoinedLength(outs, r);
    assert OutFiles(job, s') == outs[r := []];
    if Right(job, s') { SameLength(job, Pairs(job, |job.files|), Joined(outs), Joined(outs[r := []])); }
  }

  /** The number of times a task was reclaimed. */
  function SumReclaims(hs: seq<History>): int {
    if hs == [] then 0 else SumReclaims(hs[..|hs| - 1]) + hs[|hs| - 1].reclaims
  }

  function Reclaims(s: System): int { SumReclaims(s.maps) + SumReclaims(s.reduces) }

  lemma {:induction false} SumIs(hs: seq<History>, r: int)
    requires forall i :: 0 <= i < |hs| ==> hs[i].reclaims == if i == r then 1 else 0
    ensures SumReclaims(hs) == if 0 <= r < |hs| then 1 else 0
  {
    if hs != [] { SumIs(hs[..|hs| - 1], r); }
  }

  lemma {:induction false} SumZero(hs: seq<History>)
    requires forall i :: 0 <= i < |hs| ==> 0 <= hs[i].reclaims
    ensures 0 <= SumReclaims(hs)
    ensures SumReclaims(hs) == 0 ==> Unreclaimed(hs)
  {
    if hs != [] { SumZero(hs[..|hs| - 1]); }
  }

  /** Exactly the reduce task `r` has been reclaimed, once. */
  ghost predicate OneReclaim(s: System, r: int) {
    && Unreclaimed(s.maps)
    && 0 <= r < |s.reduces| && forall i :: 0 <= i < |s.reduces| ==> s.reduces[i].reclaims == if i == r then 1 else 0
  }

  lemma OneReclaimSum(s: System, r: int)
    requires OneReclaim(s, r)
    ensures Reclaims(s) == 1
  {
    SumIs(s.maps, -1);
    SumIs(s.reduces, r);
  }

  lemma StayOneReclaim(s: System, s': System, r: int)
    requires OneReclaim(s, r) && SameReclaims(s.maps, s'.maps) && SameReclaims(s.reduces, s'.reduces)
    ensures OneReclaim(s', r)
  {
  }

  /** Waiting out the timeout reclaims exactly the one task that is assigned. */
  lemma FirstReclaim(job: Job, s: System, r: int, s': System)
    requires TasksInv(job, s) && NoReclaims(s) && Settled(s.coord.maps) && OnlyAssigned(s.coord.reduces, r)
    requires s'.maps == ReclaimedIn(s.maps, s.coord.maps, s.clock + TIMEOUT + 1)
    requires s'.reduces == ReclaimedIn(s.reduces, s.coord.reduces, s.clock + TIMEOUT + 1)
    ensures OneReclaim(s', r)
  {
    hide FilesPresent, ReportsRan, Phased, TasksValid, TableAccounted;
    AccountedAt(s.coord.reduces, s.reduces, s.clock, r);
  }

  lemma QuietNoReclaims(s: System, s': System)
    requires NoReclaims(s) && SameReclaims(s.maps, s'.maps) && SameReclaims(s.reduces, s'.reduces)
    ensures NoReclaims(s')
  {
  }

  lemma StartReclaims(job: Job)
    ensures IsRun(job, [Start(job)], []) && CleanRun(job, [Start(job)], [])
    ensures AllSettled(Start(job)) && NoReclaims(Start(job)) && forall i ::
      0 <= i < job.nReduce ==> !Start(job).coord.reduces[i].completed
  {
  }

  /** A run of any job with one reclaim, after which the job is done and the worker that lost reduce
      task `r` still holds it. */
  lemma DoneWithStraggler(job: Job, r: int) returns (run: seq<System>, steps: seq<Step>)
    requires 0 <= r < job.nReduce
    ensures IsRun(job, run, steps) && CleanRun(job, run, steps) && JobDone(run[|run| - 1])
    ensures ReduceTaskOf(|job.files|, r) in run[|run| - 1].held && OneReclaim(run[|run| - 1], r)
  {
    var run0, steps0 := [Start(job)], [];
    StartReclaims(job);
    hide IsRun, CleanRun, Settled, OnlyAssigned, NoReclaims, SameReclaims, OneReclaim, JobDone, SameCompletion;
    var run1, steps1 := CanHand(job, run0, steps0, r);
    QuietNoReclaims(run0[0], run1[|run1| - 1]);
    RunKeepsTasks(job, run1, steps1, |run1| - 1);
    var run2, steps2 := WaitOut(job, run1, steps1);
    FirstReclaim(job, run1[|run1| - 1], r, run2[|run2| - 1]);
    run, steps := FinishQuietly(job, run2, steps2);
    StayOneReclaim(run2[|run2| - 1], run[|run| - 1], r);
  }

  /** Every job that emits a pair has a run with a single reclaim that ends with the job done and
      output missing: the worker whose task was reassigned and completed by another begins to write
      its output file. */
  lemma LosesOutput(job: Job) returns (run: seq<System>, steps: seq<Step>)
    requires !Empty(job)
    ensures IsRun(job, run, steps) && Reclaims(run[|run| - 1]) == 1
    ensures JobDone(run[|run| - 1]) && !Right(job, run[|run| - 1])
  {
    var k := Pairs(job, |job.files|)[0].key;
    var r := BucketOf(job, k);
    BucketPairsFacts(job, r, |job.files|, k);
    hide IsRun, CleanRun, HasKey, BucketPairs, Pairs, OneReclaim;
    var run1, steps1 := DoneWithStraggler(job, r);
    OneReclaimSum(run1[|run1| - 1], r);
    run, steps := TearLast(job, run1, steps1, r, k);
  }

  lemma TearLast(job: Job, run: seq<System>, steps: seq<Step>, r: int, k: string)
    returns (run': seq<System>, steps': seq<Step>)
    requires IsRun(job, run, steps) && CleanRun(job, run, steps) && JobDone(run[|run| - 1])
    requires 0 <= r < job.nReduce && HasKey(BucketPairs(job, r, |job.files|), k)
      && ReduceTaskOf(|job.files|, r) in run[|run| - 1].held
    ensures IsRun(job, run', steps') && JobDone(run'[|run'| - 1]) && !Right(job, run'[|run'| - 1])
    ensures Reclaims(run'[|run'| - 1]) == Reclaims(run[|run| - 1])
  {
    var s := run[|run| - 1];
    RunInv(job, run, steps, |run| - 1);
    hide IsRun, CleanRun, Right, HasKey, BucketPairs, FilesIntact, OutsIntact, TasksInv, Next;
    var step, s' := Tear(job, s, r);
    Extend(job, run, steps, step, s');
    run', steps' := run + [s'], steps + [step];
    LostLines(job, s, r, k, s');
  }

  lemma Tear(job: Job, s: System, r: int) returns (step: Step, s': System)
    requires TasksInv(job, s) && AllDone(s.coord.maps) && 0 <= r < job.nReduce
      && ReduceTaskOf(|job.files|, r) in s.held
    ensures Next(job, s, step, s') && s' == s.(outs := s.outs[r := []])
  {
    hide TableAccounted, FilesPresent, ReportsRan, TasksValid, Phased, Output, Gathered, AllPresent, Written;
    InputsPresent(job, s, r);
    var out := SomeOutput(job, Gathered(s.files, r, |job.files|));
    step, s' := TearReduce(ReduceTaskOf(|job.files|, r), out, 0), s.(outs := s.outs[r := []]);
    assert out[..0] == [];
  }

  /** Once the job is done, the output is right in every run with at most `n` reclaims. */
  ghost predicate RightWithin(job: Job, n: int) {
    forall run, steps :: IsRun(job, run, steps) && JobDone(run[|run| - 1]) && Reclaims(run[|run| - 1]) <= n ==>
      Right(job, run[|run| - 1])
  }

  lemma NoneReclaimed(job: Job, s: System)
    requires TasksInv(job, s) && Reclaims(s) <= 0
    ensures NoReclaims(s)
  {
    hide FilesPresent, ReportsRan, Phased, TasksValid;
    SumZero(s.maps);
    SumZero(s.reduces);
  }

  /** The output of a finished job is certain exactly if no timeout reclaims a task, unless the job
      emits nothing: one reclaim is enough to lose output. */
  lemma TimeoutsDecide(job: Job, n: nat)
    ensures RightWithin(job, n) <==> n == 0 || Empty(job)
  {
    if n == 0 || Empty(job) {
      forall run, steps | IsRun(job, run, steps) && JobDone(run[|run| - 1]) && Reclaims(run[|run| - 1]) <= n
        ensures Right(job, run[|run| - 1])
      {
        RunKeepsTasks(job, run, steps, |run| - 1);
        if n == 0 { NoneReclaimed(job, run[|run| - 1]); }
        RunInv(job, run, steps, |run| - 1);
        DoneOutputs(job, run[|run| - 1]);
      }
    } else {
      var run, steps := LosesOutput(job);
    }
  }

  /** Whatever happens, the output is right once the job is done. */
  ghost predicate AlwaysRight(job: Job) {
    forall run, steps :: IsRun(job, run, steps) && JobDone(run[|run| - 1]) ==> Right(job, run[|run| - 1])
  }

  /** Over all runs, with any number of reclaims, the output is certain exactly for jobs that emit nothing. */
  lemma RightOnlyIfEmpty(job: Job)
    ensures AlwaysRight(job) <==> Empty(job)
  {
    if Empty(job) {
      forall run, steps | IsRun(job, run, steps) && JobDone(run[|run| - 1]) ensures Right(job, run[|run| - 1]) {
        RunInv(job, run, steps, |run| - 1);
        DoneOutputs(job, run[|run| - 1]);
      }
    } else {
      var run, steps := LosesOutput(job);
    }
  }
}
