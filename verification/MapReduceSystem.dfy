/** The whole MapReduce system as a state machine: coordinator, workers, files, crashes, lost
    messages, timeouts and late or duplicate reports.

    Executing a task is one step, except that its half-done writes can be seen before that step,
    and a worker that crashes leaves them behind. */
module MapReduceSystem {
  import opened Collections
  import opened Jobs
  import opened Coordination
  import opened Workers

  /** What has happened to one task: when it was handed out, how often it was reclaimed after a
      timeout, and whether some worker ever executed it to the end. */
  datatype History = History(handouts: seq<int>, reclaims: int, ran: bool)

  datatype System = System(
    coord: Coord,
    clock: int,
    held: multiset<Task>,             // tasks in the hands of workers
    reports: multiset<Task>,          // completion reports on their way
    files: Files,                     // mr-i-r
    outs: map<int, seq<string>>,      // mr-out-r
    maps: seq<History>,
    reduces: seq<History>)

  datatype Step =
    | Tick(now: int)
    | Request
    | RunMap(t: Task, files: Files)
    | RunReduce(t: Task, out: seq<string>)
    | TearMap(t: Task, n: int, k: int, files: Files)       // n files created, k pairs written so far
    | TearReduce(t: Task, out: seq<string>, k: int)        // k lines of out written so far
    | Lose(t: Task)
    | Report(t: Task)
    | LoseReport(t: Task)
    | CheckTimeouts

  function Start(job: Job): System {
    System(Coord(seq(|job.files|, _ => Status(false, 0, false)), seq(job.nReduce, _ => Status(false, 0, false))),
           0, multiset{}, multiset{}, map[], map[],
           seq(|job.files|, _ => History([], 0, false)), seq(job.nReduce, _ => History([], 0, false)))
  }

  ghost predicate IsMapTask(job: Job, t: Task) {
    0 <= t.id < |job.files| && t == MapTaskOf(job.files, job.nReduce, t.id)
  }

  ghost predicate IsReduceTask(job: Job, t: Task) {
    0 <= t.id < job.nReduce && t == ReduceTaskOf(|job.files|, t.id)
  }

  function Recorded(h: History, now: int): History { h.(handouts := h.handouts + [now]) }

  function HasRun(h: History): History { h.(ran := true) }

  function ReclaimedIn(hs: seq<History>, t: Table, now: int): (r: seq<History>)
    requires |hs| == |t|
    ensures |r| == |hs|
  {
    seq(|hs|, i requires 0 <= i < |hs| => if t[i].Expired(now) then hs[i].(reclaims := hs[i].reclaims + 1) else hs[i])
  }

  /** The tables and histories have one entry for each task. */
  ghost predicate Shaped(job: Job, s: System) {
    && |s.coord.maps| == |s.maps| == |job.files|
    && |s.coord.reduces| == |s.reduces| == job.nReduce
  }

  /** A worker asks for a task; it may get one. */
  function AfterRequest(job: Job, s: System): System
    requires Shaped(job, s)
  {
    var c := Assigned(s.coord, s.clock);
    match Replied(s.coord)
    case GiveMap(i) => s.(coord := c, held := s.held + multiset{MapTaskOf(job.files, job.nReduce, i)},
      maps := s.maps[i := Recorded(s.maps[i], s.clock)])
    case GiveReduce(i) => s.(coord := c, held := s.held + multiset{ReduceTaskOf(|job.files|, i)},
      reduces := s.reduces[i := Recorded(s.reduces[i], s.clock)])
    case TellWait => s
    case TellExit => s
  }

  ghost predicate Next(job: Job, s: System, step: Step, s': System) {
    Shaped(job, s) &&
    match step
    case Tick(now) => s.clock <= now && s' == s.(clock := now)
    case Request => s' == AfterRequest(job, s)
    case RunMap(t, files) =>
      && t in s.held && IsMapTask(job, t)
      && Written(job, s.files, Emitted(job, t.id), t.id, job.nReduce, files)
      && s' == s.(held := s.held - multiset{t}, reports := s.reports + multiset{t}, files := files,
        maps := s.maps[t.id := HasRun(s.maps[t.id])])
    case RunReduce(t, out) =>
      && t in s.held && IsReduceTask(job, t)
      && AllPresent(s.files, t.id, t.numOfFiles) && Output(job, Gathered(s.files, t.id, t.numOfFiles), out)
      && s' == s.(held := s.held - multiset{t}, reports := s.reports + multiset{t}, outs := s.outs[t.id := out],
        reduces := s.reduces[t.id := HasRun(s.reduces[t.id])])
    case TearMap(t, n, k, files) =>
      && t in s.held && IsMapTask(job, t)
      && 0 <= n <= job.nReduce && 0 <= k <= |Emitted(job, t.id)| && (n < job.nReduce ==> k == 0)
      && Written(job, s.files, Emitted(job, t.id)[..k], t.id, n, files)
      && s' == s.(files := files)
    case TearReduce(t, out, k) =>
      && t in s.held && IsReduceTask(job, t)
      && AllPresent(s.files, t.id, t.numOfFiles) && Output(job, Gathered(s.files, t.id, t.numOfFiles), out)
        && 0 <= k <= |out|
      && s' == s.(outs := s.outs[t.id := out[..k]])
    case Lose(t) => t in s.held && s' == s.(held := s.held - multiset{t})
    case Report(t) =>
      && t in s.reports && (IsMapTask(job, t) || IsReduceTask(job, t))
      && s' == s.(reports := s.reports - multiset{t}, coord := Reported(s.coord, t))
    case LoseReport(t) => t in s.reports && s' == s.(reports := s.reports - multiset{t})
    case CheckTimeouts =>
      s' == s.(coord := TimedOut(s.coord, s.clock), maps := ReclaimedIn(s.maps, s.coord.maps, s.clock),
        reduces := ReclaimedIn(s.reduces, s.coord.reduces, s.clock))
  }

  /** No worker begins to rewrite the files of a task that another worker has already executed. */
  ghost predicate Clean(job: Job, s: System, step: Step)
    requires Shaped(job, s)
  {
    && (step.TearMap? && 0 <= step.t.id < |s.maps| ==> !s.maps[step.t.id].ran)
    && (step.TearReduce? && 0 <= step.t.id < |s.reduces| ==> !s.reduces[step.t.id].ran)
  }

  ghost predicate IsRun(job: Job, run: seq<System>, steps: seq<Step>) {
    && |run| == |steps| + 1 && run[0] == Start(job)
    && forall k :: 0 <= k < |steps| ==> Next(job, run[k], steps[k], run[k + 1])
  }

  ghost predicate CleanRun(job: Job, run: seq<System>, steps: seq<Step>) {
    |run| == |steps| + 1 && forall k :: 0 <= k < |steps| ==> Shaped(job, run[k]) && Clean(job, run[k], steps[k])
  }

  // ---- Handouts: one task at a time

  ghost predicate Spaced(ts: seq<int>) {
    forall i, j :: 0 <= i < j < |ts| ==> ts[j] - ts[i] > TIMEOUT
  }

  /** A task's status agrees with its history: it is handed out once more than it was reclaimed
      while assigned, and is free only when its last handout has timed out. */
  ghost predicate Accounted(st: Status, h: History, clock: int) {
    && Spaced(h.handouts) && 0 <= h.reclaims
    && (forall i :: 0 <= i < |h.handouts| ==> h.handouts[i] <= clock)
    && !(st.isAssigned && st.completed)
    && (st.isAssigned ==> |h.handouts| == h.reclaims + 1 && h.handouts[|h.handouts| - 1] == st.startTime)
    && (st.Free() ==>
          |h.handouts| == h.reclaims && forall i :: 0 <= i < |h.handouts| ==> clock - h.handouts[i] > TIMEOUT)
    && (st.completed ==> h.reclaims <= |h.handouts| <= h.reclaims + 1 && h.ran)
  }

  lemma AccountedHand(st: Status, h: History, now: int)
    requires Accounted(st, h, now) && st.Free()
    ensures Accounted(Handed(st, now), Recorded(h, now), now)
  {
  }

  lemma AccountedReclaim(st: Status, h: History, now: int)
    requires Accounted(st, h, now) && st.Expired(now)
    ensures Accounted(st.(isAssigned := false), h.(reclaims := h.reclaims + 1), now)
  {
    var n := |h.handouts| - 1;
    forall i | 0 <= i <= n ensures now - h.handouts[i] > TIMEOUT {
      if i < n { assert h.handouts[n] - h.handouts[i] > TIMEOUT; }
    }
  }

  lemma AccountedFinish(st: Status, h: History, now: int)
    requires Accounted(st, h, now) && h.ran
    ensures Accounted(Finished(st), h, now)
  {
  }

  ghost predicate TableAccounted(t: Table, hs: seq<History>, clock: int)
    requires |t| == |hs|
  {
    forall i :: 0 <= i < |t| ==> Accounted(t[i], hs[i], clock)
  }

  lemma TableReclaim(t: Table, hs: seq<History>, now: int)
    requires |t| == |hs| && TableAccounted(t, hs, now)
    ensures TableAccounted(Reclaimed(t, now), ReclaimedIn(hs, t, now), now)
  {
    hide Accounted;
    forall i | 0 <= i < |t| ensures Accounted(Reclaimed(t, now)[i], ReclaimedIn(hs, t, now)[i], now) {
      if t[i].Expired(now) { AccountedReclaim(t[i], hs[i], now); }
    }
  }

  lemma TableTick(t: Table, hs: seq<History>, clock: int, now: int)
    requires |t| == |hs| && TableAccounted(t, hs, clock) && clock <= now
    ensures TableAccounted(t, hs, now)
  {
    forall i | 0 <= i < |t| ensures Accounted(t[i], hs[i], now) { assert Accounted(t[i], hs[i], clock); }
  }

  /** A change to one task that keeps it accounted for keeps the whole table accounted for. */
  lemma TableUpdate(t: Table, hs: seq<History>, clock: int, i: int, st: Status, h: History)
    requires |t| == |hs| && TableAccounted(t, hs, clock) && 0 <= i < |t| && Accounted(st, h, clock)
    ensures TableAccounted(t[i := st], hs[i := h], clock)
  {
  }

  lemma RanAccounted(st: Status, h: History, clock: int)
    requires Accounted(st, h, clock)
    ensures Accounted(st, HasRun(h), clock)
  {
  }

  // ---- The invariant of the system

  ghost predicate TasksValid(job: Job, ts: multiset<Task>) {
    forall t :: t in ts ==> IsMapTask(job, t) || IsReduceTask(job, t)
  }

  /** Every map task that has run has created its files. */
  ghost predicate FilesPresent(job: Job, files: Files, hs: seq<History>) {
    forall i, r :: 0 <= i < |hs| && hs[i].ran && 0 <= r < job.nReduce ==> (i, r) in files
  }

  /** The files of every map task that has run hold exactly its buckets. */
  ghost predicate FilesIntact(job: Job, files: Files, hs: seq<History>)
    requires |hs| == |job.files|
  {
    forall i, r :: 0 <= i < |hs| && hs[i].ran && 0 <= r < job.nReduce ==>
      (i, r) in files && files[(i, r)] == InBucket(job, Emitted(job, i), r)
  }

  /** The output of every reduce task that has run is the output for its bucket. */
  ghost predicate OutsIntact(job: Job, outs: map<int, seq<string>>, hs: seq<History>) {
    forall r :: 0 <= r < |hs| && hs[r].ran ==> r in outs && Output(job, BucketPairs(job, r, |job.files|), outs[r])
  }

  ghost predicate ReportsRan(ts: multiset<Task>, maps: seq<History>, reduces: seq<History>) {
    forall t :: t in ts ==>
      && (t.taskType.Map? && 0 <= t.id < |maps| ==> maps[t.id].ran)
      && (t.taskType.Reduce? && 0 <= t.id < |reduces| ==> reduces[t.id].ran)
  }

  /** A worker holds a reduce task only once all map tasks are completed. */
  ghost predicate Phased(held: multiset<Task>, maps: Table) {
    forall t :: t in held && t.taskType.Reduce? ==> AllDone(maps)
  }

  /** What every run keeps. */
  ghost predicate TasksInv(job: Job, s: System) {
    && Shaped(job, s)
    && TableAccounted(s.coord.maps, s.maps, s.clock) && TableAccounted(s.coord.reduces, s.reduces, s.clock)
    && TasksValid(job, s.held) && TasksValid(job, s.reports)
    && FilesPresent(job, s.files, s.maps)
    && ReportsRan(s.reports, s.maps, s.reduces)
    && Phased(s.held, s.coord.maps)
  }

  /** What clean runs keep besides. */
  ghost predicate Inv(job: Job, s: System) {
    TasksInv(job, s) && FilesIntact(job, s.files, s.maps) && OutsIntact(job, s.outs, s.reduces)
  }

  lemma StartInv(job: Job)
    ensures Inv(job, Start(job))
  {
  }

  lemma AccountedAt(t: Table, hs: seq<History>, clock: int, i: int)
    requires |t| == |hs| && TableAccounted(t, hs, clock) && 0 <= i < |t|
    ensures Accounted(t[i], hs[i], clock)
  {
  }

  lemma RequestTasks(job: Job, s: System)
    requires TasksInv(job, s)
    ensures TasksInv(job, AfterRequest(job, s))
  {
    hide Accounted, TableAccounted;
    var c := s.coord;
    match Replied(c)
    case GiveMap(i) =>
      AccountedAt(c.maps, s.maps, s.clock, i);
      AccountedHand(c.maps[i], s.maps[i], s.clock);
      TableUpdate(c.maps, s.maps, s.clock, i, Handed(c.maps[i], s.clock), Recorded(s.maps[i], s.clock));
      assert !AllDone(c.maps);
    case GiveReduce(i) =>
      AccountedAt(c.reduces, s.reduces, s.clock, i);
      AccountedHand(c.reduces[i], s.reduces[i], s.clock);
      TableUpdate(c.reduces, s.reduces, s.clock, i, Handed(c.reduces[i], s.clock), Recorded(s.reduces[i], s.clock));
    case TellWait =>
    case TellExit =>
  }

  lemma TableRan(t: Table, hs: seq<History>, clock: int, i: int)
    requires |t| == |hs| && TableAccounted(t, hs, clock) && 0 <= i < |t|
    ensures TableAccounted(t, hs[i := HasRun(hs[i])], clock)
  {
    RanAccounted(t[i], hs[i], clock);
    TableUpdate(t, hs, clock, i, t[i], HasRun(hs[i]));
    assert t[i := t[i]] == t;
  }

  lemma TableReported(t: Table, hs: seq<History>, clock: int, i: int)
    requires |t| == |hs| && TableAccounted(t, hs, clock) && 0 <= i < |t| && hs[i].ran
    ensures TableAccounted(t[i := Finished(t[i])], hs, clock)
  {
    AccountedFinish(t[i], hs[i], clock);
    TableUpdate(t, hs, clock, i, Finished(t[i]), hs[i]);
    assert hs[i := hs[i]] == hs;
  }

  lemma RunMapTasks(job: Job, s: System, t: Task, files: Files, s': System)
    requires TasksInv(job, s) && Next(job, s, RunMap(t, files), s')
    ensures TasksInv(job, s')
  {
    hide Accounted, TableAccounted, Phased, ReportsRan;
    TableRan(s.coord.maps, s.maps, s.clock, t.id);
    MoreReports(s.reports, t, s.maps, s.reduces, s'.maps, s'.reduces);
    FewerHeld(s.held, s'.held, s.coord.maps);
  }

  lemma MoreReports(ts: multiset<Task>, t: Task, maps: seq<History>, reduces: seq<History>, maps': seq<History>,
        reduces': seq<History>)
    requires ReportsRan(ts, maps, reduces) && |maps| == |maps'| && |reduces| == |reduces'|
    requires forall i :: 0 <= i < |maps| && maps[i].ran ==> maps'[i].ran
    requires forall i :: 0 <= i < |reduces| && reduces[i].ran ==> reduces'[i].ran
    requires (t.taskType.Map? && 0 <= t.id < |maps| ==> maps'[t.id].ran)
      && (t.taskType.Reduce? && 0 <= t.id < |reduces| ==> reduces'[t.id].ran)
    ensures ReportsRan(ts + multiset{t}, maps', reduces')
  {
  }

  lemma FewerHeld(ts: multiset<Task>, fewer: multiset<Task>, maps: Table)
    requires Phased(ts, maps) && fewer <= ts
    ensures Phased(fewer, maps)
  {
  }

  lemma RunReduceTasks(job: Job, s: System, t: Task, out: seq<string>, s': System)
    requires TasksInv(job, s) && Next(job, s, RunReduce(t, out), s')
    ensures TasksInv(job, s')
  {
    hide Accounted, TableAccounted, FilesPresent, Phased, ReportsRan, Output, Gathered, AllPresent;
    TableRan(s.coord.reduces, s.reduces, s.clock, t.id);
    MoreReports(s.reports, t, s.maps, s.reduces, s'.maps, s'.reduces);
    FewerHeld(s.held, s'.held, s.coord.maps);
  }

  lemma ReportTasks(job: Job, s: System, t: Task, s': System)
    requires TasksInv(job, s) && Next(job, s, Report(t), s')
    ensures TasksInv(job, s')
  {
    hide Accounted, TableAccounted;
    if t.taskType.Map? {
      TableReported(s.coord.maps, s.maps, s.clock, t.id);
    } else {
      TableReported(s.coord.reduces, s.reduces, s.clock, t.id);
    }
  }

  lemma TimeoutTasks(job: Job, s: System, s': System)
    requires TasksInv(job, s) && Next(job, s, CheckTimeouts, s')
    ensures TasksInv(job, s')
  {
    hide Accounted, TableAccounted;
    TableReclaim(s.coord.maps, s.maps, s.clock);
    TableReclaim(s.coord.reduces, s.reduces, s.clock);
    assert forall i :: 0 <= i < |s.maps| ==> s'.maps[i].ran == s.maps[i].ran;
    assert forall i :: 0 <= i < |s.reduces| ==> s'.reduces[i].ran == s.reduces[i].ran;
  }

  lemma TearTasks(job: Job, s: System, step: Step, s': System)
    requires TasksInv(job, s) && Next(job, s, step, s') && (step.TearMap? || step.TearReduce?)
    ensures TasksInv(job, s')
  {
    hide Accounted, TableAccounted, Output, Gathered, AllPresent;
  }

  lemma NextTasks(job: Job, s: System, step: Step, s': System)
    requires TasksInv(job, s) && Next(job, s, step, s')
    ensures TasksInv(job, s')
  {
    hide TableAccounted, FilesPresent, ReportsRan, AfterRequest, Reported, TimedOut, ReclaimedIn, Written, Output,
      Gathered, AllPresent;
    match step
    case Tick(now) =>
      TableTick(s.coord.maps, s.maps, s.clock, now);
      TableTick(s.coord.reduces, s.reduces, s.clock, now);
    case Request => RequestTasks(job, s);
    case RunMap(t, files) => RunMapTasks(job, s, t, files, s');
    case RunReduce(t, out) => RunReduceTasks(job, s, t, out, s');
    case TearMap(_, _, _, _) => TearTasks(job, s, step, s');
    case TearReduce(_, _, _) => TearTasks(job, s, step, s');
    case Lose(_) =>
    case Report(t) => ReportTasks(job, s, t, s');
    case LoseReport(_) => FewerReports(s.reports, s'.reports, s.maps, s.reduces);
    case CheckTimeouts => TimeoutTasks(job, s, s');
  }

  lemma FewerReports(ts: multiset<Task>, fewer: multiset<Task>, maps: seq<History>, reduces: seq<History>)
    requires ReportsRan(ts, maps, reduces) && fewer <= ts
    ensures ReportsRan(fewer, maps, reduces)
  {
  }

  // ---- Files and outputs in clean runs

  lemma {:induction false} GatheredIs(job: Job, files: Files, hs: seq<History>, r: int, n: int)
    requires |hs| == |job.files| && FilesIntact(job, files, hs)
    requires 0 <= n <= |hs| && 0 <= r < job.nReduce && forall i :: 0 <= i < n ==> hs[i].ran
    ensures Gathered(files, r, n) == BucketPairs(job, r, n)
  {
    if n > 0 { GatheredIs(job, files, hs, r, n - 1); }
  }

  lemma AllRan(t: Table, hs: seq<History>, clock: int)
    requires |t| == |hs| && TableAccounted(t, hs, clock) && AllDone(t)
    ensures forall i :: 0 <= i < |hs| ==> hs[i].ran
  {
    forall i | 0 <= i < |hs| ensures hs[i].ran { AccountedAt(t, hs, clock, i); }
  }

  /** Once all map tasks are completed, every reduce task finds its input files. */
  lemma InputsPresent(job: Job, s: System, r: int)
    requires TasksInv(job, s) && AllDone(s.coord.maps) && 0 <= r < job.nReduce
    ensures AllPresent(s.files, r, |job.files|)
  {
    AllRan(s.coord.maps, s.maps, s.clock);
  }

  /** And, in clean runs, its whole bucket in them. */
  lemma InputsReady(job: Job, s: System, r: int)
    requires Inv(job, s) && AllDone(s.coord.maps) && 0 <= r < job.nReduce
    ensures Gathered(s.files, r, |job.files|) == BucketPairs(job, r, |job.files|)
  {
    AllRan(s.coord.maps, s.maps, s.clock);
    GatheredIs(job, s.files, s.maps, r, |job.files|);
  }

  ghost predicate SameRan(hs: seq<History>, hs': seq<History>) {
    |hs| == |hs'| && forall i :: 0 <= i < |hs| ==> hs[i].ran == hs'[i].ran
  }

  lemma FilesKept(job: Job, files: Files, hs: seq<History>, hs': seq<History>)
    requires |hs| == |job.files| && FilesIntact(job, files, hs) && SameRan(hs, hs')
    ensures FilesIntact(job, files, hs')
  {
  }

  lemma OutsKept(job: Job, outs: map<int, seq<string>>, hs: seq<History>, hs': seq<History>)
    requires OutsIntact(job, outs, hs) && SameRan(hs, hs')
    ensures OutsIntact(job, outs, hs')
  {
    hide Output;
  }

  lemma RequestKeepsRan(job: Job, s: System)
    requires Shaped(job, s)
    ensures var s' := AfterRequest(job, s);
      SameRan(s.maps, s'.maps) && SameRan(s.reduces, s'.reduces) && s'.files == s.files && s'.outs == s.outs
  {
    assert SameRan(s.maps, s.maps) && SameRan(s.reduces, s.reduces);
    hide FirstFree, Assigned, Replied;
    match Replied(s.coord)
    case GiveMap(i) => RecordKeepsRan(s.maps, i, s.clock);
    case GiveReduce(i) => RecordKeepsRan(s.reduces, i, s.clock);
    case TellWait =>
    case TellExit =>
  }

  lemma RecordKeepsRan(hs: seq<History>, i: int, now: int)
    requires 0 <= i < |hs|
    ensures SameRan(hs, hs[i := Recorded(hs[i], now)])
  {
  }

  lemma ReclaimKeepsRan(job: Job, s: System)
    requires Shaped(job, s)
    ensures SameRan(s.maps, ReclaimedIn(s.maps, s.coord.maps, s.clock))
      && SameRan(s.reduces, ReclaimedIn(s.reduces, s.coord.reduces, s.clock))
  {
  }

  lemma NextKeepsRan(job: Job, s: System, step: Step, s': System)
    requires Next(job, s, step, s')
    ensures Shaped(job, s)
    ensures !step.RunMap? ==> SameRan(s.maps, s'.maps)
    ensures !step.RunReduce? ==> SameRan(s.reduces, s'.reduces)
    ensures !step.RunMap? && !step.TearMap? ==> s'.files == s.files
    ensures !step.RunReduce? && !step.TearReduce? ==> s'.outs == s.outs
  {
    assert SameRan(s.maps, s.maps) && SameRan(s.reduces, s.reduces);
    hide Written, Output, Gathered, AllPresent, Reported, TimedOut, AfterRequest, ReclaimedIn, SameRan;
    match step
    case Request => RequestKeepsRan(job, s);
    case CheckTimeouts => ReclaimKeepsRan(job, s);
    case _ =>
  }

  /** Steps that do not write intermediate files keep them intact, and likewise for the outputs. */
  lemma NextKeepsRest(job: Job, s: System, step: Step, s': System)
    requires Inv(job, s) && Next(job, s, step, s')
    ensures Shaped(job, s)
    ensures !step.RunMap? && !step.TearMap? ==> |s'.maps| == |job.files| && FilesIntact(job, s'.files, s'.maps)
    ensures !step.RunReduce? && !step.TearReduce? ==> OutsIntact(job, s'.outs, s'.reduces)
  {
    hide TasksInv, FilesIntact, OutsIntact, Next;
    NextKeepsRan(job, s, step, s');
    if !step.RunMap? && !step.TearMap? { FilesKept(job, s.files, s.maps, s'.maps); }
    if !step.RunReduce? && !step.TearReduce? { OutsKept(job, s.outs, s.reduces, s'.reduces); }
  }

  /** The job emits no pairs. */
  ghost predicate Empty(job: Job) { Pairs(job, |job.files|) == [] }

  lemma {:induction false} NothingEmitted(job: Job, n: int)
    requires 0 <= n <= |job.files| && Pairs(job, n) == []
    ensures forall i :: 0 <= i < n ==> Emitted(job, i) == []
    ensures forall r :: BucketPairs(job, r, n) == []
  {
    if n > 0 { NothingEmitted(job, n - 1); }
  }

  lemma NoLines(job: Job, out: seq<string>)
    requires Output(job, [], out)
    ensures out == []
  {
    var ks :| ListsKeys([], ks) && out == LinesFor(job, [], ks);
    assert forall k :: !HasKey([], k);
    SameElements(ks, []);
    assert |multiset(ks)| == 0;
  }

  lemma TornMapIntact(job: Job, s: System, step: Step, s': System)
    requires Inv(job, s) && Next(job, s, step, s') && step.TearMap?
      && (Clean(job, s, step) || Empty(job))
    ensures FilesIntact(job, s'.files, s'.maps)
  {
    hide TasksInv, OutsIntact;
    if Empty(job) { NothingEmitted(job, |job.files|); }
  }

  lemma OutsUpdate(job: Job, outs: map<int, seq<string>>, hs: seq<History>, r: int, out: seq<string>, h: History)
    requires OutsIntact(job, outs, hs) && 0 <= r < |hs|
    requires h.ran ==> Output(job, BucketPairs(job, r, |job.files|), out)
    ensures OutsIntact(job, outs[r := out], hs[r := h])
  {
    hide Output;
  }

  lemma TornOutIntact(job: Job, s: System, step: Step, s': System)
    requires Inv(job, s) && Next(job, s, step, s') && step.TearReduce?
      && (Clean(job, s, step) || Empty(job))
    ensures OutsIntact(job, s'.outs, s'.reduces)
  {
    hide TableAccounted, FilesIntact, OutsIntact, Output, Gathered, BucketPairs, AllPresent;
    var r := step.t.id;
    if Empty(job) {
      NothingEmitted(job, |job.files|);
      InputsReady(job, s, r);
      NoLines(job, step.out);
    }
    assert s.reduces[r := s.reduces[r]] == s.reduces;
    OutsUpdate(job, s.outs, s.reduces, r, step.out[..step.k], s.reduces[r]);
  }

  lemma RunMapIntact(job: Job, s: System, t: Task, files: Files, s': System)
    requires Inv(job, s) && Next(job, s, RunMap(t, files), s')
    ensures FilesIntact(job, s'.files, s'.maps)
  {
    hide TasksInv, OutsIntact;
  }

  lemma RunReduceIntact(job: Job, s: System, t: Task, out: seq<string>, s': System)
    requires Inv(job, s) && Next(job, s, RunReduce(t, out), s')
    ensures OutsIntact(job, s'.outs, s'.reduces)
  {
    hide TableAccounted, FilesIntact, OutsIntact, Output, Gathered, BucketPairs, AllPresent;
    InputsReady(job, s, t.id);
    OutsUpdate(job, s.outs, s.reduces, t.id, out, HasRun(s.reduces[t.id]));
  }

  lemma NextInv(job: Job, s: System, step: Step, s': System)
    requires Inv(job, s) && Next(job, s, step, s') && (Clean(job, s, step) || Empty(job))
    ensures Inv(job, s')
  {
    NextTasks(job, s, step, s');
    NextKeepsRest(job, s, step, s');
    hide TasksInv, FilesIntact, OutsIntact, Next, Empty, SameRan, Clean;
    match step
    case RunMap(t, files) => RunMapIntact(job, s, t, files, s');
    case RunReduce(t, out) => RunReduceIntact(job, s, t, out, s');
    case TearMap(_, _, _, _) => TornMapIntact(job, s, step, s');
    case TearReduce(_, _, _) => TornOutIntact(job, s, step, s');
    case _ =>
  }

  // ---- Without timeouts every run is clean

  /** Each task of `ts` is in the hands of workers, or has been executed, no more often than it was handed out. */
  ghost predicate CountedIn(ts: seq<Task>, held: multiset<Task>, hs: seq<History>) {
    |ts| == |hs| && forall i :: 0 <= i < |ts| ==> held[ts[i]] + (if hs[i].ran then 1 else 0) <= |hs[i].handouts|
  }

  ghost function MapTasks(job: Job): seq<Task> {
    seq(|job.files|, i requires 0 <= i < |job.files| => MapTaskOf(job.files, job.nReduce, i))
  }

  ghost function ReduceTasks(job: Job): seq<Task> {
    seq(job.nReduce, i => ReduceTaskOf(|job.files|, i))
  }

  ghost predicate Counted(job: Job, s: System) {
    CountedIn(MapTasks(job), s.held, s.maps) && CountedIn(ReduceTasks(job), s.held, s.reduces)
  }

  lemma HandCounted(ts: seq<Task>, held: multiset<Task>, hs: seq<History>, i: int, now: int)
    requires Distinct(ts) && CountedIn(ts, held, hs) && 0 <= i < |ts|
    ensures CountedIn(ts, held + multiset{ts[i]}, hs[i := Recorded(hs[i], now)])
  {
  }

  lemma HandElsewhere(ts: seq<Task>, held: multiset<Task>, hs: seq<History>, t: Task)
    requires CountedIn(ts, held, hs) && forall i :: 0 <= i < |ts| ==> ts[i] != t
    ensures CountedIn(ts, held + multiset{t}, hs)
  {
  }

  lemma RanCounted(ts: seq<Task>, held: multiset<Task>, hs: seq<History>, i: int)
    requires Distinct(ts) && CountedIn(ts, held, hs) && 0 <= i < |ts| && ts[i] in held
    ensures CountedIn(ts, held - multiset{ts[i]}, hs[i := HasRun(hs[i])])
  {
  }

  /** Workers may give tasks up, and histories may record reclaims. */
  lemma FewerCounted(ts: seq<Task>, held: multiset<Task>, fewer: multiset<Task>, hs: seq<History>, hs': seq<History>)
    requires CountedIn(ts, held, hs) && fewer <= held && |hs'| == |hs|
    requires forall i :: 0 <= i < |hs| ==> hs'[i].ran == hs[i].ran && hs'[i].handouts == hs[i].handouts
    ensures CountedIn(ts, fewer, hs')
  {
    forall i | 0 <= i < |ts| ensures fewer[ts[i]] + (if hs'[i].ran then 1 else 0) <= |hs'[i].handouts| {
      assert fewer[ts[i]] <= held[ts[i]];
    }
  }

  lemma RequestCounted(job: Job, s: System)
    requires Shaped(job, s) && Counted(job, s)
    ensures Counted(job, AfterRequest(job, s))
  {
    var ms, rs := MapTasks(job), ReduceTasks(job);
    hide CountedIn, FirstFree;
    match Replied(s.coord)
    case GiveMap(i) =>
      HandCounted(ms, s.held, s.maps, i, s.clock);
      HandElsewhere(rs, s.held, s.reduces, ms[i]);
    case GiveReduce(i) =>
      HandCounted(rs, s.held, s.reduces, i, s.clock);
      HandElsewhere(ms, s.held, s.maps, rs[i]);
    case TellWait =>
    case TellExit =>
  }

  lemma RunTaskCounted(job: Job, s: System, step: Step, s': System)
    requires Counted(job, s) && Next(job, s, step, s') && (step.RunMap? || step.RunReduce?)
    ensures Counted(job, s')
  {
    hide CountedIn, Written, Output, Gathered, AllPresent;
    var ms, rs, t := MapTasks(job), ReduceTasks(job), step.t;
    if step.RunMap? {
      RanCounted(ms, s.held, s.maps, t.id);
      FewerCounted(rs, s.held, s'.held, s.reduces, s'.reduces);
    } else {
      RanCounted(rs, s.held, s.reduces, t.id);
      FewerCounted(ms, s.held, s'.held, s.maps, s'.maps);
    }
  }

  lemma NextCounted(job: Job, s: System, step: Step, s': System)
    requires Counted(job, s) && Next(job, s, step, s')
    ensures Counted(job, s')
  {
    hide CountedIn, AfterRequest, Written, Output, Gathered, AllPresent, Reported, TimedOut;
    match step
    case Request => RequestCounted(job, s);
    case RunMap(_, _) => RunTaskCounted(job, s, step, s');
    case RunReduce(_, _) => RunTaskCounted(job, s, step, s');
    case Lose(t) =>
      FewerCounted(MapTasks(job), s.held, s'.held, s.maps, s'.maps);
      FewerCounted(ReduceTasks(job), s.held, s'.held, s.reduces, s'.reduces);
    case CheckTimeouts =>
      FewerCounted(MapTasks(job), s.held, s'.held, s.maps, s'.maps);
      FewerCounted(ReduceTasks(job), s.held, s'.held, s.reduces, s'.reduces);
    case _ =>
  }

  lemma {:induction false} RunCounted(job: Job, run: seq<System>, steps: seq<Step>, k: int)
    requires IsRun(job, run, steps) && 0 <= k < |run|
    ensures Counted(job, run[k])
    decreases k
  {
    hide Next;
    if k > 0 {
      hide Counted;
      RunCounted(job, run, steps, k - 1);
      NextCounted(job, run[k - 1], steps[k - 1], run[k]);
    }
  }

  ghost predicate Unreclaimed(hs: seq<History>) { forall i :: 0 <= i < |hs| ==> hs[i].reclaims == 0 }

  /** No task has been reclaimed after a timeout. */
  ghost predicate NoReclaims(s: System) { Unreclaimed(s.maps) && Unreclaimed(s.reduces) }

  ghost predicate SomeExpired(t: Table, now: int) { exists i :: 0 <= i < |t| && t[i].Expired(now) }

  /** The step is a timeout check that reclaims a task. */
  ghost predicate Fires(s: System, step: Step) {
    step.CheckTimeouts? && (SomeExpired(s.coord.maps, s.clock) || SomeExpired(s.coord.reduces, s.clock))
  }

  lemma TableFires(t: Table, hs: seq<History>, now: int)
    requires |t| == |hs| && TableAccounted(t, hs, now)
    ensures Unreclaimed(ReclaimedIn(hs, t, now)) <==> Unreclaimed(hs) && !SomeExpired(t, now)
  {
    var hs' := ReclaimedIn(hs, t, now);
    forall i | 0 <= i < |hs| ensures hs'[i].reclaims == 0 <==> hs[i].reclaims == 0 && !t[i].Expired(now) {
      AccountedAt(t, hs, now, i);
    }
  }

  ghost predicate SameReclaims(hs: seq<History>, hs': seq<History>) {
    |hs| == |hs'| && forall i :: 0 <= i < |hs| ==> hs'[i].reclaims == hs[i].reclaims
  }

  lemma RequestReclaims(job: Job, s: System)
    requires Shaped(job, s)
    ensures SameReclaims(s.maps, AfterRequest(job, s).maps) && SameReclaims(s.reduces, AfterRequest(job, s).reduces)
  {
    hide FirstFree;
  }

  /** Only a timeout check changes how often a task was reclaimed. */
  lemma NextSameReclaims(job: Job, s: System, step: Step, s': System)
    requires Next(job, s, step, s') && !step.CheckTimeouts?
    ensures SameReclaims(s.maps, s'.maps) && SameReclaims(s.reduces, s'.reduces)
  {
    hide AfterRequest, Written, Output, Gathered, AllPresent, Reported;
    if step.Request? { RequestReclaims(job, s); }
  }

  lemma NextReclaims(job: Job, s: System, step: Step, s': System)
    requires TasksInv(job, s) && Next(job, s, step, s')
    ensures NoReclaims(s') <==> NoReclaims(s) && !Fires(s, step)
  {
    hide TableAccounted, FilesPresent, ReportsRan, Phased, TasksValid, Written, Output, Gathered, AllPresent,
      AfterRequest;
    hide Reported, ReclaimedIn, SomeExpired;
    if step.CheckTimeouts? {
      TableFires(s.coord.maps, s.maps, s.clock);
      TableFires(s.coord.reduces, s.reduces, s.clock);
    } else {
      NextSameReclaims(job, s, step, s');
    }
  }

  /** A task has been reclaimed exactly if the guard of the timeout check was true at some step. */
  lemma {:induction false} ReclaimedOnlyByTimeout(job: Job, run: seq<System>, steps: seq<Step>, k: int)
    requires IsRun(job, run, steps) && 0 <= k < |run|
    ensures NoReclaims(run[k]) <==> forall j :: 0 <= j < k ==> !Fires(run[j], steps[j])
    decreases k
  {
    hide Next, Fires;
    if k > 0 {
      hide NoReclaims;
      RunKeepsTasks(job, run, steps, k - 1);
      ReclaimedOnlyByTimeout(job, run, steps, k - 1);
      NextReclaims(job, run[k - 1], steps[k - 1], run[k]);
    }
  }

  lemma NotRan(t: Table, hs: seq<History>, clock: int, ts: seq<Task>, held: multiset<Task>, i: int)
    requires |t| == |hs| && TableAccounted(t, hs, clock) && CountedIn(ts, held, hs)
    requires 0 <= i < |ts| && ts[i] in held && hs[i].reclaims == 0
    ensures !hs[i].ran
  {
    AccountedAt(t, hs, clock, i);
  }

  /** Before any task was reclaimed, a worker that holds a task is the only one that ever got it. */
  lemma CleanWithoutReclaims(job: Job, s: System, step: Step, s': System)
    requires TasksInv(job, s) && Counted(job, s) && Next(job, s, step, s') && NoReclaims(s')
    ensures Shaped(job, s) && Clean(job, s, step)
  {
    NextReclaims(job, s, step, s');
    hide TableAccounted, CountedIn, FilesPresent, ReportsRan, Phased, TasksValid, Written, Output, Gathered, AllPresent;
    if step.TearMap? {
      assert MapTasks(job)[step.t.id] == step.t;
      NotRan(s.coord.maps, s.maps, s.clock, MapTasks(job), s.held, step.t.id);
    } else if step.TearReduce? {
      assert ReduceTasks(job)[step.t.id] == step.t;
      NotRan(s.coord.reduces, s.reduces, s.clock, ReduceTasks(job), s.held, step.t.id);
    }
  }

  // ---- Runs

  lemma {:induction false} RunKeepsTasks(job: Job, run: seq<System>, steps: seq<Step>, k: int)
    requires IsRun(job, run, steps) && 0 <= k < |run|
    ensures TasksInv(job, run[k])
    decreases k
  {
    hide TasksInv, Next;
    if k > 0 {
      RunKeepsTasks(job, run, steps, k - 1);
      NextTasks(job, run[k - 1], steps[k - 1], run[k]);
    } else {
      StartInv(job);
    }
  }

  lemma {:induction false} RunInv(job: Job, run: seq<System>, steps: seq<Step>, k: int)
    requires IsRun(job, run, steps) && 0 <= k < |run|
    requires CleanRun(job, run, steps) || NoReclaims(run[k]) || Empty(job)
    ensures Inv(job, run[k])
    decreases k
  {
    hide Inv, Empty, Next, Clean, NoReclaims, Fires, Counted;
    if k > 0 {
      RunKeepsTasks(job, run, steps, k - 1);
      RunCounted(job, run, steps, k - 1);
      NextReclaims(job, run[k - 1], steps[k - 1], run[k]);
      RunInv(job, run, steps, k - 1);
      if NoReclaims(run[k]) { CleanWithoutReclaims(job, run[k - 1], steps[k - 1], run[k]); }
      NextInv(job, run[k - 1], steps[k - 1], run[k]);
    } else {
      StartInv(job);
    }
  }

  /** What `Done` answers. */
  ghost predicate JobDone(s: System) { AllDone(s.coord.maps) && AllDone(s.coord.reduces) }

  ghost predicate OutsPresent(job: Job, s: System) {
    forall r :: 0 <= r < job.nReduce ==> r in s.outs
  }

  /** The output files mr-out-0, mr-out-1, ... */
  ghost function OutFiles(job: Job, s: System): seq<seq<string>>
    requires OutsPresent(job, s)
  {
    seq(job.nReduce, r requires 0 <= r < job.nReduce => s.outs[r])
  }

  /** The output files together are an output of the whole job. */
  ghost predicate Right(job: Job, s: System) {
    OutsPresent(job, s) && Output(job, Pairs(job, |job.files|), Joined(OutFiles(job, s)))
  }

  lemma DoneOutputs(job: Job, s: System)
    requires Inv(job, s) && JobDone(s)
    ensures Right(job, s)
  {
    hide Output;
    AllRan(s.coord.reduces, s.reduces, s.clock);
    JoinedIsOutput(job, OutFiles(job, s));
  }

  /** No timeout has reclaimed a task so far, or the run is clean. */
  ghost predicate Undisturbed(job: Job, run: seq<System>, steps: seq<Step>, k: int)
    requires 0 <= k < |run|
  {
    NoReclaims(run[k]) || CleanRun(job, run, steps)
  }

  /** Once the job is done and no task was ever reclaimed, the output files together hold exactly
      the lines of the sequential program, and likewise in every clean run. By Sequential.Run,
      `sequential` is any output of that program. */
  lemma MeaningPreserved(job: Job, run: seq<System>, steps: seq<Step>, k: int, sequential: seq<string>)
    requires Proper(job) && IsRun(job, run, steps) && 0 <= k < |run| && Undisturbed(job, run, steps, k)
    requires JobDone(run[k]) && Output(job, Pairs(job, |job.files|), sequential)
    ensures OutsPresent(job, run[k]) && multiset(Joined(OutFiles(job, run[k]))) == multiset(sequential)
    ensures exists ks :: ReportsKeys(job, ks, Joined(OutFiles(job, run[k])))
  {
    RunInv(job, run, steps, k);
    DoneOutputs(job, run[k]);
    OutputUnique(job, Pairs(job, |job.files|), Joined(OutFiles(job, run[k])), sequential);
    var ks :| ListsKeys(Pairs(job, |job.files|), ks)
      && Joined(OutFiles(job, run[k])) == LinesFor(job, Pairs(job, |job.files|), ks);
    OutputReports(job, ks);
  }

  ghost predicate NeverBoth(t: Table) {
    forall i :: 0 <= i < |t| ==> !(t[i].isAssigned && t[i].completed)
  }

  /** In every run no task is both assigned and completed, and a reduce task is handed out only
      when all map tasks are completed and all its input files exist. Undisturbed, those files
      hold its whole bucket, and a worker is told to exit only when every output is written. */
  lemma PhaseSafety(job: Job, run: seq<System>, steps: seq<Step>, k: int)
    requires IsRun(job, run, steps) && 0 <= k < |run|
    ensures NeverBoth(run[k].coord.maps) && NeverBoth(run[k].coord.reduces)
    ensures Replied(run[k].coord).GiveReduce? ==>
      AllDone(run[k].coord.maps) && AllPresent(run[k].files, Replied(run[k].coord).i, |job.files|)
    ensures Undisturbed(job, run, steps, k) && Replied(run[k].coord).GiveReduce? ==>
      Gathered(run[k].files, Replied(run[k].coord).i, |job.files|) == BucketPairs(job, Replied(run[k].coord).i,
        |job.files|)
    ensures Undisturbed(job, run, steps, k) && Replied(run[k].coord).TellExit? ==> Right(job, run[k])
  {
    RunKeepsTasks(job, run, steps, k);
    var s := run[k];
    assert NeverBoth(s.coord.maps) && NeverBoth(s.coord.reduces);
    hide TableAccounted, FilesIntact, OutsIntact, FirstFree, Right, CleanRun, IsRun, NeverBoth, NoReclaims;
    if Replied(s.coord).GiveReduce? { InputsPresent(job, s, Replied(s.coord).i); }
    if Undisturbed(job, run, steps, k) {
      RunInv(job, run, steps, k);
      if Replied(s.coord).GiveReduce? { InputsReady(job, s, Replied(s.coord).i); }
      if Replied(s.coord).TellExit? { DoneOutputs(job, s); }
    }
  }

  ghost predicate Later(t: Table, u: Table) {
    |t| == |u| && forall i :: 0 <= i < |t| && t[i].completed ==> u[i].completed
  }

  /** Completed tasks stay completed, so "exit" stays the reply. */
  lemma {:induction false} CompletedStays(job: Job, run: seq<System>, steps: seq<Step>, j: int, k: int)
    requires IsRun(job, run, steps) && 0 <= j <= k < |run|
    ensures CoordLater(run[j].coord, run[k].coord)
    ensures Replied(run[j].coord).TellExit? ==> Replied(run[k].coord).TellExit?
    decreases k
  {
    hide Next, Replied;
    if j < k {
      CompletedStays(job, run, steps, j, k - 1);
      NextKeepsCompleted(job, run[k - 1], steps[k - 1], run[k]);
      ExitLater(run[k - 1].coord, run[k].coord);
    }
  }

  ghost predicate CoordLater(c: Coord, d: Coord) { Later(c.maps, d.maps) && Later(c.reduces, d.reduces) }

  lemma ExitLater(c: Coord, d: Coord)
    requires CoordLater(c, d)
    ensures Replied(c).TellExit? ==> Replied(d).TellExit?
  {
  }

  lemma AssignedLater(c: Coord, now: int)
    ensures CoordLater(c, Assigned(c, now))
  {
  }

  lemma ReportedLater(c: Coord, t: Task)
    requires t.taskType.Map? ==> 0 <= t.id < |c.maps|
    requires t.taskType.Reduce? ==> 0 <= t.id < |c.reduces|
    ensures CoordLater(c, Reported(c, t))
  {
  }

  lemma TimedOutLater(c: Coord, now: int)
    ensures CoordLater(c, TimedOut(c, now))
  {
  }

  lemma RequestCoord(job: Job, s: System)
    requires Shaped(job, s)
    ensures AfterRequest(job, s).coord == Assigned(s.coord, s.clock)
  {
  }

  lemma SameLater(c: Coord)
    ensures CoordLater(c, c)
  {
  }

  lemma NextKeepsCompleted(job: Job, s: System, step: Step, s': System)
    requires Next(job, s, step, s')
    ensures CoordLater(s.coord, s'.coord)
  {
    hide Written, Output, Gathered, AllPresent, Assigned, Reported, TimedOut, AfterRequest, ReclaimedIn, CoordLater;
    SameLater(s.coord);
    match step
    case Request =>
      RequestCoord(job, s);
      AssignedLater(s.coord, s.clock);
    case Report(t) => ReportedLater(s.coord, t);
    case CheckTimeouts => TimedOutLater(s.coord, s.clock);
    case _ =>
  }

  // ---- Handouts over a run

  ghost predicate Extends(hs: seq<History>, hs': seq<History>) {
    |hs| == |hs'| && forall i :: 0 <= i < |hs| ==> hs[i].handouts <= hs'[i].handouts
  }

  lemma {:induction false} HandoutsKept(job: Job, run: seq<System>, steps: seq<Step>, j: int, k: int)
    requires IsRun(job, run, steps) && 0 <= j <= k < |run|
    ensures Extends(run[j].maps, run[k].maps) && Extends(run[j].reduces, run[k].reduces)
    decreases k
  {
    hide Next;
    if j < k {
      HandoutsKept(job, run, steps, j, k - 1);
      hide Extends;
      NextKeepsHandouts(job, run[k - 1], steps[k - 1], run[k]);
      ExtendsTransitive(run[j].maps, run[k - 1].maps, run[k].maps);
      ExtendsTransitive(run[j].reduces, run[k - 1].reduces, run[k].reduces);
    }
  }

  lemma ExtendsTransitive(a: seq<History>, b: seq<History>, c: seq<History>)
    requires Extends(a, b) && Extends(b, c)
    ensures Extends(a, c)
  {
  }

  lemma RequestKeepsHandouts(job: Job, s: System)
    requires Shaped(job, s)
    ensures Extends(s.maps, AfterRequest(job, s).maps) && Extends(s.reduces, AfterRequest(job, s).reduces)
  {
  }

  lemma RunKeepsHandouts(hs: seq<History>, i: int)
    requires 0 <= i < |hs|
    ensures Extends(hs, hs[i := HasRun(hs[i])])
  {
  }

  lemma ReclaimKeepsHandouts(hs: seq<History>, t: Table, now: int)
    requires |hs| == |t|
    ensures Extends(hs, ReclaimedIn(hs, t, now))
  {
  }

  lemma NextKeepsHandouts(job: Job, s: System, step: Step, s': System)
    requires Next(job, s, step, s')
    ensures Extends(s.maps, s'.maps) && Extends(s.reduces, s'.reduces)
  {
    assert Extends(s.maps, s.maps) && Extends(s.reduces, s.reduces);
    hide Written, Output, Gathered, AllPresent, AfterRequest, ReclaimedIn, Extends, Reported, TimedOut;
    match step
    case Request => RequestKeepsHandouts(job, s);
    case RunMap(t, _) => RunKeepsHandouts(s.maps, t.id);
    case RunReduce(t, _) => RunKeepsHandouts(s.reduces, t.id);
    case CheckTimeouts =>
      ReclaimKeepsHandouts(s.maps, s.coord.maps, s.clock);
      ReclaimKeepsHandouts(s.reduces, s.coord.reduces, s.clock);
    case _ =>
  }

  /** Two handouts of the same task are more than ten seconds apart. */
  lemma HandoutsSpaced(job: Job, run: seq<System>, steps: seq<Step>, j: int, k: int)
    requires IsRun(job, run, steps)
    requires 0 <= j < k < |steps| && steps[j].Request? && steps[k].Request?
    requires Replied(run[j].coord) == Replied(run[k].coord)
      && (Replied(run[j].coord).GiveMap? || Replied(run[j].coord).GiveReduce?)
    ensures run[k].clock - run[j].clock > 10_000_000_000
  {
    RunKeepsTasks(job, run, steps, k);
    HandoutsKept(job, run, steps, j + 1, k);
    assert Next(job, run[j], steps[j], run[j + 1]);
    var x := Replied(run[j].coord).i;
    var n := if Replied(run[j].coord).GiveMap? then |run[j].maps[x].handouts| else |run[j].reduces[x].handouts|;
    if Replied(run[j].coord).GiveMap? {
      assert run[j + 1].maps[x].handouts[n] == run[j].clock == run[k].maps[x].handouts[n];
      AccountedAt(run[k].coord.maps, run[k].maps, run[k].clock, x);
    } else {
      assert run[j + 1].reduces[x].handouts[n] == run[j].clock == run[k].reduces[x].handouts[n];
      AccountedAt(run[k].coord.reduces, run[k].reduces, run[k].clock, x);
    }
  }

  ghost predicate Conserved(h: History) { h.reclaims <= |h.handouts| <= h.reclaims + 1 }

  /** Every task is handed out as often as it was reclaimed, or once more; so a task that is
      never reclaimed is handed out at most once. */
  lemma HandoutsConserved(job: Job, run: seq<System>, steps: seq<Step>, k: int)
    requires IsRun(job, run, steps) && 0 <= k < |run|
    ensures forall i :: 0 <= i < |run[k].maps| ==> Conserved(run[k].maps[i])
    ensures forall i :: 0 <= i < |run[k].reduces| ==> Conserved(run[k].reduces[i])
  {
    RunKeepsTasks(job, run, steps, k);
    var s := run[k];
    forall i | 0 <= i < |s.maps| ensures Conserved(s.maps[i]) { AccountedAt(s.coord.maps, s.maps, s.clock, i); }
    forall i | 0 <= i < |s.reduces|
      ensures Conserved(s.reduces[i]) { AccountedAt(s.coord.reduces, s.reduces, s.clock, i); }
  }
}
