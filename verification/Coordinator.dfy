/** The MapReduce coordinator: task tables updated under a lock by the RPC handlers and by the
    timeout check. The functions say what each handler does to the tables; the class carries
    out the same updates with the loops of the implementation. */
module Coordination {

  /** Ten seconds, in nanoseconds. */
  const TIMEOUT: int := 10_000_000_000

  datatype TaskType = Map | Reduce | Wait | Exit

  datatype Task = Task(id: int, file: string, taskType: TaskType, numOfFiles: int)

  datatype Status = Status(isAssigned: bool, startTime: int, completed: bool) {
    predicate Free() { !completed && !isAssigned }

    predicate Expired(now: int) { isAssigned && !completed && now - startTime > TIMEOUT }
  }

  type Table = seq<Status>

  datatype Coord = Coord(maps: Table, reduces: Table)

  predicate AllDone(t: Table) { forall i :: 0 <= i < |t| ==> t[i].completed }

  /** The first task that is neither completed nor assigned, or |t|. */
  function FirstFree(t: Table): (r: int)
    ensures 0 <= r <= |t|
    ensures r < |t| ==> t[r].Free()
    ensures forall i :: 0 <= i < r ==> !t[i].Free()
  {
    if t == [] then 0
    else
      var r := FirstFree(t[..|t| - 1]);
      if r < |t| - 1 || t[|t| - 1].Free() then r else |t|
  }

  /** Task `i` is the first that is neither completed nor assigned. */
  ghost predicate FirstIn(t: Table, i: int) {
    && 0 <= i < |t| && !t[i].completed && !t[i].isAssigned
    && forall j :: 0 <= j < i ==> t[j].completed || t[j].isAssigned
  }

  datatype Reply = GiveMap(i: int) | GiveReduce(i: int) | TellWait | TellExit

  function Replied(c: Coord): (r: Reply)
    ensures r.GiveMap? ==> 0 <= r.i < |c.maps|
    ensures r.GiveReduce? ==> 0 <= r.i < |c.reduces|
  {
    if FirstFree(c.maps) < |c.maps| then GiveMap(FirstFree(c.maps))
    else if AllDone(c.maps) && FirstFree(c.reduces) < |c.reduces| then GiveReduce(FirstFree(c.reduces))
    else if AllDone(c.maps) && AllDone(c.reduces) then TellExit
    else TellWait
  }

  function Handed(s: Status, now: int): Status { s.(isAssigned := true, startTime := now) }

  /** The tables after a task request at time `now`. */
  function Assigned(c: Coord, now: int): Coord {
    match Replied(c)
    case GiveMap(i) => c.(maps := c.maps[i := Handed(c.maps[i], now)])
    case GiveReduce(i) => c.(reduces := c.reduces[i := Handed(c.reduces[i], now)])
    case TellWait => c
    case TellExit => c
  }

  function Finished(s: Status): Status { s.(completed := true, isAssigned := false) }

  /** A report that the tables have an entry for, or that concerns no table. */
  predicate Known(c: Coord, t: Task) {
    (t.taskType.Map? ==> 0 <= t.id < |c.maps|) && (t.taskType.Reduce? ==> 0 <= t.id < |c.reduces|)
  }

  /** The tables after a completion report. */
  function Reported(c: Coord, t: Task): Coord
    requires Known(c, t)
  {
    match t.taskType
    case Map => c.(maps := c.maps[t.id := Finished(c.maps[t.id])])
    case Reduce => c.(reduces := c.reduces[t.id := Finished(c.reduces[t.id])])
    case Wait => c
    case Exit => c
  }

  function Reclaimed(t: Table, now: int): (r: Table)
    ensures |r| == |t|
  {
    seq(|t|, i requires 0 <= i < |t| => if t[i].Expired(now) then t[i].(isAssigned := false) else t[i])
  }

  /** The tables after one round of the timeout check. */
  function TimedOut(c: Coord, now: int): Coord { Coord(Reclaimed(c.maps, now), Reclaimed(c.reduces, now)) }

  function MapTaskOf(files: seq<string>, nReduce: int, i: int): Task
    requires 0 <= i < |files|
  {
    Task(i, files[i], Map, nReduce)
  }

  function ReduceTaskOf(nMap: int, i: int): Task { Task(i, "", Reduce, nMap) }

  /** "wait" is the reply exactly when the job is unfinished and every unfinished task of the
      current phase is assigned, so a report or a timeout can still move it forward. */
  lemma WaitMeans(c: Coord)
    ensures Replied(c).TellWait? <==>
      && !(AllDone(c.maps) && AllDone(c.reduces))
      && (forall i :: 0 <= i < |c.maps| && !c.maps[i].completed ==> c.maps[i].isAssigned)
      && (AllDone(c.maps) ==> forall i :: 0 <= i < |c.reduces| && !c.reduces[i].completed ==> c.reduces[i].isAssigned)
  {
    assert FirstFree(c.maps) == |c.maps| <==> forall i :: 0 <= i < |c.maps| ==> !c.maps[i].Free();
    assert FirstFree(c.reduces) == |c.reduces| <==> forall i :: 0 <= i < |c.reduces| ==> !c.reduces[i].Free();
  }

  class Coordinator {
    const files: seq<string>
    const nMap: int
    const nReduce: int
    var mapTasks: seq<Task>
    var reduceTasks: seq<Task>
    var mapTaskStatus: seq<Status>
    var reduceTaskStatus: seq<Status>
    var completed: bool

    ghost predicate Valid()
      reads this
    {
      && nMap == |files| && |mapTasks| == |mapTaskStatus| == nMap && |reduceTasks| == |reduceTaskStatus| == nReduce
      && (forall i :: 0 <= i < nMap ==> mapTasks[i] == MapTaskOf(files, nReduce, i))
      && (forall i :: 0 <= i < nReduce ==> reduceTasks[i] == ReduceTaskOf(nMap, i))
    }

    ghost function View(): Coord
      reads this
    {
      Coord(mapTaskStatus, reduceTaskStatus)
    }

    /** All tasks start neither assigned nor completed. */
    constructor (files: seq<string>, nReduce: nat)
      ensures Valid() && this.files == files && this.nReduce == nReduce && !completed
      ensures View() == Coord(seq(|files|, _ => Status(false, 0, false)), seq(nReduce, _ => Status(false, 0, false)))
    {
      this.files, nMap, this.nReduce, completed := files, |files|, nReduce, false;
      mapTasks, mapTaskStatus, reduceTasks, reduceTaskStatus := [], [], [], [];
      new;
      for i := 0 to |files|
        invariant |mapTasks| == |mapTaskStatus| == i && reduceTasks == [] && reduceTaskStatus == [] && !completed
        invariant forall j :: 0 <= j < i ==> mapTasks[j] == MapTaskOf(files, nReduce, j)
        invariant forall j :: 0 <= j < i ==> mapTaskStatus[j] == Status(false, 0, false)
      {
        mapTasks := mapTasks + [Task(i, files[i], Map, nReduce)];
        mapTaskStatus := mapTaskStatus + [Status(false, 0, false)];
      }
      ghost var maps := mapTasks;
      assert mapTaskStatus == seq(|files|, _ => Status(false, 0, false));
      for i := 0 to nReduce
        invariant |reduceTasks| == |reduceTaskStatus| == i && mapTasks == maps && !completed
        invariant mapTaskStatus == seq(|files|, _ => Status(false, 0, false))
        invariant forall j :: 0 <= j < i ==> reduceTasks[j] == ReduceTaskOf(|files|, j)
        invariant forall j :: 0 <= j < i ==> reduceTaskStatus[j] == Status(false, 0, false)
      {
        reduceTasks := reduceTasks + [Task(i, "", Reduce, |files|)];
        reduceTaskStatus := reduceTaskStatus + [Status(false, 0, false)];
      }
    }

    method AllMapTasksDone() returns (r: bool)
      ensures r <==> AllDone(mapTaskStatus)
    {
      for i := 0 to |mapTaskStatus|
        invariant forall j :: 0 <= j < i ==> mapTaskStatus[j].completed
      {
        if !mapTaskStatus[i].completed {
          return false;
        }
      }
      return true;
    }

    method AllReduceTasksDone() returns (r: bool)
      ensures r <==> AllDone(reduceTaskStatus)
    {
      for i := 0 to |reduceTaskStatus|
        invariant forall j :: 0 <= j < i ==> reduceTaskStatus[j].completed
      {
        if !reduceTaskStatus[i].completed {
          return false;
        }
      }
      return true;
    }

    method AssignTask(now: int) returns (reply: Task)
      requires Valid()
      modifies this`mapTaskStatus, this`reduceTaskStatus
      ensures Valid() && View() == Assigned(old(View()), now)
      ensures match Replied(old(View()))
              case GiveMap(i) => reply == MapTaskOf(files, nReduce, i)
              case GiveReduce(i) => reply == ReduceTaskOf(nMap, i)
              case TellWait => reply.taskType.Wait?
              case TellExit => reply.taskType.Exit?
      ensures reply.taskType.Map? ==>
        && 0 <= reply.id < nMap && reply.file == files[reply.id] && reply.numOfFiles == nReduce
        && FirstIn(old(mapTaskStatus), reply.id) && reduceTaskStatus == old(reduceTaskStatus)
        && mapTaskStatus == old(mapTaskStatus)[reply.id := Status(true, now, false)]
      ensures reply.taskType.Reduce? ==>
        && 0 <= reply.id < nReduce && reply.numOfFiles == |files|
        && (forall i :: 0 <= i < nMap ==> mapTaskStatus[i].completed)
        && FirstIn(old(reduceTaskStatus), reply.id) && mapTaskStatus == old(mapTaskStatus)
        && reduceTaskStatus == old(reduceTaskStatus)[reply.id := Status(true, now, false)]
      ensures reply.taskType.Wait? || reply.taskType.Exit? ==>
        mapTaskStatus == old(mapTaskStatus) && reduceTaskStatus == old(reduceTaskStatus)
    {
      for i := 0 to |mapTaskStatus|
        invariant mapTaskStatus == old(mapTaskStatus) && reduceTaskStatus == old(reduceTaskStatus)
        invariant forall j :: 0 <= j < i ==> !mapTaskStatus[j].Free()
      {
        var status := mapTaskStatus[i];
        if !status.completed && !status.isAssigned {
          reply := mapTasks[i];
          mapTaskStatus := mapTaskStatus[i := mapTaskStatus[i].(isAssigned := true)];
          mapTaskStatus := mapTaskStatus[i := mapTaskStatus[i].(startTime := now)];
          return;
        }
      }
      var mapsDone := AllMapTasksDone();
      if mapsDone {
        for i := 0 to |reduceTaskStatus|
          invariant mapTaskStatus == old(mapTaskStatus) && reduceTaskStatus == old(reduceTaskStatus)
          invariant forall j :: 0 <= j < i ==> !reduceTaskStatus[j].Free()
        {
          var status := reduceTaskStatus[i];
          if !status.completed && !status.isAssigned {
            reply := reduceTasks[i];
            reduceTaskStatus := reduceTaskStatus[i := reduceTaskStatus[i].(isAssigned := true)];
            reduceTaskStatus := reduceTaskStatus[i := reduceTaskStatus[i].(startTime := now)];
            return;
          }
        }
      }
      var reducesDone := AllReduceTasksDone();
      if mapsDone && reducesDone {
        return Task(0, "", Exit, 0);
      }
      return Task(0, "", Wait, 0);
    }

    /** False stands for the panic on a task number that the tables do not have. */
    method ReportTaskDone(args: Task) returns (ok: bool)
      requires Valid()
      modifies this`mapTaskStatus, this`reduceTaskStatus
      ensures Valid() && (ok <==> Known(old(View()), args))
      ensures View() == if ok then Reported(old(View()), args) else old(View())
      ensures ok && args.taskType.Map? ==>
        && reduceTaskStatus == old(reduceTaskStatus)
        && mapTaskStatus == old(mapTaskStatus)[args.id := Status(false, old(mapTaskStatus)[args.id].startTime, true)]
      ensures ok && args.taskType.Reduce? ==>
        && mapTaskStatus == old(mapTaskStatus)
        && reduceTaskStatus ==
             old(reduceTaskStatus)[args.id := Status(false, old(reduceTaskStatus)[args.id].startTime, true)]
    {
      if args.taskType.Map? {
        if !(0 <= args.id < |mapTaskStatus|) {
          return false;
        }
        mapTaskStatus := mapTaskStatus[args.id := mapTaskStatus[args.id].(completed := true)];
        mapTaskStatus := mapTaskStatus[args.id := mapTaskStatus[args.id].(isAssigned := false)];
      } else if args.taskType.Reduce? {
        if !(0 <= args.id < |reduceTaskStatus|) {
          return false;
        }
        reduceTaskStatus := reduceTaskStatus[args.id := reduceTaskStatus[args.id].(completed := true)];
        reduceTaskStatus := reduceTaskStatus[args.id := reduceTaskStatus[args.id].(isAssigned := false)];
      }
      return true;
    }

    /** One round of the loop of checkTaskTimeouts. */
    method CheckTaskTimeouts(now: int)
      requires Valid()
      modifies this`mapTaskStatus, this`reduceTaskStatus
      ensures Valid() && View() == TimedOut(old(View()), now)
      ensures forall i :: 0 <= i < |mapTaskStatus| ==> var s := old(mapTaskStatus)[i];
        mapTaskStatus[i] == if s.isAssigned && !s.completed && now - s.startTime > 10_000_000_000
                            then Status(false, s.startTime, s.completed) else s
      ensures forall i :: 0 <= i < |reduceTaskStatus| ==> var s := old(reduceTaskStatus)[i];
        reduceTaskStatus[i] == if s.isAssigned && !s.completed && now - s.startTime > 10_000_000_000
                               then Status(false, s.startTime, s.completed) else s
    {
      for i := 0 to |mapTaskStatus|
        invariant |mapTaskStatus| == |old(mapTaskStatus)| && reduceTaskStatus == old(reduceTaskStatus)
        invariant forall j :: 0 <= j < |mapTaskStatus| ==>
          mapTaskStatus[j] == if j < i then Reclaimed(old(mapTaskStatus), now)[j] else old(mapTaskStatus)[j]
      {
        var status := mapTaskStatus[i];
        if status.isAssigned && !status.completed && now - status.startTime > TIMEOUT {
          mapTaskStatus := mapTaskStatus[i := mapTaskStatus[i].(isAssigned := false)];
        }
      }
      assert mapTaskStatus == Reclaimed(old(mapTaskStatus), now);
      for i := 0 to |reduceTaskStatus|
        invariant |reduceTaskStatus| == |old(reduceTaskStatus)| && mapTaskStatus == Reclaimed(old(mapTaskStatus), now)
        invariant forall j :: 0 <= j < |reduceTaskStatus| ==>
          reduceTaskStatus[j] == if j < i then Reclaimed(old(reduceTaskStatus), now)[j] else old(reduceTaskStatus)[j]
      {
        var status := reduceTaskStatus[i];
        if status.isAssigned && !status.completed && now - status.startTime > TIMEOUT {
          reduceTaskStatus := reduceTaskStatus[i := reduceTaskStatus[i].(isAssigned := false)];
        }
      }
    }

    method Done() returns (r: bool)
      modifies this`completed
      ensures r <==> AllDone(mapTaskStatus) && AllDone(reduceTaskStatus)
      ensures completed == (old(completed) || r)
    {
      var mapsDone := AllMapTasksDone();
      var reducesDone := AllReduceTasksDone();
      if mapsDone && reducesDone {
        completed := true;
        return true;
      }
      return false;
    }
  }
}
