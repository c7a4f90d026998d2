/** Checking the parts of a history concurrently: one goroutine per part runs the search and
    sends its result on a buffered channel, while the collecting loop may stop early on a
    failure or a timeout and then raises the kill flag.

    `lin[i]` tells whether part `i` has a linearization. */
module Parallel {
  import opened Collections

  datatype CheckResult = Unknown | Ok | Illegal

  /** A result on the channel; the code sees only `result`, not who sent it. */
  datatype Message = Message(from: int, result: bool)

  datatype Phase = Looping | Draining | Done

  datatype State = State(
    finished: set<int>,       // searches that have sent their result
    queue: seq<Message>,      // the channel
    received: seq<Message>,   // what the loop has taken from it
    count: int,
    ok: bool,
    timedOut: bool,
    kill: bool,
    phase: Phase,
    result: CheckResult)

  function Start(): State { State({}, [], [], 0, true, false, false, Looping, Unknown) }

  /** Search `i` ends with result `r`. */
  function Finish(s: State, i: int, r: bool): State {
    s.(finished := s.finished + {i}, queue := s.queue + [Message(i, r)])
  }

  /** One turn of the loop that takes a result. */
  function Receive(s: State, n: int, computeInfo: bool): State
    requires s.queue != []
  {
    var msg := s.queue[0];
    var t := s.(queue := s.queue[1..], received := s.received + [msg], count := s.count + 1, ok := s.ok && msg.result);
    if !t.ok && !computeInfo then t.(kill := true, phase := Draining)
    else if t.count >= n then t.(phase := Draining)
    else t
  }

  function Timeout(s: State): State { s.(timedOut := true, kill := true, phase := Draining) }

  /** After the loop, results that are still to come are only counted. */
  function Drain(s: State): State
    requires s.queue != []
  {
    s.(queue := s.queue[1..], count := s.count + 1)
  }

  function Return(s: State): State {
    s.(phase := Done, result := if !s.ok then Illegal else if s.timedOut then Unknown else Ok)
  }

  /** What a search may report: the truth, or false if it may have seen the kill flag. */
  ghost predicate MayReport(lin: seq<bool>, s: State, i: int, r: bool) {
    0 <= i < |lin| && (r == lin[i] || (s.kill && !r))
  }

  datatype Step = FinishStep(i: int, r: bool) | ReceiveStep | TimeoutStep | DrainStep | ReturnStep

  ghost predicate Next(lin: seq<bool>, computeInfo: bool, timed: bool, s: State, step: Step, t: State) {
    match step
    case FinishStep(i, r) => i !in s.finished && MayReport(lin, s, i, r) && t == Finish(s, i, r)
    case ReceiveStep => s.phase.Looping? && s.queue != [] && t == Receive(s, |lin|, computeInfo)
    case TimeoutStep => s.phase.Looping? && timed && t == Timeout(s)
    case DrainStep => s.phase.Draining? && computeInfo && s.count < |lin| && s.queue != [] && t == Drain(s)
    case ReturnStep => s.phase.Draining? && (computeInfo ==> s.count >= |lin|) && t == Return(s)
  }

  ghost predicate IsRun(lin: seq<bool>, computeInfo: bool, timed: bool, run: seq<State>, steps: seq<Step>) {
    && |run| == |steps| + 1 && run[0] == Start()
    && forall k :: 0 <= k < |steps| ==> Next(lin, computeInfo, timed, run[k], steps[k], run[k + 1])
  }

  // ---- The invariant

  ghost predicate Senders(msgs: seq<Message>, senders: set<int>) {
    && (forall k :: 0 <= k < |msgs| ==> msgs[k].from in senders)
    && (forall j, k :: 0 <= j < k < |msgs| ==> msgs[j].from != msgs[k].from)
  }

  ghost predicate Truthful(lin: seq<bool>, msgs: seq<Message>) {
    forall k :: 0 <= k < |msgs| ==> 0 <= msgs[k].from < |lin| && msgs[k].result == lin[msgs[k].from]
  }

  ghost predicate AllPositive(msgs: seq<Message>) {
    forall k :: 0 <= k < |msgs| ==> msgs[k].result
  }

  lemma AllPositiveSnoc(msgs: seq<Message>, x: Message)
    ensures AllPositive(msgs + [x]) <==> AllPositive(msgs) && x.result
  {
    var all := msgs + [x];
    assert all[|msgs|] == x;
    if AllPositive(all) {
      forall k | 0 <= k < |msgs| ensures msgs[k].result { assert all[k] == msgs[k]; }
    }
  }

  ghost predicate Inv(lin: seq<bool>, computeInfo: bool, timed: bool, s: State) {
    && (forall i :: i in s.finished ==> 0 <= i < |lin|)
    && Senders(s.received + s.queue, s.finished)
    && s.count + |s.queue| == |s.finished| && |s.received| <= s.count
    && Truthful(lin, s.received)
    && (s.ok <==> AllPositive(s.received))
    && (!s.kill ==> Truthful(lin, s.queue) && !s.timedOut)
    && (s.phase.Looping? ==> !s.kill && s.count == |s.received| && (s.count < |lin| || |lin| == 0))
    && (!s.phase.Looping? ==> s.timedOut || (!s.ok && !computeInfo) || |s.received| == |lin|)
    && (s.timedOut ==> timed)
    && (s.phase.Done? ==> s.result == (if !s.ok then Illegal else if s.timedOut then Unknown else Ok))
    && (s.kill <==> s.timedOut || (!s.ok && !computeInfo))
    && (s.phase.Done? && computeInfo ==> s.count >= |lin|)
  }

  lemma StartInv(lin: seq<bool>, computeInfo: bool, timed: bool)
    ensures Inv(lin, computeInfo, timed, Start())
  {
  }

  lemma FinishInv(lin: seq<bool>, computeInfo: bool, timed: bool, s: State, i: int, r: bool)
    requires Inv(lin, computeInfo, timed, s) && i !in s.finished && MayReport(lin, s, i, r)
    ensures Inv(lin, computeInfo, timed, Finish(s, i, r))
  {
    var t := Finish(s, i, r);
    assert t.received + t.queue == (s.received + s.queue) + [Message(i, r)];
  }

  lemma ReceiveInv(lin: seq<bool>, computeInfo: bool, timed: bool, s: State)
    requires Inv(lin, computeInfo, timed, s) && s.phase.Looping? && s.queue != []
    ensures Inv(lin, computeInfo, timed, Receive(s, |lin|, computeInfo))
  {
    var t := Receive(s, |lin|, computeInfo);
    assert t.received + t.queue == s.received + s.queue;
    assert forall k :: 0 <= k < |t.queue| ==> t.queue[k] == s.queue[k + 1];
    AllPositiveSnoc(s.received, s.queue[0]);
    FinishedBound(lin, s.finished);
  }

  lemma FinishedBound(lin: seq<bool>, finished: set<int>)
    requires forall i :: i in finished ==> 0 <= i < |lin|
    ensures |finished| <= |lin|
  {
    var all := Below(|lin|);
    SubsetSize(finished, all);
    BelowSize(|lin|);
  }

  lemma NextInv(lin: seq<bool>, computeInfo: bool, timed: bool, s: State, step: Step, t: State)
    requires Inv(lin, computeInfo, timed, s) && Next(lin, computeInfo, timed, s, step, t)
    ensures Inv(lin, computeInfo, timed, t)
  {
    match step
    case FinishStep(i, r) => FinishInv(lin, computeInfo, timed, s, i, r);
    case ReceiveStep => ReceiveInv(lin, computeInfo, timed, s);
    case TimeoutStep =>
    case DrainStep => DrainInv(lin, computeInfo, timed, s);
    case ReturnStep =>
  }

  lemma DrainInv(lin: seq<bool>, computeInfo: bool, timed: bool, s: State)
    requires Inv(lin, computeInfo, timed, s) && s.phase.Draining? && s.queue != []
    ensures Inv(lin, computeInfo, timed, Drain(s))
  {
    var t := Drain(s);
    var all := s.received + s.queue;
    var j := |s.received|;
    assert t.received + t.queue == all[..j] + all[j + 1..];
    assert forall k :: 0 <= k < |t.queue| ==> t.queue[k] == s.queue[k + 1];
  }

  lemma {:induction false} RunInv(lin: seq<bool>, computeInfo: bool, timed: bool, run: seq<State>, steps: seq<Step>,
        k: int)
    requires IsRun(lin, computeInfo, timed, run, steps) && 0 <= k < |run|
    ensures Inv(lin, computeInfo, timed, run[k])
    decreases k
  {
    if k > 0 {
      RunInv(lin, computeInfo, timed, run, steps, k - 1);
      NextInv(lin, computeInfo, timed, run[k - 1], steps[k - 1], run[k]);
    } else {
      StartInv(lin, computeInfo, timed);
    }
  }

  // ---- Verdicts

  ghost predicate AllTrue(lin: seq<bool>) { forall i :: 0 <= i < |lin| ==> lin[i] }

  /** `Ok` and `Illegal` are the truth about all parts, and `Unknown` needs a timeout. */
  ghost predicate Justified(lin: seq<bool>, timed: bool, r: CheckResult) {
    match r
    case Ok => AllTrue(lin)
    case Illegal => !AllTrue(lin)
    case Unknown => timed
  }

  lemma DoneJustified(lin: seq<bool>, computeInfo: bool, timed: bool, s: State)
    requires Inv(lin, computeInfo, timed, s) && s.phase.Done?
    ensures Justified(lin, timed, s.result)
  {
    if s.ok && !s.timedOut {
      forall i | 0 <= i < |lin| ensures lin[i] {
        var k := SenderOf(lin, s, i);
      }
    }
  }

  /** Once the loop has taken as many results as there are parts, every part is among them. */
  lemma SenderOf(lin: seq<bool>, s: State, i: int) returns (k: int)
    requires Senders(s.received + s.queue, s.finished) && Truthful(lin, s.received) && |s.received| == |lin|
      && 0 <= i < |lin|
    ensures 0 <= k < |s.received| && s.received[k].from == i
  {
    var froms := set k | 0 <= k < |s.received| :: s.received[k].from;
    assert forall k :: 0 <= k < |s.received| ==> s.received[k] == (s.received + s.queue)[k];
    if i !in froms {
      FromsSize(s.received);
      BelowSize(|lin|);
      SubsetSize(froms, Below(|lin|) - {i});
      assert false;
    }
    k :| 0 <= k < |s.received| && s.received[k].from == i;
  }

  lemma {:induction false} FromsSize(msgs: seq<Message>)
    requires forall j, k :: 0 <= j < k < |msgs| ==> msgs[j].from != msgs[k].from
    ensures |set k | 0 <= k < |msgs| :: msgs[k].from| == |msgs|
  {
    if msgs != [] {
      var rest, last := msgs[..|msgs| - 1], msgs[|msgs| - 1];
      FromsSize(rest);
      var froms, all := set k | 0 <= k < |rest| :: rest[k].from, set k | 0 <= k < |msgs| :: msgs[k].from;
      forall x | x in all ensures x in froms + {last.from} {
        var k :| 0 <= k < |msgs| && msgs[k].from == x;
        if k < |rest| { assert rest[k].from == x; }
      }
      forall x | x in froms ensures x in all {
        var k :| 0 <= k < |rest| && rest[k].from == x;
        assert msgs[k].from == x;
      }
      assert all == froms + {last.from};
    }
  }

  ghost predicate TimerFired(steps: seq<Step>, k: int) {
    exists j :: 0 <= j < k && j < |steps| && steps[j].TimeoutStep?
  }

  lemma {:induction false} TimedOutMeans(lin: seq<bool>, computeInfo: bool, timed: bool, run: seq<State>,
        steps: seq<Step>, k: int)
    requires IsRun(lin, computeInfo, timed, run, steps) && 0 <= k < |run|
    ensures run[k].timedOut <==> TimerFired(steps, k)
    decreases k
  {
    if k > 0 {
      TimedOutMeans(lin, computeInfo, timed, run, steps, k - 1);
      assert Next(lin, computeInfo, timed, run[k - 1], steps[k - 1], run[k - 1 + 1]);
    }
  }

  /** In every run, whatever the order in which results arrive and whenever the timer fires: the
      verdict is justified; every result taken into account is the truth; one of them being false
      makes the verdict Illegal, also after a timeout; otherwise it is Unknown exactly if the timer
      fired; and the searches are killed exactly if the loop was left early. */
  lemma RunVerdict(lin: seq<bool>, computeInfo: bool, timed: bool, run: seq<State>, steps: seq<Step>, k: int)
    requires IsRun(lin, computeInfo, timed, run, steps) && 0 <= k < |run| && run[k].phase.Done?
    ensures Justified(lin, timed, run[k].result)
    ensures Truthful(lin, run[k].received)
    ensures run[k].result ==
      if !AllPositive(run[k].received) then Illegal else if TimerFired(steps, k) then Unknown else Ok
    ensures run[k].kill <==> TimerFired(steps, k) || (run[k].result.Illegal? && !computeInfo)
  {
    RunInv(lin, computeInfo, timed, run, steps, k);
    DoneJustified(lin, computeInfo, timed, run[k]);
    TimedOutMeans(lin, computeInfo, timed, run, steps, k);
  }

  // ---- Progress

  function Rank(p: Phase): int {
    match p
    case Looping => 2
    case Draining => 1
    case Done => 0
  }

  /** Steps left at most. */
  ghost function Remaining(lin: seq<bool>, s: State): int {
    2 * (|lin| - |s.finished|) + |s.queue| + Rank(s.phase)
  }

  lemma NextDecreases(lin: seq<bool>, computeInfo: bool, timed: bool, s: State, step: Step, t: State)
    requires Inv(lin, computeInfo, timed, s) && Next(lin, computeInfo, timed, s, step, t)
    ensures 0 <= Remaining(lin, t) < Remaining(lin, s)
  {
    NextInv(lin, computeInfo, timed, s, step, t);
    FinishedBound(lin, t.finished);
    hide Inv, Next, Remaining;
    StepsLeft(lin, computeInfo, timed, s, step, t);
  }

  lemma StepsLeft(lin: seq<bool>, computeInfo: bool, timed: bool, s: State, step: Step, t: State)
    requires Next(lin, computeInfo, timed, s, step, t) && |t.finished| <= |lin|
    ensures 0 <= Remaining(lin, t) < Remaining(lin, s)
  {
    hide MayReport;
    match step
    case FinishStep(i, _) => assert |t.finished| == |s.finished| + 1 && |t.queue| == |s.queue| + 1
      && t.phase == s.phase;
    case ReceiveStep => assert t.finished == s.finished && |t.queue| == |s.queue| - 1 && Rank(t.phase) <= Rank(s.phase);
    case TimeoutStep => assert t.finished == s.finished && t.queue == s.queue && Rank(t.phase) < Rank(s.phase);
    case DrainStep => assert t.finished == s.finished && |t.queue| == |s.queue| - 1 && t.phase == s.phase;
    case ReturnStep => assert t.finished == s.finished && t.queue == s.queue && Rank(t.phase) < Rank(s.phase);
  }

  /** Unless there is nothing to wait for, some step is possible until the verdict is returned. */
  lemma NotStuck(lin: seq<bool>, computeInfo: bool, timed: bool, s: State) returns (step: Step, t: State)
    requires Inv(lin, computeInfo, timed, s) && !s.phase.Done? && (|lin| > 0 || timed)
    ensures Next(lin, computeInfo, timed, s, step, t)
  {
    if |s.finished| < |lin| {
      var i := Unfinished(lin, s.finished);
      step, t := FinishStep(i, lin[i]), Finish(s, i, lin[i]);
    } else {
      FinishedBound(lin, s.finished);
      if s.phase.Looping? {
        if s.queue != [] {
          step, t := ReceiveStep, Receive(s, |lin|, computeInfo);
        } else {
          step, t := TimeoutStep, Timeout(s);
        }
      } else if computeInfo && s.count < |lin| {
        step, t := DrainStep, Drain(s);
      } else {
        step, t := ReturnStep, Return(s);
      }
    }
  }

  lemma AllFinished(lin: seq<bool>, finished: set<int>)
    requires forall i :: i in finished ==> 0 <= i < |lin|
    ensures |finished| >= |lin| ==> forall i :: 0 <= i < |lin| ==> i in finished
  {
    if i :| 0 <= i < |lin| && i !in finished {
      BelowSize(|lin|);
      SubsetSize(finished, Below(|lin|) - {i});
    }
  }

  lemma Unfinished(lin: seq<bool>, finished: set<int>) returns (i: int)
    requires |finished| < |lin|
    ensures 0 <= i < |lin| && i !in finished
  {
    if forall i :: 0 <= i < |lin| ==> i in finished {
      BelowSize(|lin|);
      SubsetSize(Below(|lin|), finished);
      assert false;
    }
    i :| 0 <= i < |lin| && i !in finished;
  }

  lemma StartStuck(computeInfo: bool, step: Step, t: State)
    ensures !Next([], computeInfo, false, Start(), step, t)
  {
  }

  /** With no parts and no timeout the loop waits forever: nothing can happen after the start. */
  lemma EmptyHangs(computeInfo: bool, run: seq<State>, steps: seq<Step>)
    requires IsRun([], computeInfo, false, run, steps)
    ensures run == [Start()]
  {
    if |steps| > 0 { StartStuck(computeInfo, steps[0], run[0 + 1]); }
  }

  ghost predicate Returns(lin: seq<bool>, computeInfo: bool, timed: bool, run: seq<State>, steps: seq<Step>) {
    IsRun(lin, computeInfo, timed, run, steps) && run[|run| - 1].phase.Done?
  }

  /** No step is possible in `s`. */
  ghost predicate Final(lin: seq<bool>, computeInfo: bool, timed: bool, s: State) {
    forall step, t :: !Next(lin, computeInfo, timed, s, step, t)
  }

  /** Every run that cannot be continued has returned a verdict. */
  ghost predicate AlwaysReturns(lin: seq<bool>, computeInfo: bool, timed: bool) {
    forall run: seq<State>, steps ::
      IsRun(lin, computeInfo, timed, run, steps) && Final(lin, computeInfo, timed, run[|run| - 1]) ==>
        run[|run| - 1].phase.Done?
  }

  /** No run goes on forever. */
  lemma {:induction false} RunsAreShort(lin: seq<bool>, computeInfo: bool, timed: bool, run: seq<State>,
        steps: seq<Step>, k: int)
    requires IsRun(lin, computeInfo, timed, run, steps) && 0 <= k < |run|
    ensures k + Remaining(lin, run[k]) <= 2 * |lin| + 2 && 0 <= Remaining(lin, run[k])
    decreases k
  {
    hide Inv, Next;
    if k > 0 {
      RunsAreShort(lin, computeInfo, timed, run, steps, k - 1);
      RunInv(lin, computeInfo, timed, run, steps, k - 1);
      NextDecreases(lin, computeInfo, timed, run[k - 1], steps[k - 1], run[k]);
    }
  }

  /** Whatever the schedule, a verdict is returned exactly when there is a part or a timeout: runs
      have at most 2n + 2 steps, and one that cannot be continued has returned. */
  lemma ReturnsUnlessEmpty(lin: seq<bool>, computeInfo: bool, timed: bool)
    ensures AlwaysReturns(lin, computeInfo, timed) <==> |lin| > 0 || timed
    ensures (exists run, steps :: Returns(lin, computeInfo, timed, run, steps)) <==> |lin| > 0 || timed
    ensures forall run, steps :: IsRun(lin, computeInfo, timed, run, steps) ==> |steps| <= 2 * |lin| + 2
  {
    hide Next, Inv;
    forall run, steps | IsRun(lin, computeInfo, timed, run, steps) ensures |steps| <= 2 * |lin| + 2 {
      RunsAreShort(lin, computeInfo, timed, run, steps, |steps|);
    }
    if |lin| > 0 || timed {
      forall run: seq<State>, steps | IsRun(lin, computeInfo, timed, run, steps)
        && Final(lin, computeInfo, timed, run[|run| - 1])
        ensures run[|run| - 1].phase.Done?
      {
        RunInv(lin, computeInfo, timed, run, steps, |run| - 1);
        if !run[|run| - 1].phase.Done? { var step, t := NotStuck(lin, computeInfo, timed, run[|run| - 1]); }
      }
      var run, steps := Completion(lin, computeInfo, timed, [Start()], []);
    } else {
      assert lin == [];
      EmptyNeverReturns(computeInfo);
    }
  }

  lemma EmptyNeverReturns(computeInfo: bool)
    ensures !AlwaysReturns([], computeInfo, false)
    ensures !exists run, steps :: Returns([], computeInfo, false, run, steps)
  {
    var run, steps: seq<Step> := [Start()], [];
    assert IsRun([], computeInfo, false, run, steps);
    hide Next, IsRun;
    forall step, t ensures !Next([], computeInfo, false, Start(), step, t) { StartStuck(computeInfo, step, t); }
    assert Final([], computeInfo, false, run[|run| - 1]);
    forall run, steps ensures !Returns([], computeInfo, false, run, steps) {
      if Returns([], computeInfo, false, run, steps) { EmptyHangs(computeInfo, run, steps); }
    }
  }

  lemma {:induction false} Completion(lin: seq<bool>, computeInfo: bool, timed: bool, run: seq<State>,
        steps: seq<Step>) returns (run': seq<State>, steps': seq<Step>)
    requires IsRun(lin, computeInfo, timed, run, steps) && (|lin| > 0 || timed)
    ensures Returns(lin, computeInfo, timed, run', steps')
    decreases Remaining(lin, run[|run| - 1])
  {
    var s := run[|run| - 1];
    RunInv(lin, computeInfo, timed, run, steps, |run| - 1);
    if s.phase.Done? {
      return run, steps;
    }
    var step, t := NotStuck(lin, computeInfo, timed, s);
    NextDecreases(lin, computeInfo, timed, s, step, t);
    run', steps' := Completion(lin, computeInfo, timed, run + [t], steps + [step]);
  }
}
