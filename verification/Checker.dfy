/** The checker as a whole: parts, entries, searches and the verdict. */
module Checker {
  import opened Collections
  import opened Histories
  import opened Problems
  import opened Entries
  import Operations
  import Search
  import CheckSingle
  import Locality
  import opened Kv
  import opened Parallel

  ghost predicate HasLinearization<S, I, O>(m: Model<S, I, O>, h: seq<Entry<I, O>>)
    requires WellFormed(h)
  {
    exists p :: ProblemOf(m, h).Complete(p)
  }

  ghost function Truth<S, I, O>(m: Model<S, I, O>, history: seq<seq<Entry<I, O>>>): (lin: seq<bool>)
    requires forall i :: 0 <= i < |history| ==> WellFormed(history[i])
    ensures |lin| == |history|
  {
    seq(|history|, i requires 0 <= i < |history| => HasLinearization(m, history[i]))
  }

  /** What is known of the partial linearizations found for part `i`. */
  ghost predicate Informed<S, I, O>(m: Model<S, I, O>, h: seq<Entry<I, O>>, longest: Search.Partials, exact: bool)
    requires WellFormed(h)
  {
    Search.Genuine(ProblemOf(m, h), longest) && (exact ==> Search.Maximal(ProblemOf(m, h), longest))
  }

  ghost predicate Infos<S, I, O>(m: Model<S, I, O>, history: seq<seq<Entry<I, O>>>, info: seq<Search.Partials>,
        finished: set<int>, exact: bool)
    requires |info| == |history| && forall i :: 0 <= i < |history| ==> WellFormed(history[i])
  {
    forall i :: i in finished && 0 <= i < |history| ==> Informed(m, history[i], info[i], exact)
  }

  lemma InfosStep<S, I, O>(m: Model<S, I, O>, history: seq<seq<Entry<I, O>>>, info: seq<Search.Partials>,
        info': seq<Search.Partials>, finished: set<int>, i: int, exact: bool)
    requires |info| == |history| && forall i :: 0 <= i < |history| ==> WellFormed(history[i])
    requires Infos(m, history, info, finished, exact)
    requires 0 <= i < |history| && |info'| == |history| && Informed(m, history[i], info'[i], exact)
      && info' == info[i := info'[i]]
    ensures Infos(m, history, info', finished + {i}, exact)
  {
  }

  lemma LessExact<S, I, O>(m: Model<S, I, O>, history: seq<seq<Entry<I, O>>>, info: seq<Search.Partials>,
        finished: set<int>, exact: bool, less: bool)
    requires |info| == |history| && forall i :: 0 <= i < |history| ==> WellFormed(history[i])
    requires Infos(m, history, info, finished, exact) && (less ==> exact)
    ensures Infos(m, history, info, finished, less)
  {
  }

  lemma DoneFacts(lin: seq<bool>, computeInfo: bool, timed: bool, s: State)
    requires Parallel.Inv(lin, computeInfo, timed, s) && s.phase.Done? && computeInfo
    ensures forall i :: 0 <= i < |lin| ==> i in s.finished
    ensures !s.timedOut ==> !s.kill
  {
    AllFinished(lin, s.finished);
  }

  /** Some list contains operation `x` and has at least `n` operations. */
  ghost predicate Reaches(lists: seq<seq<int>>, x: int, n: int) {
    exists i :: 0 <= i < |lists| && x in lists[i] && n <= |lists[i]|
  }

  /** `list` is as long as any partial linearization that contains some operation of it. */
  ghost predicate Tops<S>(P: Problem<S>, list: seq<int>)
    requires P.Valid()
  {
    exists x :: x in list && forall q :: P.Partial(q) && x in q ==> |q| <= |list|
  }

  /** The lists are different partial linearizations, none empty; if `exact`, for each operation in any
      partial linearization one of the longest that contain it is among them, and each list is that
      for some operation. */
  ghost predicate Explains<S, I, O>(m: Model<S, I, O>, h: seq<Entry<I, O>>, lists: seq<seq<int>>, exact: bool)
    requires WellFormed(h)
  {
    && Distinct(lists)
    && (forall i :: 0 <= i < |lists| ==> ProblemOf(m, h).Partial(lists[i]) && lists[i] != [])
    && (exact ==> forall i :: 0 <= i < |lists| ==> Tops(ProblemOf(m, h), lists[i]))
    && (exact ==> forall x, q :: ProblemOf(m, h).Partial(q) && x in q ==> Reaches(lists, x, |q|))
  }

  datatype Info<+I, +O> = Info(history: seq<seq<Entry<I, O>>>, partialLinearizations: seq<seq<seq<int>>>)

  ghost predicate Informative<S, I, O>(m: Model<S, I, O>, info: Info<I, O>, exact: bool) {
    && |info.partialLinearizations| == |info.history|
    && forall i :: 0 <= i < |info.history| ==>
         WellFormed(info.history[i]) && Explains(m, info.history[i], info.partialLinearizations[i], exact)
  }

  /** The recorded lists without the operations they are recorded for. */
  method RecordedLists(longest: Search.Partials) returns (partials: seq<seq<int>>)
    ensures Distinct(partials) && forall p :: p in partials <==> Some(p) in longest
  {
    partials := [];
    for i := 0 to |longest|
      invariant Distinct(partials) && forall p :: p in partials <==> Some(p) in longest[..i]
    {
      assert forall k :: 0 <= k < |partials| ==> partials[k] in partials;
      assert longest[..i + 1] == longest[..i] + [longest[i]];
      if longest[i].Some? && longest[i].value !in partials {
        partials := partials + [longest[i].value];
      }
    }
    assert longest[..|longest|] == longest;
  }

  lemma ListsExplain<S, I, O>(m: Model<S, I, O>, h: seq<Entry<I, O>>, longest: Search.Partials, lists: seq<seq<int>>,
        exact: bool)
    requires WellFormed(h) && Informed(m, h, longest, exact)
    requires Distinct(lists) && forall p :: p in lists <==> Some(p) in longest
    ensures Explains(m, h, lists, exact)
  {
    var P := ProblemOf(m, h);
    hide ProblemOf, WellFormed, Problem.Valid;
    forall i | 0 <= i < |lists|
      ensures P.Partial(lists[i]) && lists[i] != [] && (exact ==> Tops(P, lists[i]))
    {
      assert lists[i] in lists;
      var k := IndexOf(longest, Some(lists[i]));
      assert k in lists[i];
    }
    if exact {
      forall x, q | P.Partial(q) && x in q ensures Reaches(lists, x, |q|) {
        var j := IndexOf(q, x);
        assert 0 <= x < P.n;
        assert longest[x] in longest;
        var i := IndexOf(lists, longest[x].value);
      }
    }
  }

  /** Turns what the searches recorded into lists. */
  method CollectInfo<S, I, O>(ghost m: Model<S, I, O>, history: seq<seq<Entry<I, O>>>, longest: seq<Search.Partials>,
        ghost exact: bool)
    returns (info: Info<I, O>)
    requires |longest| == |history| && forall i :: 0 <= i < |history| ==> WellFormed(history[i])
    requires forall i :: 0 <= i < |history| ==> Informed(m, history[i], longest[i], exact)
    ensures info.history == history && Informative(m, info, exact)
  {
    hide WellFormed, Informed, Explains;
    var lists: seq<seq<seq<int>>> := [];
    for i := 0 to |history|
      invariant |lists| == i && forall j :: 0 <= j < i ==> Explains(m, history[j], lists[j], exact)
    {
      var partials := RecordedLists(longest[i]);
      ListsExplain(m, history[i], longest[i], partials, exact);
      lists := lists + [partials];
    }
    info := Info(history, lists);
  }

  /** One goroutine's search. While the kill flag is down every read of it is false; once it is
      up, reads may return anything. */
  method RunSearch<S(!new), I(!new), O(!new)>(m: Model<S, I, O>, h: seq<Entry<I, O>>, computeInfo: bool, killUp: bool)
    returns (ok: bool, longest: Search.Partials)
    requires Respectful(m) && WellFormed(h)
    ensures ok == HasLinearization(m, h) || (killUp && !ok)
    ensures Informed(m, h, longest, computeInfo && !killUp)
  {
    hide ProblemOf, WellFormed, Respectful, Search.Genuine, Search.Maximal;
    var kill: nat -> bool := *;
    if !killUp {
      kill := _ => false;
    }
    ghost var killed, turns;
    ok, longest, killed, turns := CheckSingle.CheckSingle(m, h, computeInfo, kill);
  }

  lemma SomeCase(lin: seq<bool>, computeInfo: bool, timed: bool, s: State)
    requires Parallel.Inv(lin, computeInfo, timed, s) && !s.phase.Done? && (|lin| > 0 || timed)
    ensures || |s.finished| < |lin|
            || (s.phase.Looping? && (s.queue != [] || (|lin| == 0 && timed)))
            || (s.phase.Draining?
              && ((computeInfo && s.count < |lin| && s.queue != []) || (computeInfo ==> s.count >= |lin|)))
  {
    FinishedBound(lin, s.finished);
  }

  lemma StepFacts(lin: seq<bool>, computeInfo: bool, timed: bool, s: State, step: Step, t: State)
    requires Parallel.Inv(lin, computeInfo, timed, s) && Next(lin, computeInfo, timed, s, step, t)
    ensures Parallel.Inv(lin, computeInfo, timed, t)
    ensures 0 <= Remaining(lin, t) < Remaining(lin, s)
    ensures s.kill ==> t.kill
  {
    NextInv(lin, computeInfo, timed, s, step, t);
    NextDecreases(lin, computeInfo, timed, s, step, t);
  }

  /** A timeout was set and its timer fires at some turn. */
  ghost predicate MayFire(timeout: int, fires: nat -> bool) { timeout > 0 && exists t :: fires(t) }

  /** The loop takes the timeout at turn `j` only if the timer has fired by then; with nothing else
      to wait for it waits for the timer. */
  ghost predicate Obeys(fires: nat -> bool, parts: int, steps: seq<Step>) {
    forall j :: 0 <= j < |steps| && steps[j].TimeoutStep? ==> if parts > 0 then fires(j) else exists t :: fires(t)
  }

  /** What is known of the verdict on parts of which `lin` tells the truth. */
  ghost predicate Decides(lin: seq<bool>, mayFire: bool, result: CheckResult) {
    && Justified(lin, mayFire, result)
    && (!mayFire ==> result == if AllTrue(lin) then Ok else Illegal)
  }

  lemma RunDecides(lin: seq<bool>, computeInfo: bool, timeout: int, fires: nat -> bool, run: seq<State>,
        steps: seq<Step>)
    requires Returns(lin, computeInfo, timeout > 0, run, steps) && Obeys(fires, |lin|, steps)
    ensures Decides(lin, MayFire(timeout, fires), run[|steps|].result)
    ensures run[|steps|].timedOut ==> MayFire(timeout, fires)
  {
    RunVerdict(lin, computeInfo, timeout > 0, run, steps, |steps|);
    TimedOutMeans(lin, computeInfo, timeout > 0, run, steps, |steps|);
    RunInv(lin, computeInfo, timeout > 0, run, steps, |steps|);
  }

  lemma Extend(lin: seq<bool>, computeInfo: bool, timed: bool, run: seq<State>, steps: seq<Step>, step: Step, s: State)
    requires IsRun(lin, computeInfo, timed, run, steps) && Next(lin, computeInfo, timed, run[|steps|], step, s)
    ensures IsRun(lin, computeInfo, timed, run + [s], steps + [step])
  {
    hide Next;
    var run', steps' := run + [s], steps + [step];
    forall k | 0 <= k < |steps'| ensures Next(lin, computeInfo, timed, run'[k], steps'[k], run'[k + 1]) {
      if k < |steps| { assert Next(lin, computeInfo, timed, run[k], steps[k], run[k + 1]); }
    }
  }

  /** Blocks until the timer fires. */
  method WaitForTimer(fires: nat -> bool) returns (t: nat)
    requires exists t :: fires(t)
    ensures fires(t)
  {
    ghost var last: nat :| fires(last);
    t := 0;
    while !fires(t)
      invariant t <= last
      decreases last - t
    {
      t := t + 1;
    }
  }

  /** Some search that has not ended yet ends. */
  method EndSearch<S(!new), I(!new), O(!new)>(m: Model<S, I, O>, history: seq<seq<Entry<I, O>>>, computeInfo: bool,
        ghost timed: bool, s: State, longest: seq<Search.Partials>)
    returns (s': State, longest': seq<Search.Partials>, ghost step: Step)
    requires Respectful(m) && forall i :: 0 <= i < |history| ==> WellFormed(history[i])
    requires |s.finished| < |history| && |longest| == |history|
    requires Infos(m, history, longest, s.finished, computeInfo && !s.kill)
    ensures Next(Truth(m, history), computeInfo, timed, s, step, s') && step.FinishStep?
    ensures |longest'| == |history| && Infos(m, history, longest', s'.finished, computeInfo && !s.kill)
  {
    hide WellFormed, Respectful, Informed, HasLinearization, Infos;
    ghost var lin := Truth(m, history);
    ghost var j := Unfinished(lin, s.finished);
    var i :| 0 <= i < |history| && i !in s.finished;
    var ok, found := RunSearch(m, history[i], computeInfo, s.kill);
    InfosStep(m, history, longest, longest[i := found], s.finished, i, computeInfo && !s.kill);
    return Finish(s, i, ok), longest[i := found], FinishStep(i, ok);
  }

  /** Any one step that is possible at turn `turn`: a search ends, the loop takes a result, the timer
      fires, a late result is counted, or the verdict is returned. */
  method TakeStep<S(!new), I(!new), O(!new)>(m: Model<S, I, O>, history: seq<seq<Entry<I, O>>>, computeInfo: bool,
        timeout: int, fires: nat -> bool, turn: nat, s: State, longest: seq<Search.Partials>)
    returns (s': State, longest': seq<Search.Partials>, ghost step: Step)
    requires Respectful(m) && forall i :: 0 <= i < |history| ==> WellFormed(history[i])
    requires |history| > 0 || MayFire(timeout, fires)
    requires Parallel.Inv(Truth(m, history), computeInfo, timeout > 0, s) && !s.phase.Done?
    requires |longest| == |history| && Infos(m, history, longest, s.finished, computeInfo && !s.kill)
    ensures Next(Truth(m, history), computeInfo, timeout > 0, s, step, s')
    ensures step.TimeoutStep? ==> if |history| > 0 then fires(turn) else exists t :: fires(t)
    ensures |longest'| == |history| && Infos(m, history, longest', s'.finished, computeInfo && !s.kill)
  {
    hide WellFormed, Respectful, Parallel.Inv, Informed, HasLinearization, Infos;
    ghost var lin := Truth(m, history);
    var n := |history|;
    longest' := longest;
    SomeCase(lin, computeInfo, timeout > 0, s);
    if {
      case |s.finished| < n =>
        s', longest', step := EndSearch(m, history, computeInfo, timeout > 0, s, longest);
        return s', longest', step;
      case s.phase.Looping? && s.queue != [] =>
        return Receive(s, n, computeInfo), longest, ReceiveStep;
      case s.phase.Looping? && timeout > 0 && fires(turn) =>
        return Timeout(s), longest, TimeoutStep;
      case s.phase.Looping? && timeout > 0 && n == 0 =>
        var _ := WaitForTimer(fires);
        return Timeout(s), longest, TimeoutStep;
      case s.phase.Draining? && computeInfo && s.count < n && s.queue != [] =>
        return Drain(s), longest, DrainStep;
      case s.phase.Draining? && (computeInfo ==> s.count >= n) =>
        return Return(s), longest, ReturnStep;
    }
  }

  /** Runs the searches and the collecting loop, taking any possible step at each turn. `fires(t)` tells
      whether the timer has fired by turn `t`. */
  method CheckParallel<S(!new), I(!new), O(!new)>(m: Model<S, I, O>, history: seq<seq<Entry<I, O>>>, computeInfo: bool,
        timeout: int, fires: nat -> bool)
    returns (result: CheckResult, info: Info<I, O>, ghost run: seq<State>, ghost steps: seq<Step>)
    requires Respectful(m) && forall i :: 0 <= i < |history| ==> WellFormed(history[i])
    requires |history| > 0 || MayFire(timeout, fires)
    ensures Returns(Truth(m, history), computeInfo, timeout > 0, run, steps) && result == run[|steps|].result
    ensures Obeys(fires, |history|, steps)
    ensures Decides(Truth(m, history), MayFire(timeout, fires), result)
    ensures computeInfo ==> info.history == history && Informative(m, info, !run[|steps|].timedOut)
    ensures run[|steps|].timedOut ==> MayFire(timeout, fires)
    ensures !computeInfo ==> info == Info([], [])
  {
    hide WellFormed, Respectful, Parallel.Inv, Informed, HasLinearization, Decides, Remaining, Informative, IsRun, Next,
      MayFire;
    ghost var lin := Truth(m, history);
    ghost var timed := timeout > 0;
    var s := Start();
    var longest: seq<Search.Partials> := seq(|history|, _ => []);
    StartInv(lin, computeInfo, timed);
    var turn := 0;
    run, steps := [s], [];
    StartRun(lin, computeInfo, timed);
    while !s.phase.Done?
      invariant Parallel.Inv(lin, computeInfo, timed, s)
      invariant IsRun(lin, computeInfo, timed, run, steps) && |steps| == turn && |run| == turn + 1 && run[turn] == s
      invariant Obeys(fires, |history|, steps)
      invariant |longest| == |history| && Infos(m, history, longest, s.finished, computeInfo && !s.kill)
      decreases Remaining(lin, s)
    {
      ghost var before, step := s, TimeoutStep;
      s, longest, step := TakeStep(m, history, computeInfo, timeout, fires, turn, s, longest);
      StepFacts(lin, computeInfo, timed, before, step, s);
      LessExact(m, history, longest, s.finished, computeInfo && !before.kill, computeInfo && !s.kill);
      Extend(lin, computeInfo, timed, run, steps, step, s);
      run, steps, turn := run + [s], steps + [step], turn + 1;
    }
    RunDecides(lin, computeInfo, timeout, fires, run, steps);
    result, info := s.result, Info([], []);
    if computeInfo {
      DoneFacts(lin, computeInfo, timed, s);
      LessExact(m, history, longest, s.finished, !s.kill, !s.timedOut);
      info := CollectInfo(m, history, longest, !s.timedOut);
    }
  }

  lemma StartRun(lin: seq<bool>, computeInfo: bool, timed: bool)
    ensures IsRun(lin, computeInfo, timed, [Start()], [])
  {
  }

  lemma LessInformative<S, I, O>(m: Model<S, I, O>, info: Info<I, O>, exact: bool, less: bool)
    requires Informative(m, info, exact) && (less ==> exact)
    ensures Informative(m, info, less)
  {
    hide WellFormed, ProblemOf, Reaches, Problem.Partial;
    forall i | 0 <= i < |info.history| ensures Explains(m, info.history[i], info.partialLinearizations[i], less) {
      assert Explains(m, info.history[i], info.partialLinearizations[i], exact);
    }
  }

  /** The entries are those of the parts. */
  ghost predicate ShowsParts<I, O>(parts: seq<seq<Operation<I, O>>>, info: Info<I, O>) {
    |info.history| == |parts| && forall i :: 0 <= i < |parts| ==> Operations.EntriesOf(parts[i], info.history[i])
  }

  /** Checks every part of a split history. */
  method CheckParts<S(!new), I(!new), O(!new)>(m: Model<S, I, O>, parts: seq<seq<Operation<I, O>>>, verbose: bool,
        timeout: int, fires: nat -> bool, sort: seq<Entry<I, O>> -> seq<Entry<I, O>>)
    returns (result: CheckResult, info: Info<I, O>)
    requires Respectful(m) && forall s :: Operations.Sorts(sort(s), s)
    requires forall i :: 0 <= i < |parts| ==> Timely(parts[i])
    requires |parts| > 0 || MayFire(timeout, fires)
    ensures result == Ok ==> forall i :: 0 <= i < |parts| ==> Linearizable(m, parts[i])
    ensures result == Illegal ==> exists i :: 0 <= i < |parts| && !Linearizable(m, parts[i])
    ensures result == Unknown ==> MayFire(timeout, fires)
    ensures verbose ==> Informative(m, info, !MayFire(timeout, fires)) && ShowsParts(parts, info)
  {
    hide Respectful, Linearizable, WellFormed, ProblemOf, Operations.EntriesOf, Operations.Sorts, Timely, Informative,
      MayFire;
    var l: seq<seq<Entry<I, O>>> := [];
    for i := 0 to |parts|
      invariant |l| == i
      invariant forall j :: 0 <= j < i ==>
        && WellFormed(l[j]) && Operations.EntriesOf(parts[j], l[j])
        && (HasLinearization(m, l[j]) <==> Linearizable(m, parts[j]))
    {
      var entries := Operations.MakeEntries(parts[i], sort);
      Operations.EntriesFaithful(m, parts[i], entries);
      l := l + [entries];
    }
    ghost var run, steps;
    result, info, run, steps := CheckParallel(m, l, verbose, timeout, fires);
    if verbose { LessInformative(m, info, !run[|steps|].timedOut, !MayFire(timeout, fires)); }
    ghost var lin := Truth(m, l);
    assert forall i :: 0 <= i < |parts| ==> lin[i] == HasLinearization(m, l[i]);
  }

  lemma SubTimely(history: seq<KvOperation>, k: string)
    requires Timely(history)
    ensures Timely(Locality.Sub(KeyOf, history, k))
  {
    var sub := Locality.Sub(KeyOf, history, k);
    forall i | 0 <= i < |sub| ensures sub[i].call <= sub[i].ret { Locality.SubIn(KeyOf, history, k, sub[i]); }
  }

  /** All parts are linearizable exactly when the whole store is. */
  lemma PartsDecide(history: seq<KvOperation>, keys: seq<string>, parts: seq<seq<KvOperation>>)
    requires Timely(history) && Partitions(history, keys, parts)
    ensures (forall i :: 0 <= i < |parts| ==> Linearizable(KvModel(), parts[i])) <==> Linearizable(KvStore(), history)
  {
    KvLocality(history);
    if forall i :: 0 <= i < |parts| ==> Linearizable(KvModel(), parts[i]) {
      forall k ensures Linearizable(KvModel(), Locality.Sub(KeyOf, history, k)) {
        if k in keys {
          var i := IndexOf(keys, k);
          assert parts[i] == Locality.Sub(KeyOf, history, k);
        } else {
          NoOperations(history, k);
          assert IsLinearization(KvModel(), Locality.Sub(KeyOf, history, k), []);
        }
      }
    }
  }

  lemma NoOperations(history: seq<KvOperation>, k: string)
    requires k !in Locality.KeysOf(KeyOf, history)
    ensures Locality.Sub(KeyOf, history, k) == []
  {
    var sub := Locality.Sub(KeyOf, history, k);
    assert forall i :: 0 <= i < |history| ==> KeyOf(history[i].input) in Locality.KeysOf(KeyOf, history);
    if sub != [] {
      Locality.SubIn(KeyOf, history, k, sub[0]);
    }
  }

  /** checkOperations with the key/value model decides linearizability of the whole store. A
      verdict needs an operation or a timeout: see Parallel.EmptyHangs. */
  method CheckOperations(history: seq<KvOperation>, verbose: bool, timeout: int, fires: nat -> bool,
        sort: seq<Entry<KvInput, KvOutput>> -> seq<Entry<KvInput, KvOutput>>, sortStrings: seq<string> -> seq<string>)
    returns (result: CheckResult, info: Info<KvInput, KvOutput>, ghost parts: seq<seq<KvOperation>>)
    requires Timely(history) && (history != [] || MayFire(timeout, fires))
    requires forall s :: Operations.Sorts(sort(s), s)
    requires forall s :: SortsStrings(sortStrings(s), s)
    ensures result == Ok ==> Linearizable(KvStore(), history)
    ensures result == Illegal ==> !Linearizable(KvStore(), history)
    ensures result == Unknown ==> MayFire(timeout, fires)
    ensures !MayFire(timeout, fires) ==> result == if Linearizable(KvStore(), history) then Ok else Illegal
    ensures verbose ==> Informative(KvModel(), info, !MayFire(timeout, fires)) && ShowsParts(parts, info)
    ensures exists keys :: Partitions(history, keys, parts)
  {
    var keys, ret;
    ret, keys := Partition(history, sortStrings);
    parts := ret;
    forall i | 0 <= i < |parts| ensures Timely(parts[i]) { SubTimely(history, keys[i]); }
    if history != [] { assert KeyOf(history[0].input) in Locality.KeysOf(KeyOf, history); }
    KvRespectful();
    PartsDecide(history, keys, parts);
    hide Linearizable, Timely, Informative, Respectful, Operations.Sorts, SortsStrings, MayFire;
    result, info := CheckParts(KvModel(), ret, verbose, timeout, fires, sort);
  }
}
