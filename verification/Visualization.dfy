/** The data behind the visualization: the operations of each part, the recorded partial
    linearizations replayed, and the largest one for each operation. */
module Visualization {
  import opened Collections
  import opened Histories
  import opened Problems
  import opened Entries
  import opened Kv
  import Operations
  import opened Parallel
  import opened Checker

  datatype HistoryElement = HistoryElement(clientId: int, start: int, end: int, description: string)

  /** One step of a replayed linearization: the operation and the state after it. */
  datatype ShownStep<+S> = ShownStep(index: int, state: S)

  datatype Shown<+S> = Shown(history: seq<HistoryElement>, linearizations: seq<seq<ShownStep<S>>>,
        largest: map<int, int>)

  // ---- The operations of a part

  /** The inputs and outputs by id among the first `n` entries. */
  ghost predicate ValuesById<I, O>(h: seq<Entry<I, O>>, n: int, calls: map<int, I>, returns_: map<int, O>) {
    && (forall q :: 0 <= q < n && q < |h| && h[q].IsCall() ==> h[q].id in calls && calls[h[q].id] == h[q].value.i)
    && (forall q :: 0 <= q < n && q < |h| && !h[q].IsCall() ==>
          h[q].id in returns_ && returns_[h[q].id] == h[q].value.o)
  }

  /** What the entries say about each operation; what only entries from `n` on say is open. */
  ghost predicate ElementsBefore<I, O>(h: seq<Entry<I, O>>, describe: (I, O) -> string, n: int,
        elements: seq<HistoryElement>)
    requires WellFormed(h)
  {
    && |elements| == Count(h)
    && forall x :: 0 <= x < Count(h) ==> ElementBefore(h, describe, n, x, elements[x])
  }

  ghost predicate ElementBefore<I, O>(h: seq<Entry<I, O>>, describe: (I, O) -> string, n: int, x: int,
        e: HistoryElement)
    requires WellFormed(h) && 0 <= x < Count(h)
  {
    var c, r := h[CallAt(h, x)], h[ReturnAt(h, x)];
    && (CallAt(h, x) < n ==> e.clientId == c.clientId && e.start == c.time)
    && (ReturnAt(h, x) < n ==> e.end == r.time && e.description == describe(c.value.i, r.value.o))
  }

  function AtCall<I, O>(e: Entry<I, O>, element: HistoryElement): HistoryElement {
    element.(clientId := e.clientId, start := e.time)
  }

  lemma EnterCall<I, O>(h: seq<Entry<I, O>>, describe: (I, O) -> string, q: int, elements: seq<HistoryElement>)
    requires WellFormed(h) && 0 <= q < |h| && h[q].IsCall() && ElementsBefore(h, describe, q, elements)
    ensures 0 <= h[q].id < |elements|
    ensures ElementsBefore(h, describe, q + 1, elements[h[q].id := AtCall(h[q], elements[h[q].id])])
  {
    PositionsConsistent(h);
    var y := h[q].id;
    var elements' := elements[y := AtCall(h[q], elements[y])];
    forall x | 0 <= x < Count(h) ensures ElementBefore(h, describe, q + 1, x, elements'[x]) {
      assert ElementBefore(h, describe, q, x, elements[x]);
    }
  }

  function AtReturn<I, O>(e: Entry<I, O>, description: string, element: HistoryElement): HistoryElement {
    element.(end := e.time, description := description)
  }

  lemma EnterReturn<I, O>(h: seq<Entry<I, O>>, describe: (I, O) -> string, q: int, elements: seq<HistoryElement>,
        calls: map<int, I>, returns_: map<int, O>)
    requires WellFormed(h) && 0 <= q < |h| && !h[q].IsCall() && ElementsBefore(h, describe, q, elements)
    requires ValuesById(h, q, calls, returns_)
    ensures 0 <= h[q].id < |elements| && h[q].id in calls
    ensures ElementsBefore(h, describe, q + 1,
      elements[h[q].id := AtReturn(h[q], describe(calls[h[q].id], h[q].value.o), elements[h[q].id])])
  {
    PositionsConsistent(h);
    var y := h[q].id;
    assert CallOf(h, CallAt(h, y), y);
    var elements' := elements[y := AtReturn(h[q], describe(calls[y], h[q].value.o), elements[y])];
    forall x | 0 <= x < Count(h) ensures ElementBefore(h, describe, q + 1, x, elements'[x]) {
      assert ElementBefore(h, describe, q, x, elements[x]);
    }
  }

  /** The loop over the entries of a part. */
  method CollectValues<I, O>(h: seq<Entry<I, O>>, describe: (I, O) -> string)
    returns (history: seq<HistoryElement>, calls: map<int, I>, returns_: map<int, O>)
    requires WellFormed(h)
    ensures ValuesById(h, |h|, calls, returns_) && ElementsBefore(h, describe, |h|, history)
  {
    history := seq(Count(h), _ => HistoryElement(0, 0, 0, ""));
    calls, returns_ := map[], map[];
    hide WellFormed, ElementsBefore;
    NothingEntered(h, describe, history);
    for q := 0 to |h|
      invariant ValuesById(h, q, calls, returns_) && ElementsBefore(h, describe, q, history)
    {
      var elem := h[q];
      match elem.value
      case Input(i) =>
        EnterCall(h, describe, q, history);
        history := history[elem.id := history[elem.id].(clientId := elem.clientId, start := elem.time)];
        calls := calls[elem.id := i];
      case Output(o) =>
        EnterReturn(h, describe, q, history, calls, returns_);
        history := history[elem.id := history[elem.id].(end := elem.time, description := describe(calls[elem.id], o))];
        returns_ := returns_[elem.id := o];
    }
  }

  lemma NothingEntered<I, O>(h: seq<Entry<I, O>>, describe: (I, O) -> string, elements: seq<HistoryElement>)
    requires WellFormed(h) && |elements| == Count(h)
    ensures ElementsBefore(h, describe, 0, elements)
  {
  }

  // ---- Replaying partial linearizations

  lemma StepByValues<S, I, O>(m: Model<S, I, O>, h: seq<Entry<I, O>>, calls: map<int, I>, returns_: map<int, O>, s: S,
        x: int)
    requires WellFormed(h) && ValuesById(h, |h|, calls, returns_) && 0 <= x < Count(h)
    ensures x in calls && x in returns_ && ProblemOf(m, h).step(s, x) == m.step(s, calls[x], returns_[x])
  {
    assert CallOf(h, CallAt(h, x), x) && ReturnOf(h, ReturnAt(h, x), x);
    assert ProblemOf(m, h).step(s, x) == StepOf(m, h, s, x);
  }

  /** `shown` is the run of `p`, operation by operation. */
  ghost predicate ShowsRun<S>(P: Problem<S>, p: seq<int>, shown: seq<ShownStep<S>>) {
    |shown| == |p| && forall j :: 0 <= j < |p| ==> shown[j] == ShownStep(p[j], P.StateOf(p[..j + 1]))
  }

  lemma {:induction false} AcceptedPrefix<S>(P: Problem<S>, p: seq<int>, j: int)
    requires P.Accepted(p) && 0 <= j <= |p|
    ensures P.Accepted(p[..j])
    decreases |p|
  {
    if j == |p| {
      assert p[..j] == p;
    } else {
      AcceptedPrefix(P, p[..|p| - 1], j);
      assert p[..|p| - 1][..j] == p[..j];
    }
  }

  /** Replays one list of ids; no result stands for the panic on a refused step. */
  method Replay<S, I, O>(m: Model<S, I, O>, h: seq<Entry<I, O>>, calls: map<int, I>, returns_: map<int, O>, p: seq<int>)
    returns (r: Option<seq<ShownStep<S>>>)
    requires WellFormed(h) && ValuesById(h, |h|, calls, returns_) && ProblemOf(m, h).InRange(p)
    ensures r.Some? <==> ProblemOf(m, h).Accepted(p)
    ensures r.Some? ==> ShowsRun(ProblemOf(m, h), p, r.value)
  {
    hide WellFormed, ProblemOf, ValuesById;
    ghost var P := ProblemOf(m, h);
    ProblemFacts(m, h);
    var state := m.init;
    var shown: seq<ShownStep<S>> := [];
    assert p[..0] == [];
    for j := 0 to |p|
      invariant P.Accepted(p[..j]) && state == P.StateOf(p[..j])
      invariant |shown| == j && forall k :: 0 <= k < j ==> shown[k] == ShownStep(p[k], P.StateOf(p[..k + 1]))
    {
      var x := p[j];
      StepByValues(m, h, calls, returns_, state, x);
      assert p[..j + 1][..j] == p[..j] && p[..j + 1][j] == x;
      var (ok, next) := m.step(state, calls[x], returns_[x]);
      if !ok {
        if P.Accepted(p) { AcceptedPrefix(P, p, j + 1); }
        return None;
      }
      state := next;
      shown := shown + [ShownStep(x, state)];
    }
    assert p[..|p|] == p;
    return Some(shown);
  }

  // ---- The largest list for each operation

  /** Longer lists first; lists of one length in any order. */
  ghost predicate LongestFirst(r: seq<seq<int>>, s: seq<seq<int>>) {
    multiset(r) == multiset(s) && forall i, j :: 0 <= i < j < |r| ==> |r[j]| <= |r[i]|
  }

  /** `largest` points each operation it has to a list before `n` that contains it, of size `sizes`, and
      lists before that one are shorter. */
  ghost predicate Points(partials: seq<seq<int>>, n: int, largest: map<int, int>, sizes: map<int, int>) {
    && largest.Keys == sizes.Keys && n <= |partials|
    && (forall x :: x in largest ==>
          0 <= largest[x] < n && x in partials[largest[x]] && sizes[x] == |partials[largest[x]]|)
    && (forall i, x :: x in largest && 0 <= i < largest[x] && x in partials[i] ==> |partials[i]| < sizes[x])
  }

  /** Operation `x` has a list of at least `size` operations. */
  ghost predicate Sized(sizes: map<int, int>, x: int, size: int) { x in sizes && size <= sizes[x] }

  /** For the lists before `n`: `largest` gives, for exactly the operations that occur, the first
      longest list that contains them, and `sizes` its length. */
  ghost predicate LargestAmong(partials: seq<seq<int>>, n: int, largest: map<int, int>, sizes: map<int, int>)
    requires 0 <= n <= |partials|
  {
    && Points(partials, n, largest, sizes)
    && forall i, x :: 0 <= i < n && x in partials[i] ==> Sized(sizes, x, |partials[i]|)
  }

  /** The inner loop for list `i`, whose operations before `j` have been entered. */
  ghost predicate Entering(partials: seq<seq<int>>, i: int, j: int, largest: map<int, int>, sizes: map<int, int>)
    requires 0 <= i < |partials| && 0 <= j <= |partials[i]|
  {
    && Points(partials, i + 1, largest, sizes)
    && (forall k, x :: 0 <= k < i && x in partials[k] ==> Sized(sizes, x, |partials[k]|))
    && (forall k :: 0 <= k < j ==> Sized(sizes, partials[i][k], |partials[i]|))
  }

  lemma StartEntering(partials: seq<seq<int>>, i: int, largest: map<int, int>, sizes: map<int, int>)
    requires 0 <= i < |partials| && LargestAmong(partials, i, largest, sizes)
    ensures Entering(partials, i, 0, largest, sizes)
  {
  }

  function SizeOf(sizes: map<int, int>, x: int): int { if x in sizes then sizes[x] else 0 }

  lemma KeepSize(partials: seq<seq<int>>, i: int, j: int, largest: map<int, int>, sizes: map<int, int>)
    requires 0 <= i < |partials| && 0 <= j < |partials[i]| && Entering(partials, i, j, largest, sizes)
    requires !(SizeOf(sizes, partials[i][j]) < |partials[i]|)
    ensures Entering(partials, i, j + 1, largest, sizes)
  {
  }

  lemma EnterSize(partials: seq<seq<int>>, i: int, j: int, largest: map<int, int>, sizes: map<int, int>)
    requires 0 <= i < |partials| && 0 <= j < |partials[i]| && Entering(partials, i, j, largest, sizes)
    requires SizeOf(sizes, partials[i][j]) < |partials[i]|
    ensures var x := partials[i][j]; Entering(partials, i, j + 1, largest[x := i], sizes[x := |partials[i]|])
  {
    var x := partials[i][j];
    var sizes' := sizes[x := |partials[i]|];
    GrownPoints(partials, i, x, largest, sizes);
    hide Points;
    assert forall y, n :: Sized(sizes, y, n) ==> Sized(sizes', y, n);
  }

  lemma GrownPoints(partials: seq<seq<int>>, i: int, x: int, largest: map<int, int>, sizes: map<int, int>)
    requires 0 <= i < |partials| && x in partials[i] && Points(partials, i + 1, largest, sizes)
    requires forall k :: 0 <= k < i && x in partials[k] ==> |partials[k]| < |partials[i]|
    ensures Points(partials, i + 1, largest[x := i], sizes[x := |partials[i]|])
  {
  }

  lemma Entered(partials: seq<seq<int>>, i: int, largest: map<int, int>, sizes: map<int, int>)
    requires 0 <= i < |partials| && Entering(partials, i, |partials[i]|, largest, sizes)
    ensures LargestAmong(partials, i + 1, largest, sizes)
  {
    hide Points, Sized;
    forall k, x | 0 <= k < i + 1 && x in partials[k] ensures Sized(sizes, x, |partials[k]|) {
      if k == i { var j := IndexOf(partials[i], x); }
    }
  }

  method EnterSizes(partials: seq<seq<int>>, i: int, largest: map<int, int>, sizes: map<int, int>)
    returns (largest': map<int, int>, sizes': map<int, int>)
    requires 0 <= i < |partials| && LargestAmong(partials, i, largest, sizes)
    ensures LargestAmong(partials, i + 1, largest', sizes')
  {
    hide LargestAmong, Entering;
    largest', sizes' := largest, sizes;
    var p := partials[i];
    StartEntering(partials, i, largest, sizes);
    for j := 0 to |p|
      invariant Entering(partials, i, j, largest', sizes')
    {
      var x := p[j];
      if SizeOf(sizes', x) < |p| {
        EnterSize(partials, i, j, largest', sizes');
        sizes' := sizes'[x := |p|];
        largest' := largest'[x := i];
      } else {
        KeepSize(partials, i, j, largest', sizes');
      }
    }
    Entered(partials, i, largest', sizes');
  }

  lemma EmptyLargest(partials: seq<seq<int>>)
    ensures LargestAmong(partials, 0, map[], map[])
  {
  }

  // ---- The whole

  /** `shown` shows the operations of `h` and the lists `partials`. */
  ghost predicate Shows<S, I, O>(m: Model<S, I, O>, describe: (I, O) -> string, h: seq<Entry<I, O>>,
        partials: seq<seq<int>>,
        shown: Shown<S>)
    requires WellFormed(h)
  {
    && ElementsBefore(h, describe, |h|, shown.history)
    && |shown.linearizations| == |partials|
    && (forall i :: 0 <= i < |partials| ==> ShowsRun(ProblemOf(m, h), partials[i], shown.linearizations[i]))
    && exists sizes :: LargestAmong(partials, |partials|, shown.largest, sizes)
  }

  ghost predicate AllAccepted<S>(P: Problem<S>, lists: seq<seq<int>>) {
    forall i :: 0 <= i < |lists| ==> P.Accepted(lists[i])
  }

  ghost predicate AllInRange<S>(P: Problem<S>, lists: seq<seq<int>>) {
    forall i :: 0 <= i < |lists| ==> P.InRange(lists[i])
  }

  lemma Rearranged<S>(P: Problem<S>, r: seq<seq<int>>, s: seq<seq<int>>)
    requires multiset(r) == multiset(s)
    ensures AllInRange(P, s) ==> AllInRange(P, r)
    ensures AllAccepted(P, s) ==> AllAccepted(P, r)
  {
    hide Problem.InRange, Problem.Accepted;
    forall i | 0 <= i < |r| ensures r[i] in s { assert r[i] in multiset(s); }
    forall i | 0 <= i < |r| ensures exists j :: 0 <= j < |s| && s[j] == r[i] { var j := IndexOf(s, r[i]); }
  }

  /** One turn of the loop over the parts. Fails exactly when some list is refused by the model. */
  method ShowPart<S, I, O>(m: Model<S, I, O>, describe: (I, O) -> string, h: seq<Entry<I, O>>, lists: seq<seq<int>>,
        sort: seq<seq<int>> -> seq<seq<int>>)
    returns (r: Option<Shown<S>>, partials: seq<seq<int>>)
    requires WellFormed(h) && AllInRange(ProblemOf(m, h), lists) && forall s :: LongestFirst(sort(s), s)
    ensures LongestFirst(partials, lists)
    ensures r.Some? <==> AllAccepted(ProblemOf(m, h), lists)
    ensures r.Some? ==> Shows(m, describe, h, partials, r.value)
  {
    hide WellFormed, ProblemOf, ValuesById, ElementsBefore, ShowsRun, LargestAmong, Problem.Accepted, Problem.InRange;
    var history, calls, returns_ := CollectValues(h, describe);
    partials := sort(lists);
    ghost var P := ProblemOf(m, h);
    Rearranged(P, partials, lists);
    Rearranged(P, lists, partials);
    var largest, sizes := map[], map[];
    EmptyLargest(partials);
    var shown: seq<seq<ShownStep<S>>> := [];
    for i := 0 to |partials|
      invariant |shown| == i && forall k :: 0 <= k < i ==>
        P.Accepted(partials[k]) && ShowsRun(P, partials[k], shown[k])
      invariant LargestAmong(partials, i, largest, sizes)
    {
      var replay := Replay(m, h, calls, returns_, partials[i]);
      if replay.None? {
        return None, partials;
      }
      largest, sizes := EnterSizes(partials, i, largest, sizes);
      shown := shown + [replay.value];
    }
    return Some(Shown(history, shown, largest)), partials;
  }

  ghost predicate Readable<S, I, O>(m: Model<S, I, O>, info: Info<I, O>) {
    && |info.partialLinearizations| == |info.history|
    && forall i :: 0 <= i < |info.history| ==>
         WellFormed(info.history[i]) && AllInRange(ProblemOf(m, info.history[i]), info.partialLinearizations[i])
  }

  /** Part `i` is shown with its lists, longest first. */
  ghost predicate ShowsPart<S, I, O>(m: Model<S, I, O>, describe: (I, O) -> string, info: Info<I, O>, i: int,
        sorted: seq<seq<seq<int>>>, data: seq<Shown<S>>)
    requires Readable(m, info) && 0 <= i < |info.history| && i < |sorted| && i < |data|
  {
    LongestFirst(sorted[i], info.partialLinearizations[i]) && Shows(m, describe, info.history[i], sorted[i], data[i])
  }

  /** Fails exactly when the model refuses some list of some part; `sorted` are the lists in the order shown. */
  method ComputeVisualizationData<S, I, O>(m: Model<S, I, O>, describe: (I, O) -> string, info: Info<I, O>,
        sort: seq<seq<int>> -> seq<seq<int>>)
    returns (data: Option<seq<Shown<S>>>, sorted: seq<seq<seq<int>>>)
    requires Readable(m, info) && forall s :: LongestFirst(sort(s), s)
    ensures data.Some? <==> forall i :: 0 <= i < |info.history| ==>
      AllAccepted(ProblemOf(m, info.history[i]), info.partialLinearizations[i])
    ensures data.Some? ==> |data.value| == |sorted| == |info.history|
    ensures data.Some? ==> forall i :: 0 <= i < |info.history| ==> ShowsPart(m, describe, info, i, sorted, data.value)
  {
    hide WellFormed, ProblemOf, AllInRange, AllAccepted, LongestFirst, Shows;
    var shown: seq<Shown<S>> := [];
    sorted := [];
    for i := 0 to |info.history|
      invariant |shown| == |sorted| == i
      invariant forall k :: 0 <= k < i ==>
        && AllAccepted(ProblemOf(m, info.history[k]), info.partialLinearizations[k])
        && ShowsPart(m, describe, info, k, sorted, shown)
    {
      var r, partials := ShowPart(m, describe, info.history[i], info.partialLinearizations[i], sort);
      sorted := sorted + [partials];
      if r.None? {
        return None, sorted;
      }
      shown := shown + [r.value];
    }
    return Some(shown), sorted;
  }

  /** `largest` points to a longest partial linearization of each operation that has one. */
  ghost predicate BestShown<S>(P: Problem<S>, partials: seq<seq<int>>, largest: map<int, int>)
    requires P.Valid()
  {
    && (forall x :: x in largest ==>
          0 <= largest[x] < |partials| && x in partials[largest[x]] && P.Partial(partials[largest[x]]))
    && (forall x, q :: P.Partial(q) && x in q ==>
          x in largest && 0 <= largest[x] < |partials| && |q| <= |partials[largest[x]]|)
  }

  lemma Pointed(partials: seq<seq<int>>, largest: map<int, int>, sizes: map<int, int>)
    requires LargestAmong(partials, |partials|, largest, sizes)
    ensures forall x :: x in largest ==> 0 <= largest[x] < |partials| && x in partials[largest[x]]
    ensures forall i, x :: 0 <= i < |partials| && x in partials[i] ==>
      x in largest && 0 <= largest[x] < |partials| && |partials[i]| <= |partials[largest[x]]|
  {
    forall i, x | 0 <= i < |partials| && x in partials[i] ensures x in largest
      && |partials[i]| <= |partials[largest[x]]| {
      assert Sized(sizes, x, |partials[i]|);
    }
  }

  lemma LargestIsBest<S, I, O>(m: Model<S, I, O>, h: seq<Entry<I, O>>, lists: seq<seq<int>>, partials: seq<seq<int>>,
        largest: map<int, int>, sizes: map<int, int>)
    requires WellFormed(h) && Explains(m, h, lists, true)
    requires LongestFirst(partials, lists) && LargestAmong(partials, |partials|, largest, sizes)
    ensures BestShown(ProblemOf(m, h), partials, largest)
  {
    hide WellFormed, ProblemOf, Problem.Partial, Problem.Valid, Tops, Distinct, LargestAmong, Points;
    Pointed(partials, largest, sizes);
    var P := ProblemOf(m, h);
    forall i | 0 <= i < |partials| ensures P.Partial(partials[i]) {
      assert partials[i] in multiset(lists);
      var k := IndexOf(lists, partials[i]);
    }
    forall x, q | P.Partial(q) && x in q ensures x in largest && |q| <= |partials[largest[x]]| {
      assert Reaches(lists, x, |q|);
      var k :| 0 <= k < |lists| && x in lists[k] && |q| <= |lists[k]|;
      assert lists[k] in multiset(partials);
      var i := IndexOf(partials, lists[k]);
      assert partials[i] == lists[k];
    }
  }

  lemma ExplainedReadable<S, I, O>(m: Model<S, I, O>, info: Info<I, O>, exact: bool)
    requires Informative(m, info, exact)
    ensures Readable(m, info)
    ensures forall i ::
      0 <= i < |info.history| ==> AllAccepted(ProblemOf(m, info.history[i]), info.partialLinearizations[i])
  {
    hide WellFormed, ProblemOf, Problem.Accepted, Problem.InRange;
    forall i | 0 <= i < |info.history|
      ensures AllInRange(ProblemOf(m, info.history[i]), info.partialLinearizations[i])
      ensures AllAccepted(ProblemOf(m, info.history[i]), info.partialLinearizations[i])
    {
      assert Explains(m, info.history[i], info.partialLinearizations[i], exact);
    }
  }

  lemma ShownIsBest<S, I, O>(m: Model<S, I, O>, describe: (I, O) -> string, info: Info<I, O>, i: int,
        sorted: seq<seq<seq<int>>>, data: seq<Shown<S>>)
    requires Informative(m, info, true) && Readable(m, info) && 0 <= i < |info.history| && i < |sorted| && i < |data|
    requires ShowsPart(m, describe, info, i, sorted, data)
    ensures BestShown(ProblemOf(m, info.history[i]), sorted[i], data[i].largest)
  {
    hide WellFormed, ProblemOf, Explains, LongestFirst, LargestAmong, ElementsBefore, BestShown;
    var sizes :| LargestAmong(sorted[i], |sorted[i]|, data[i].largest, sizes);
    LargestIsBest(m, info.history[i], info.partialLinearizations[i], sorted[i], data[i].largest, sizes);
  }

  /** What a check collected can always be shown, and if it is exact the display is the best possible:
      it points each operation to a longest partial linearization that contains it. */
  method Visualize<S, I, O>(m: Model<S, I, O>, describe: (I, O) -> string, info: Info<I, O>, ghost exact: bool,
        sort: seq<seq<int>> -> seq<seq<int>>)
    returns (data: Option<seq<Shown<S>>>, sorted: seq<seq<seq<int>>>)
    requires Informative(m, info, exact) && forall s :: LongestFirst(sort(s), s)
    ensures Readable(m, info) && data.Some? && |data.value| == |sorted| == |info.history|
    ensures forall i :: 0 <= i < |info.history| ==> ShowsPart(m, describe, info, i, sorted, data.value)
    ensures exact ==> forall i :: 0 <= i < |info.history| ==>
      BestShown(ProblemOf(m, info.history[i]), sorted[i], data.value[i].largest)
  {
    hide WellFormed, ProblemOf, Explains, LongestFirst, Shows, BestShown, AllAccepted, AllInRange;
    ExplainedReadable(m, info, exact);
    data, sorted := ComputeVisualizationData(m, describe, info, sort);
    if exact {
      forall i | 0 <= i < |info.history|
        ensures BestShown(ProblemOf(m, info.history[i]), sorted[i], data.value[i].largest) {
        ShownIsBest(m, describe, info, i, sorted, data.value);
      }
    }
  }

  /** Every operation of every part is shown with its own client, times, input and output. */
  ghost predicate ShowsOperations<S, I, O>(describe: (I, O) -> string, parts: seq<seq<Operation<I, O>>>,
        data: seq<Shown<S>>)
  {
    && |data| == |parts|
    && forall i :: 0 <= i < |parts| ==> ShowsOperationsOf(describe, parts[i], data[i].history)
  }

  ghost predicate ShowsOperationsOf<I, O>(describe: (I, O) -> string, ops: seq<Operation<I, O>>,
        elements: seq<HistoryElement>)
  {
    && |elements| == |ops|
    && forall x :: 0 <= x < |ops| ==>
         elements[x] == HistoryElement(ops[x].clientId, ops[x].call, ops[x].ret, describe(ops[x].input, ops[x].output))
  }

  lemma PartShown<I, O>(describe: (I, O) -> string, ops: seq<Operation<I, O>>, h: seq<Entry<I, O>>,
        elements: seq<HistoryElement>)
    requires WellFormed(h) && Operations.EntriesOf(ops, h) && ElementsBefore(h, describe, |h|, elements)
    ensures ShowsOperationsOf(describe, ops, elements)
  {
    assert |multiset(h)| == |multiset(Operations.Unsorted(ops))|;
    forall x | 0 <= x < |ops|
      ensures elements[x] == HistoryElement(ops[x].clientId, ops[x].call, ops[x].ret,
        describe(ops[x].input, ops[x].output))
    {
      assert ElementBefore(h, describe, |h|, x, elements[x]);
      Operations.EntryIs(ops, h, CallAt(h, x));
      Operations.EntryIs(ops, h, ReturnAt(h, x));
    }
  }

  lemma OperationsShown<S, I, O>(m: Model<S, I, O>, describe: (I, O) -> string, parts: seq<seq<Operation<I, O>>>,
        info: Info<I, O>, sorted: seq<seq<seq<int>>>, data: seq<Shown<S>>)
    requires Readable(m, info) && ShowsParts(parts, info) && |data| == |sorted| == |info.history|
    requires forall i :: 0 <= i < |info.history| ==> ShowsPart(m, describe, info, i, sorted, data)
    ensures ShowsOperations(describe, parts, data)
  {
    hide WellFormed, ProblemOf, LongestFirst, ElementsBefore, Operations.EntriesOf;
    forall i | 0 <= i < |parts| ensures ShowsOperationsOf(describe, parts[i], data[i].history) {
      assert ShowsPart(m, describe, info, i, sorted, data);
      PartShown(describe, parts[i], info.history[i], data[i].history);
    }
  }

  /** A verbose check of a key/value history and its display, end to end: never the panic, and without
      a timeout the best possible display of every key. */
  method CheckAndVisualize(history: seq<KvOperation>, timeout: int, fires: nat -> bool,
        describe: (KvInput, KvOutput) -> string,
        sort: seq<Entry<KvInput, KvOutput>> -> seq<Entry<KvInput, KvOutput>>, sortStrings: seq<string> -> seq<string>,
        sortLists: seq<seq<int>> -> seq<seq<int>>)
    returns (result: CheckResult, info: Info<KvInput, KvOutput>, data: Option<seq<Shown<string>>>,
      sorted: seq<seq<seq<int>>>)
    requires Timely(history) && (history != [] || MayFire(timeout, fires))
    requires forall s :: Operations.Sorts(sort(s), s)
    requires forall s :: SortsStrings(sortStrings(s), s)
    requires forall s :: LongestFirst(sortLists(s), s)
    ensures !MayFire(timeout, fires) ==> result == if Linearizable(KvStore(), history) then Ok else Illegal
    ensures Readable(KvModel(), info) && data.Some? && |data.value| == |sorted| == |info.history|
    ensures exists keys, parts :: Partitions(history, keys, parts) && ShowsOperations(describe, parts, data.value)
    ensures !MayFire(timeout, fires) ==> forall i :: 0 <= i < |info.history| ==>
      BestShown(ProblemOf(KvModel(), info.history[i]), sorted[i], data.value[i].largest)
  {
    hide Timely, Operations.Sorts, SortsStrings, LongestFirst, Linearizable, Informative, Readable, WellFormed,
      ProblemOf, BestShown, Partitions, ShowsParts, MayFire, ShowsPart, ShowsOperations;
    ghost var parts;
    result, info, parts := CheckOperations(history, true, timeout, fires, sort, sortStrings);
    data, sorted := Visualize(KvModel(), describe, info, !MayFire(timeout, fires), sortLists);
    OperationsShown(KvModel(), describe, parts, info, sorted, data.value);
  }
}
