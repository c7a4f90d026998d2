/** Histories given as lists of events with arbitrary ids: renumbering keeps the pairing and the
    order, so the verdict is about the events as they were given. */
module Events {
  import opened Collections
  import opened Histories
  import opened Problems
  import opened Entries
  import opened Operations
  import opened Parallel
  import Checker

  datatype Event<+I, +O> = Event(clientId: int, value: Value<I, O>, id: int)

  /** Position `c` holds the call, position `r` the return of `x`. */
  ghost predicate PairAt<I, O>(ev: seq<Event<I, O>>, c: int, r: int, x: int) {
    0 <= c < r < |ev| && ev[c].id == x && ev[r].id == x && ev[c].value.Input? && ev[r].value.Output?
  }

  /** Each id has one call event followed by one return event and no others. */
  ghost predicate Balanced<I, O>(ev: seq<Event<I, O>>) {
    && (forall q, r :: 0 <= q < r < |ev| && ev[q].id == ev[r].id ==> ev[q].value.Input? && ev[r].value.Output?)
    && (forall q :: 0 <= q < |ev| ==> HasPair(ev, ev[q].id))
  }

  ghost predicate HasPair<I, O>(ev: seq<Event<I, O>>, x: int) { exists c, r :: PairAt(ev, c, r, x) }

  /** `order` lists the ids once each, and `e` replaces each id by its place in `order`. */
  ghost predicate Relabels<I, O>(ev: seq<Event<I, O>>, e: seq<Event<I, O>>, order: seq<int>) {
    && |e| == |ev| && Distinct(order)
    && (forall q :: 0 <= q < |ev| ==>
      0 <= e[q].id < |order| && order[e[q].id] == ev[q].id && e[q] == ev[q].(id := e[q].id))
    && (forall k :: 0 <= k < |order| ==> Occurs(ev, order[k]))
  }

  ghost predicate Occurs<I, O>(ev: seq<Event<I, O>>, x: int) { exists q :: 0 <= q < |ev| && ev[q].id == x }

  ghost predicate SeenBefore<I, O>(ev: seq<Event<I, O>>, q: int, x: int) {
    exists r :: 0 <= r < q && r < |ev| && ev[r].id == x
  }

  /** The id of event `q` was seen before, or its new id is larger than all before it. */
  ghost predicate NewestOrSeen<I, O>(ev: seq<Event<I, O>>, e: seq<Event<I, O>>, q: int)
    requires 0 <= q < |ev| && q < |e|
  {
    (exists r :: 0 <= r < q && ev[r].id == ev[q].id) || forall r :: 0 <= r < q ==> e[r].id < e[q].id
  }

  lemma NewestExtends<I, O>(ev: seq<Event<I, O>>, e: seq<Event<I, O>>, x: Event<I, O>)
    requires |e| < |ev| && forall k :: 0 <= k < |e| ==> NewestOrSeen(ev, e, k)
    requires SeenBefore(ev, |e|, ev[|e|].id) || forall r :: 0 <= r < |e| ==> e[r].id < x.id
    ensures forall k :: 0 <= k <= |e| ==> NewestOrSeen(ev, e + [x], k)
  {
    var e' := e + [x];
    forall k | 0 <= k < |e| ensures NewestOrSeen(ev, e', k) {
      assert NewestOrSeen(ev, e, k);
      assert forall r :: 0 <= r <= k ==> e'[r] == e[r];
    }
  }

  lemma JustSeen<I, O>(ev: seq<Event<I, O>>, q: int)
    requires 0 <= q < |ev|
    ensures SeenBefore(ev, q + 1, ev[q].id)
  {
  }

  lemma SeenGrows<I, O>(ev: seq<Event<I, O>>, q: int, x: int)
    requires SeenBefore(ev, q, x)
    ensures SeenBefore(ev, q + 1, x)
  {
  }

  /** Two events get the same new id exactly if they had the same id, new ids are given in the order of
      the events, and all else stays. */
  method Renumber<I, O>(events: seq<Event<I, O>>) returns (e: seq<Event<I, O>>, ghost order: seq<int>)
    ensures Relabels(events, e, order)
    ensures |e| == |events| && forall q :: 0 <= q < |e| ==> e[q] == events[q].(id := e[q].id)
    ensures forall q, r :: 0 <= q < |e| && 0 <= r < |e| ==> (e[q].id == e[r].id <==> events[q].id == events[r].id)
    ensures forall q :: 0 <= q < |e| ==> NewestOrSeen(events, e, q)
  {
    hide NewestOrSeen, SeenBefore;
    e, order := [], [];
    var m: map<int, int> := map[];
    var id := 0;
    for q := 0 to |events|
      invariant |e| == q && |order| == id && Distinct(order)
      invariant forall k :: 0 <= k < id ==> order[k] in m && m[order[k]] == k && Occurs(events, order[k])
      invariant forall x :: x in m ==> 0 <= m[x] < id && order[m[x]] == x
      invariant forall k :: 0 <= k < q ==>
        0 <= e[k].id < id && order[e[k].id] == events[k].id && e[k] == events[k].(id := e[k].id)
      invariant forall x :: x in m ==> SeenBefore(events, q, x)
      invariant forall k :: 0 <= k < q ==> NewestOrSeen(events, e, k)
    {
      var v := events[q];
      NewestExtends(events, e, Event(v.clientId, v.value, if v.id in m then m[v.id] else id));
      forall x | x in m ensures SeenBefore(events, q + 1, x) { SeenGrows(events, q, x); }
      JustSeen(events, q);
      if v.id in m {
        e := e + [Event(v.clientId, v.value, m[v.id])];
      } else {
        e := e + [Event(v.clientId, v.value, id)];
        m := m[v.id := id];
        assert Occurs(events, v.id);
        order := order + [v.id];
        id := id + 1;
      }
    }
  }

  ghost function Converted<I, O>(ev: seq<Event<I, O>>): (h: seq<Entry<I, O>>)
    ensures |h| == |ev|
  {
    seq(|ev|, i requires 0 <= i < |ev| => Entry(ev[i].value, ev[i].id, i, ev[i].clientId))
  }

  method ConvertEntries<I, O>(events: seq<Event<I, O>>) returns (entries: seq<Entry<I, O>>)
    ensures entries == Converted(events)
    ensures |entries| == |events| && forall i :: 0 <= i < |events| ==>
      entries[i] == Entry(events[i].value, events[i].id, i, events[i].clientId)
  {
    entries := [];
    for i := 0 to |events|
      invariant |entries| == i && forall k :: 0 <= k < i ==> entries[k] == Converted(events)[k]
    {
      entries := entries + [Entry(events[i].value, events[i].id, i, events[i].clientId)];
    }
  }

  // ---- The renumbered events are a well-formed history

  lemma PairUnique<I, O>(ev: seq<Event<I, O>>, c: int, r: int, x: int, q: int)
    requires Balanced(ev) && PairAt(ev, c, r, x) && 0 <= q < |ev| && ev[q].id == x
    ensures q == c || q == r
  {
  }

  /** The positions of the first `k` ids: two for each. */
  lemma {:induction false} Positions<I, O>(ev: seq<Event<I, O>>, order: seq<int>, k: int) returns (ps: seq<int>)
    requires Balanced(ev) && Distinct(order) && 0 <= k <= |order|
    requires forall j :: 0 <= j < |order| ==> Occurs(ev, order[j])
    ensures |ps| == 2 * k && Distinct(ps)
    ensures forall q :: q in ps <==> 0 <= q < |ev| && ev[q].id in order[..k]
  {
    if k == 0 {
      ps := [];
    } else {
      var rest := Positions(ev, order, k - 1);
      var x := order[k - 1];
      assert Occurs(ev, x) && HasPair(ev, x);
      var c, r :| PairAt(ev, c, r, x);
      assert x !in order[..k - 1] && order[..k] == order[..k - 1] + [x];
      ps := rest + [c, r];
      forall q ensures q in ps <==> 0 <= q < |ev| && ev[q].id in order[..k] {
        if 0 <= q < |ev| && ev[q].id == x { PairUnique(ev, c, r, x, q); }
        if q == c { assert ps[|rest|] == q; }
        if q == r { assert ps[|rest| + 1] == q; }
      }
      assert forall i :: 0 <= i < |rest| ==> rest[i] in rest;
    }
  }

  lemma TwicePerId<I, O>(ev: seq<Event<I, O>>, e: seq<Event<I, O>>, order: seq<int>)
    requires Balanced(ev) && Relabels(ev, e, order)
    ensures |ev| == 2 * |order|
  {
    var ps := Positions(ev, order, |order|);
    assert order[..|order|] == order;
    forall q ensures q in IdSet(ps) <==> q in Below(|ev|) {
      assert q in IdSet(ps) <==> q in ps;
      if 0 <= q < |ev| { assert order[e[q].id] in order; }
    }
    assert IdSet(ps) == Below(|ev|);
    DistinctSize(ps);
    BelowSize(|ev|);
  }

  lemma RenumberedWellFormed<I, O>(ev: seq<Event<I, O>>, e: seq<Event<I, O>>, order: seq<int>)
    requires Balanced(ev) && Relabels(ev, e, order)
    ensures WellFormed(Converted(e)) && Count(Converted(e)) == |order|
  {
    var h := Converted(e);
    TwicePerId(ev, e, order);
    forall x | 0 <= x < |order| ensures Paired(h, x) {
      assert Occurs(ev, order[x]) && HasPair(ev, order[x]);
      var c, r :| PairAt(ev, c, r, order[x]);
      assert order[e[c].id] == order[x] && order[e[r].id] == order[x];
      assert CallOf(h, c, x) && ReturnOf(h, r, x);
    }
  }

  // ---- The verdict is about the original events

  /** The step of the operation with original id `x`. */
  ghost function EventStep<S, I, O>(m: Model<S, I, O>, ev: seq<Event<I, O>>, s: S, x: int): (bool, S)
    requires Balanced(ev) && Occurs(ev, x)
  {
    var c, r :| PairAt(ev, c, r, x);
    m.step(s, ev[c].value.i, ev[r].value.o)
  }

  ghost predicate AllOccur<I, O>(ev: seq<Event<I, O>>, q: seq<int>) { forall k :: 0 <= k < |q| ==> Occurs(ev, q[k]) }

  ghost function EventState<S, I, O>(m: Model<S, I, O>, ev: seq<Event<I, O>>, q: seq<int>): S
    requires Balanced(ev) && AllOccur(ev, q)
  {
    if q == [] then m.init else EventStep(m, ev, EventState(m, ev, q[..|q| - 1]), q[|q| - 1]).1
  }

  ghost predicate EventRun<S, I, O>(m: Model<S, I, O>, ev: seq<Event<I, O>>, q: seq<int>)
    requires Balanced(ev) && AllOccur(ev, q)
  {
    q == [] || (EventRun(m, ev, q[..|q| - 1]) && EventStep(m, ev, EventState(m, ev, q[..|q| - 1]), q[|q| - 1]).0)
  }

  /** The return of `a` stands before the call of `b`. */
  ghost predicate EventPrecedes<I, O>(ev: seq<Event<I, O>>, a: int, b: int) {
    exists r, c :: 0 <= r < c < |ev| && ev[r].id == a && ev[r].value.Output? && ev[c].id == b && ev[c].value.Input?
  }

  /** `q` lists all ids once, never against the order of the events, and is a legal run. */
  ghost predicate EventLinearization<S, I, O>(m: Model<S, I, O>, ev: seq<Event<I, O>>, q: seq<int>)
    requires Balanced(ev)
  {
    && Distinct(q) && AllOccur(ev, q) && (forall k :: 0 <= k < |ev| ==> ev[k].id in q)
    && EventRun(m, ev, q)
    && (forall i, j :: 0 <= i < j < |q| ==> !EventPrecedes(ev, q[j], q[i]))
  }

  ghost predicate EventsLinearizable<S, I, O>(m: Model<S, I, O>, ev: seq<Event<I, O>>)
    requires Balanced(ev)
  {
    exists q :: EventLinearization(m, ev, q)
  }

  ghost predicate Setting<I, O>(ev: seq<Event<I, O>>, e: seq<Event<I, O>>, order: seq<int>) {
    Balanced(ev) && Relabels(ev, e, order) && WellFormed(Converted(e)) && Count(Converted(e)) == |order|
  }

  /** The call and return positions of an id are the same before and after renumbering. */
  lemma SamePositions<I, O>(ev: seq<Event<I, O>>, e: seq<Event<I, O>>, order: seq<int>, x: int)
    requires Setting(ev, e, order) && 0 <= x < |order|
    ensures PairAt(ev, CallAt(Converted(e), x), ReturnAt(Converted(e), x), order[x])
  {
    var h := Converted(e);
    assert CallOf(h, CallAt(h, x), x) && ReturnOf(h, ReturnAt(h, x), x);
  }

  lemma PairsEqual<I, O>(ev: seq<Event<I, O>>, c: int, r: int, d: int, s: int, x: int)
    requires Balanced(ev) && PairAt(ev, c, r, x) && PairAt(ev, d, s, x)
    ensures c == d && r == s
  {
    PairUnique(ev, c, r, x, d);
    PairUnique(ev, c, r, x, s);
  }

  lemma StepAgrees<S, I, O>(m: Model<S, I, O>, ev: seq<Event<I, O>>, e: seq<Event<I, O>>, order: seq<int>, s: S, x: int)
    requires Setting(ev, e, order) && 0 <= x < |order|
    ensures Occurs(ev, order[x]) && ProblemOf(m, Converted(e)).step(s, x) == EventStep(m, ev, s, order[x])
  {
    var h := Converted(e);
    SamePositions(ev, e, order, x);
    assert Occurs(ev, order[x]);
    assert HasPair(ev, order[x]);
    var c, r :| PairAt(ev, c, r, order[x]) && EventStep(m, ev, s, order[x]) == m.step(s, ev[c].value.i, ev[r].value.o);
    PairsEqual(ev, c, r, CallAt(h, x), ReturnAt(h, x), order[x]);
    assert ProblemOf(m, h).step(s, x) == StepOf(m, h, s, x);
  }

  lemma PrecedesAgrees<S, I, O>(m: Model<S, I, O>, ev: seq<Event<I, O>>, e: seq<Event<I, O>>, order: seq<int>, a: int,
        b: int)
    requires Setting(ev, e, order) && 0 <= a < |order| && 0 <= b < |order|
    ensures ProblemOf(m, Converted(e)).Precedes(a, b) <==> EventPrecedes(ev, order[a], order[b])
  {
    var h := Converted(e);
    SamePositions(ev, e, order, a);
    SamePositions(ev, e, order, b);
    if EventPrecedes(ev, order[a], order[b]) {
      var r, c :| 0 <= r < c < |ev| && ev[r].id == order[a] && ev[r].value.Output? && ev[c].id == order[b]
        && ev[c].value.Input?;
      PairUnique(ev, CallAt(h, a), ReturnAt(h, a), order[a], r);
      PairUnique(ev, CallAt(h, b), ReturnAt(h, b), order[b], c);
    }
  }

  lemma {:induction false} RunsAgree<S, I, O>(m: Model<S, I, O>, ev: seq<Event<I, O>>, e: seq<Event<I, O>>,
        order: seq<int>, p: seq<int>)
    requires Setting(ev, e, order) && forall k :: 0 <= k < |p| ==> 0 <= p[k] < |order|
    ensures AllOccur(ev, Select(order, p))
    ensures ProblemOf(m, Converted(e)).StateOf(p) == EventState(m, ev, Select(order, p))
    ensures ProblemOf(m, Converted(e)).Accepted(p) <==> EventRun(m, ev, Select(order, p))
  {
    hide WellFormed, Balanced, Relabels, EventStep;
    if p != [] {
      var q, x := p[..|p| - 1], p[|p| - 1];
      RunsAgree(m, ev, e, order, q);
      assert Select(order, p)[..|p| - 1] == Select(order, q);
      StepAgrees(m, ev, e, order, EventState(m, ev, Select(order, q)), x);
    }
  }

  lemma FromRenumbered<S, I, O>(m: Model<S, I, O>, ev: seq<Event<I, O>>, e: seq<Event<I, O>>, order: seq<int>,
        p: seq<int>) returns (q: seq<int>)
    requires Setting(ev, e, order) && ProblemOf(m, Converted(e)).Complete(p)
    ensures EventLinearization(m, ev, q)
  {
    hide WellFormed, Balanced, ProblemOf, EventPrecedes, Problem.Precedes, EventRun, Problem.Accepted;
    CompletePermutes(ProblemOf(m, Converted(e)), p);
    ProblemFacts(m, Converted(e));
    RunsAgree(m, ev, e, order, p);
    q := Select(order, p);
    forall k | 0 <= k < |ev| ensures ev[k].id in q {
      var j := IndexOf(p, e[k].id);
      assert q[j] == ev[k].id;
    }
    forall i, j | 0 <= i < j < |q|
      ensures !EventPrecedes(ev, q[j], q[i]) { PrecedesAgrees(m, ev, e, order, p[j], p[i]); }
  }

  /** The places of the ids of `q` in `order`. */
  lemma {:induction false} Places<I, O>(ev: seq<Event<I, O>>, e: seq<Event<I, O>>, order: seq<int>, q: seq<int>)
    returns (p: seq<int>)
    requires Relabels(ev, e, order) && AllOccur(ev, q)
    ensures |p| == |q| && (forall k :: 0 <= k < |p| ==> 0 <= p[k] < |order|) && Select(order, p) == q
  {
    if q == [] {
      p := [];
    } else {
      var n := |q| - 1;
      var rest := Places(ev, e, order, q[..n]);
      assert Occurs(ev, q[n]);
      var k :| 0 <= k < |ev| && ev[k].id == q[n];
      p := rest + [e[k].id];
      forall j | 0 <= j < |q| ensures order[p[j]] == q[j] {
        if j < n { assert Select(order, rest)[j] == q[..n][j]; }
      }
    }
  }

  lemma ToRenumbered<S, I, O>(m: Model<S, I, O>, ev: seq<Event<I, O>>, e: seq<Event<I, O>>, order: seq<int>,
        q: seq<int>) returns (p: seq<int>)
    requires Setting(ev, e, order) && EventLinearization(m, ev, q)
    ensures ProblemOf(m, Converted(e)).Complete(p)
  {
    hide WellFormed, Balanced, ProblemOf, EventPrecedes, Problem.Precedes, EventRun, Problem.Accepted;
    var P := ProblemOf(m, Converted(e));
    ProblemFacts(m, Converted(e));
    p := Places(ev, e, order, q);
    RunsAgree(m, ev, e, order, p);
    forall j | 0 <= j < |p| ensures order[p[j]] == q[j] { assert Select(order, p)[j] == q[j]; }
    forall x | 0 <= x < |order| ensures x in p {
      assert Occurs(ev, order[x]);
      var k :| 0 <= k < |ev| && ev[k].id == order[x];
      var j := IndexOf(q, ev[k].id);
      assert p[j] == x;
    }
    forall x ensures x in IdSet(p) <==> x in P.AllIds() {
      InAllIds(P, x);
      if 0 <= x < |order| { var j := IndexOf(p, x); }
    }
    forall i, j | 0 <= i < j < |p| ensures !P.Precedes(p[j], p[i]) { PrecedesAgrees(m, ev, e, order, p[j], p[i]); }
  }

  /** Renumbering and converting change nothing about whether a linearization exists. */
  lemma RenumberingFaithful<S, I, O>(m: Model<S, I, O>, ev: seq<Event<I, O>>, e: seq<Event<I, O>>, order: seq<int>)
    requires Balanced(ev) && Relabels(ev, e, order)
    ensures WellFormed(Converted(e))
    ensures Checker.HasLinearization(m, Converted(e)) <==> EventsLinearizable(m, ev)
  {
    RenumberedWellFormed(ev, e, order);
    if Checker.HasLinearization(m, Converted(e)) {
      var p :| ProblemOf(m, Converted(e)).Complete(p);
      var q := FromRenumbered(m, ev, e, order, p);
    }
    if EventsLinearizable(m, ev) {
      var q :| EventLinearization(m, ev, q);
      var p := ToRenumbered(m, ev, e, order, q);
    }
  }

  /** What a partition function for events promises: the whole is linearizable exactly when every
      part is. */
  ghost predicate Splits<S, I, O>(m: Model<S, I, O>, history: seq<Event<I, O>>, parts: seq<seq<Event<I, O>>>)
    requires Balanced(history)
  {
    && (forall i :: 0 <= i < |parts| ==> Balanced(parts[i]))
    && (EventsLinearizable(m, history) <==> forall i :: 0 <= i < |parts| ==> EventsLinearizable(m, parts[i]))
  }

  /** The default partition function keeps the promise. */
  lemma NoPartitionSplits<S, I, O>(m: Model<S, I, O>, history: seq<Event<I, O>>)
    requires Balanced(history)
    ensures Splits(m, history, [history])
  {
    hide Balanced, EventsLinearizable;
    assert forall i :: 0 <= i < |[history]| ==> [history][i] == history;
    assert [history][0] == history;
  }

  /** The entries are those of the events, renumbered. */
  ghost predicate ShowsEventsOf<I, O>(ev: seq<Event<I, O>>, h: seq<Entry<I, O>>) {
    && |h| == |ev|
    && (forall q :: 0 <= q < |h| ==> h[q] == Entry(ev[q].value, h[q].id, q, ev[q].clientId))
    && (forall q, r :: 0 <= q < |h| && 0 <= r < |h| ==> (h[q].id == h[r].id <==> ev[q].id == ev[r].id))
  }

  ghost predicate ShowsEvents<I, O>(parts: seq<seq<Event<I, O>>>, info: Checker.Info<I, O>) {
    |info.history| == |parts| && forall i :: 0 <= i < |parts| ==> ShowsEventsOf(parts[i], info.history[i])
  }

  /** The verdict is about the events as given. */
  method CheckEvents<S(!new), I(!new), O(!new)>(m: Model<S, I, O>, history: seq<Event<I, O>>, verbose: bool,
        timeout: int, fires: nat -> bool,
        partitionEvent: seq<Event<I, O>> -> seq<seq<Event<I, O>>>)
    returns (result: CheckResult, info: Checker.Info<I, O>)
    requires Respectful(m) && Balanced(history) && Splits(m, history, partitionEvent(history))
    requires partitionEvent(history) != [] || Checker.MayFire(timeout, fires)
    ensures result == Ok ==> EventsLinearizable(m, history)
    ensures result == Illegal ==> !EventsLinearizable(m, history)
    ensures result == Unknown ==> Checker.MayFire(timeout, fires)
    ensures !Checker.MayFire(timeout, fires) ==> result == if EventsLinearizable(m, history) then Ok else Illegal
    ensures verbose ==> Checker.Informative(m, info, !Checker.MayFire(timeout, fires))
    ensures verbose ==> ShowsEvents(partitionEvent(history), info)
  {
    hide Respectful, Balanced, Relabels, EventsLinearizable, WellFormed, ProblemOf, Checker.Informative,
      Checker.MayFire;
    var parts := partitionEvent(history);
    var l: seq<seq<Entry<I, O>>> := [];
    for i := 0 to |parts|
      invariant |l| == i
      invariant forall j :: 0 <= j < i ==> ShowsEventsOf(parts[j], l[j])
      invariant forall j :: 0 <= j < i ==>
        WellFormed(l[j]) && (Checker.HasLinearization(m, l[j]) <==> EventsLinearizable(m, parts[j]))
    {
      var e, order := Renumber(parts[i]);
      var entries := ConvertEntries(e);
      RenumberingFaithful(m, parts[i], e, order);
      assert ShowsEventsOf(parts[i], entries);
      l := l + [entries];
    }
    ghost var run, steps;
    result, info, run, steps := Checker.CheckParallel(m, l, verbose, timeout, fires);
    if verbose { Checker.LessInformative(m, info, !run[|steps|].timedOut, !Checker.MayFire(timeout, fires)); }
    ghost var lin := Checker.Truth(m, l);
    assert forall i :: 0 <= i < |parts| ==> lin[i] == Checker.HasLinearization(m, l[i]);
  }
}
