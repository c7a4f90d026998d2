/** From operations to entries: building and sorting the entry list, and why a linearization of
    the entries is a linearization of the operations. */
module Operations {
  import opened Collections
  import opened Histories
  import opened Problems
  import opened Entries

  // ---- Entries of a list of operations

  function CallEntry<I, O>(op: Operation<I, O>, id: int): Entry<I, O> {
    Entry(Input(op.input), id, op.call, op.clientId)
  }

  function ReturnEntry<I, O>(op: Operation<I, O>, id: int): Entry<I, O> {
    Entry(Output(op.output), id, op.ret, op.clientId)
  }

  /** The entries before sorting: each operation's call, then its return. */
  ghost function Unsorted<I, O>(ops: seq<Operation<I, O>>): (r: seq<Entry<I, O>>)
    ensures |r| == 2 * |ops|
  {
    seq(2 * |ops|, j requires 0 <= j < 2 * |ops| => if j % 2 == 0 then CallEntry(ops[j / 2], j / 2)
      else ReturnEntry(ops[j / 2], j / 2))
  }

  /** Earlier times first, and calls before returns at the same time. */
  predicate Less<I, O>(a: Entry<I, O>, b: Entry<I, O>) {
    if a.time != b.time then a.time < b.time else a.IsCall() && !b.IsCall()
  }

  /** What sorting by `Less` promises: nothing about the order of entries neither of which is less. */
  ghost predicate Sorts<I, O>(r: seq<Entry<I, O>>, s: seq<Entry<I, O>>) {
    multiset(r) == multiset(s) && forall i, j :: 0 <= i < j < |r| ==> !Less(r[j], r[i])
  }

  /** `h` is a possible outcome of makeEntries. */
  ghost predicate EntriesOf<I, O>(ops: seq<Operation<I, O>>, h: seq<Entry<I, O>>) {
    Sorts(h, Unsorted(ops))
  }

  /** `h` has exactly the call and the return of each operation, by time and with calls first. */
  ghost predicate SortedCallsAndReturns<I, O>(ops: seq<Operation<I, O>>, h: seq<Entry<I, O>>) {
    && |h| == 2 * |ops|
    && (forall x :: 0 <= x < |ops| ==>
          && Entry(Input(ops[x].input), x, ops[x].call, ops[x].clientId) in h
          && Entry(Output(ops[x].output), x, ops[x].ret, ops[x].clientId) in h)
    && (forall i, j :: 0 <= i < j < |h| ==>
          h[i].time < h[j].time || (h[i].time == h[j].time && (h[i].value.Input? || h[j].value.Output?)))
  }

  lemma EntriesSorted<I, O>(ops: seq<Operation<I, O>>, h: seq<Entry<I, O>>)
    requires EntriesOf(ops, h)
    ensures SortedCallsAndReturns(ops, h)
  {
    var u := Unsorted(ops);
    assert |multiset(h)| == |multiset(u)|;
    forall x | 0 <= x < |ops| ensures CallEntry(ops[x], x) in h && ReturnEntry(ops[x], x) in h {
      assert u[2 * x] in multiset(u) && u[2 * x + 1] in multiset(u);
      assert u[2 * x] in multiset(h) && u[2 * x + 1] in multiset(h);
    }
    forall i, j | 0 <= i < j < |h|
      ensures h[i].time < h[j].time || (h[i].time == h[j].time && (h[i].value.Input? || h[j].value.Output?))
    {
      assert !Less(h[j], h[i]);
    }
  }

  method MakeEntries<I(!new), O(!new)>(history: seq<Operation<I, O>>, sort: seq<Entry<I, O>> -> seq<Entry<I, O>>)
    returns (entries: seq<Entry<I, O>>)
    requires forall s :: Sorts(sort(s), s)
    ensures EntriesOf(history, entries) && SortedCallsAndReturns(history, entries)
  {
    entries := [];
    for id := 0 to |history|
      invariant |entries| == 2 * id
      invariant forall k :: 0 <= k < id ==>
        entries[2 * k] == CallEntry(history[k], k) && entries[2 * k + 1] == ReturnEntry(history[k], k)
    {
      entries := entries + [CallEntry(history[id], id)];
      entries := entries + [ReturnEntry(history[id], id)];
    }
    forall j | 0 <= j < |entries| ensures entries[j] == Unsorted(history)[j] {
      assert j == 2 * (j / 2) || j == 2 * (j / 2) + 1;
    }
    assert entries == Unsorted(history);
    entries := sort(entries);
    EntriesSorted(history, entries);
  }

  lemma UnsortedDistinct<I, O>(ops: seq<Operation<I, O>>)
    ensures Distinct(Unsorted(ops))
  {
    var u := Unsorted(ops);
    forall i, j | 0 <= i < j < |u| ensures u[i] != u[j] {
      if u[i].id == u[j].id { assert i % 2 != j % 2; }
    }
  }

  /** An entry of `h` is the call or the return of the operation with its id. */
  lemma EntryIs<I, O>(ops: seq<Operation<I, O>>, h: seq<Entry<I, O>>, q: int)
    requires EntriesOf(ops, h) && 0 <= q < |h|
    ensures 0 <= h[q].id < |ops|
    ensures h[q] == if h[q].IsCall() then CallEntry(ops[h[q].id], h[q].id) else ReturnEntry(ops[h[q].id], h[q].id)
  {
    assert h[q] in multiset(h);
    var j := IndexOf(Unsorted(ops), h[q]);
  }

  lemma EntryAt<I, O>(ops: seq<Operation<I, O>>, h: seq<Entry<I, O>>, x: int) returns (c: int, r: int)
    requires EntriesOf(ops, h) && Timely(ops) && 0 <= x < |ops|
    ensures 0 <= c < r < |h| && h[c] == CallEntry(ops[x], x) && h[r] == ReturnEntry(ops[x], x)
  {
    var u := Unsorted(ops);
    assert u[2 * x] == CallEntry(ops[x], x) && u[2 * x + 1] == ReturnEntry(ops[x], x);
    assert u[2 * x] in multiset(u) && u[2 * x + 1] in multiset(u);
    assert u[2 * x] in multiset(h) && u[2 * x + 1] in multiset(h);
    c := IndexOf(h, u[2 * x]);
    r := IndexOf(h, u[2 * x + 1]);
    assert Less(h[c], h[r]);
  }

  lemma EntriesDistinct<I, O>(ops: seq<Operation<I, O>>, h: seq<Entry<I, O>>, q: int, r: int)
    requires EntriesOf(ops, h) && 0 <= q < r < |h|
    ensures h[q] != h[r]
  {
    UnsortedDistinct(ops);
    DistinctCount(Unsorted(ops), h[q]);
    if h[q] == h[r] { TwiceCounted(h, q, r); }
  }

  lemma EntriesWellFormed<I, O>(ops: seq<Operation<I, O>>, h: seq<Entry<I, O>>)
    requires EntriesOf(ops, h) && Timely(ops)
    ensures WellFormed(h) && Count(h) == |ops|
  {
    assert |multiset(h)| == |multiset(Unsorted(ops))|;
    forall q | 0 <= q < |h| ensures 0 <= h[q].id < |ops| { EntryIs(ops, h, q); }
    forall x | 0 <= x < |ops| ensures Paired(h, x) {
      var c, r := EntryAt(ops, h, x);
      assert CallOf(h, c, x) && ReturnOf(h, r, x);
    }
    forall q, r | 0 <= q < r < |h| && h[q].id == h[r].id ensures h[q].IsCall() && !h[r].IsCall() {
      EntryIs(ops, h, q);
      EntryIs(ops, h, r);
      EntriesDistinct(ops, h, q, r);
      if h[r].IsCall() { assert Less(h[r], h[q]); }
    }
  }

  /** In the entry list operation `a` returns before `b` is called exactly when it did in real
      time, whatever order the sort chose among ties. */
  lemma OrderEncoded<S, I, O>(m: Model<S, I, O>, ops: seq<Operation<I, O>>, h: seq<Entry<I, O>>, a: int, b: int)
    requires EntriesOf(ops, h) && Timely(ops) && WellFormed(h) && Count(h) == |ops|
    requires 0 <= a < |ops| && 0 <= b < |ops|
    ensures ProblemOf(m, h).Precedes(a, b) <==> ops[a].ret < ops[b].call
  {
    var r, c := ReturnAt(h, a), CallAt(h, b);
    EntryIs(ops, h, r);
    EntryIs(ops, h, c);
    assert r < c ==> !Less(h[c], h[r]);
    assert c < r ==> !Less(h[r], h[c]);
  }

  lemma StepIs<S, I, O>(m: Model<S, I, O>, ops: seq<Operation<I, O>>, h: seq<Entry<I, O>>, s: S, x: int)
    requires EntriesOf(ops, h) && WellFormed(h) && Count(h) == |ops| && 0 <= x < |ops|
    ensures ProblemOf(m, h).step(s, x) == m.step(s, ops[x].input, ops[x].output)
  {
    EntryIs(ops, h, CallAt(h, x));
    EntryIs(ops, h, ReturnAt(h, x));
    assert ProblemOf(m, h).step(s, x) == StepOf(m, h, s, x);
  }

  /** A list of ids and the operations it names run the same way. */
  lemma {:induction false} RunsAgree<S, I, O>(m: Model<S, I, O>, ops: seq<Operation<I, O>>, h: seq<Entry<I, O>>,
        p: seq<int>)
    requires EntriesOf(ops, h) && WellFormed(h) && Count(h) == |ops|
    requires forall k :: 0 <= k < |p| ==> 0 <= p[k] < |ops|
    ensures ProblemOf(m, h).StateOf(p) == StateAfter(m, Select(ops, p))
    ensures ProblemOf(m, h).Accepted(p) <==> Replays(m, Select(ops, p))
  {
    if p != [] {
      var q, x := p[..|p| - 1], p[|p| - 1];
      RunsAgree(m, ops, h, q);
      assert Select(ops, p)[..|p| - 1] == Select(ops, q);
      StepIs(m, ops, h, StateAfter(m, Select(ops, q)), x);
    }
  }

  lemma ToOperations<S, I(!new), O(!new)>(m: Model<S, I, O>, ops: seq<Operation<I, O>>, h: seq<Entry<I, O>>,
        p: seq<int>)
    requires EntriesOf(ops, h) && Timely(ops) && WellFormed(h) && Count(h) == |ops| && ProblemOf(m, h).Complete(p)
    ensures Linearizable(m, ops)
  {
    CompletePermutes(ProblemOf(m, h), p);
    hide EntriesOf, WellFormed, ProblemOf;
    ProblemFacts(m, h);
    var w := Select(ops, p);
    PermutationIsRearrangement(ops, p);
    RunsAgree(m, ops, h, p);
    forall i, j | 0 <= i < j < |w| ensures !(w[j].ret < w[i].call) { OrderEncoded(m, ops, h, p[j], p[i]); }
    assert IsLinearization(m, ops, w);
  }

  lemma FromOperations<S, I, O>(m: Model<S, I, O>, ops: seq<Operation<I, O>>, h: seq<Entry<I, O>>,
        w: seq<Operation<I, O>>)
    returns (p: seq<int>)
    requires EntriesOf(ops, h) && Timely(ops) && WellFormed(h) && Count(h) == |ops| && IsLinearization(m, ops, w)
    ensures ProblemOf(m, h).Complete(p)
  {
    hide EntriesOf, WellFormed, ProblemOf;
    ProblemFacts(m, h);
    p := RearrangementIsPermutation(ops, w);
    RunsAgree(m, ops, h, p);
    PermutesComplete(ProblemOf(m, h), p);
    forall i, j | 0 <= i < j < |p| ensures !ProblemOf(m, h).Precedes(p[j], p[i]) {
      OrderEncoded(m, ops, h, p[j], p[i]);
      assert !(w[j].ret < w[i].call);
    }
  }

  /** The entries of a list of operations have a linearization exactly when the operations do. */
  lemma EntriesFaithful<S, I(!new), O(!new)>(m: Model<S, I, O>, ops: seq<Operation<I, O>>, h: seq<Entry<I, O>>)
    requires EntriesOf(ops, h) && Timely(ops)
    ensures WellFormed(h)
    ensures (exists p :: ProblemOf(m, h).Complete(p)) <==> Linearizable(m, ops)
  {
    EntriesWellFormed(ops, h);
    hide EntriesOf, WellFormed, ProblemOf, Problem.Complete, IsLinearization;
    if p :| ProblemOf(m, h).Complete(p) { ToOperations(m, ops, h, p); }
    if w: seq<Operation<I, O>> :| IsLinearization(m, ops, w) { var p := FromOperations(m, ops, h, w); }
  }

  lemma CompletePermutes<S>(P: Problem<S>, p: seq<int>)
    requires P.Valid() && P.Complete(p)
    ensures Permutes(p, P.n)
  {
    DistinctSize(p);
    DistinctSize(seq(P.n, i => i));
    forall x | 0 <= x < P.n ensures x in p { InAllIds(P, x); }
  }

  lemma PermutesComplete<S>(P: Problem<S>, p: seq<int>)
    requires Permutes(p, P.n)
    ensures P.InRange(p) && IdSet(p) == P.AllIds()
  {
    forall x ensures x in IdSet(p) <==> x in P.AllIds() {
      InAllIds(P, x);
      if 0 <= x < P.n { var k := IndexOf(p, x); }
    }
  }
}
