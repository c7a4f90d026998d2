/** Models, operations and the declarative meaning of linearizability.

    Everything here is specification: the search in CheckSingle.dfy is proved
    against these definitions and does not appear in any of them. */
module Histories {

  datatype Option<+T> = None | Some(value: T)

  /** The user-supplied sequential specification: initial state, step function and
      state comparison. */
  datatype Model<!S, !I, !O> = Model(
    init: S,
    step: (S, I, O) -> (bool, S),
    equal: (S, S) -> bool)

  /** What the search needs of `equal`: it is a preorder that `step` respects. Plain
      equality is one instance. */
  ghost predicate Respectful<S(!new), I(!new), O(!new)>(m: Model<S, I, O>) {
    && (forall s :: m.equal(s, s))
    && (forall s, t, u :: m.equal(s, t) && m.equal(t, u) ==> m.equal(s, u))
    && (forall s, t, i, o :: m.equal(s, t) && m.step(s, i, o).0 ==>
          m.step(t, i, o).0 && m.equal(m.step(s, i, o).1, m.step(t, i, o).1))
  }

  datatype Operation<+I, +O> = Operation(clientId: int, input: I, call: int, output: O, ret: int)

  /** State after running the operations of `w` in order, whether or not each step was accepted. */
  ghost function StateAfter<S, I, O>(m: Model<S, I, O>, w: seq<Operation<I, O>>): S {
    if w == [] then m.init
    else
      var last := w[|w| - 1];
      m.step(StateAfter(m, w[..|w| - 1]), last.input, last.output).1
  }

  /** Every step of the run of `w` from the initial state is accepted. */
  ghost predicate Replays<S, I, O>(m: Model<S, I, O>, w: seq<Operation<I, O>>) {
    w == [] ||
    (var last := w[|w| - 1];
     Replays(m, w[..|w| - 1]) && m.step(StateAfter(m, w[..|w| - 1]), last.input, last.output).0)
  }

  /** No operation is placed before one that returned strictly before it was called. */
  ghost predicate RealTime<I, O>(w: seq<Operation<I, O>>) {
    forall i, j :: 0 <= i < j < |w| ==> !(w[j].ret < w[i].call)
  }

  ghost predicate IsLinearization<S, I, O>(m: Model<S, I, O>, ops: seq<Operation<I, O>>, w: seq<Operation<I, O>>) {
    multiset(w) == multiset(ops) && RealTime(w) && Replays(m, w)
  }

  /** Some rearrangement of the operations respects real time and is a legal run. */
  ghost predicate Linearizable<S, I(!new), O(!new)>(m: Model<S, I, O>, ops: seq<Operation<I, O>>) {
    exists w :: IsLinearization(m, ops, w)
  }

  /** Each operation is called no later than it returns. */
  ghost predicate Timely<I, O>(ops: seq<Operation<I, O>>) {
    forall k :: 0 <= k < |ops| ==> ops[k].call <= ops[k].ret
  }
}

/** A history reduced to what the search looks at: where each operation's call and return
    entries stand, and what each operation does to the state. */
module Problems {
  import opened Collections
  import opened Histories

  datatype Problem<!S> = Problem(
    n: nat,                        // operations have ids 0..n-1
    owner: seq<int>,               // the operation each entry belongs to
    call: seq<int>,                // position of each operation's call entry
    ret: seq<int>,                 // position of each operation's return entry
    init: S,
    step: (S, int) -> (bool, S),
    equal: (S, S) -> bool)
  {
    /** Each operation has one call entry and, after it, one return entry, and these are all the entries. */
    ghost predicate Valid() {
      && |owner| == 2 * n && |call| == n && |ret| == n
      && (forall x :: 0 <= x < n ==> 0 <= call[x] < ret[x] < 2 * n && owner[call[x]] == x && owner[ret[x]] == x)
      && (forall q :: 0 <= q < 2 * n ==> 0 <= owner[q] < n && (q == call[owner[q]] || q == ret[owner[q]]))
    }

    ghost predicate IsCall(q: int)
      requires Valid() && 0 <= q < 2 * n
    {
      q == call[owner[q]]
    }

    /** Operation `a` returned before operation `b` was called. */
    ghost predicate Precedes(a: int, b: int)
      requires Valid() && 0 <= a < n && 0 <= b < n
    {
      ret[a] < call[b]
    }

    ghost predicate InRange(p: seq<int>) {
      forall k :: 0 <= k < |p| ==> 0 <= p[k] < n
    }

    ghost function AllIds(): set<int> { IdSet(seq(n, i => i)) }

    ghost function StateOf(p: seq<int>): S {
      if p == [] then init else step(StateOf(p[..|p| - 1]), p[|p| - 1]).1
    }

    /** Every step of the run of `p` is accepted. */
    ghost predicate Accepted(p: seq<int>) {
      p == [] || (Accepted(p[..|p| - 1]) && step(StateOf(p[..|p| - 1]), p[|p| - 1]).0)
    }

    /** A partial linearization: distinct operations, each placed after everything that
        precedes it in real time, forming a legal run. */
    ghost predicate Partial(p: seq<int>)
      requires Valid()
    {
      && InRange(p) && Distinct(p) && Accepted(p)
      && (forall k, y :: 0 <= k < |p| && 0 <= y < n && Precedes(y, p[k]) ==> y in p[..k])
    }

    /** A linearization: all operations, in an order that never reverses real time, forming a legal run. */
    ghost predicate Complete(p: seq<int>)
      requires Valid()
    {
      && InRange(p) && Distinct(p) && IdSet(p) == AllIds() && Accepted(p)
      && (forall i, j :: 0 <= i < j < |p| ==> !Precedes(p[j], p[i]))
    }
  }

  /** What the search needs of `equal`: a preorder that `step` respects. */
  ghost predicate Respects<S(!new)>(P: Problem<S>) {
    && (forall s :: P.equal(s, s))
    && (forall s, t, u :: P.equal(s, t) && P.equal(t, u) ==> P.equal(s, u))
    && (forall s, t, x :: P.equal(s, t) && P.step(s, x).0 ==>
          P.step(t, x).0 && P.equal(P.step(s, x).1, P.step(t, x).1))
  }

  ghost function IdSet(p: seq<int>): set<int> { set k | 0 <= k < |p| :: p[k] }

  lemma InAllIds<S>(P: Problem<S>, x: int)
    ensures x in P.AllIds() <==> 0 <= x < P.n
  {
    var s := seq(P.n, i => i);
    if 0 <= x < P.n { assert s[x] == x; }
  }

  lemma IdSetSnoc(p: seq<int>, x: int)
    ensures IdSet(p + [x]) == IdSet(p) + {x}
  {
    var p' := p + [x];
    forall y ensures y in IdSet(p') <==> y in IdSet(p) + {x} {
      if y in IdSet(p) { var k :| 0 <= k < |p| && p[k] == y; assert p'[k] == y; }
      if y == x { assert p'[|p|] == x; }
    }
  }

  lemma {:induction false} DistinctSize(p: seq<int>)
    requires Distinct(p)
    ensures |IdSet(p)| == |p|
  {
    if p != [] {
      var q, x := p[..|p| - 1], p[|p| - 1];
      DistinctSize(q);
      assert p == q + [x];
      IdSetSnoc(q, x);
      assert x !in IdSet(q);
    }
  }
}

/** Histories as lists of call and return entries. */
module Entries {
  import opened Histories
  import opened Problems

  datatype Value<+I, +O> = Input(i: I) | Output(o: O)

  /** A call entry carries the input, a return entry the output. */
  datatype Entry<+I, +O> = Entry(value: Value<I, O>, id: int, time: int, clientId: int) {
    predicate IsCall() { value.Input? }
  }

  ghost predicate CallOf<I, O>(h: seq<Entry<I, O>>, c: int, x: int) {
    0 <= c < |h| && h[c].id == x && h[c].IsCall()
  }

  ghost predicate ReturnOf<I, O>(h: seq<Entry<I, O>>, r: int, x: int) {
    0 <= r < |h| && h[r].id == x && !h[r].IsCall()
  }

  ghost predicate Paired<I, O>(h: seq<Entry<I, O>>, x: int) {
    exists c, r :: c < r && CallOf(h, c, x) && ReturnOf(h, r, x)
  }

  function Count<I, O>(h: seq<Entry<I, O>>): nat { |h| / 2 }

  /** Ids are 0..n-1 and each has exactly one call entry followed by exactly one return entry. */
  ghost predicate WellFormed<I, O>(h: seq<Entry<I, O>>) {
    && |h| % 2 == 0
    && (forall q :: 0 <= q < |h| ==> 0 <= h[q].id < Count(h))
    && (forall x :: 0 <= x < Count(h) ==> Paired(h, x))
    && (forall q, r :: 0 <= q < r < |h| && h[q].id == h[r].id ==> h[q].IsCall() && !h[r].IsCall())
  }

  ghost function CallAt<I, O>(h: seq<Entry<I, O>>, x: int): (c: nat)
    requires WellFormed(h) && 0 <= x < Count(h)
    ensures CallOf(h, c, x)
    ensures forall q :: CallOf(h, q, x) ==> q == c
  {
    assert Paired(h, x);
    var c, r :| c < r && CallOf(h, c, x) && ReturnOf(h, r, x);
    c
  }

  ghost function ReturnAt<I, O>(h: seq<Entry<I, O>>, x: int): (r: nat)
    requires WellFormed(h) && 0 <= x < Count(h)
    ensures ReturnOf(h, r, x)
    ensures forall q :: ReturnOf(h, q, x) ==> q == r
    ensures CallAt(h, x) < r
  {
    assert Paired(h, x);
    var c, r :| c < r && CallOf(h, c, x) && ReturnOf(h, r, x);
    r
  }

  /** The step of operation `x` from state `s`. */
  ghost function StepOf<S, I, O>(m: Model<S, I, O>, h: seq<Entry<I, O>>, s: S, x: int): (bool, S)
    requires WellFormed(h)
  {
    if 0 <= x < Count(h) then m.step(s, h[CallAt(h, x)].value.i, h[ReturnAt(h, x)].value.o) else (false, s)
  }

  ghost function ProblemOf<S, I, O>(m: Model<S, I, O>, h: seq<Entry<I, O>>): (P: Problem<S>)
    requires WellFormed(h)
    ensures P.Valid()
    ensures |h| == 2 * P.n && P.init == m.init && P.equal == m.equal
  {
    PositionsConsistent(h);
    Problem(
      Count(h),
      seq(|h|, q requires 0 <= q < |h| => h[q].id),
      seq(Count(h), x requires 0 <= x < Count(h) => CallAt(h, x)),
      seq(Count(h), x requires 0 <= x < Count(h) => ReturnAt(h, x)),
      m.init,
      (s, x) => StepOf(m, h, s, x),
      m.equal)
  }

  lemma ProblemFacts<S, I, O>(m: Model<S, I, O>, h: seq<Entry<I, O>>)
    requires WellFormed(h)
    ensures ProblemOf(m, h).n == Count(h) && |h| == 2 * Count(h) && ProblemOf(m, h).init == m.init
  {
  }

  lemma PositionsConsistent<I, O>(h: seq<Entry<I, O>>)
    requires WellFormed(h)
    ensures forall q :: 0 <= q < |h| ==> q == if h[q].IsCall() then CallAt(h, h[q].id) else ReturnAt(h, h[q].id)
    ensures forall x :: 0 <= x < Count(h) ==>
      h[CallAt(h, x)].id == x && h[ReturnAt(h, x)].id == x && 0 <= CallAt(h, x) < ReturnAt(h, x) < |h|
  {
    assert forall q :: 0 <= q < |h| ==> if h[q].IsCall() then CallOf(h, q, h[q].id) else ReturnOf(h, q, h[q].id);
  }

  lemma ModelRespects<S(!new), I(!new), O(!new)>(m: Model<S, I, O>, h: seq<Entry<I, O>>)
    requires WellFormed(h) && Respectful(m)
    ensures Respects(ProblemOf(m, h))
  {
    var P := ProblemOf(m, h);
    forall s, t, x | P.equal(s, t) && P.step(s, x).0
      ensures P.step(t, x).0 && P.equal(P.step(s, x).1, P.step(t, x).1)
    {
      assert P.step(s, x) == StepOf(m, h, s, x) && P.step(t, x) == StepOf(m, h, t, x);
    }
  }
}
