/** The hash-bucketed cache of configurations. A cached bitset is a clone that is never written
    again, so it is kept as its sequence of words. */
module Cache {
  import opened Bitset
  import opened Search

  datatype CacheEntry<+S> = CacheEntry(linearized: seq<Word>, state: S)

  type Buckets<+S> = map<Word, seq<CacheEntry<S>>>

  function Bucket<S>(cache: Buckets<S>, hash: Word): seq<CacheEntry<S>> {
    if hash in cache then cache[hash] else []
  }

  ghost function ConfigIn<S>(e: CacheEntry<S>): Config<S> {
    Config(Members(e.linearized), e.state)
  }

  /** Some bucket holds the configuration `c`. */
  ghost predicate Holds<S>(cache: Buckets<S>, c: Config<S>) {
    exists hash, i :: hash in cache && 0 <= i < |cache[hash]| && ConfigIn(cache[hash][i]) == c
  }

  /** Every entry is filed under its own hash. */
  ghost predicate Filed<S>(cache: Buckets<S>, words: int) {
    forall hash, i :: hash in cache && 0 <= i < |cache[hash]| ==>
      |cache[hash][i].linearized| == words && HashOf(cache[hash][i].linearized) == hash
  }

  /** The buckets hold exactly the configurations of `contents`. */
  ghost predicate Stores<S(!new)>(cache: Buckets<S>, words: int, contents: set<Config<S>>) {
    Filed(cache, words) && forall c :: c in contents <==> Holds(cache, c)
  }

  /** Looking in one bucket finds any comparable configuration stored anywhere. */
  method CacheContains<S(!new)>(equal: (S, S) -> bool, cache: Buckets<S>, entry: CacheEntry<S>,
        ghost contents: set<Config<S>>) returns (r: bool)
    requires Stores(cache, |entry.linearized|, contents)
    ensures r <==> exists e :: e in contents && e.ids == Members(entry.linearized) && equal(entry.state, e.state)
  {
    var hash := Hash(entry.linearized);
    var bucket := Bucket(cache, hash);
    for i := 0 to |bucket|
      invariant forall j ::
        0 <= j < i ==> !(ConfigIn(bucket[j]).ids == Members(entry.linearized) && equal(entry.state, bucket[j].state))
    {
      var same := Equals(entry.linearized, bucket[i].linearized);
      if same && equal(entry.state, bucket[i].state) {
        assert Holds(cache, ConfigIn(bucket[i]));
        return true;
      }
    }
    forall e | e in contents && e.ids == Members(entry.linearized) ensures !equal(entry.state, e.state) {
      assert Holds(cache, e);
      var h, i :| h in cache && 0 <= i < |cache[h]| && ConfigIn(cache[h][i]) == e;
      MembersInjective(cache[h][i].linearized, entry.linearized);
    }
    return false;
  }

  /** Appends to the bucket of the entry's hash. */
  method Insert<S(!new)>(cache: Buckets<S>, entry: CacheEntry<S>, ghost contents: set<Config<S>>)
    returns (cache': Buckets<S>)
    requires Stores(cache, |entry.linearized|, contents)
    ensures Stores(cache', |entry.linearized|, contents + {ConfigIn(entry)})
  {
    var hash := Hash(entry.linearized);
    var bucket := Bucket(cache, hash);
    cache' := cache[hash := bucket + [entry]];
    assert cache'[hash][|bucket|] == entry;
    forall c | c in contents ensures Holds(cache', c) {
      assert Holds(cache, c);
      var h, i :| h in cache && 0 <= i < |cache[h]| && ConfigIn(cache[h][i]) == c;
      assert cache'[h][i] == cache[h][i];
    }
  }
}

/** The linearizability search over one history. */
module CheckSingle {
  import opened Collections
  import opened Histories
  import opened Problems
  import opened Entries
  import opened Search
  import opened LinkedEntries
  import opened Bitset
  import opened Cache

  datatype CallsEntry<!S, I, O> = CallsEntry(entry: Node<I, O>, state: S)

  // ---- The list during the search

  /** Node 0 is the head; node `q + 1` carries entry `q`. */
  ghost predicate Mirrors<I, O>(N: seq<Node<I, O>>, h: seq<Entry<I, O>>)
    requires WellFormed(h)
  {
    && |N| == |h| + 1
    && forall q :: 0 <= q < |h| ==>
         && N[q + 1].id == h[q].id && N[q + 1].value == Some(h[q].value)
         && N[q + 1].matching == if h[q].IsCall() then N[ReturnAt(h, h[q].id) + 1] else null
  }

  /** The nodes of the operations of `p`. */
  ghost function Dead<S>(P: Problem<S>, p: seq<int>): (r: set<int>)
    requires P.Valid()
    ensures 0 !in r
  {
    set k | 0 < k <= 2 * P.n && OwnerIn(P, k, IdSet(p))
  }

  ghost predicate OwnerIn<S>(P: Problem<S>, k: int, ids: set<int>) {
    0 < k <= |P.owner| && P.owner[k - 1] in ids
  }

  lemma DeadSnoc<S>(P: Problem<S>, p: seq<int>, x: int)
    requires P.Valid() && 0 <= x < P.n
    ensures Dead(P, p + [x]) == Dead(P, p) + {P.call[x] + 1} + {P.ret[x] + 1}
  {
    IdSetSnoc(p, x);
  }

  /** The links of the nodes lifted at depth `d` are those of the list at the moment they were lifted. */
  ghost predicate FrozenAt<S, I, O>(P: Problem<S>, p: seq<int>, d: int, N: seq<Node<I, O>>, nx: seq<Node?<I, O>>,
        pv: seq<Node?<I, O>>)
    requires P.Valid() && P.InRange(p) && |N| == 2 * P.n + 1 == |nx| == |pv| && 0 <= d < |p|
  {
    && HookedBy(N, nx, pv, Dead(P, p[..d]), P.call[p[d]] + 1)
    && HookedBy(N, nx, pv, Dead(P, p[..d]) + {P.call[p[d]] + 1}, P.ret[p[d]] + 1)
  }

  ghost predicate Frozen<S, I, O>(P: Problem<S>, p: seq<int>, N: seq<Node<I, O>>, nx: seq<Node?<I, O>>,
        pv: seq<Node?<I, O>>)
    requires P.Valid() && P.InRange(p) && |N| == 2 * P.n + 1 == |nx| == |pv|
  {
    forall d :: 0 <= d < |p| ==> FrozenAt(P, p, d, N, nx, pv)
  }

  /** The list during the search: the original list without the operations on the stack, every
      one of which can still be put back. */
  ghost predicate Listed<S, I, O>(P: Problem<S>, p: seq<int>, N: seq<Node<I, O>>)
    requires P.Valid() && P.InRange(p) && |N| == 2 * P.n + 1
    reads N
  {
    Linked(N, Dead(P, p)) && Frozen(P, p, N, Nexts(N), Prevs(N))
  }

  lemma FrozenKept<S, I, O>(P: Problem<S>, p: seq<int>, q: seq<int>, d: int, N: seq<Node<I, O>>, nx: seq<Node?<I, O>>,
        pv: seq<Node?<I, O>>, nx': seq<Node?<I, O>>, pv': seq<Node?<I, O>>)
    requires P.Valid() && P.InRange(p) && P.InRange(q) && |N| == 2 * P.n + 1 == |nx| == |pv| == |nx'| == |pv'|
    requires 0 <= d < |p| && d < |q| && p[..d + 1] == q[..d + 1]
    requires FrozenAt(P, p, d, N, nx, pv)
    requires nx'[P.call[p[d]] + 1] == nx[P.call[p[d]] + 1] && pv'[P.call[p[d]] + 1] == pv[P.call[p[d]] + 1]
    requires nx'[P.ret[p[d]] + 1] == nx[P.ret[p[d]] + 1] && pv'[P.ret[p[d]] + 1] == pv[P.ret[p[d]] + 1]
    ensures FrozenAt(P, q, d, N, nx', pv')
  {
    hide HookedBy, Dead;
    HookedKept(N, nx, pv, nx', pv', Dead(P, p[..d]), P.call[p[d]] + 1);
    HookedKept(N, nx, pv, nx', pv', Dead(P, p[..d]) + {P.call[p[d]] + 1}, P.ret[p[d]] + 1);
    assert p[..d] == p[..d + 1][..d] == q[..d];
    assert p[d] == p[..d + 1][d] == q[d];
  }

  lemma FrozenPush<S, I, O>(P: Problem<S>, p: seq<int>, x: int, N: seq<Node<I, O>>, nx: seq<Node?<I, O>>,
        pv: seq<Node?<I, O>>, nx': seq<Node?<I, O>>, pv': seq<Node?<I, O>>)
    requires P.Valid() && P.InRange(p) && 0 <= x < P.n && |N| == 2 * P.n + 1 == |nx| == |pv| == |nx'| == |pv'|
    requires Frozen(P, p, N, nx, pv)
    requires forall k :: 0 <= k < |N| && k in Dead(P, p) ==> nx'[k] == nx[k] && pv'[k] == pv[k]
    requires HookedBy(N, nx', pv', Dead(P, p), P.call[x] + 1)
    requires HookedBy(N, nx', pv', Dead(P, p) + {P.call[x] + 1}, P.ret[x] + 1)
    ensures Frozen(P, p + [x], N, nx', pv')
  {
    hide HookedBy, Dead;
    var p' := p + [x];
    forall d | 0 <= d < |p'| ensures FrozenAt(P, p', d, N, nx', pv') {
      if d < |p| {
        assert p'[..d + 1] == p[..d + 1];
        InDead(P, p, d);
        FrozenKept(P, p, p', d, N, nx, pv, nx', pv');
      } else {
        assert p'[..d] == p;
      }
    }
  }

  lemma FrozenPop<S, I, O>(P: Problem<S>, p: seq<int>, N: seq<Node<I, O>>, nx: seq<Node?<I, O>>, pv: seq<Node?<I, O>>,
        nx': seq<Node?<I, O>>, pv': seq<Node?<I, O>>)
    requires P.Valid() && P.InRange(p) && p != [] && |N| == 2 * P.n + 1 == |nx| == |pv| == |nx'| == |pv'|
    requires Frozen(P, p, N, nx, pv)
    requires forall k :: 0 <= k < |N| && k in Dead(P, p[..|p| - 1]) ==> nx'[k] == nx[k] && pv'[k] == pv[k]
    ensures Frozen(P, p[..|p| - 1], N, nx', pv')
  {
    hide HookedBy, Dead;
    var q := p[..|p| - 1];
    forall d | 0 <= d < |q| ensures FrozenAt(P, q, d, N, nx', pv') {
      assert q[..d + 1] == p[..d + 1];
      InDead(P, q, d);
      FrozenKept(P, p, q, d, N, nx, pv, nx', pv');
    }
  }

  lemma InDead<S>(P: Problem<S>, p: seq<int>, d: int)
    requires P.Valid() && P.InRange(p) && 0 <= d < |p|
    ensures P.call[p[d]] + 1 in Dead(P, p) && P.ret[p[d]] + 1 in Dead(P, p)
  {
    assert p[d] in IdSet(p);
    assert OwnerIn(P, P.call[p[d]] + 1, IdSet(p)) && OwnerIn(P, P.ret[p[d]] + 1, IdSet(p));
  }

  lemma NotDead<S>(P: Problem<S>, p: seq<int>, x: int)
    requires P.Valid() && 0 <= x < P.n && x !in IdSet(p)
    ensures P.call[x] + 1 !in Dead(P, p) && P.ret[x] + 1 !in Dead(P, p)
  {
  }

  method LiftCall<S, I, O>(entry: Node<I, O>, ghost P: Problem<S>, ghost p: seq<int>, ghost x: int,
        ghost N: seq<Node<I, O>>)
    requires P.Valid() && P.InRange(p) && |N| == 2 * P.n + 1 && Listed(P, p, N)
    requires 0 <= x < P.n && x !in IdSet(p)
    requires N[P.call[x] + 1] == entry && N[P.ret[x] + 1] == entry.matching
    modifies N
    ensures Listed(P, p + [x], N)
  {
    hide HookedBy, Dead;
    ghost var nx, pv := Nexts(N), Prevs(N);
    DeadSnoc(P, p, x);
    NotDead(P, p, x);
    Lift(entry, N, Dead(P, p), P.call[x] + 1, P.ret[x] + 1);
    FrozenPush(P, p, x, N, nx, pv, Nexts(N), Prevs(N));
  }

  method UnliftCall<S, I, O>(entry: Node<I, O>, ghost P: Problem<S>, ghost p: seq<int>, ghost N: seq<Node<I, O>>)
    requires P.Valid() && P.InRange(p) && Distinct(p) && p != [] && |N| == 2 * P.n + 1 && Listed(P, p, N)
    requires N[P.call[p[|p| - 1]] + 1] == entry && N[P.ret[p[|p| - 1]] + 1] == entry.matching
    modifies N
    ensures Listed(P, p[..|p| - 1], N)
  {
    hide HookedBy, Dead;
    ghost var nx, pv := Nexts(N), Prevs(N);
    ghost var q, x := p[..|p| - 1], p[|p| - 1];
    assert p == q + [x];
    DeadSnoc(P, q, x);
    NotDead(P, q, x);
    assert FrozenAt(P, p, |q|, N, nx, pv);
    Unlift(entry, N, Dead(P, q), P.call[x] + 1, P.ret[x] + 1);
    FrozenPop(P, p, N, nx, pv, Nexts(N), Prevs(N));
  }

  // ---- Reading the list

  /** What the fields of the node of entry `pos` say. */
  lemma NodeFacts<S, I, O>(m: Model<S, I, O>, h: seq<Entry<I, O>>, N: seq<Node<I, O>>, pos: int, s: S)
    requires WellFormed(h) && Mirrors(N, h) && 0 <= pos < |h|
    ensures |ProblemOf(m, h).owner| == |h|
    ensures var P := ProblemOf(m, h); var x := P.owner[pos]; var n := N[pos + 1];
      && 0 <= x < P.n && n.id == x && (n.matching != null <==> P.IsCall(pos))
      && (P.IsCall(pos) ==>
            && P.call[x] == pos && n.matching == N[P.ret[x] + 1]
            && n.value.Some? && n.value.value.Input? && n.matching.value.Some? && n.matching.value.value.Output?
            && P.step(s, x) == m.step(s, n.value.value.i, n.matching.value.value.o))
  {
    var P := ProblemOf(m, h);
    var x := P.owner[pos];
    if P.IsCall(pos) {
      assert CallOf(h, pos, x);
      var r := ReturnAt(h, x);
      assert ReturnOf(h, r, x);
      assert N[r + 1].value == Some(h[r].value);
      assert P.step(s, x) == StepOf(m, h, s, x);
    }
  }

  /** The entry after `pos`, or after the head for `pos == -1`, in the list without the operations
      of `p`; 2 * P.n if there is none. */
  ghost function NextPos<S>(P: Problem<S>, p: seq<int>, pos: int): int
    requires P.Valid() && -1 <= pos < 2 * P.n
  {
    NextLive(Dead(P, p), pos + 1, 2 * P.n + 1) - 1
  }

  lemma NextNode<S, I, O>(P: Problem<S>, p: seq<int>, N: seq<Node<I, O>>, pos: int)
    requires P.Valid() && P.InRange(p) && |N| == 2 * P.n + 1 && Listed(P, p, N)
    requires -1 <= pos < 2 * P.n && (pos < 0 || P.owner[pos] !in IdSet(p))
    ensures N[pos + 1].next == NodeAt(N, NextPos(P, p, pos) + 1)
  {
    hide NextLive, LinkedBy, Frozen;
    LinkedNext(N, Dead(P, p), pos + 1);
  }

  lemma NextPosFacts<S>(P: Problem<S>, p: seq<int>, pos: int)
    requires P.Valid() && -1 <= pos < 2 * P.n
    ensures var next := NextPos(P, p, pos);
      && pos < next <= 2 * P.n
      && (next < 2 * P.n ==> P.owner[next] !in IdSet(p))
      && (forall q :: pos < q < next ==> P.owner[q] in IdSet(p))
  {
    hide NextLive;
    var dead := Dead(P, p);
    NextGap(dead, pos + 1, 2 * P.n + 1);
    var next := NextPos(P, p, pos);
    forall q | pos < q < next ensures P.owner[q] in IdSet(p) { assert q + 1 in dead; }
    if next < 2 * P.n { assert OwnerIn(P, next + 1, IdSet(p)) <==> P.owner[next] in IdSet(p); }
  }

  /** The list is empty exactly when every operation is on the stack. */
  lemma FirstPosFacts<S>(P: Problem<S>, p: seq<int>)
    requires P.Valid() && P.InRange(p)
    ensures NextPos(P, p, -1) == 2 * P.n <==> IdSet(p) == P.AllIds()
  {
    hide NextPos;
    NextPosFacts(P, p, -1);
    var first := NextPos(P, p, -1);
    if first == 2 * P.n {
      forall x ensures x in IdSet(p) <==> x in P.AllIds() {
        InAllIds(P, x);
        if 0 <= x < P.n { assert P.owner[P.call[x]] in IdSet(p); }
      }
    } else {
      InAllIds(P, P.owner[first]);
    }
  }

  ghost predicate AtHead<S>(P: Problem<S>, p: seq<int>)
    requires P.Valid()
  {
    var first := NextPos(P, p, -1);
    && 0 <= first <= 2 * P.n && (first < 2 * P.n ==> P.owner[first] !in IdSet(p))
    && (first == 2 * P.n <==> IdSet(p) == P.AllIds())
  }

  /** The return of a call still in the list comes later, so there is a next entry. */
  lemma CallHasNext<S>(P: Problem<S>, p: seq<int>, pos: int)
    requires P.Valid() && 0 <= pos < 2 * P.n && P.IsCall(pos) && P.owner[pos] !in IdSet(p)
    ensures NextPos(P, p, pos) < 2 * P.n
  {
    hide NextPos;
    NextPosFacts(P, p, pos);
    assert P.owner[P.ret[P.owner[pos]]] == P.owner[pos];
  }

  // ---- The search

  /** The stack holds the nodes of the ids in `p`, each with the state before it. */
  ghost predicate CallsMatch<S, I, O>(P: Problem<S>, p: seq<int>, N: seq<Node<I, O>>, calls: seq<CallsEntry<S, I, O>>)
    requires P.Valid() && P.InRange(p) && |N| == 2 * P.n + 1
  {
    && |calls| == |p|
    && forall k :: 0 <= k < |p| ==>
      calls[k].entry == N[P.call[p[k]] + 1] && calls[k].entry.id == p[k] && calls[k].state == P.StateOf(p[..k])
  }

  lemma CallsFacts<S, I, O>(P: Problem<S>, p: seq<int>, N: seq<Node<I, O>>, calls: seq<CallsEntry<S, I, O>>)
    requires P.Valid() && P.InRange(p) && |N| == 2 * P.n + 1 && CallsMatch(P, p, N, calls)
    ensures |calls| == |p| && forall k :: 0 <= k < |p| ==> calls[k].entry.id == p[k]
    ensures p != [] ==>
      calls[|p| - 1].entry == N[P.call[p[|p| - 1]] + 1] && calls[|p| - 1].state == P.StateOf(p[..|p| - 1])
  {
  }

  lemma CallsPush<S, I, O>(P: Problem<S>, p: seq<int>, x: int, N: seq<Node<I, O>>, calls: seq<CallsEntry<S, I, O>>,
        c: CallsEntry<S, I, O>)
    requires P.Valid() && P.InRange(p) && |N| == 2 * P.n + 1 && CallsMatch(P, p, N, calls)
    requires 0 <= x < P.n && c.entry == N[P.call[x] + 1] && c.entry.id == x && c.state == P.StateOf(p)
    ensures CallsMatch(P, p + [x], N, calls + [c])
  {
    hide Problem.StateOf;
    var p', calls' := p + [x], calls + [c];
    forall k | 0 <= k < |p'|
      ensures calls'[k].entry == N[P.call[p'[k]] + 1] && calls'[k].entry.id == p'[k]
        && calls'[k].state == P.StateOf(p'[..k])
    {
      if k < |p| {
        assert p'[..k] == p[..k] && p'[k] == p[k] && calls'[k] == calls[k];
      } else {
        assert p'[..k] == p;
      }
    }
  }

  lemma CallsPop<S, I, O>(P: Problem<S>, p: seq<int>, N: seq<Node<I, O>>, calls: seq<CallsEntry<S, I, O>>)
    requires P.Valid() && P.InRange(p) && |N| == 2 * P.n + 1 && CallsMatch(P, p, N, calls) && p != []
    ensures CallsMatch(P, p[..|p| - 1], N, calls[..|calls| - 1])
  {
    hide Problem.StateOf;
    var q := p[..|p| - 1];
    forall k | 0 <= k < |q| ensures q[..k] == p[..k] {
    }
  }

  method IdsOf<S, I, O>(calls: seq<CallsEntry<S, I, O>>) returns (ids: seq<int>)
    ensures |ids| == |calls| && forall k :: 0 <= k < |ids| ==> ids[k] == calls[k].entry.id
  {
    ids := [];
    for i := 0 to |calls|
      invariant |ids| == i && forall k :: 0 <= k < i ==> ids[k] == calls[k].entry.id
    {
      ids := ids + [calls[i].entry.id];
    }
  }

  /** Records the stack for each of its operations that has nothing as long yet. */
  method RecordCalls<S, I, O>(longest: Partials, calls: seq<CallsEntry<S, I, O>>, ghost p: seq<int>)
    returns (longer: Partials)
    requires |calls| == |p| && forall k :: 0 <= k < |p| ==> calls[k].entry.id == p[k] && 0 <= p[k] < |longest|
    ensures longer == Record(longest, p)
    ensures |longer| == |longest| && forall i :: 0 <= i < |longest| ==>
      longer[i] == if i in p && (longest[i].None? || |p| > |longest[i].value|) then Some(p) else longest[i]
  {
    longer := longest;
    var ids: Option<seq<int>> := None;
    for j := 0 to |calls|
      invariant ids == None || ids == Some(p)
      invariant longer == RecordFor(longest, p, p[..j])
    {
      var x := calls[j].entry.id;
      assert p[..j + 1] == p[..j] + [x];
      if longer[x].None? || |calls| > |longer[x].value| {
        if ids.None? {
          var s := IdsOf(calls);
          assert s == p;
          ids := Some(s);
        }
        longer := longer[x := Some(ids.value)];
      }
    }
    assert p[..|p|] == p;
  }

  lemma MirrorsHead<I, O>(head: Node<I, O>, N0: seq<Node<I, O>>, h: seq<Entry<I, O>>)
    requires WellFormed(h) && |N0| == |h| && Carries(N0, h, 0)
    ensures Mirrors([head] + N0, h)
  {
  }

  lemma ChainIsLinked<I, O>(N: seq<Node<I, O>>)
    requires Chain(N)
    ensures Linked(N, {})
  {
  }

  lemma StartListed<S, I, O>(P: Problem<S>, N: seq<Node<I, O>>)
    requires P.Valid() && |N| == 2 * P.n + 1 && Chain(N)
    ensures Listed(P, [], N) && N[0].next == NodeAt(N, 1)
  {
    ChainIsLinked(N);
    assert Dead(P, []) == {};
  }

  lemma StartFacts<S>(P: Problem<S>, longest: Partials, partial: bool)
    requires P.Valid() && |longest| == P.n && Silent(longest)
    ensures IdSet([]) == {} && P.InRange([]) && P.StateOf([]) == P.init && AtHead(P, [])
    ensures Inv(P, [], NextPos(P, [], -1), {}, longest, partial)
  {
    hide NextPos;
    NextPosFacts(P, [], -1);
    FirstPosFacts(P, []);
    StartInv(P, longest, partial);
    hide Inv;
    Restart(P, [], NextPos(P, [], -1), {}, longest, partial);
  }

  lemma StartInv<S>(P: Problem<S>, longest: Partials, partial: bool)
    requires P.Valid() && |longest| == P.n && Silent(longest)
    ensures Inv(P, [], 0, {}, longest, partial)
  {
  }

  lemma TakeFacts<S>(P: Problem<S>, p: seq<int>, x: int, c: Config<S>)
    requires P.Valid() && P.InRange(p) && 0 <= x < P.n
    requires c.ids == IdSet(p) + {x} && c.state == P.step(P.StateOf(p), x).1
    ensures c == Take(P, ConfigOf(P, p), x)
  {
  }

  /** Moving past a call whose step is refused or already cached. */
  lemma SkipFacts<S>(P: Problem<S>, p: seq<int>, pos: int, cache: set<Config<S>>, longest: Partials, partial: bool)
    requires P.Valid() && P.InRange(p) && Inv(P, p, pos, cache, longest, partial)
    requires 0 <= pos < 2 * P.n && P.IsCall(pos) && P.owner[pos] !in IdSet(p)
    requires P.step(P.StateOf(p), P.owner[pos]).0 ==> Covered(P, cache, Take(P, ConfigOf(P, p), P.owner[pos]))
    ensures pos < NextPos(P, p, pos) < 2 * P.n && P.owner[NextPos(P, p, pos)] !in IdSet(p)
    ensures Inv(P, p, NextPos(P, p, pos), cache, longest, partial)
  {
    hide NextPos, Inv;
    NextPosFacts(P, p, pos);
    CallHasNext(P, p, pos);
    Skip(P, p, pos, NextPos(P, p, pos), cache, longest, partial);
  }

  lemma InvFacts<S>(P: Problem<S>, p: seq<int>, pos: int, cache: set<Config<S>>, longest: Partials, partial: bool)
    requires P.Valid() && Inv(P, p, pos, cache, longest, partial)
    ensures P.Partial(p) && Scanned(P, cache, ConfigOf(P, p), pos)
    ensures Genuine(P, longest) && |longest| == P.n && (!partial ==> Silent(longest))
  {
  }

  /** The linearization found is recorded for every operation. */
  ghost predicate AllShow(longest: Partials, p: seq<int>) {
    |longest| == |p| && forall i :: 0 <= i < |longest| ==> longest[i] == Some(p)
  }

  lemma Succeeded<S>(P: Problem<S>, p: seq<int>, pos: int, cache: set<Config<S>>, before: Partials, longest: Partials,
        partial: bool)
    requires P.Valid() && Inv(P, p, pos, cache, before, partial) && IdSet(p) == P.AllIds()
    requires longest == seq(P.n, _ => Some(p))
    ensures P.Complete(p) && AllShow(longest, p) && Genuine(P, longest) && Maximal(P, longest)
  {
    FullPartialIsComplete(P, p);
    CompleteIsLongest(P, p, p);
    forall i | 0 <= i < P.n ensures i in p { InAllIds(P, i); }
    forall i, q | 0 <= i < P.n && P.Partial(q) && i in q ensures |q| <= |longest[i].value| {
      CompleteIsLongest(P, p, q);
    }
  }

  lemma NothingCalled<S(!new), I, O>(P: Problem<S>, N: seq<Node<I, O>>, calls: seq<CallsEntry<S, I, O>>,
        cache: Buckets<S>,
        words: int)
    requires P.Valid() && |N| == 2 * P.n + 1 && calls == [] && cache == map[]
    ensures CallsMatch(P, [], N, calls) && Stores(cache, words, {})
  {
  }

  /** What taking the call at `pos` leads to. */
  lemma PushFacts<S(!new)>(P: Problem<S>, p: seq<int>, pos: int, cache: set<Config<S>>, longest: Partials,
        partial: bool, c: Config<S>)
    requires P.Valid() && Respects(P) && Inv(P, p, pos, cache, longest, partial)
    requires 0 <= pos < 2 * P.n && P.IsCall(pos) && P.owner[pos] !in IdSet(p)
    requires P.step(P.StateOf(p), P.owner[pos]).0
    requires c == Take(P, ConfigOf(P, p), P.owner[pos]) && !Covered(P, cache, c)
    ensures var x := P.owner[pos];
      && P.InRange(p + [x]) && 0 <= x < P.n && AtHead(P, p + [x])
      && IdSet(p + [x]) == IdSet(p) + {x}
      && P.StateOf(p + [x]) == P.step(P.StateOf(p), x).1
      && Inv(P, p + [x], NextPos(P, p + [x], -1), cache + {c}, longest, partial)
    ensures |Uncovered(P, cache + {c})| < |Uncovered(P, cache)|
  {
    hide Inv, NextPos;
    var x := P.owner[pos];
    InvFacts(P, p, pos, cache, longest, partial);
    ScannedCallIsReady(P, cache, ConfigOf(P, p), pos);
    PartialSnoc(P, p, x);
    IdSetSnoc(p, x);
    Push(P, p, pos, cache, longest, partial);
    NextPosFacts(P, p + [x], -1);
    FirstPosFacts(P, p + [x]);
    Restart(P, p + [x], NextPos(P, p + [x], -1), cache + {c}, longest, partial);
    PushDecreases(P, p + [x], cache);
  }

  /** What popping the stack leads to, when the scan has reached a return. */
  lemma PopFacts<S>(P: Problem<S>, p: seq<int>, pos: int, cache: set<Config<S>>, longest: Partials, longer: Partials,
        partial: bool)
    requires P.Valid() && P.InRange(p) && Inv(P, p, pos, cache, longest, partial)
    requires 0 <= pos < 2 * P.n && !P.IsCall(pos) && P.owner[pos] !in IdSet(p)
    requires p != [] && longer == if partial then Record(longest, p) else longest
    ensures var q, x := p[..|p| - 1], p[|p| - 1];
      && Distinct(p) && P.InRange(q) && 0 <= x < P.n == |P.call| && 0 <= P.call[x] < 2 * P.n && P.IsCall(P.call[x])
        && P.owner[P.call[x]] == x
      && IdSet(q) == IdSet(p) - {x} && IdSet(q) != P.AllIds()
      && AtHead(P, q) && P.call[x] < NextPos(P, q, P.call[x]) < 2 * P.n
        && P.owner[NextPos(P, q, P.call[x])] !in IdSet(q)
      && Inv(P, q, NextPos(P, q, P.call[x]), cache, longer, partial)
  {
    hide NextPos, Inv;
    var q, x := p[..|p| - 1], p[|p| - 1];
    InvFacts(P, p, pos, cache, longest, partial);
    assert p == q + [x];
    IdSetSnoc(q, x);
    assert x !in IdSet(q);
    InAllIds(P, x);
    NextPosFacts(P, q, -1);
    FirstPosFacts(P, q);
    NextPosFacts(P, q, P.call[x]);
    CallHasNext(P, q, P.call[x]);
    Pop(P, p, pos, NextPos(P, q, P.call[x]), cache, longest, longer, partial);
  }

  /** Builds the list and puts the head in front of it. */
  method BuildList<S, I, O>(ghost m: Model<S, I, O>, history: seq<Entry<I, O>>)
    returns (n: int, headEntry: Node<I, O>, entry: Node?<I, O>, ghost N: seq<Node<I, O>>)
    requires WellFormed(history)
    ensures n == Count(history) && |N| == 2 * n + 1 && headEntry == N[0] && fresh(N)
    ensures Mirrors(N, history) && Listed(ProblemOf(m, history), [], N) && entry == headEntry.next
  {
    hide WellFormed, Mirrors, Listed, Chain, Carries, ProblemOf;
    ghost var N0;
    entry, N0 := MakeLinkedEntries(history);
    var length := Length(entry, N0);
    n := length / 2;
    headEntry := new Node<I, O>(None, null, -1);
    Prepend(headEntry, entry, N0);
    N := [headEntry] + N0;
    MirrorsHead(headEntry, N0, history);
    StartListed(ProblemOf(m, history), N);
    assert NodeAt(N, 1) == NodeAt(N0, 0);
  }

  /** The variables of the search that change. */
  datatype Locals<!S, I, O> = Locals(entry: Node?<I, O>, state: S, cache: Buckets<S>, calls: seq<CallsEntry<S, I, O>>,
        longest: Partials)

  /** What they stand for: the ids on `calls`, the index of `entry`, the contents of `cache` and `longest`. */
  datatype Abstract<S> = Abstract(p: seq<int>, pos: int, ghost contents: set<Config<S>>, longest: Partials)

  // ---- The search as a function of ids

  ghost function FirstTurn<S>(P: Problem<S>): Abstract<S>
    requires P.Valid()
  {
    Abstract([], NextPos(P, [], -1), {}, seq(P.n, _ => None))
  }

  /** The current entry is one of the list and not all operations are on the stack. */
  ghost predicate Running<S>(P: Problem<S>, a: Abstract<S>)
    requires P.Valid()
  {
    P.InRange(a.p) && 0 <= a.pos < 2 * P.n && IdSet(a.p) != P.AllIds()
  }

  /** There is nothing left to give up. */
  ghost predicate Stuck<S>(P: Problem<S>, a: Abstract<S>)
    requires P.Valid()
  {
    Running(P, a) && !P.IsCall(a.pos) && a.p == []
  }

  /** One turn of the loop, over ids instead of nodes, sets instead of bitsets and a set of
      configurations instead of buckets. */
  ghost function Turn<S>(P: Problem<S>, partial: bool, a: Abstract<S>): Abstract<S>
    requires P.Valid() && Running(P, a) && !Stuck(P, a)
  {
    var x := P.owner[a.pos];
    if P.IsCall(a.pos) then
      var c := Take(P, ConfigOf(P, a.p), x);
      if P.step(P.StateOf(a.p), x).0 && !Covered(P, a.contents, c)
      then Abstract(a.p + [x], NextPos(P, a.p + [x], -1), a.contents + {c}, a.longest)
      else a.(pos := NextPos(P, a.p, a.pos))
    else
      var q, y := a.p[..|a.p| - 1], a.p[|a.p| - 1];
      Abstract(q, NextPos(P, q, P.call[y]), a.contents, if partial then Record(a.longest, a.p) else a.longest)
  }

  /** `trace` are the states of the search turn by turn. */
  ghost predicate Traces<S>(P: Problem<S>, partial: bool, trace: seq<Abstract<S>>)
    requires P.Valid()
  {
    && trace != [] && trace[0] == FirstTurn(P)
    && forall t :: 0 <= t < |trace| - 1 ==>
         Running(P, trace[t]) && !Stuck(P, trace[t]) && trace[t + 1] == Turn(P, partial, trace[t])
  }

  lemma TracesSnoc<S>(P: Problem<S>, partial: bool, trace: seq<Abstract<S>>, a: Abstract<S>)
    requires P.Valid() && Traces(P, partial, trace) && Running(P, trace[|trace| - 1]) && !Stuck(P, trace[|trace| - 1])
    requires a == Turn(P, partial, trace[|trace| - 1])
    ensures Traces(P, partial, trace + [a])
  {
    hide Turn, Running, Stuck, FirstTurn;
    var trace' := trace + [a];
    forall t | 0 <= t < |trace'| - 1
      ensures Running(P, trace'[t]) && !Stuck(P, trace'[t]) && trace'[t + 1] == Turn(P, partial, trace'[t])
    {
      if t < |trace| - 1 { assert trace'[t] == trace[t] && trace'[t + 1] == trace[t + 1]; }
    }
  }

  /** A turn adds at most one call to the stack. */
  lemma {:induction false} StackBound<S>(P: Problem<S>, partial: bool, trace: seq<Abstract<S>>, t: int)
    requires P.Valid() && Traces(P, partial, trace) && 0 <= t < |trace|
    ensures |trace[t].p| <= t
    decreases t
  {
    if t > 0 {
      StackBound(P, partial, trace, t - 1);
      assert trace[t - 1 + 1] == Turn(P, partial, trace[t - 1]);
    }
  }

  /** How a search ends after `turns` turns: with every operation on the stack, with nothing left to
      give up, or because the flag was up. The flag was down at every turn taken. */
  ghost predicate Ends<S>(P: Problem<S>, partial: bool, kill: nat -> bool, trace: seq<Abstract<S>>, turns: nat,
        ok: bool,
        killed: bool, longest: Partials)
    requires P.Valid()
  {
    && Traces(P, partial, trace) && |trace| == turns + 1
    && (forall t :: 0 <= t < turns ==> !kill(t))
    && var last := trace[turns];
      if ok then !killed && IdSet(last.p) == P.AllIds() && AllShow(longest, last.p)
      else longest == last.longest && if killed then kill(turns) && Running(P, last) else !kill(turns) && Stuck(P, last)
  }

  /** The invariant of the loop. */
  ghost predicate Consistent<S(!new), I, O>(P: Problem<S>, partial: bool, N: seq<Node<I, O>>, linearized: array<Word>,
        l: Locals<S, I, O>, a: Abstract<S>)
    requires P.Valid() && |N| == 2 * P.n + 1
    reads N, linearized
  {
    && P.InRange(a.p) && a.longest == l.longest && Inv(P, a.p, a.pos, a.contents, l.longest, partial)
    && Listed(P, a.p, N) && CallsMatch(P, a.p, N, l.calls)
    && Stores(l.cache, linearized.Length, a.contents)
    && Members(linearized[..]) == IdSet(a.p) && P.n <= 64 * linearized.Length
    && l.state == P.StateOf(a.p)
    && (N[0].next == null <==> IdSet(a.p) == P.AllIds())
    && (N[0].next != null ==> 0 <= a.pos < 2 * P.n && l.entry == N[a.pos + 1] && P.owner[a.pos] !in IdSet(a.p))
  }

  /** At a call: linearize it next if its step is accepted and leads to a new configuration,
      otherwise move on to the next entry. */
  method TryCall<S(!new), I(!new), O(!new)>(m: Model<S, I, O>, ghost h: seq<Entry<I, O>>, ghost partial: bool,
        ghost N: seq<Node<I, O>>, headEntry: Node<I, O>, linearized: array<Word>, l: Locals<S, I, O>,
        ghost a: Abstract<S>)
    returns (l': Locals<S, I, O>, ghost a': Abstract<S>)
    requires WellFormed(h) && Respectful(m) && Mirrors(N, h) && |N| == |h| + 1 && headEntry == N[0]
    requires Consistent(ProblemOf(m, h), partial, N, linearized, l, a)
    requires headEntry.next != null && ProblemOf(m, h).IsCall(a.pos)
    modifies N, linearized
    ensures Consistent(ProblemOf(m, h), partial, N, linearized, l', a')
    ensures |Uncovered(ProblemOf(m, h), a'.contents)| < |Uncovered(ProblemOf(m, h), a.contents)| ||
            (a'.contents == a.contents && a'.p == a.p && a.pos < a'.pos)
    ensures Running(ProblemOf(m, h), a) && !Stuck(ProblemOf(m, h), a) && a' == Turn(ProblemOf(m, h), partial, a)
  {
    hide Inv, Listed, CallsMatch, Stores, Mirrors, WellFormed, Respectful, ProblemOf, Members, IdSet, Problem.Valid,
      Problem.StateOf, Problem.AllIds, Respects, NextPos, Uncovered, Take, ConfigOf;
    ghost var P := ProblemOf(m, h);
    ModelRespects(m, h);
    ProblemFacts(m, h);
    NodeFacts(m, h, N, a.pos, l.state);
    var entry, state := l.entry, l.state;
    ghost var x := P.owner[a.pos];
    var (ok, newState) := m.step(state, entry.value.value.i, entry.matching.value.value.o);
    if ok {
      var newLinearized := Clone(linearized);
      Bitset.Set(newLinearized, entry.id);
      var newCacheEntry := CacheEntry(newLinearized[..], newState);
      ghost var c := Config(Members(newLinearized[..]), newState);
      TakeFacts(P, a.p, x, c);
      var hit := CacheContains(m.equal, l.cache, newCacheEntry, a.contents);
      if !hit {
        PushFacts(P, a.p, a.pos, a.contents, l.longest, partial, c);
        CallsPush(P, a.p, x, N, l.calls, CallsEntry(entry, state));
        var cache := Insert(l.cache, newCacheEntry, a.contents);
        var calls := l.calls + [CallsEntry(entry, state)];
        Bitset.Set(linearized, entry.id);
        LiftCall(entry, P, a.p, x, N);
        NextNode(P, a.p + [x], N, -1);
        return Locals(headEntry.next, newState, cache, calls, l.longest),
          Abstract(a.p + [x], NextPos(P, a.p + [x], -1), a.contents + {c}, a.longest);
      }
    }
    SkipFacts(P, a.p, a.pos, a.contents, l.longest, partial);
    NextNode(P, a.p, N, a.pos);
    return l.(entry := entry.next), a.(pos := NextPos(P, a.p, a.pos));
  }

  /** At a return: record the stack, then give up its last call and go on with the entry after it. */
  method Backtrack<S(!new), I(!new), O(!new)>(ghost m: Model<S, I, O>, ghost h: seq<Entry<I, O>>, partial: bool,
        ghost N: seq<Node<I, O>>, linearized: array<Word>, l: Locals<S, I, O>, ghost a: Abstract<S>)
    returns (l': Locals<S, I, O>, ghost a': Abstract<S>)
    requires WellFormed(h) && Mirrors(N, h) && |N| == |h| + 1
    requires Consistent(ProblemOf(m, h), partial, N, linearized, l, a)
    requires N[0].next != null && !ProblemOf(m, h).IsCall(a.pos) && l.calls != []
    modifies N, linearized
    ensures Consistent(ProblemOf(m, h), partial, N, linearized, l', a')
    ensures a'.contents == a.contents && |a'.p| < |a.p|
    ensures Running(ProblemOf(m, h), a) && !Stuck(ProblemOf(m, h), a) && a' == Turn(ProblemOf(m, h), partial, a)
  {
    hide Inv, Listed, CallsMatch, Stores, Mirrors, WellFormed, ProblemOf, Members, IdSet, Problem.Valid,
      Problem.StateOf, Problem.AllIds, NextPos, Record;
    ghost var P := ProblemOf(m, h);
    ProblemFacts(m, h);
    InvFacts(P, a.p, a.pos, a.contents, l.longest, partial);
    CallsFacts(P, a.p, N, l.calls);
    var longest := l.longest;
    if partial {
      longest := RecordCalls(longest, l.calls, a.p);
    }
    var callsTop := l.calls[|l.calls| - 1];
    var entry := callsTop.entry;
    ghost var q, x := a.p[..|a.p| - 1], a.p[|a.p| - 1];
    PopFacts(P, a.p, a.pos, a.contents, l.longest, longest, partial);
    CallsPop(P, a.p, N, l.calls);
    NodeFacts(m, h, N, P.call[x], l.state);
    Bitset.Clear(linearized, entry.id);
    UnliftCall(entry, P, a.p, N);
    NextNode(P, q, N, P.call[x]);
    NextNode(P, q, N, -1);
    return Locals(entry.next, callsTop.state, l.cache, l.calls[..|l.calls| - 1], longest),
      Abstract(q, NextPos(P, q, P.call[x]), a.contents, longest);
  }

  /** One turn of the loop, unless the scan has reached a return with nothing on the stack. */
  method TakeTurn<S(!new), I(!new), O(!new)>(m: Model<S, I, O>, ghost h: seq<Entry<I, O>>, partial: bool,
        ghost N: seq<Node<I, O>>, headEntry: Node<I, O>, linearized: array<Word>, l: Locals<S, I, O>,
        ghost a: Abstract<S>)
    returns (stuck: bool, l': Locals<S, I, O>, ghost a': Abstract<S>)
    requires WellFormed(h) && Respectful(m) && Mirrors(N, h) && |N| == |h| + 1 && headEntry == N[0]
    requires Consistent(ProblemOf(m, h), partial, N, linearized, l, a) && headEntry.next != null
    modifies N, linearized
    ensures Consistent(ProblemOf(m, h), partial, N, linearized, l', a') && Running(ProblemOf(m, h), a)
    ensures stuck <==> Stuck(ProblemOf(m, h), a)
    ensures stuck ==> l' == l && a' == a && forall p :: !ProblemOf(m, h).Complete(p)
    ensures stuck && partial ==> Maximal(ProblemOf(m, h), l.longest)
    ensures !stuck ==> a' == Turn(ProblemOf(m, h), partial, a)
    ensures !stuck ==>
      || |Uncovered(ProblemOf(m, h), a'.contents)| < |Uncovered(ProblemOf(m, h), a.contents)|
      || (a'.contents == a.contents && (|a'.p| < |a.p| || (a'.p == a.p && a.pos < a'.pos)))
  {
    hide Inv, Listed, CallsMatch, Stores, Mirrors, WellFormed, Respectful, ProblemOf, Members, IdSet, Problem.Valid,
      Problem.StateOf, Problem.AllIds, Respects, NextPos, Uncovered, Maximal, Problem.Complete, Turn;
    ghost var P := ProblemOf(m, h);
    ModelRespects(m, h);
    ProblemFacts(m, h);
    NodeFacts(m, h, N, a.pos, l.state);
    if l.entry.matching != null {
      l', a' := TryCall(m, h, partial, N, headEntry, linearized, l, a);
      return false, l', a';
    }
    CallsFacts(P, a.p, N, l.calls);
    if |l.calls| == 0 {
      Exhausted(P, a.pos, a.contents, l.longest, partial);
      return true, l, a;
    }
    l', a' := Backtrack(m, h, partial, N, linearized, l, a);
    return false, l', a';
  }

  lemma EnoughTurns<S>(P: Problem<S>, partial: bool, trace: seq<Abstract<S>>, turns: nat)
    requires P.Valid() && Traces(P, partial, trace) && |trace| == turns + 1 && P.Complete(trace[turns].p)
    ensures P.n <= turns
  {
    StackBound(P, partial, trace, turns);
    CompleteIsPartial(P, trace[turns].p);
    CompleteIsLongest(P, trace[turns].p, trace[turns].p);
  }

  lemma StartTrace<S>(P: Problem<S>, partial: bool, a: Abstract<S>)
    requires P.Valid() && a == FirstTurn(P)
    ensures Traces(P, partial, [a])
  {
  }

  /** Decides one history. `kill(t)` is what the `t`-th read of the kill flag returns, `killed` tells
      whether the search stopped because of it, and `turns` how many turns it took. */
  method CheckSingle<S(!new), I(!new), O(!new)>(m: Model<S, I, O>, history: seq<Entry<I, O>>, computePartial: bool,
        kill: nat -> bool)
    returns (ok: bool, longest: Partials, ghost killed: bool, ghost turns: nat)
    requires WellFormed(history) && Respectful(m)
    ensures ok ==> exists p :: ProblemOf(m, history).Complete(p) && AllShow(longest, p)
    ensures !ok && !killed ==> forall p :: !ProblemOf(m, history).Complete(p)
    ensures forall t :: 0 <= t < turns ==> !kill(t)
    ensures killed ==> !ok && kill(turns)
    ensures ok ==> Count(history) <= turns && forall t :: 0 <= t < Count(history) ==> !kill(t)
    ensures exists trace :: Ends(ProblemOf(m, history), computePartial, kill, trace, turns, ok, killed, longest)
    ensures Genuine(ProblemOf(m, history), longest)
    ensures ok || (computePartial && !killed) ==> Maximal(ProblemOf(m, history), longest)
    ensures !ok && !computePartial ==> Silent(longest)
  {
    hide Inv, Listed, CallsMatch, Stores, Mirrors, WellFormed, Respectful, ProblemOf, Members, IdSet, Problem.Valid,
      Problem.StateOf, Problem.AllIds, Respects, NextPos, Uncovered, Genuine, Maximal, Problem.Complete, AllShow,
        Traces,
      Turn;
    ghost var P := ProblemOf(m, history);
    ModelRespects(m, history);
    ProblemFacts(m, history);
    var n, headEntry, entry, N := BuildList(m, history);
    var linearized := NewBitset(n);
    longest := seq(n, _ => None);
    var l: Locals<S, I, O> := Locals(entry, m.init, map[], [], longest);
    ghost var a: Abstract<S> := Abstract([], NextPos(P, [], -1), {}, longest);
    StartFacts(P, longest, computePartial);
    NothingCalled(P, N, l.calls, l.cache, linearized.Length);
    NextNode(P, [], N, -1);
    ghost var trace := [a];
    StartTrace(P, computePartial, a);
    var polls := 0;
    while headEntry.next != null
      invariant Consistent(P, computePartial, N, linearized, l, a)
      invariant Traces(P, computePartial, trace) && |trace| == polls + 1 && trace[polls] == a
      invariant forall t :: 0 <= t < polls ==> !kill(t)
      decreases |Uncovered(P, a.contents)|, |a.p|, 2 * P.n - a.pos
    {
      InvFacts(P, a.p, a.pos, a.contents, l.longest, computePartial);
      if kill(polls) {
        assert Ends(P, computePartial, kill, trace, polls, false, true, l.longest);
        return false, l.longest, true, polls;
      }
      var stuck;
      stuck, l, a := TakeTurn(m, history, computePartial, N, headEntry, linearized, l, a);
      if stuck {
        assert Ends(P, computePartial, kill, trace, polls, false, false, l.longest);
        return false, l.longest, false, polls;
      }
      TracesSnoc(P, computePartial, trace, a);
      trace := trace + [a];
      polls := polls + 1;
    }
    CallsFacts(P, a.p, N, l.calls);
    var ids := IdsOf(l.calls);
    assert ids == a.p;
    longest := seq(n, _ => Some(ids));
    Succeeded(P, a.p, a.pos, a.contents, l.longest, longest, computePartial);
    EnoughTurns(P, computePartial, trace, polls);
    assert Ends(P, computePartial, kill, trace, polls, true, false, longest);
    return true, longest, false, polls;
  }
}
