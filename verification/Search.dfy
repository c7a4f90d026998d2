/** The invariant of the backtracking search, stated over lists of ids instead of linked
    nodes, and one lemma for each kind of step the search takes.

    `p` is the list of ids on the stack of calls, `pos` the index of the current entry in
    the history, `cache` the set of configurations ever inserted. */
module Search {
  import opened Histories
  import opened Problems
  import opened Collections

  datatype Config<+S> = Config(ids: set<int>, state: S)

  ghost function ConfigOf<S>(P: Problem<S>, p: seq<int>): Config<S>
    requires P.Valid() && P.InRange(p)
  {
    Config(IdSet(p), P.StateOf(p))
  }

  /** Every operation that precedes `x` is already in `ids`, and `x` is not. */
  ghost predicate Ready<S>(P: Problem<S>, ids: set<int>, x: int)
    requires P.Valid()
  {
    && 0 <= x < P.n && x !in ids
    && forall y :: 0 <= y < P.n && y !in ids ==> !P.Precedes(y, x)
  }

  ghost predicate CanTake<S>(P: Problem<S>, c: Config<S>, x: int)
    requires P.Valid()
  {
    Ready(P, c.ids, x) && P.step(c.state, x).0
  }

  ghost function Take<S>(P: Problem<S>, c: Config<S>, x: int): Config<S>
    requires P.Valid() && 0 <= x < P.n
  {
    Config(c.ids + {x}, P.step(c.state, x).1)
  }

  /** What `cacheContains` asks: an entry with the same operations and a comparable state. */
  ghost predicate Covered<S>(P: Problem<S>, cache: set<Config<S>>, c: Config<S>) {
    exists e :: e in cache && e.ids == c.ids && P.equal(c.state, e.state)
  }

  /** Every configuration one step away from `c` is covered. */
  ghost predicate Closed<S>(P: Problem<S>, cache: set<Config<S>>, c: Config<S>)
    requires P.Valid()
  {
    forall x :: CanTake(P, c, x) ==> Covered(P, cache, Take(P, c, x))
  }

  /** The entries of the history before `limit` that `c` leaves in the list are calls, and the step
      of each of them is refused or leads to a covered configuration. */
  ghost predicate Scanned<S>(P: Problem<S>, cache: set<Config<S>>, c: Config<S>, limit: int)
    requires P.Valid()
  {
    forall q :: 0 <= q < limit && q < 2 * P.n && P.owner[q] !in c.ids ==>
      && P.IsCall(q)
      && (P.step(c.state, P.owner[q]).0 ==> Covered(P, cache, Take(P, c, P.owner[q])))
  }

  type Partials = seq<Option<seq<int>>>

  /** Recorded partial linearizations are genuine and contain the operation they are recorded for. */
  ghost predicate Genuine<S>(P: Problem<S>, longest: Partials)
    requires P.Valid()
  {
    && |longest| == P.n
    && forall i :: 0 <= i < |longest| && longest[i].Some? ==>
         P.Partial(longest[i].value) && i in longest[i].value
  }

  /** `longest` after recording the list `p` for each operation of `seen` that has nothing as long. */
  ghost function RecordFor(longest: Partials, p: seq<int>, seen: seq<int>): (r: Partials)
    ensures |r| == |longest|
  {
    seq(|longest|, i requires 0 <= i < |longest| =>
      if i in seen && (longest[i].None? || |p| > |longest[i].value|) then Some(p) else longest[i])
  }

  ghost function Record(longest: Partials, p: seq<int>): Partials { RecordFor(longest, p, p) }

  ghost predicate Silent(longest: Partials) {
    forall i :: 0 <= i < |longest| ==> longest[i].None?
  }

  /** A configuration with every operation is cached only when the search is about to succeed. */
  ghost predicate FullOnlyAtEnd<S>(P: Problem<S>, p: seq<int>, cache: set<Config<S>>) {
    forall e :: e in cache && e.ids == P.AllIds() ==> IdSet(p) == P.AllIds()
  }

  ghost predicate Recorded(longest: Partials, ids: set<int>) {
    forall i :: i in ids && 0 <= i < |longest| ==> longest[i].Some? && |ids| <= |longest[i].value|
  }

  ghost predicate OnStack<S>(P: Problem<S>, p: seq<int>, e: Config<S>)
    requires P.Valid() && P.InRange(p)
  {
    exists d :: 0 < d <= |p| && e == ConfigOf(P, p[..d])
  }

  /** `e` has been explored to the end and its operations recorded. */
  ghost predicate Finished<S>(P: Problem<S>, cache: set<Config<S>>, longest: Partials, partial: bool, e: Config<S>)
    requires P.Valid()
  {
    Closed(P, cache, e) && (partial ==> Recorded(longest, e.ids))
  }

  /** Below the top of the stack the scan has passed the call that was linearized next. */
  ghost predicate LevelScanned<S>(P: Problem<S>, cache: set<Config<S>>, p: seq<int>, d: int)
    requires P.Valid() && P.InRange(p) && 0 <= d < |p|
  {
    Scanned(P, cache, ConfigOf(P, p[..d]), P.call[p[d]] + 1)
  }

  ghost predicate StackScanned<S>(P: Problem<S>, cache: set<Config<S>>, p: seq<int>)
    requires P.Valid() && P.InRange(p)
  {
    forall d :: 0 <= d < |p| ==> LevelScanned(P, cache, p, d)
  }

  ghost predicate CacheExplored<S>(P: Problem<S>, cache: set<Config<S>>, p: seq<int>, longest: Partials, partial: bool)
    requires P.Valid() && P.InRange(p)
  {
    forall e :: e in cache ==> OnStack(P, p, e) || Finished(P, cache, longest, partial, e)
  }

  ghost predicate Inv<S>(P: Problem<S>, p: seq<int>, pos: int, cache: set<Config<S>>, longest: Partials, partial: bool)
    requires P.Valid()
  {
    && P.Partial(p)
    && StackScanned(P, cache, p)
    && Scanned(P, cache, ConfigOf(P, p), pos)
    && CacheExplored(P, cache, p, longest, partial)
    && FullOnlyAtEnd(P, p, cache)
    && Genuine(P, longest)
    && (!partial ==> Silent(longest))
  }

  // ---- Partial linearizations grow and shrink one operation at a time

  lemma PartialSnoc<S>(P: Problem<S>, p: seq<int>, x: int)
    requires P.Valid() && P.Partial(p)
    requires CanTake(P, ConfigOf(P, p), x)
    ensures P.Partial(p + [x])
    ensures ConfigOf(P, p + [x]) == Take(P, ConfigOf(P, p), x)
  {
    var p' := p + [x];
    assert p'[..|p|] == p;
    assert IdSet(p') == IdSet(p) + {x} by { IdSetSnoc(p, x); }
    forall k, y | 0 <= k < |p'| && 0 <= y < P.n && P.Precedes(y, p'[k]) ensures y in p'[..k] {
      if k < |p| {
        assert p'[..k] == p[..k] && p'[k] == p[k];
      } else {
        assert y in IdSet(p);
        assert p'[..k] == p;
      }
    }
  }

  lemma PartialUnsnoc<S>(P: Problem<S>, p: seq<int>)
    requires P.Valid() && P.Partial(p) && p != []
    ensures P.Partial(p[..|p| - 1])
    ensures CanTake(P, ConfigOf(P, p[..|p| - 1]), p[|p| - 1])
    ensures ConfigOf(P, p) == Take(P, ConfigOf(P, p[..|p| - 1]), p[|p| - 1])
  {
    var q, x := p[..|p| - 1], p[|p| - 1];
    assert p == q + [x];
    IdSetSnoc(q, x);
    forall k, y | 0 <= k < |q| && 0 <= y < P.n && P.Precedes(y, q[k]) ensures y in q[..k] {
      assert q[k] == p[k] && q[..k] == p[..k];
    }
    assert forall y :: 0 <= y < P.n && P.Precedes(y, p[|p| - 1]) ==> y in q;
  }

  // ---- Steps of the search

  lemma CoveredMonotone<S>(P: Problem<S>, cache: set<Config<S>>, more: set<Config<S>>, c: Config<S>)
    requires cache <= more && Covered(P, cache, c)
    ensures Covered(P, more, c)
  {
  }

  lemma ScannedMonotone<S>(P: Problem<S>, cache: set<Config<S>>, more: set<Config<S>>, c: Config<S>, limit: int)
    requires P.Valid() && cache <= more && Scanned(P, cache, c, limit)
    ensures Scanned(P, more, c, limit)
  {
  }

  /** A call reached by the scan may be taken next, for nothing still in the list returned before it. */
  lemma ScannedCallIsReady<S>(P: Problem<S>, cache: set<Config<S>>, c: Config<S>, pos: int)
    requires P.Valid() && Scanned(P, cache, c, pos)
    requires 0 <= pos < 2 * P.n && P.IsCall(pos) && P.owner[pos] !in c.ids
    ensures P.call[P.owner[pos]] == pos
    ensures Ready(P, c.ids, P.owner[pos])
  {
    var x := P.owner[pos];
    forall y | 0 <= y < P.n && y !in c.ids ensures !P.Precedes(y, x) {
      var r := P.ret[y];
      assert P.owner[r] == y && !P.IsCall(r);
    }
  }

  /** The operations that may be taken next are exactly those whose call stands before every
      return still in the list. */
  lemma AllowedNext<S>(P: Problem<S>, ids: set<int>, x: int)
    requires P.Valid() && 0 <= x < P.n && x !in ids
    ensures Ready(P, ids, x) <==> forall q :: 0 <= q < 2 * P.n && P.owner[q] !in ids && !P.IsCall(q) ==> P.call[x] < q
  {
    forall y | 0 <= y < P.n && y !in ids && P.Precedes(y, x) ensures P.owner[P.ret[y]] == y && !P.IsCall(P.ret[y]) {
    }
    forall q | 0 <= q < 2 * P.n && P.owner[q] !in ids && !P.IsCall(q) && !(P.call[x] < q)
      ensures P.Precedes(P.owner[q], x) {
    }
  }

  /** Once the scan reaches a return, every operation that may be taken has been tried. */
  lemma ScannedToReturnIsClosed<S>(P: Problem<S>, cache: set<Config<S>>, c: Config<S>, pos: int)
    requires P.Valid() && Scanned(P, cache, c, pos)
    requires 0 <= pos < 2 * P.n && !P.IsCall(pos) && P.owner[pos] !in c.ids
    ensures Closed(P, cache, c)
  {
    var y := P.owner[pos];
    forall x | CanTake(P, c, x) ensures Covered(P, cache, Take(P, c, x)) {
      var k := P.call[x];
      assert !P.Precedes(y, x);
      assert k < pos && P.owner[k] == x;
    }
  }

  lemma ScanOn<S>(P: Problem<S>, cache: set<Config<S>>, c: Config<S>, pos: int, next: int)
    requires P.Valid() && Scanned(P, cache, c, pos)
    requires 0 <= pos < next <= 2 * P.n && P.IsCall(pos)
    requires P.step(c.state, P.owner[pos]).0 ==> Covered(P, cache, Take(P, c, P.owner[pos]))
    requires forall q :: pos < q < next ==> P.owner[q] in c.ids
    ensures Scanned(P, cache, c, next)
  {
  }

  /** Moving to the next entry still in the list, when the step of the call at `pos` is refused or covered. */
  lemma Skip<S>(P: Problem<S>, p: seq<int>, pos: int, next: int, cache: set<Config<S>>, longest: Partials,
        partial: bool)
    requires P.Valid() && Inv(P, p, pos, cache, longest, partial)
    requires 0 <= pos < next <= 2 * P.n && P.IsCall(pos)
    requires P.step(P.StateOf(p), P.owner[pos]).0 ==> Covered(P, cache, Take(P, ConfigOf(P, p), P.owner[pos]))
    requires forall q :: pos < q < next ==> P.owner[q] in IdSet(p)
    ensures Inv(P, p, next, cache, longest, partial)
  {
    ScanOn(P, cache, ConfigOf(P, p), pos, next);
  }

  /** A level depends only on the part of the stack up to it. */
  lemma LevelKept<S>(P: Problem<S>, cache: set<Config<S>>, more: set<Config<S>>, p: seq<int>, q: seq<int>, d: int)
    requires P.Valid() && P.InRange(p) && P.InRange(q)
    requires 0 <= d < |p| && d < |q| && p[..d + 1] == q[..d + 1]
    requires cache <= more && LevelScanned(P, cache, p, d)
    ensures LevelScanned(P, more, q, d)
  {
    assert p[..d] == p[..d + 1][..d] == q[..d];
    assert p[d] == p[..d + 1][d] == q[d];
    ScannedMonotone(P, cache, more, ConfigOf(P, p[..d]), P.call[p[d]] + 1);
  }

  lemma PushKeepsStack<S>(P: Problem<S>, p: seq<int>, pos: int, x: int, cache: set<Config<S>>)
    requires P.Valid() && P.InRange(p) && 0 <= x < P.n
    requires StackScanned(P, cache, p) && Scanned(P, cache, ConfigOf(P, p), pos)
    requires P.call[x] == pos && P.owner[pos] == x
    requires ConfigOf(P, p + [x]) == Take(P, ConfigOf(P, p), x)
    requires Covered(P, cache + {ConfigOf(P, p + [x])}, ConfigOf(P, p + [x]))
    ensures StackScanned(P, cache + {ConfigOf(P, p + [x])}, p + [x])
  {
    var p' := p + [x];
    var cache' := cache + {ConfigOf(P, p')};
    forall d | 0 <= d < |p'| ensures LevelScanned(P, cache', p', d) {
      if d < |p| {
        assert p'[..d + 1] == p[..d + 1];
        LevelKept(P, cache, cache', p, p', d);
      } else {
        assert p'[..d] == p;
        ScannedMonotone(P, cache, cache', ConfigOf(P, p), pos);
        ScanOn(P, cache', ConfigOf(P, p), pos, pos + 1);
      }
    }
  }

  lemma ClosedMonotone<S>(P: Problem<S>, cache: set<Config<S>>, more: set<Config<S>>, c: Config<S>)
    requires P.Valid() && cache <= more && Closed(P, cache, c)
    ensures Closed(P, more, c)
  {
    forall x | CanTake(P, c, x) ensures Covered(P, more, Take(P, c, x)) {
      CoveredMonotone(P, cache, more, Take(P, c, x));
    }
  }

  lemma PushKeepsExplored<S>(P: Problem<S>, p: seq<int>, x: int, cache: set<Config<S>>, longest: Partials,
        partial: bool)
    requires P.Valid() && P.InRange(p) && 0 <= x < P.n
    requires CacheExplored(P, cache, p, longest, partial)
    ensures CacheExplored(P, cache + {ConfigOf(P, p + [x])}, p + [x], longest, partial)
  {
    var p' := p + [x];
    var cache' := cache + {ConfigOf(P, p')};
    forall e | e in cache' ensures OnStack(P, p', e) || Finished(P, cache', longest, partial, e) {
      if e !in cache {
        assert p'[..|p'|] == p';
      } else if OnStack(P, p, e) {
        var d :| 0 < d <= |p| && e == ConfigOf(P, p[..d]);
        assert p'[..d] == p[..d];
      } else {
        ClosedMonotone(P, cache, cache', e);
      }
    }
  }

  lemma PushKeepsFull<S>(P: Problem<S>, p: seq<int>, x: int, cache: set<Config<S>>, c: Config<S>)
    requires 0 <= x < P.n && c.ids == IdSet(p + [x]) && FullOnlyAtEnd(P, p, cache)
    ensures FullOnlyAtEnd(P, p + [x], cache + {c})
  {
    IdSetSnoc(p, x);
    InAllIds(P, x);
  }

  /** Linearizing the call at `pos`. */
  lemma Push<S(!new)>(P: Problem<S>, p: seq<int>, pos: int, cache: set<Config<S>>, longest: Partials, partial: bool)
    requires P.Valid() && Respects(P) && Inv(P, p, pos, cache, longest, partial)
    requires 0 <= pos < 2 * P.n && P.IsCall(pos) && P.owner[pos] !in IdSet(p)
    requires P.step(P.StateOf(p), P.owner[pos]).0
    ensures Inv(P, p + [P.owner[pos]], 0, cache + {ConfigOf(P, p + [P.owner[pos]])}, longest, partial)
  {
    var x := P.owner[pos];
    var c := ConfigOf(P, p);
    ScannedCallIsReady(P, cache, c, pos);
    PartialSnoc(P, p, x);
    var c' := ConfigOf(P, p + [x]);
    assert Covered(P, cache + {c'}, c') by { assert c' in cache + {c'} && P.equal(c'.state, c'.state); }
    PushKeepsStack(P, p, pos, x, cache);
    PushKeepsExplored(P, p, x, cache, longest, partial);
    PushKeepsFull(P, p, x, cache, c');
  }

  /** A scan restarted at the beginning of the list begins at its first entry. */
  lemma Restart<S>(P: Problem<S>, p: seq<int>, first: int, cache: set<Config<S>>, longest: Partials, partial: bool)
    requires P.Valid() && Inv(P, p, 0, cache, longest, partial)
    requires forall q :: 0 <= q < first && q < 2 * P.n ==> P.owner[q] in IdSet(p)
    ensures Inv(P, p, first, cache, longest, partial)
  {
  }

  lemma OnStackPopped<S>(P: Problem<S>, p: seq<int>, e: Config<S>)
    requires P.Valid() && P.InRange(p) && p != [] && OnStack(P, p, e)
    ensures OnStack(P, p[..|p| - 1], e) || e == ConfigOf(P, p)
  {
    hide Problem.Valid, ConfigOf;
    var q := p[..|p| - 1];
    var d :| 0 < d <= |p| && e == ConfigOf(P, p[..d]);
    if d < |p| { assert q[..d] == p[..d]; } else { assert p[..d] == p; }
  }

  lemma RecordGrows(longest: Partials, p: seq<int>, ids: set<int>)
    requires Recorded(longest, ids)
    ensures Recorded(Record(longest, p), ids)
  {
  }

  lemma RecordRecords(longest: Partials, p: seq<int>)
    requires Distinct(p)
    ensures Recorded(Record(longest, p), IdSet(p))
  {
    DistinctSize(p);
  }

  lemma PopKeepsExplored<S>(P: Problem<S>, p: seq<int>, cache: set<Config<S>>, longest: Partials, longer: Partials,
        partial: bool)
    requires P.Valid() && P.InRange(p) && Distinct(p) && p != [] && |longest| == P.n
    requires CacheExplored(P, cache, p, longest, partial)
    requires Closed(P, cache, ConfigOf(P, p))
    requires longer == if partial then Record(longest, p) else longest
    ensures CacheExplored(P, cache, p[..|p| - 1], longer, partial)
  {
    hide Problem.Valid, Closed, OnStack, Recorded, Record;
    RecordRecords(longest, p);
    forall e | e in cache ensures OnStack(P, p[..|p| - 1], e) || Finished(P, cache, longer, partial, e) {
      if OnStack(P, p, e) {
        OnStackPopped(P, p, e);
      } else if partial {
        RecordGrows(longest, p, e.ids);
      }
    }
  }

  lemma PopKeepsStack<S>(P: Problem<S>, p: seq<int>, cache: set<Config<S>>)
    requires P.Valid() && P.InRange(p) && p != [] && StackScanned(P, cache, p)
    ensures StackScanned(P, cache, p[..|p| - 1])
  {
    var q := p[..|p| - 1];
    forall d | 0 <= d < |q| ensures LevelScanned(P, cache, q, d) {
      assert q[..d + 1] == p[..d + 1];
      LevelKept(P, cache, cache, p, q, d);
    }
  }

  lemma RecordKeepsGenuine<S>(P: Problem<S>, longest: Partials, p: seq<int>)
    requires P.Valid() && Genuine(P, longest) && P.Partial(p)
    ensures Genuine(P, Record(longest, p))
  {
  }

  /** Giving up on the top of the stack when the scan has reached a return. `longer` is `longest`
      after recording the stack. */
  lemma Pop<S>(P: Problem<S>, p: seq<int>, pos: int, next: int, cache: set<Config<S>>, longest: Partials,
        longer: Partials, partial: bool)
    requires P.Valid() && Inv(P, p, pos, cache, longest, partial)
    requires 0 <= pos < 2 * P.n && !P.IsCall(pos) && P.owner[pos] !in IdSet(p)
    requires p != []
    requires longer == if partial then Record(longest, p) else longest
    requires forall q :: P.call[p[|p| - 1]] < q < next && q < 2 * P.n ==> P.owner[q] in IdSet(p[..|p| - 1])
    ensures Inv(P, p[..|p| - 1], next, cache, longer, partial)
  {
    var q := p[..|p| - 1];
    ScannedToReturnIsClosed(P, cache, ConfigOf(P, p), pos);
    PopKeepsExplored(P, p, cache, longest, longer, partial);
    PartialUnsnoc(P, p);
    assert LevelScanned(P, cache, p, |p| - 1);
    PopKeepsStack(P, p, cache);
    if partial { RecordKeepsGenuine(P, longest, p); }
    assert IdSet(p) != P.AllIds() by { InAllIds(P, P.owner[pos]); }
  }

  // ---- Outcomes

  lemma FullPartialIsComplete<S>(P: Problem<S>, p: seq<int>)
    requires P.Valid() && P.Partial(p) && IdSet(p) == P.AllIds()
    ensures P.Complete(p)
  {
    assert forall i, j :: 0 <= i < j < |p| ==> p[j] !in p[..i];
  }

  lemma CompleteIsPartial<S>(P: Problem<S>, p: seq<int>)
    requires P.Valid() && P.Complete(p)
    ensures P.Partial(p)
  {
    forall k, y | 0 <= k < |p| && 0 <= y < P.n && P.Precedes(y, p[k]) ensures y in p[..k] {
      InAllIds(P, y);
      var j :| 0 <= j < |p| && p[j] == y;
      assert j < k;
    }
  }

  /** When everything cached is closed, and so is the start, every partial linearization is
      covered: skipping configurations that were already cached loses nothing. */
  lemma {:induction false} EverythingCovered<S(!new)>(P: Problem<S>, cache: set<Config<S>>, p: seq<int>)
    requires P.Valid() && Respects(P)
    requires Closed(P, cache, ConfigOf(P, []))
    requires forall e :: e in cache ==> Closed(P, cache, e)
    requires P.Partial(p) && p != []
    ensures Covered(P, cache, ConfigOf(P, p))
  {
    var q, x := p[..|p| - 1], p[|p| - 1];
    PartialUnsnoc(P, p);
    if q != [] {
      EverythingCovered(P, cache, q);
      var c := ConfigOf(P, q);
      var e :| e in cache && e.ids == c.ids && P.equal(c.state, e.state);
      assert CanTake(P, e, x) && Closed(P, cache, e);
      var next := Take(P, e, x);
      assert Covered(P, cache, next);
      var f :| f in cache && f.ids == next.ids && P.equal(next.state, f.state);
      assert P.equal(ConfigOf(P, p).state, f.state);
    }
  }

  /** `longest[i]` is absent only if no partial linearization contains `i`, and otherwise no
      partial linearization that contains `i` is longer. */
  ghost predicate Maximal<S>(P: Problem<S>, longest: Partials)
    requires P.Valid()
  {
    && |longest| == P.n
    && forall i, q :: 0 <= i < P.n && P.Partial(q) && i in q ==> longest[i].Some? && |q| <= |longest[i].value|
  }

  /** The search has scanned up to a return with an empty stack: there is no linearization. */
  lemma Exhausted<S(!new)>(P: Problem<S>, pos: int, cache: set<Config<S>>, longest: Partials, partial: bool)
    requires P.Valid() && Respects(P) && Inv(P, [], pos, cache, longest, partial)
    requires 0 <= pos < 2 * P.n && !P.IsCall(pos)
    ensures forall q :: !P.Complete(q)
    ensures partial ==> Maximal(P, longest)
  {
    ScannedToReturnIsClosed(P, cache, ConfigOf(P, []), pos);
    forall e | e in cache ensures Finished(P, cache, longest, partial, e) {
      assert !OnStack(P, [], e);
    }
    forall q ensures !P.Complete(q) {
      if P.Complete(q) {
        CompleteIsPartial(P, q);
        InAllIds(P, 0);
        EverythingCovered(P, cache, q);
      }
    }
    if partial {
      forall i, q | 0 <= i < P.n && P.Partial(q) && i in q
        ensures longest[i].Some? && |q| <= |longest[i].value|
      {
        EverythingCovered(P, cache, q);
        DistinctSize(q);
      }
    }
  }

  /** A complete linearization is as long as any partial one. */
  lemma CompleteIsLongest<S>(P: Problem<S>, p: seq<int>, q: seq<int>)
    requires P.Valid() && P.Complete(p) && P.Partial(q)
    ensures |p| == P.n && |q| <= P.n
  {
    DistinctSize(p);
    DistinctSize(q);
    AllIdsSize(P);
    forall x | x in IdSet(q) ensures x in P.AllIds() { InAllIds(P, x); }
    SubsetSize(IdSet(q), P.AllIds());
  }

  lemma AllIdsSize<S>(P: Problem<S>)
    ensures |P.AllIds()| == P.n
  {
    DistinctSize(seq(P.n, i => i));
  }

  // ---- Termination

  /** All lists over 0..n-1 of length at most `len`. */
  ghost function Lists(n: nat, len: nat): set<seq<int>> {
    if len == 0 then {[]}
    else {[]} + set q, x | q in Lists(n, len - 1) && x in Below(n) :: q + [x]
  }

  lemma {:induction false} InLists(n: nat, len: nat, p: seq<int>)
    requires |p| <= len && forall k :: 0 <= k < |p| ==> 0 <= p[k] < n
    ensures p in Lists(n, len)
  {
    if p != [] {
      InLists(n, len - 1, p[..|p| - 1]);
      assert p == p[..|p| - 1] + [p[|p| - 1]];
    }
  }

  /** Runs whose configuration is not yet cached: finitely many, and each push removes one. */
  ghost function Uncovered<S>(P: Problem<S>, cache: set<Config<S>>): set<seq<int>>
    requires P.Valid()
  {
    set q | q in Lists(P.n, P.n) && !Covered(P, cache, Config(IdSet(q), P.StateOf(q)))
  }

  lemma PushDecreases<S(!new)>(P: Problem<S>, p: seq<int>, cache: set<Config<S>>)
    requires P.Valid() && Respects(P) && P.Partial(p) && !Covered(P, cache, ConfigOf(P, p))
    ensures |Uncovered(P, cache + {ConfigOf(P, p)})| < |Uncovered(P, cache)|
  {
    var c := ConfigOf(P, p);
    var before, after := Uncovered(P, cache), Uncovered(P, cache + {c});
    DistinctSize(p);
    AllIdsSize(P);
    forall x | x in IdSet(p) ensures x in P.AllIds() { InAllIds(P, x); }
    SubsetSize(IdSet(p), P.AllIds());
    InLists(P.n, P.n, p);
    assert Covered(P, cache + {c}, c) by { assert c in cache + {c} && P.equal(c.state, c.state); }
    forall q | q in after ensures q in before {
      if Covered(P, cache, Config(IdSet(q), P.StateOf(q))) {
        CoveredMonotone(P, cache, cache + {c}, Config(IdSet(q), P.StateOf(q)));
      }
    }
    assert p in before && p !in after;
    SubsetSize(after, before - {p});
  }
}
