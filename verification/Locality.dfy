/** Splitting a history by key: a history is linearizable for the many-key store exactly when
    the operations on each key are linearizable for the one-key model. */
module Locality {
  import opened Histories
  import opened Collections

  /** The operations on key `k`, in order. */
  function Sub<I, O, K(==)>(key: I -> K, w: seq<Operation<I, O>>, k: K): seq<Operation<I, O>> {
    if w == [] then []
    else
      var last := w[|w| - 1];
      Sub(key, w[..|w| - 1], k) + if key(last.input) == k then [last] else []
  }

  /** The state of key `k`: keys start in the initial state of the one-key model. */
  ghost function At<S, I, O, K>(m: Model<S, I, O>, st: map<K, S>, k: K): S {
    if k in st then st[k] else m.init
  }

  /** The store of all keys, each behaving like `m`. */
  ghost function Product<S, I, O, K>(m: Model<S, I, O>, key: I -> K): Model<map<K, S>, I, O> {
    Model(map[],
          (st: map<K, S>, i: I, o: O) => (m.step(At(m, st, key(i)), i, o).0,
            st[key(i) := m.step(At(m, st, key(i)), i, o).1]),
          (s: map<K, S>, t: map<K, S>) => s == t)
  }

  lemma {:induction false} SubCount<I, O, K>(key: I -> K, w: seq<Operation<I, O>>, k: K, e: Operation<I, O>)
    ensures multiset(Sub(key, w, k))[e] == if key(e.input) == k then multiset(w)[e] else 0
  {
    if w != [] {
      SubCount(key, w[..|w| - 1], k, e);
      assert w == w[..|w| - 1] + [w[|w| - 1]];
    }
  }

  /** Rearranging a history rearranges the operations on each key. */
  lemma SubMultiset<I(!new), O(!new), K>(key: I -> K, w: seq<Operation<I, O>>, ops: seq<Operation<I, O>>, k: K)
    requires multiset(w) == multiset(ops)
    ensures multiset(Sub(key, w, k)) == multiset(Sub(key, ops, k))
  {
    forall e ensures multiset(Sub(key, w, k))[e] == multiset(Sub(key, ops, k))[e] {
      SubCount(key, w, k, e);
      SubCount(key, ops, k, e);
    }
    SameCounts(multiset(Sub(key, w, k)), multiset(Sub(key, ops, k)));
  }

  lemma SubIn<I, O, K>(key: I -> K, w: seq<Operation<I, O>>, k: K, e: Operation<I, O>)
    requires e in Sub(key, w, k)
    ensures e in w && key(e.input) == k
  {
    SubCount(key, w, k, e);
    assert multiset(Sub(key, w, k))[e] > 0;
  }

  lemma {:induction false} SubRealTime<I, O, K>(key: I -> K, w: seq<Operation<I, O>>, k: K)
    requires RealTime(w)
    ensures RealTime(Sub(key, w, k))
  {
    if w != [] {
      var w', last := w[..|w| - 1], w[|w| - 1];
      SubRealTime(key, w', k);
      forall i | 0 <= i < |Sub(key, w', k)| ensures !(last.ret < Sub(key, w', k)[i].call) {
        SubIn(key, w', k, Sub(key, w', k)[i]);
      }
    }
  }

  /** A run of the store is a run on each key. */
  lemma {:induction false} ProductRun<S, I, O, K>(m: Model<S, I, O>, key: I -> K, w: seq<Operation<I, O>>, k: K)
    ensures At(m, StateAfter(Product(m, key), w), k) == StateAfter(m, Sub(key, w, k))
    ensures Replays(Product(m, key), w) ==> Replays(m, Sub(key, w, k))
  {
    if w != [] {
      var w', last := w[..|w| - 1], w[|w| - 1];
      ProductRun(m, key, w', k);
      var v := Sub(key, w', k);
      if key(last.input) == k {
        assert Sub(key, w, k) == v + [last] && (v + [last])[..|v|] == v;
      } else {
        assert Sub(key, w, k) == v;
      }
    }
  }

  lemma ReplaysPrefix<S, I, O, K>(m: Model<S, I, O>, key: I -> K, w: seq<Operation<I, O>>, k: K)
    requires w != [] && Replays(m, Sub(key, w, k))
    ensures Replays(m, Sub(key, w[..|w| - 1], k))
  {
    var v, last := Sub(key, w[..|w| - 1], k), w[|w| - 1];
    if key(last.input) == k {
      assert Sub(key, w, k) == v + [last] && (v + [last])[..|v|] == v;
    } else {
      assert Sub(key, w, k) == v;
    }
  }

  /** And runs on each key make a run of the store. */
  lemma {:induction false} RunProduct<S, I, O, K(!new)>(m: Model<S, I, O>, key: I -> K, w: seq<Operation<I, O>>)
    requires forall k :: Replays(m, Sub(key, w, k))
    ensures Replays(Product(m, key), w)
  {
    if w != [] {
      var w', last := w[..|w| - 1], w[|w| - 1];
      forall k ensures Replays(m, Sub(key, w', k)) { ReplaysPrefix(m, key, w, k); }
      RunProduct(m, key, w');
      var k := key(last.input);
      ProductRun(m, key, w', k);
      var v := Sub(key, w', k);
      assert Sub(key, w, k) == v + [last] && (v + [last])[..|v|] == v;
    }
  }

  // ---- Weaving one linearization per key into one of the whole history

  /** An operation with the instant at which it takes effect. */
  datatype Stamped<+I, +O> = Stamped(op: Operation<I, O>, at: int)

  ghost function Ops<I, O>(s: seq<Stamped<I, O>>): (w: seq<Operation<I, O>>)
    ensures |w| == |s|
  {
    seq(|s|, i requires 0 <= i < |s| => s[i].op)
  }

  /** Instants in order, each between its operation's call and return. */
  ghost predicate Paced<I, O>(s: seq<Stamped<I, O>>) {
    && (forall i, j :: 0 <= i < j < |s| ==> s[i].at <= s[j].at)
    && (forall i :: 0 <= i < |s| ==> s[i].op.call <= s[i].at <= s[i].op.ret)
  }

  lemma PacedRealTime<I, O>(s: seq<Stamped<I, O>>)
    requires Paced(s)
    ensures RealTime(Ops(s))
  {
  }

  /** The latest call among the operations of `w`. */
  ghost function Latest<I, O>(w: seq<Operation<I, O>>): int
    requires w != []
  {
    var last := w[|w| - 1].call;
    if |w| == 1 then last
    else
      var before := Latest(w[..|w| - 1]);
      if before < last then last else before
  }

  lemma {:induction false} LatestAtMost<I, O>(w: seq<Operation<I, O>>, bound: int)
    requires w != [] && forall j :: 0 <= j < |w| ==> w[j].call <= bound
    ensures Latest(w) <= bound
  {
    if |w| > 1 { LatestAtMost(w[..|w| - 1], bound); }
  }

  lemma {:induction false} LatestGrows<I, O>(w: seq<Operation<I, O>>, i: int, j: int)
    requires 0 < i <= j <= |w|
    ensures Latest(w[..i]) <= Latest(w[..j])
    decreases j - i
  {
    if i < j {
      LatestGrows(w, i, j - 1);
      assert w[..j][..j - 1] == w[..j - 1];
    }
  }

  /** Each operation takes effect at the latest call so far. */
  lemma Stamp<I, O>(w: seq<Operation<I, O>>) returns (s: seq<Stamped<I, O>>)
    requires RealTime(w) && Timely(w)
    ensures Paced(s) && Ops(s) == w
  {
    s := seq(|w|, i requires 0 <= i < |w| => Stamped(w[i], Latest(w[..i + 1])));
    forall i, j | 0 <= i < j < |s| ensures s[i].at <= s[j].at { LatestGrows(w, i + 1, j + 1); }
    forall i | 0 <= i < |s| ensures s[i].op.call <= s[i].at <= s[i].op.ret {
      var v := w[..i + 1];
      assert forall j :: 0 <= j < |v| ==> v[j].call <= w[i].ret;
      LatestAtMost(v, w[i].ret);
    }
  }

  ghost function Merge<I, O>(a: seq<Stamped<I, O>>, b: seq<Stamped<I, O>>): seq<Stamped<I, O>>
    decreases |a| + |b|
  {
    if a == [] then b
    else if b == [] then a
    else
      var x, y := a[|a| - 1], b[|b| - 1];
      if x.at > y.at then Merge(a[..|a| - 1], b) + [x] else Merge(a, b[..|b| - 1]) + [y]
  }

  lemma {:induction false} MergeIn<I, O>(a: seq<Stamped<I, O>>, b: seq<Stamped<I, O>>, x: Stamped<I, O>)
    requires x in Merge(a, b)
    ensures x in a || x in b
    decreases |a| + |b|
  {
    if a != [] && b != [] {
      var l, r := a[|a| - 1], b[|b| - 1];
      if l.at > r.at {
        if x != l { MergeIn(a[..|a| - 1], b, x); }
      } else {
        if x != r { MergeIn(a, b[..|b| - 1], x); }
      }
    }
  }

  lemma PacedSnoc<I, O>(s: seq<Stamped<I, O>>, x: Stamped<I, O>)
    requires Paced(s) && x.op.call <= x.at <= x.op.ret && forall i :: 0 <= i < |s| ==> s[i].at <= x.at
    ensures Paced(s + [x])
  {
  }

  lemma {:induction false} MergePaced<I, O>(a: seq<Stamped<I, O>>, b: seq<Stamped<I, O>>)
    requires Paced(a) && Paced(b)
    ensures Paced(Merge(a, b))
    decreases |a| + |b|
  {
    if a != [] && b != [] {
      var x, y := a[|a| - 1], b[|b| - 1];
      var a', b' := a[..|a| - 1], b[..|b| - 1];
      if x.at > y.at {
        MergePaced(a', b);
        forall i | 0 <= i < |Merge(a', b)| ensures Merge(a', b)[i].at <= x.at { MergeIn(a', b, Merge(a', b)[i]); }
        PacedSnoc(Merge(a', b), x);
      } else {
        MergePaced(a, b');
        forall i | 0 <= i < |Merge(a, b')| ensures Merge(a, b')[i].at <= y.at { MergeIn(a, b', Merge(a, b')[i]); }
        PacedSnoc(Merge(a, b'), y);
      }
    }
  }

  ghost predicate Free<I, O, K>(key: I -> K, s: seq<Stamped<I, O>>, k: K) {
    forall i :: 0 <= i < |s| ==> key(s[i].op.input) != k
  }

  lemma OpsSnoc<I, O>(s: seq<Stamped<I, O>>, x: Stamped<I, O>)
    ensures Ops(s + [x]) == Ops(s) + [x.op] && Ops(s + [x])[..|s|] == Ops(s)
  {
  }

  lemma {:induction false} SubFree<I, O, K>(key: I -> K, s: seq<Stamped<I, O>>, k: K)
    requires Free(key, s, k)
    ensures Sub(key, Ops(s), k) == []
  {
    if s != [] {
      var s', x := s[..|s| - 1], s[|s| - 1];
      SubFree(key, s', k);
      assert s == s' + [x];
      OpsSnoc(s', x);
    }
  }

  /** Merging in operations on other keys leaves the operations on `k` as they were. */
  lemma {:induction false} MergeSubRight<I, O, K>(key: I -> K, a: seq<Stamped<I, O>>, b: seq<Stamped<I, O>>, k: K)
    requires Free(key, a, k)
    ensures Sub(key, Ops(Merge(a, b)), k) == Sub(key, Ops(b), k)
    decreases |a| + |b|
  {
    if b == [] {
      SubFree(key, a, k);
    } else if a != [] {
      var x, y := a[|a| - 1], b[|b| - 1];
      var a', b' := a[..|a| - 1], b[..|b| - 1];
      if x.at > y.at {
        MergeSubRight(key, a', b, k);
        OpsSnoc(Merge(a', b), x);
      } else {
        MergeSubRight(key, a, b', k);
        OpsSnoc(Merge(a, b'), y);
        assert b == b' + [y];
        OpsSnoc(b', y);
      }
    }
  }

  lemma {:induction false} MergeSubLeft<I, O, K>(key: I -> K, a: seq<Stamped<I, O>>, b: seq<Stamped<I, O>>, k: K)
    requires Free(key, b, k)
    ensures Sub(key, Ops(Merge(a, b)), k) == Sub(key, Ops(a), k)
    decreases |a| + |b|
  {
    if a == [] {
      SubFree(key, b, k);
    } else if b != [] {
      var x, y := a[|a| - 1], b[|b| - 1];
      var a', b' := a[..|a| - 1], b[..|b| - 1];
      if x.at > y.at {
        MergeSubLeft(key, a', b, k);
        OpsSnoc(Merge(a', b), x);
        assert a == a' + [x];
        OpsSnoc(a', x);
      } else {
        MergeSubLeft(key, a, b', k);
        OpsSnoc(Merge(a, b'), y);
      }
    }
  }

  ghost function KeysOf<I, O, K>(key: I -> K, ops: seq<Operation<I, O>>): set<K> {
    set i | 0 <= i < |ops| :: key(ops[i].input)
  }

  /** `s` is a linearization on each key of `ks`, and has no other operations. */
  ghost predicate Woven<S, I, O, K(!new)>(m: Model<S, I, O>, key: I -> K, ops: seq<Operation<I, O>>, ks: set<K>,
        s: seq<Stamped<I, O>>) {
    && Paced(s)
    && (forall k :: k in ks ==> IsLinearization(m, Sub(key, ops, k), Sub(key, Ops(s), k)))
    && (forall k :: k !in ks ==> Free(key, s, k))
  }

  lemma WeaveOne<S, I, O, K(!new)>(m: Model<S, I, O>, key: I -> K, ops: seq<Operation<I, O>>, ks: set<K>, k: K,
        s: seq<Stamped<I, O>>, v: seq<Operation<I, O>>) returns (s': seq<Stamped<I, O>>)
    requires k !in ks && Woven(m, key, ops, ks, s)
    requires Timely(ops) && IsLinearization(m, Sub(key, ops, k), v)
    ensures Woven(m, key, ops, ks + {k}, s')
  {
    forall i | 0 <= i < |v| ensures v[i] in ops && key(v[i].input) == k {
      assert v[i] in multiset(v);
      SubIn(key, ops, k, v[i]);
    }
    var t := Stamp(v);
    assert forall i :: 0 <= i < |t| ==> t[i].op == Ops(t)[i] == v[i];
    s' := Merge(s, t);
    MergePaced(s, t);
    forall j | j in ks + {k} ensures IsLinearization(m, Sub(key, ops, j), Sub(key, Ops(s'), j)) {
      if j == k {
        MergeSubRight(key, s, t, k);
        SubAll(key, v, k);
      } else {
        MergeSubLeft(key, s, t, j);
      }
    }
    forall j | j !in ks + {k} ensures Free(key, s', j) {
      forall i | 0 <= i < |s'| ensures key(s'[i].op.input) != j { MergeIn(s, t, s'[i]); }
    }
  }

  lemma {:induction false} SubAll<I, O, K>(key: I -> K, w: seq<Operation<I, O>>, k: K)
    requires forall i :: 0 <= i < |w| ==> key(w[i].input) == k
    ensures Sub(key, w, k) == w
  {
    if w != [] {
      SubAll(key, w[..|w| - 1], k);
      assert w == w[..|w| - 1] + [w[|w| - 1]];
    }
  }

  lemma NothingWoven<S, I, O, K(!new)>(m: Model<S, I, O>, key: I -> K, ops: seq<Operation<I, O>>)
    ensures Woven(m, key, ops, {}, [])
  {
  }

  lemma {:induction false} Weave<S, I(!new), O(!new), K(!new)>(m: Model<S, I, O>, key: I -> K,
        ops: seq<Operation<I, O>>, ks: set<K>) returns (s: seq<Stamped<I, O>>)
    requires Timely(ops) && forall k :: k in ks ==> Linearizable(m, Sub(key, ops, k))
    ensures Woven(m, key, ops, ks, s)
    decreases |ks|
  {
    hide Woven, IsLinearization, Sub, Timely;
    if ks == {} {
      s := [];
      NothingWoven(m, key, ops);
    } else {
      var k := Pick(ks);
      var rest := Weave(m, key, ops, ks - {k});
      var v :| IsLinearization(m, Sub(key, ops, k), v);
      s := WeaveOne(m, key, ops, ks - {k}, k, rest, v);
      assert ks - {k} + {k} == ks;
    }
  }

  lemma WovenIsRearrangement<S, I(!new), O(!new), K(!new)>(m: Model<S, I, O>, key: I -> K, ops: seq<Operation<I, O>>,
        s: seq<Stamped<I, O>>)
    requires Woven(m, key, ops, KeysOf(key, ops), s)
    ensures multiset(Ops(s)) == multiset(ops)
  {
    forall e: Operation<I, O> ensures multiset(Ops(s))[e] == multiset(ops)[e] {
      var k := key(e.input);
      SubCount(key, Ops(s), k, e);
      SubCount(key, ops, k, e);
      if k !in KeysOf(key, ops) {
        SubFree(key, s, k);
        assert forall i :: 0 <= i < |ops| ==> key(ops[i].input) in KeysOf(key, ops);
      }
    }
    SameCounts(multiset(Ops(s)), multiset(ops));
  }

  /** For each key, the operations on it are linearizable. */
  ghost predicate EachKey<S, I(!new), O(!new), K(!new)>(m: Model<S, I, O>, key: I -> K, ops: seq<Operation<I, O>>) {
    forall k :: Linearizable(m, Sub(key, ops, k))
  }

  lemma Restrict<S, I(!new), O(!new), K(!new)>(m: Model<S, I, O>, key: I -> K, ops: seq<Operation<I, O>>,
        w: seq<Operation<I, O>>)
    requires IsLinearization(Product(m, key), ops, w)
    ensures EachKey(m, key, ops)
  {
    forall k ensures Linearizable(m, Sub(key, ops, k)) {
      SubMultiset(key, w, ops, k);
      SubRealTime(key, w, k);
      ProductRun(m, key, w, k);
      assert IsLinearization(m, Sub(key, ops, k), Sub(key, w, k));
    }
  }

  lemma Combine<S, I(!new), O(!new), K(!new)>(m: Model<S, I, O>, key: I -> K, ops: seq<Operation<I, O>>)
    returns (w: seq<Operation<I, O>>)
    requires Timely(ops) && EachKey(m, key, ops)
    ensures IsLinearization(Product(m, key), ops, w)
  {
    var s := Weave(m, key, ops, KeysOf(key, ops));
    WovenIsRearrangement(m, key, ops, s);
    PacedRealTime(s);
    w := Ops(s);
    forall k ensures Replays(m, Sub(key, w, k)) {
      if k !in KeysOf(key, ops) { SubFree(key, s, k); }
    }
    RunProduct(m, key, w);
  }

  /** Locality: a history is linearizable for the store of all keys exactly when, for each key,
      its operations on that key are linearizable for the one-key model. */
  lemma SplitByKey<S, I(!new), O(!new), K(!new)>(m: Model<S, I, O>, key: I -> K, ops: seq<Operation<I, O>>)
    requires Timely(ops)
    ensures Linearizable(Product(m, key), ops) <==> EachKey(m, key, ops)
  {
    if Linearizable(Product(m, key), ops) {
      var w :| IsLinearization(Product(m, key), ops, w);
      Restrict(m, key, ops, w);
    }
    if EachKey(m, key, ops) {
      var w := Combine(m, key, ops);
    }
  }
}
