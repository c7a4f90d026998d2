/** The key/value model of the lab tests: one key's value, split by key. */
module Kv {
  import opened Collections
  import opened Histories
  import opened Locality

  type uint8 = x: int | 0 <= x < 256

  datatype KvInput = KvInput(op: uint8, key: string, value: string)

  datatype KvOutput = KvOutput(value: string)

  type KvOperation = Operation<KvInput, KvOutput>

  /** 0 gets, 1 puts, anything else appends. */
  function Step(st: string, inp: KvInput, out: KvOutput): (bool, string) {
    if inp.op == 0 then (out.value == st, st)
    else if inp.op == 1 then (true, inp.value)
    else (true, st + inp.value)
  }

  function KvModel(): Model<string, KvInput, KvOutput> {
    Model("", Step, (s: string, t: string) => s == t)
  }

  function KeyOf(inp: KvInput): string { inp.key }

  lemma KvRespectful()
    ensures Respectful(KvModel())
  {
  }

  /** The store the clients see: a map from keys to values in which an absent key reads as the
      empty string. */
  function Lookup(store: map<string, string>, key: string): string {
    if key in store then store[key] else ""
  }

  function StoreStep(store: map<string, string>, inp: KvInput, out: KvOutput): (bool, map<string, string>) {
    if inp.op == 0 then (out.value == Lookup(store, inp.key), store)
    else if inp.op == 1 then (true, store[inp.key := inp.value])
    else (true, store[inp.key := Lookup(store, inp.key) + inp.value])
  }

  function KvStore(): Model<map<string, string>, KvInput, KvOutput> {
    Model(map[], StoreStep, (s: map<string, string>, t: map<string, string>) => s == t)
  }

  // ---- What a get reads, from the operations alone

  predicate IsPut(op: KvOperation, key: string) { op.input.key == key && op.input.op == 1 }

  predicate IsAppend(op: KvOperation, key: string) { op.input.key == key && op.input.op != 0 && op.input.op != 1 }

  /** The position of the last put on `key` before position `j`, or -1. */
  ghost function LastPut(w: seq<KvOperation>, key: string, j: int): (p: int)
    requires 0 <= j <= |w|
    ensures -1 <= p < j && (0 <= p ==> IsPut(w[p], key)) && forall i :: p < i < j ==> !IsPut(w[i], key)
  {
    if j == 0 then -1 else if IsPut(w[j - 1], key) then j - 1 else LastPut(w, key, j - 1)
  }

  /** The values of the appends on `key` at positions `from` to `to - 1`, one after another. */
  ghost function Appends(w: seq<KvOperation>, key: string, from: int, to: int): string
    requires 0 <= from <= to <= |w|
  {
    if from == to then ""
    else Appends(w, key, from, to - 1) + if IsAppend(w[to - 1], key) then w[to - 1].input.value else ""
  }

  /** The value of the last put, if any, followed by the appends after it. */
  ghost function ValueAt(w: seq<KvOperation>, key: string, j: int): string
    requires 0 <= j <= |w|
  {
    var p := LastPut(w, key, j);
    (if p < 0 then "" else w[p].input.value) + Appends(w, key, p + 1, j)
  }

  lemma ValueGrows(w: seq<KvOperation>, key: string, j: int)
    requires 0 < j <= |w|
    ensures ValueAt(w, key, j) ==
      if IsPut(w[j - 1], key) then w[j - 1].input.value
      else if IsAppend(w[j - 1], key) then ValueAt(w, key, j - 1) + w[j - 1].input.value
      else ValueAt(w, key, j - 1)
  {
    var p := LastPut(w, key, j);
    var base := if p < 0 then "" else w[p].input.value;
    if p == j - 1 {
      assert Appends(w, key, j, j) == "" && base + "" == base;
    } else {
      assert p == LastPut(w, key, j - 1);
      var before := Appends(w, key, p + 1, j - 1);
      var added := if IsAppend(w[j - 1], key) then w[j - 1].input.value else "";
      hide Appends, LastPut;
      assert Appends(w, key, p + 1, j) == before + added by { AppendsGrow(w, key, p + 1, j); }
      assert base + (before + added) == base + before + added;
    }
  }

  lemma AppendsGrow(w: seq<KvOperation>, key: string, from: int, to: int)
    requires 0 <= from < to <= |w|
    ensures Appends(w, key, from, to) ==
      Appends(w, key, from, to - 1) + if IsAppend(w[to - 1], key) then w[to - 1].input.value else ""
  {
  }

  lemma StoreLookup(s: map<string, string>, op: KvOperation, key: string)
    ensures Lookup(StoreStep(s, op.input, op.output).1, key) ==
      if IsPut(op, key) then op.input.value
      else if IsAppend(op, key) then Lookup(s, key) + op.input.value
      else Lookup(s, key)
  {
  }

  lemma StoreAfter(w: seq<KvOperation>, j: int)
    requires 0 < j <= |w|
    ensures StateAfter(KvStore(), w[..j]) ==
      StoreStep(StateAfter(KvStore(), w[..j - 1]), w[j - 1].input, w[j - 1].output).1
  {
    assert w[..j][..j - 1] == w[..j - 1] && w[..j][j - 1] == w[j - 1];
    var s := StateAfter(KvStore(), w[..j - 1]);
    assert KvStore().step(s, w[j - 1].input, w[j - 1].output) == StoreStep(s, w[j - 1].input, w[j - 1].output);
  }

  lemma {:induction false} StoreHolds(w: seq<KvOperation>, j: int, key: string)
    requires 0 <= j <= |w|
    ensures Lookup(StateAfter(KvStore(), w[..j]), key) == ValueAt(w, key, j)
    decreases j
  {
    if j > 0 {
      hide StateAfter, ValueAt, Lookup, StoreStep;
      StoreHolds(w, j - 1, key);
      ValueGrows(w, key, j);
      StoreAfter(w, j);
      StoreLookup(StateAfter(KvStore(), w[..j - 1]), w[j - 1], key);
    }
  }

  ghost predicate GetReads(w: seq<KvOperation>, j: int)
    requires 0 <= j < |w|
  {
    w[j].input.op == 0 ==> w[j].output.value == ValueAt(w, w[j].input.key, j)
  }

  lemma {:induction false} PrefixReads(w: seq<KvOperation>, n: int)
    requires 0 <= n <= |w|
    ensures Replays(KvStore(), w[..n]) <==> forall j :: 0 <= j < n ==> GetReads(w, j)
    decreases n
  {
    if n > 0 {
      PrefixReads(w, n - 1);
      StoreHolds(w, n - 1, w[n - 1].input.key);
      assert w[..n][..n - 1] == w[..n - 1] && w[..n][n - 1] == w[n - 1];
      var s := StateAfter(KvStore(), w[..n - 1]);
      assert KvStore().step(s, w[n - 1].input, w[n - 1].output) == StoreStep(s, w[n - 1].input, w[n - 1].output);
      assert Replays(KvStore(), w[..n]) <==> Replays(KvStore(), w[..n - 1]) && GetReads(w, n - 1);
    }
  }

  /** A sequence of operations is a legal run of the store exactly when each get returns the value of
      the last put on its key, or nothing, followed by the values of the appends since. */
  lemma GetsReadWhatWasWritten(w: seq<KvOperation>)
    ensures Replays(KvStore(), w) <==> forall j :: 0 <= j < |w| ==> GetReads(w, j)
  {
    PrefixReads(w, |w|);
    assert w[..|w|] == w;
  }

  /** The store and the product of one-key models agree on every key throughout a run. */
  ghost predicate Agree(s: map<string, string>, t: map<string, string>) {
    forall k :: Lookup(s, k) == At(KvModel(), t, k)
  }

  lemma StoreStepAgrees(s: map<string, string>, t: map<string, string>, i: KvInput, o: KvOutput)
    requires Agree(s, t)
    ensures KvStore().step(s, i, o).0 == Product(KvModel(), KeyOf).step(t, i, o).0
    ensures Agree(KvStore().step(s, i, o).1, Product(KvModel(), KeyOf).step(t, i, o).1)
  {
    var v := At(KvModel(), t, i.key);
    assert Lookup(s, i.key) == v;
    assert KvStore().step(s, i, o) == StoreStep(s, i, o);
    assert KvModel().step(v, i, o) == Step(v, i, o);
    assert Product(KvModel(), KeyOf).step(t, i, o) == (Step(v, i, o).0, t[i.key := Step(v, i, o).1]);
    forall k ensures Lookup(StoreStep(s, i, o).1, k) == At(KvModel(), t[i.key := Step(v, i, o).1], k) {
      assert Lookup(s, k) == At(KvModel(), t, k);
    }
  }

  lemma {:induction false} StoreRun(w: seq<KvOperation>)
    ensures Agree(StateAfter(KvStore(), w), StateAfter(Product(KvModel(), KeyOf), w))
    ensures Replays(KvStore(), w) <==> Replays(Product(KvModel(), KeyOf), w)
  {
    if w != [] {
      var w', last := w[..|w| - 1], w[|w| - 1];
      StoreRun(w');
      StoreStepAgrees(StateAfter(KvStore(), w'), StateAfter(Product(KvModel(), KeyOf), w'), last.input, last.output);
    }
  }

  /** The whole store is linearizable exactly when every key is. */
  lemma KvLocality(ops: seq<KvOperation>)
    requires Timely(ops)
    ensures Linearizable(KvStore(), ops) <==> EachKey(KvModel(), KeyOf, ops)
  {
    SplitByKey(KvModel(), KeyOf, ops);
    var product := Product(KvModel(), KeyOf);
    if Linearizable(KvStore(), ops) {
      var w :| IsLinearization(KvStore(), ops, w);
      StoreRun(w);
      assert IsLinearization(product, ops, w);
    }
    if Linearizable(product, ops) {
      var w :| IsLinearization(product, ops, w);
      StoreRun(w);
      assert IsLinearization(KvStore(), ops, w);
    }
  }

  /** `parts` are the operations on each key of the history, one part for each key in sorted order. */
  ghost predicate Partitions(history: seq<KvOperation>, keys: seq<string>, parts: seq<seq<KvOperation>>) {
    && |parts| == |keys| && Distinct(keys) && SortedStrings(keys)
    && (forall k :: k in keys <==> k in KeysOf(KeyOf, history))
    && (forall i :: 0 <= i < |keys| ==> parts[i] == Sub(KeyOf, history, keys[i]))
  }

  /** `m` groups the operations of `ops` by key. */
  ghost predicate Groups(ops: seq<KvOperation>, m: map<string, seq<KvOperation>>) {
    && m.Keys == KeysOf(KeyOf, ops)
    && (forall k :: k in m ==> m[k] == Sub(KeyOf, ops, k))
    && (forall k :: k !in m ==> Sub(KeyOf, ops, k) == [])
  }

  method GroupByKey(history: seq<KvOperation>) returns (m: map<string, seq<KvOperation>>)
    ensures Groups(history, m)
  {
    m := map[];
    for i := 0 to |history|
      invariant Groups(history[..i], m)
    {
      var v := history[i];
      var key := v.input.key;
      PartitionStep(history, i);
      m := m[key := (if key in m then m[key] else []) + [v]];
    }
    assert history[..|history|] == history;
  }

  method Partition(history: seq<KvOperation>, sortStrings: seq<string> -> seq<string>)
    returns (ret: seq<seq<KvOperation>>, keys: seq<string>)
    requires forall s :: SortsStrings(sortStrings(s), s)
    ensures Partitions(history, keys, ret)
  {
    var m := GroupByKey(history);
    var unsorted := KeysIn(m);
    keys := sortStrings(unsorted);
    SortedKeys(unsorted, keys);
    ret := [];
    for i := 0 to |keys|
      invariant |ret| == i && forall j :: 0 <= j < i ==> ret[j] == Sub(KeyOf, history, keys[j])
    {
      ret := ret + [m[keys[i]]];
    }
  }

  lemma PartitionStep(history: seq<KvOperation>, i: int)
    requires 0 <= i < |history|
    ensures KeysOf(KeyOf, history[..i + 1]) == KeysOf(KeyOf, history[..i]) + {history[i].input.key}
    ensures forall k ::
      Sub(KeyOf, history[..i + 1], k) ==
      Sub(KeyOf, history[..i], k) + if history[i].input.key == k then [history[i]] else []
  {
    var h, h' := history[..i], history[..i + 1];
    assert h'[..i] == h && h'[i] == history[i];
    forall k ensures k in KeysOf(KeyOf, h') <==> k in KeysOf(KeyOf, h) + {history[i].input.key} {
      if k in KeysOf(KeyOf, h) {
        var j :| 0 <= j < |h| && KeyOf(h[j].input) == k;
        assert h'[j] == h[j];
      }
    }
  }

  lemma SortedKeys(keys: seq<string>, sorted: seq<string>)
    requires Distinct(keys) && multiset(sorted) == multiset(keys)
    ensures Distinct(sorted) && forall k :: k in sorted <==> k in keys
  {
    forall i, j | 0 <= i < j < |sorted| ensures sorted[i] != sorted[j] {
      DistinctCount(keys, sorted[i]);
      if sorted[i] == sorted[j] { TwiceCounted(sorted, i, j); }
    }
    forall k ensures k in sorted <==> k in keys {
      assert k in sorted <==> k in multiset(sorted);
      assert k in keys <==> k in multiset(keys);
    }
  }
}
