/** What a MapReduce job computes: the pairs the map function emits, the buckets they fall
    into, and the output lines. */
module Jobs {
  import opened Collections

  datatype KeyValue = KeyValue(key: string, value: string)

  type Positive = x: int | x > 0 witness 1

  /** A job: the input files with their contents, the application's functions, the key hash and
      the number of reduce tasks. */
  datatype Job = Job(
    files: seq<string>,
    contents: string -> string,
    mapf: (string, string) -> seq<KeyValue>,
    reducef: (string, seq<string>) -> string,
    ihash: string -> nat,
    nReduce: Positive)

  /** The premise: the reduce function does not depend on the order of the values it is given. */
  ghost predicate Proper(job: Job) {
    forall k, vs, ws :: multiset(vs) == multiset(ws) ==> job.reducef(k, vs) == job.reducef(k, ws)
  }

  function Emitted(job: Job, i: int): seq<KeyValue>
    requires 0 <= i < |job.files|
  {
    job.mapf(job.files[i], job.contents(job.files[i]))
  }

  function BucketOf(job: Job, key: string): int {
    job.ihash(key) % job.nReduce
  }

  /** The pairs of `kvs` for reduce task `r`, in order. */
  function InBucket(job: Job, kvs: seq<KeyValue>, r: int): seq<KeyValue> {
    if kvs == [] then []
    else
      var last := kvs[|kvs| - 1];
      InBucket(job, kvs[..|kvs| - 1], r) + if BucketOf(job, last.key) == r then [last] else []
  }

  /** The pairs of the first `n` input files, in order. */
  function Pairs(job: Job, n: int): seq<KeyValue>
    requires 0 <= n <= |job.files|
  {
    if n == 0 then [] else Pairs(job, n - 1) + Emitted(job, n - 1)
  }

  /** The pairs of the first `n` input files for reduce task `r`, in order. */
  function BucketPairs(job: Job, r: int, n: int): seq<KeyValue>
    requires 0 <= n <= |job.files|
  {
    if n == 0 then [] else BucketPairs(job, r, n - 1) + InBucket(job, Emitted(job, n - 1), r)
  }

  /** The values of key `k`, in order. */
  function ValuesOf(kvs: seq<KeyValue>, k: string): seq<string> {
    if kvs == [] then []
    else
      var last := kvs[|kvs| - 1];
      ValuesOf(kvs[..|kvs| - 1], k) + if last.key == k then [last.value] else []
  }

  ghost predicate HasKey(kvs: seq<KeyValue>, k: string) {
    exists i :: 0 <= i < |kvs| && kvs[i].key == k
  }

  function Line(job: Job, k: string, values: seq<string>): string {
    k + " " + job.reducef(k, values) + "\n"
  }

  /** `ks` lists each key of `kvs` once. */
  ghost predicate ListsKeys(kvs: seq<KeyValue>, ks: seq<string>) {
    Distinct(ks) && forall k :: k in ks <==> HasKey(kvs, k)
  }

  /** One line for each key of `ks`, with the values of `kvs`. */
  ghost function LinesFor(job: Job, kvs: seq<KeyValue>, ks: seq<string>): (r: seq<string>)
    ensures |r| == |ks|
  {
    seq(|ks|, i requires 0 <= i < |ks| => Line(job, ks[i], ValuesOf(kvs, ks[i])))
  }

  /** `out` has one line for each key of `kvs`, in some order. */
  ghost predicate Output(job: Job, kvs: seq<KeyValue>, out: seq<string>) {
    exists ks :: ListsKeys(kvs, ks) && out == LinesFor(job, kvs, ks)
  }

  // ---- What an output says, from the map and reduce functions alone

  /** How often the map function emits `kv` for the first `n` files. */
  ghost function Emissions(job: Job, n: int, kv: KeyValue): nat
    requires 0 <= n <= |job.files|
  {
    if n == 0 then 0
    else Emissions(job, n - 1, kv) + multiset(job.mapf(job.files[n - 1], job.contents(job.files[n - 1])))[kv]
  }

  ghost predicate EmitsKey(job: Job, n: int, k: string)
    requires 0 <= n <= |job.files|
  {
    exists v :: Emissions(job, n, KeyValue(k, v)) > 0
  }

  /** `line` is for key `k`, with all the values emitted for it. */
  ghost predicate ReportsKey(job: Job, k: string, line: string) {
    exists vs ::
      && (forall v :: multiset(vs)[v] == Emissions(job, |job.files|, KeyValue(k, v)))
      && line == k + " " + job.reducef(k, vs) + "\n"
  }

  /** One line for each key that is emitted, in the order of `ks`. */
  ghost predicate ReportsKeys(job: Job, ks: seq<string>, out: seq<string>) {
    && Distinct(ks) && (forall k :: k in ks <==> EmitsKey(job, |job.files|, k))
    && |out| == |ks| && forall i :: 0 <= i < |ks| ==> ReportsKey(job, ks[i], out[i])
  }

  lemma {:induction false} ValuesCount(kvs: seq<KeyValue>, k: string, v: string)
    ensures multiset(ValuesOf(kvs, k))[v] == multiset(kvs)[KeyValue(k, v)]
  {
    if kvs != [] {
      var rest, last := kvs[..|kvs| - 1], kvs[|kvs| - 1];
      ValuesCount(rest, k, v);
      assert kvs == rest + [last];
    }
  }

  lemma {:induction false} EmissionsAre(job: Job, n: int, kv: KeyValue)
    requires 0 <= n <= |job.files|
    ensures Emissions(job, n, kv) == multiset(Pairs(job, n))[kv]
  {
    if n > 0 { EmissionsAre(job, n - 1, kv); }
  }

  lemma KeysAre(job: Job, k: string)
    ensures HasKey(Pairs(job, |job.files|), k) <==> EmitsKey(job, |job.files|, k)
  {
    var kvs := Pairs(job, |job.files|);
    if i :| 0 <= i < |kvs| && kvs[i].key == k {
      EmissionsAre(job, |job.files|, kvs[i]);
      assert kvs[i] in multiset(kvs) && kvs[i] == KeyValue(k, kvs[i].value);
    }
    if v :| Emissions(job, |job.files|, KeyValue(k, v)) > 0 {
      EmissionsAre(job, |job.files|, KeyValue(k, v));
      var i := IndexOf(kvs, KeyValue(k, v));
    }
  }

  lemma LineReports(job: Job, k: string)
    ensures ReportsKey(job, k, Line(job, k, ValuesOf(Pairs(job, |job.files|), k)))
  {
    var vs := ValuesOf(Pairs(job, |job.files|), k);
    forall v ensures multiset(vs)[v] == Emissions(job, |job.files|, KeyValue(k, v)) {
      ValuesCount(Pairs(job, |job.files|), k, v);
      EmissionsAre(job, |job.files|, KeyValue(k, v));
    }
  }

  /** An output of the job has exactly one line for each key that the map function emits, made by the
      reduce function from all the values emitted for that key. */
  lemma OutputReports(job: Job, ks: seq<string>)
    requires ListsKeys(Pairs(job, |job.files|), ks)
    ensures ReportsKeys(job, ks, LinesFor(job, Pairs(job, |job.files|), ks))
  {
    hide Pairs, HasKey, EmitsKey, ReportsKey, ValuesOf;
    forall k ensures k in ks <==> EmitsKey(job, |job.files|, k) { KeysAre(job, k); }
    forall i | 0 <= i < |ks| ensures ReportsKey(job, ks[i], LinesFor(job, Pairs(job, |job.files|), ks)[i]) {
      LineReports(job, ks[i]);
    }
  }

  // ---- Concatenation

  lemma {:induction false} ValuesOfConcat(a: seq<KeyValue>, b: seq<KeyValue>, k: string)
    ensures ValuesOf(a + b, k) == ValuesOf(a, k) + ValuesOf(b, k)
  {
    if b == [] {
      assert a + b == a;
    } else {
      assert (a + b)[..|a + b| - 1] == a + b[..|b| - 1];
      ValuesOfConcat(a, b[..|b| - 1], k);
    }
  }

  lemma {:induction false} ValuesOfNone(kvs: seq<KeyValue>, k: string)
    requires !HasKey(kvs, k)
    ensures ValuesOf(kvs, k) == []
  {
    if kvs != [] {
      var rest := kvs[..|kvs| - 1];
      assert forall i :: 0 <= i < |rest| ==> rest[i] == kvs[i];
      ValuesOfNone(rest, k);
      assert kvs[|kvs| - 1].key != k;
    }
  }

  lemma HasKeyConcat(a: seq<KeyValue>, b: seq<KeyValue>, k: string)
    ensures HasKey(a + b, k) <==> HasKey(a, k) || HasKey(b, k)
  {
    var ab := a + b;
    if i :| 0 <= i < |a| && a[i].key == k { assert ab[i].key == k; }
    if i :| 0 <= i < |b| && b[i].key == k { assert ab[|a| + i].key == k; }
    if i :| 0 <= i < |ab| && ab[i].key == k {
      if i < |a| { assert a[i].key == k; } else { assert b[i - |a|].key == k; }
    }
  }

  lemma {:induction false} InBucketCount(job: Job, kvs: seq<KeyValue>, r: int, kv: KeyValue)
    ensures multiset(InBucket(job, kvs, r))[kv] == if job.ihash(kv.key) % job.nReduce == r then multiset(kvs)[kv] else 0
  {
    if kvs != [] {
      InBucketCount(job, kvs[..|kvs| - 1], r, kv);
      assert kvs == kvs[..|kvs| - 1] + [kvs[|kvs| - 1]];
    }
  }

  lemma {:induction false} InBucketFacts(job: Job, kvs: seq<KeyValue>, r: int, k: string)
    ensures HasKey(InBucket(job, kvs, r), k) <==> HasKey(kvs, k) && BucketOf(job, k) == r
    ensures BucketOf(job, k) == r ==> ValuesOf(InBucket(job, kvs, r), k) == ValuesOf(kvs, k)
  {
    if kvs != [] {
      var rest, last := kvs[..|kvs| - 1], kvs[|kvs| - 1];
      InBucketFacts(job, rest, r, k);
      assert kvs == rest + [last];
      HasKeyConcat(rest, [last], k);
      var kept := if BucketOf(job, last.key) == r then [last] else [];
      HasKeyConcat(InBucket(job, rest, r), kept, k);
      ValuesOfConcat(InBucket(job, rest, r), kept, k);
    }
  }

  /** A reduce task sees, for each of its keys, exactly the values the whole job emitted for it. */
  lemma {:induction false} BucketPairsFacts(job: Job, r: int, n: int, k: string)
    requires 0 <= n <= |job.files|
    ensures HasKey(BucketPairs(job, r, n), k) <==> HasKey(Pairs(job, n), k) && BucketOf(job, k) == r
    ensures BucketOf(job, k) == r ==> ValuesOf(BucketPairs(job, r, n), k) == ValuesOf(Pairs(job, n), k)
  {
    if n > 0 {
      var e := Emitted(job, n - 1);
      BucketPairsFacts(job, r, n - 1, k);
      InBucketFacts(job, e, r, k);
      HasKeyConcat(Pairs(job, n - 1), e, k);
      HasKeyConcat(BucketPairs(job, r, n - 1), InBucket(job, e, r), k);
      ValuesOfConcat(Pairs(job, n - 1), e, k);
      ValuesOfConcat(BucketPairs(job, r, n - 1), InBucket(job, e, r), k);
    }
  }

  // ---- Outputs are determined up to order

  lemma LinesRearranged(job: Job, kvs: seq<KeyValue>, a: seq<string>, b: seq<string>)
    requires multiset(a) == multiset(b)
    ensures multiset(LinesFor(job, kvs, a)) == multiset(LinesFor(job, kvs, b))
  {
    var p := RearrangementIsPermutation(a, b);
    PermutationIsRearrangement(LinesFor(job, kvs, a), p);
    assert Select(LinesFor(job, kvs, a), p) == LinesFor(job, kvs, b);
  }

  /** Any two outputs for the same pairs have the same lines. */
  lemma OutputUnique(job: Job, kvs: seq<KeyValue>, a: seq<string>, b: seq<string>)
    requires Output(job, kvs, a) && Output(job, kvs, b)
    ensures multiset(a) == multiset(b)
  {
    var ks :| ListsKeys(kvs, ks) && a == LinesFor(job, kvs, ks);
    var ls :| ListsKeys(kvs, ls) && b == LinesFor(job, kvs, ls);
    SameElements(ks, ls);
    LinesRearranged(job, kvs, ks, ls);
  }

  /** The files mr-out-0 .. mr-out-(n-1) one after another. */
  ghost function Joined(outs: seq<seq<string>>): seq<string> {
    if outs == [] then [] else Joined(outs[..|outs| - 1]) + outs[|outs| - 1]
  }

  ghost predicate BucketBelow(job: Job, k: string, n: int) {
    BucketOf(job, k) < n
  }

  /** Seen from the whole job, the output of a bucket has the lines of the keys of the bucket. */
  lemma BucketLines(job: Job, r: int, ls: seq<string>)
    requires ListsKeys(BucketPairs(job, r, |job.files|), ls)
    ensures LinesFor(job, BucketPairs(job, r, |job.files|), ls) == LinesFor(job, Pairs(job, |job.files|), ls)
    ensures forall k :: k in ls <==> HasKey(Pairs(job, |job.files|), k) && BucketOf(job, k) == r
  {
    var pairs, all := BucketPairs(job, r, |job.files|), Pairs(job, |job.files|);
    hide BucketPairs, Pairs, HasKey, ValuesOf;
    forall k ensures k in ls <==> HasKey(all, k) && BucketOf(job, k) == r {
      BucketPairsFacts(job, r, |job.files|, k);
    }
    forall i | 0 <= i < |ls| ensures ValuesOf(pairs, ls[i]) == ValuesOf(all, ls[i]) {
      assert ls[i] in ls;
      BucketPairsFacts(job, r, |job.files|, ls[i]);
    }
  }

  lemma LinesConcat(job: Job, kvs: seq<KeyValue>, a: seq<string>, b: seq<string>)
    ensures LinesFor(job, kvs, a + b) == LinesFor(job, kvs, a) + LinesFor(job, kvs, b)
  {
  }

  lemma {:induction false} JoinedKeys(job: Job, outs: seq<seq<string>>, n: int) returns (ks: seq<string>)
    requires 0 <= n == |outs| <= job.nReduce
    requires forall r :: 0 <= r < n ==> Output(job, BucketPairs(job, r, |job.files|), outs[r])
    ensures Distinct(ks) && forall k :: k in ks <==> HasKey(Pairs(job, |job.files|), k) && BucketBelow(job, k, n)
    ensures Joined(outs) == LinesFor(job, Pairs(job, |job.files|), ks)
  {
    if n == 0 {
      ks := [];
    } else {
      assert Output(job, BucketPairs(job, n - 1, |job.files|), outs[n - 1]);
      var ls :| ListsKeys(BucketPairs(job, n - 1, |job.files|), ls) &&
        outs[n - 1] == LinesFor(job, BucketPairs(job, n - 1, |job.files|), ls);
      hide BucketPairs, Pairs, HasKey, LinesFor, Output;
      var prev := JoinedKeys(job, outs[..n - 1], n - 1);
      BucketLines(job, n - 1, ls);
      LinesConcat(job, Pairs(job, |job.files|), prev, ls);
      DistinctConcat(prev, ls);
      ks := prev + ls;
    }
  }

  /** The reduce outputs together are an output of the whole job. */
  lemma JoinedIsOutput(job: Job, outs: seq<seq<string>>)
    requires |outs| == job.nReduce
    requires forall r :: 0 <= r < job.nReduce ==> Output(job, BucketPairs(job, r, |job.files|), outs[r])
    ensures Output(job, Pairs(job, |job.files|), Joined(outs))
  {
    var ks := JoinedKeys(job, outs, job.nReduce);
    assert forall k :: BucketBelow(job, k, job.nReduce);
    assert ListsKeys(Pairs(job, |job.files|), ks);
  }
}

/** The sequential program: collect all pairs, sort them by key, scan runs of equal keys. */
module Sequential {
  import opened Collections
  import opened Jobs

  /** What sorting by key promises; pairs with the same key may come out in any order. */
  ghost predicate SortedByKey(s: seq<KeyValue>) {
    forall i, j :: 0 <= i < j < |s| ==> !StringLess(s[j].key, s[i].key)
  }

  ghost predicate SortsByKey(r: seq<KeyValue>, s: seq<KeyValue>) {
    multiset(r) == multiset(s) && SortedByKey(r)
  }

  /** Equal keys are neighbours. */
  lemma RunsAreWhole(s: seq<KeyValue>, i: int, j: int, k: int)
    requires SortedByKey(s) && 0 <= i <= j <= k < |s| && s[i].key == s[k].key
    ensures s[j].key == s[i].key
  {
    if i < j < k { LessTotal(s[i].key, s[j].key); }
  }

  /** Sorting changes the values of a key only in order, and no keys. */
  lemma SortedFacts(s: seq<KeyValue>, kvs: seq<KeyValue>, k: string)
    requires multiset(s) == multiset(kvs)
    ensures multiset(ValuesOf(s, k)) == multiset(ValuesOf(kvs, k))
    ensures HasKey(s, k) <==> HasKey(kvs, k)
  {
    forall v ensures multiset(ValuesOf(s, k))[v] == multiset(ValuesOf(kvs, k))[v] {
      ValuesCount(s, k, v);
      ValuesCount(kvs, k, v);
    }
    SameCounts(multiset(ValuesOf(s, k)), multiset(ValuesOf(kvs, k)));
    if HasKey(s, k) { KeyInMultiset(s, kvs, k); }
    if HasKey(kvs, k) { KeyInMultiset(kvs, s, k); }
  }

  lemma KeyInMultiset(s: seq<KeyValue>, kvs: seq<KeyValue>, k: string)
    requires multiset(s) == multiset(kvs) && HasKey(s, k)
    ensures HasKey(kvs, k)
  {
    var i :| 0 <= i < |s| && s[i].key == k;
    assert s[i] in multiset(kvs);
    var j := IndexOf(kvs, s[i]);
  }

  /** s[i..j] is a maximal run of equal keys. */
  ghost predicate IsRun(s: seq<KeyValue>, i: int, j: int) {
    && 0 <= i < j <= |s| && (forall k :: i <= k < j ==> s[k].key == s[i].key)
    && (i == 0 || s[i - 1].key != s[i].key) && (j == |s| || s[j].key != s[i].key)
  }

  lemma OutsideRun(s: seq<KeyValue>, i: int, j: int)
    requires SortedByKey(s) && IsRun(s, i, j)
    ensures !HasKey(s[..i], s[i].key) && !HasKey(s[j..], s[i].key)
  {
    var key := s[i].key;
    forall k | 0 <= k < i ensures s[k].key != key {
      if s[k].key == key { RunsAreWhole(s, k, i - 1, i); }
    }
    forall k | j <= k < |s| ensures s[k].key != key {
      if s[k].key == key { RunsAreWhole(s, i, j, k); }
    }
  }

  /** A run holds all the values of its key. */
  lemma RunHasAllValues(s: seq<KeyValue>, i: int, j: int)
    requires SortedByKey(s) && IsRun(s, i, j)
    ensures ValuesOf(s, s[i].key) == ValuesOf(s[i..j], s[i].key)
    ensures !HasKey(s[..i], s[i].key)
  {
    hide SortedByKey;
    var key := s[i].key;
    OutsideRun(s, i, j);
    hide HasKey;
    assert s == s[..i] + (s[i..j] + s[j..]);
    ValuesOfConcat(s[..i], s[i..j] + s[j..], key);
    ValuesOfConcat(s[i..j], s[j..], key);
    ValuesOfNone(s[..i], key);
    ValuesOfNone(s[j..], key);
  }

  method Collect(job: Job) returns (intermediate: seq<KeyValue>)
    ensures intermediate == Pairs(job, |job.files|)
  {
    intermediate := [];
    for n := 0 to |job.files|
      invariant intermediate == Pairs(job, n)
    {
      var filename := job.files[n];
      var kva := job.mapf(filename, job.contents(filename));
      intermediate := intermediate + kva;
    }
  }

  /** The end of the run of equal keys that starts at `i`. */
  method EndOfRun(s: seq<KeyValue>, i: int) returns (j: int)
    requires 0 <= i < |s|
    ensures i < j <= |s| && (forall k :: i <= k < j ==> s[k].key == s[i].key)
    ensures j == |s| || s[j].key != s[i].key
  {
    j := i + 1;
    while j < |s| && s[j].key == s[i].key
      invariant i < j <= |s| && forall k :: i <= k < j ==> s[k].key == s[i].key
    {
      j := j + 1;
    }
  }

  method ValuesBetween(s: seq<KeyValue>, i: int, j: int) returns (values: seq<string>)
    requires 0 <= i < j <= |s| && forall k :: i <= k < j ==> s[k].key == s[i].key
    ensures values == ValuesOf(s[i..j], s[i].key)
  {
    values := [];
    for k := i to j
      invariant values == ValuesOf(s[i..k], s[i].key)
    {
      assert s[i..k + 1][..k - i] == s[i..k] && s[i..k + 1][k - i] == s[k];
      values := values + [s[k].value];
    }
  }

  lemma ExtendKeys(s: seq<KeyValue>, i: int, j: int, ks: seq<string>)
    requires 0 <= i < j <= |s| && forall k :: i <= k < j ==> s[k].key == s[i].key
    requires ListsKeys(s[..i], ks) && !HasKey(s[..i], s[i].key)
    ensures ListsKeys(s[..j], ks + [s[i].key])
  {
    var key := s[i].key;
    assert s[..j] == s[..i] + s[i..j];
    forall k ensures k in ks + [key] <==> HasKey(s[..j], k) {
      HasKeyConcat(s[..i], s[i..j], k);
      if k == key { assert s[i..j][0].key == k; }
      if t :| 0 <= t < |s[i..j]| && s[i..j][t].key == k { assert s[i + t].key == k; }
    }
    assert forall t :: 0 <= t < |ks| ==> ks[t] in ks;
  }

  /** The line written for a run is the line of its key. */
  lemma RunLine(job: Job, all: seq<KeyValue>, s: seq<KeyValue>, i: int, j: int, ks: seq<string>)
    requires Proper(job) && SortsByKey(s, all) && IsRun(s, i, j) && ListsKeys(s[..i], ks)
    ensures ListsKeys(s[..j], ks + [s[i].key])
    ensures LinesFor(job, all, ks + [s[i].key]) ==
      LinesFor(job, all, ks) + [Line(job, s[i].key, ValuesOf(s[i..j], s[i].key))]
  {
    hide ListsKeys, SortedByKey, HasKey, ValuesOf, LinesFor;
    var key := s[i].key;
    RunHasAllValues(s, i, j);
    SortedFacts(s, all, key);
    ExtendKeys(s, i, j, ks);
    SameLine(job, key, ValuesOf(s[i..j], key), ValuesOf(all, key));
    hide Proper, IsRun;
    LinesConcat(job, all, ks, [key]);
    OneLine(job, all, key);
  }

  lemma SameLine(job: Job, key: string, a: seq<string>, b: seq<string>)
    requires Proper(job) && multiset(a) == multiset(b)
    ensures Line(job, key, a) == Line(job, key, b)
  {
  }

  lemma OneLine(job: Job, kvs: seq<KeyValue>, key: string)
    ensures LinesFor(job, kvs, [key]) == [Line(job, key, ValuesOf(kvs, key))]
  {
  }

  lemma SortedKeys(all: seq<KeyValue>, s: seq<KeyValue>, ks: seq<string>)
    requires multiset(s) == multiset(all) && ListsKeys(s, ks)
    ensures ListsKeys(all, ks)
  {
    forall k ensures HasKey(s, k) <==> HasKey(all, k) { SortedFacts(s, all, k); }
  }

  lemma NextKeySorted(s: seq<KeyValue>, i: int, ks: seq<string>)
    requires SortedByKey(s) && 0 <= i < |s| && ListsKeys(s[..i], ks) && SortedStrings(ks)
    ensures SortedStrings(ks + [s[i].key])
  {
    forall t | 0 <= t < |ks| ensures !StringLess(s[i].key, ks[t]) {
      assert ks[t] in ks;
      var p :| 0 <= p < i && s[..i][p].key == ks[t];
      assert s[p].key == ks[t];
    }
  }

  /** The output of the sequential program is an output of the job: in the order of the keys, one line
      for each key that the map function emits. */
  method Run(job: Job, sort: seq<KeyValue> -> seq<KeyValue>) returns (ofile: seq<string>)
    requires Proper(job) && forall s :: SortsByKey(sort(s), s)
    ensures Output(job, Pairs(job, |job.files|), ofile)
    ensures exists ks :: SortedStrings(ks) && ReportsKeys(job, ks, ofile)
  {
    hide Proper, ListsKeys, SortedByKey, LinesFor, Pairs, SortedStrings, ReportsKeys;
    var intermediate := Collect(job);
    ghost var all := intermediate;
    intermediate := sort(intermediate);
    ofile := [];
    ghost var ks: seq<string> := [];
    StartKeys(job, all, intermediate);
    var i := 0;
    while i < |intermediate|
      invariant 0 <= i <= |intermediate|
      invariant ListsKeys(intermediate[..i], ks) && SortedStrings(ks)
      invariant 0 < i < |intermediate| ==> intermediate[i - 1].key != intermediate[i].key
      invariant ofile == LinesFor(job, all, ks)
      decreases |intermediate| - i
    {
      var j := EndOfRun(intermediate, i);
      var values := ValuesBetween(intermediate, i, j);
      RunLine(job, all, intermediate, i, j, ks);
      NextKeySorted(intermediate, i, ks);
      var output := job.reducef(intermediate[i].key, values);
      ofile := ofile + [intermediate[i].key + " " + output + "\n"];
      ks := ks + [intermediate[i].key];
      i := j;
    }
    assert intermediate[..|intermediate|] == intermediate;
    SortedKeys(all, intermediate, ks);
    OutputReports(job, ks);
  }

  lemma StartKeys(job: Job, all: seq<KeyValue>, s: seq<KeyValue>)
    ensures ListsKeys(s[..0], []) && LinesFor(job, all, []) == [] && SortedStrings([])
  {
  }
}

/** What a worker does with one task. */
module Workers {
  import opened Collections
  import opened Histories
  import opened Jobs
  import opened Coordination

  /** The intermediate files mr-i-r, by (i, r). */
  type Files = map<(int, int), seq<KeyValue>>

  /** From `files` to `files'`, the first `n` files of map task `id` are replaced by the buckets
      of `kvs` and no other file changes. */
  ghost predicate Written(job: Job, files: Files, kvs: seq<KeyValue>, id: int, n: int, files': Files) {
    && (forall i, r :: (i, r) in files' <==> (i, r) in files || (i == id && 0 <= r < n))
    && (forall i, r :: (i, r) in files' ==> files'[(i, r)] == if i == id && 0 <= r < n then InBucket(job, kvs, r)
      else files[(i, r)])
  }

  method ExecuteMapTask(job: Job, task: Task, files: Files) returns (files': Files)
    requires 0 <= task.id < |job.files| && task == MapTaskOf(job.files, job.nReduce, task.id)
    ensures Written(job, files, Emitted(job, task.id), task.id, job.nReduce, files')
    ensures forall r, kv :: 0 <= r < job.nReduce ==>
      && (task.id, r) in files'
      && multiset(files'[(task.id, r)])[kv] ==
           if job.ihash(kv.key) % job.nReduce != r then 0
           else multiset(job.mapf(job.files[task.id], job.contents(job.files[task.id])))[kv]
  {
    var kva := job.mapf(task.file, job.contents(task.file));
    files' := files;
    for i := 0 to task.numOfFiles
      invariant Written(job, files, [], task.id, i, files')
    {
      files' := files'[(task.id, i) := []];
    }
    for k := 0 to |kva|
      invariant Written(job, files, kva[..k], task.id, job.nReduce, files')
    {
      var kv := kva[k];
      var bucket := job.ihash(kv.key) % task.numOfFiles;
      Appended(job, files, kva, k, task.id, files');
      files' := files'[(task.id, bucket) := files'[(task.id, bucket)] + [kv]];
    }
    assert kva[..|kva|] == kva;
    BucketsHold(job, files, kva, task.id, files');
  }

  lemma BucketsHold(job: Job, files: Files, kva: seq<KeyValue>, id: int, files': Files)
    requires Written(job, files, kva, id, job.nReduce, files')
    ensures forall r, kv :: 0 <= r < job.nReduce ==>
      && (id, r) in files'
      && multiset(files'[(id, r)])[kv] == if job.ihash(kv.key) % job.nReduce != r then 0 else multiset(kva)[kv]
  {
    forall r, kv | 0 <= r < job.nReduce
      ensures multiset(files'[(id, r)])[kv] == if job.ihash(kv.key) % job.nReduce != r then 0 else multiset(kva)[kv]
    {
      InBucketCount(job, kva, r, kv);
    }
  }

  lemma Appended(job: Job, files: Files, kva: seq<KeyValue>, k: int, id: int, now: Files)
    requires 0 <= k < |kva| && Written(job, files, kva[..k], id, job.nReduce, now)
    ensures var b := BucketOf(job, kva[k].key);
      (id, b) in now && Written(job, files, kva[..k + 1], id, job.nReduce, now[(id, b) := now[(id, b)] + [kva[k]]])
  {
    assert kva[..k + 1][..k] == kva[..k] && kva[..k + 1][k] == kva[k];
  }

  /** The pairs in the files mr-0-r .. mr-(n-1)-r, one file after another. */
  ghost function Gathered(files: Files, r: int, n: int): seq<KeyValue>
    requires 0 <= n
  {
    if n == 0 then [] else Gathered(files, r, n - 1) + (if (n - 1, r) in files then files[(n - 1, r)] else [])
  }

  ghost predicate AllPresent(files: Files, r: int, n: int) {
    forall i :: 0 <= i < n ==> (i, r) in files
  }

  /** `m` maps each key of `kvs` to its values. */
  ghost predicate Collects(kvs: seq<KeyValue>, m: map<string, seq<string>>) {
    && (forall k :: k in m <==> HasKey(kvs, k))
    && (forall k :: k in m ==> m[k] == ValuesOf(kvs, k))
  }

  lemma CollectOne(kvs: seq<KeyValue>, m: map<string, seq<string>>, kv: KeyValue)
    requires Collects(kvs, m)
    ensures Collects(kvs + [kv], m[kv.key := (if kv.key in m then m[kv.key] else []) + [kv.value]])
  {
    forall k ensures HasKey(kvs + [kv], k) <==> HasKey(kvs, k) || kv.key == k {
      HasKeyConcat(kvs, [kv], k);
      assert HasKey([kv], k) <==> [kv][0].key == k;
    }
    assert (kvs + [kv])[..|kvs|] == kvs;
    if !HasKey(kvs, kv.key) { ValuesOfNone(kvs, kv.key); }
  }

  /** Decodes one file into the map of values. */
  method ReadInto(file: seq<KeyValue>, intermediate: map<string, seq<string>>, ghost read: seq<KeyValue>)
    returns (m: map<string, seq<string>>)
    requires Collects(read, intermediate)
    ensures Collects(read + file, m)
  {
    hide Collects;
    m := intermediate;
    assert read + file[..0] == read;
    for j := 0 to |file|
      invariant Collects(read + file[..j], m)
    {
      var kv := file[j];
      CollectOne(read + file[..j], m, kv);
      assert read + file[..j + 1] == read + file[..j] + [kv];
      m := m[kv.key := (if kv.key in m then m[kv.key] else []) + [kv.value]];
    }
    assert file[..|file|] == file;
  }

  /** One line for each key, in the order the map yields them. */
  method WriteLines(job: Job, intermediate: map<string, seq<string>>, ghost pairs: seq<KeyValue>)
    returns (lines: seq<string>)
    requires Collects(pairs, intermediate)
    ensures Output(job, pairs, lines)
  {
    var keys := KeysIn(intermediate);
    assert ListsKeys(pairs, keys);
    assert forall i :: 0 <= i < |keys| ==> keys[i] in keys;
    assert forall i :: 0 <= i < |keys| ==> keys[i] in intermediate && intermediate[keys[i]] == ValuesOf(pairs, keys[i]);
    hide Collects, ListsKeys, ValuesOf, HasKey, Distinct;
    lines := [];
    for i := 0 to |keys|
      invariant |lines| == i && forall j :: 0 <= j < i ==> lines[j] == Line(job, keys[j], ValuesOf(pairs, keys[j]))
    {
      var key := keys[i];
      var result := job.reducef(key, intermediate[key]);
      lines := lines + [key + " " + result + "\n"];
    }
    assert lines == LinesFor(job, pairs, keys);
  }

  /** Fails if an input file is missing; otherwise writes the output for the pairs it read. */
  method ExecuteReduceTask(job: Job, task: Task, files: Files) returns (out: Option<seq<string>>)
    requires task.numOfFiles >= 0
    ensures out.Some? <==> AllPresent(files, task.id, task.numOfFiles)
    ensures out.Some? ==> Output(job, Gathered(files, task.id, task.numOfFiles), out.value)
  {
    var intermediate: map<string, seq<string>> := map[];
    assert Collects([], intermediate);
    hide Collects, Output;
    for i := 0 to task.numOfFiles
      invariant AllPresent(files, task.id, i)
      invariant Collects(Gathered(files, task.id, i), intermediate)
    {
      if (i, task.id) !in files {
        return None;
      }
      intermediate := ReadInto(files[(i, task.id)], intermediate, Gathered(files, task.id, i));
    }
    var lines := WriteLines(job, intermediate, Gathered(files, task.id, task.numOfFiles));
    return Some(lines);
  }
}
