/** Facts about finite sets, sequences, maps and strings that are not about any one component. */
module Collections {

  // ---- Sets and multisets

  lemma Pick<T>(s: set<T>) returns (x: T)
    requires s != {}
    ensures x in s
  {
    x :| x in s;
  }

  lemma SubsetSize<T>(a: set<T>, b: set<T>)
    requires a <= b
    ensures |a| <= |b|
  {
    assert |b| == |a| + |b - a| by { assert b == a + (b - a); }
  }

  lemma SameCounts<T(!new)>(a: multiset<T>, b: multiset<T>)
    requires forall e :: a[e] == b[e]
    ensures a == b
  {
  }

  ghost function Below(n: int): set<int> { set x | 0 <= x < n && IsBelow(x, n) }

  ghost predicate IsBelow(x: int, n: int) { x < n }

  lemma {:induction false} BelowSize(n: nat)
    ensures |Below(n)| == n
  {
    if n > 0 {
      BelowSize(n - 1);
      forall x ensures x in Below(n) <==> x in Below(n - 1) + {n - 1} {
      }
      assert Below(n) == Below(n - 1) + {n - 1};
    } else {
      assert Below(n) == {};
    }
  }

  ghost function Shifted(s: set<int>, d: int): set<int> { set k | k in s :: d + k }

  lemma {:induction false} ShiftedSize(s: set<int>, d: int)
    ensures |Shifted(s, d)| == |s|
  {
    if s == {} {
      assert Shifted(s, d) == {};
    } else {
      var x := Pick(s);
      ShiftedSize(s - {x}, d);
      forall y | y in Shifted(s, d) && y != d + x ensures y in Shifted(s - {x}, d) {
        assert y - d in s - {x};
      }
      assert Shifted(s, d) == Shifted(s - {x}, d) + {d + x};
    }
  }

  // ---- Sequences

  ghost predicate Distinct<T>(p: seq<T>) {
    forall i, j :: 0 <= i < j < |p| ==> p[i] != p[j]
  }

  lemma {:induction false} DistinctCount<T>(s: seq<T>, e: T)
    requires Distinct(s)
    ensures multiset(s)[e] <= 1
  {
    if s != [] {
      var t := s[..|s| - 1];
      assert s == t + [s[|s| - 1]];
      DistinctCount(t, e);
      assert s[|s| - 1] !in t;
    }
  }

  lemma TwiceCounted<T>(s: seq<T>, i: int, j: int)
    requires 0 <= i < j < |s| && s[i] == s[j]
    ensures multiset(s)[s[i]] >= 2
  {
    assert s == s[..j] + s[j..];
    assert s[..j][i] == s[i] && s[j..][0] == s[i];
    assert s[i] in multiset(s[..j]) && s[i] in multiset(s[j..]);
  }

  lemma IndexOf<T>(s: seq<T>, x: T) returns (k: int)
    requires x in s
    ensures 0 <= k < |s| && s[k] == x
  {
    k :| 0 <= k < |s| && s[k] == x;
  }

  function Without<T>(s: seq<T>, k: int): seq<T>
    requires 0 <= k < |s|
  {
    s[..k] + s[k + 1..]
  }

  lemma WithoutMultiset<T>(s: seq<T>, k: int)
    requires 0 <= k < |s|
    ensures multiset(s) == multiset(Without(s, k)) + multiset{s[k]}
  {
    assert s == s[..k] + [s[k]] + s[k + 1..];
  }

  /** `p` lists 0..n-1 in some order. */
  ghost predicate Permutes(p: seq<int>, n: int) {
    && |p| == n && Distinct(p)
    && (forall k :: 0 <= k < n ==> 0 <= p[k] < n)
    && (forall x :: 0 <= x < n ==> x in p)
  }

  function Select<T>(s: seq<T>, p: seq<int>): (w: seq<T>)
    requires forall k :: 0 <= k < |p| ==> 0 <= p[k] < |s|
    ensures |w| == |p|
  {
    seq(|p|, k requires 0 <= k < |p| => s[p[k]])
  }

  /** Every rearrangement of a list comes from a permutation of its indices. */
  lemma {:induction false} RearrangementIsPermutation<T>(s: seq<T>, w: seq<T>) returns (p: seq<int>)
    requires multiset(w) == multiset(s)
    ensures Permutes(p, |s|) && w == Select(s, p)
    decreases |s|
  {
    assert |multiset(w)| == |multiset(s)|;
    if s == [] {
      p := [];
    } else {
      var n := |s| - 1;
      assert s[n] in multiset(w);
      var k := IndexOf(w, s[n]);
      WithoutMultiset(w, k);
      WithoutMultiset(s, n);
      assert Without(s, n) == s[..n];
      assert multiset(Without(w, k)) == multiset(w) - multiset{s[n]} == multiset(s[..n]);
      var q := RearrangementIsPermutation(s[..n], Without(w, k));
      InsertLast(s, w, q, k);
      p := Inserted(q, k, n);
    }
  }

  function Inserted(q: seq<int>, k: int, n: int): seq<int>
    requires 0 <= k <= |q|
  {
    q[..k] + [n] + q[k..]
  }

  lemma InsertLast<T>(s: seq<T>, w: seq<T>, q: seq<int>, k: int)
    requires s != [] && |w| == |s| && 0 <= k < |w| && w[k] == s[|s| - 1]
    requires Permutes(q, |s| - 1) && Without(w, k) == Select(s[..|s| - 1], q)
    ensures Permutes(Inserted(q, k, |s| - 1), |s|) && w == Select(s, Inserted(q, k, |s| - 1))
  {
    var n := |s| - 1;
    var p := Inserted(q, k, n);
    forall x | 0 <= x < |s| ensures x in p {
      if x < n {
        var i := IndexOf(q, x);
        assert p[if i < k then i else i + 1] == x;
      } else {
        assert p[k] == x;
      }
    }
    forall i | 0 <= i < |w| && i != k ensures w[i] == s[p[i]] {
      assert Without(w, k)[if i < k then i else i - 1] == w[i];
    }
  }

  lemma RemoveLast(p: seq<int>, n: int, k: int)
    requires Permutes(p, n + 1) && 0 <= k < |p| && p[k] == n
    ensures Permutes(Without(p, k), n)
  {
    var q := Without(p, k);
    forall i | 0 <= i < n ensures 0 <= q[i] < n { assert q[i] == p[if i < k then i else i + 1]; }
    forall x | 0 <= x < n ensures x in q {
      var i := IndexOf(p, x);
      assert q[if i < k then i else i - 1] == x;
    }
    WithoutDistinct(p, k);
  }

  /** Permuting indices rearranges the list. */
  lemma {:induction false} PermutationIsRearrangement<T>(s: seq<T>, p: seq<int>)
    requires Permutes(p, |s|)
    ensures multiset(Select(s, p)) == multiset(s)
    decreases |s|
  {
    if s != [] {
      var n := |s| - 1;
      var k := IndexOf(p, n);
      RemoveLast(p, n, k);
      var q, w := Without(p, k), Select(s, p);
      PermutationIsRearrangement(s[..n], q);
      WithoutMultiset(w, k);
      assert Without(w, k) == Select(s[..n], q);
      assert s == s[..n] + [s[n]];
    }
  }

  lemma WithoutElements<T>(b: seq<T>, k: int, y: T)
    requires Distinct(b) && 0 <= k < |b|
    ensures y in Without(b, k) <==> y in b && y != b[k]
  {
    var rest := Without(b, k);
    if y in b && y != b[k] {
      var j := IndexOf(b, y);
      assert rest[if j < k then j else j - 1] == y;
    }
    if y in rest {
      var j := IndexOf(rest, y);
      assert y == b[if j < k then j else j + 1];
    }
  }

  lemma WithoutDistinct<T>(b: seq<T>, k: int)
    requires Distinct(b) && 0 <= k < |b|
    ensures Distinct(Without(b, k))
  {
  }

  lemma {:induction false} SameElements<T>(a: seq<T>, b: seq<T>)
    requires Distinct(a) && Distinct(b) && forall x :: x in a <==> x in b
    ensures multiset(a) == multiset(b)
    decreases |a|
  {
    assert forall i :: 0 <= i < |b| ==> b[i] in b;
    if a != [] {
      var n := |a| - 1;
      var x := a[n];
      assert x in a;
      var k := IndexOf(b, x);
      WithoutMultiset(a, n);
      WithoutMultiset(b, k);
      WithoutDistinct(a, n);
      WithoutDistinct(b, k);
      forall y ensures y in Without(a, n) <==> y in Without(b, k) {
        WithoutElements(a, n, y);
        WithoutElements(b, k, y);
      }
      SameElements(Without(a, n), Without(b, k));
    }
  }

  lemma DistinctConcat<T>(a: seq<T>, b: seq<T>)
    requires Distinct(a) && Distinct(b) && forall x :: !(x in a && x in b)
    ensures Distinct(a + b)
  {
    var ab := a + b;
    forall i, j | 0 <= i < j < |ab| ensures ab[i] != ab[j] {
      if i < |a| <= j { assert ab[i] in a && ab[j] in b; }
    }
  }

  // ---- Maps

  /** The keys of a map, in whatever order the iteration yields them. */
  method KeysIn<K(==), V>(m: map<K, V>) returns (keys: seq<K>)
    ensures Distinct(keys) && forall k :: k in keys <==> k in m.Keys
  {
    keys := [];
    var left := m.Keys;
    while left != {}
      invariant left <= m.Keys && Distinct(keys)
      invariant forall k :: k in keys <==> k in m.Keys - left
    {
      var k :| k in left;
      assert forall i :: 0 <= i < |keys| ==> keys[i] in keys;
      keys := keys + [k];
      left := left - {k};
    }
  }

  // ---- Strings

  /** The order of strings: the first difference decides, and a proper prefix comes first. */
  predicate StringLess(a: string, b: string) {
    if b == [] then false
    else if a == [] then true
    else if a[0] != b[0] then a[0] < b[0]
    else StringLess(a[1..], b[1..])
  }

  ghost predicate DiffersAt(a: string, b: string, k: int) {
    0 <= k <= |a| && k < |b| && a[..k] == b[..k] && (k == |a| || a[k] < b[k])
  }

  lemma {:induction false} LessMeans(a: string, b: string)
    ensures StringLess(a, b) <==> exists k :: DiffersAt(a, b, k)
  {
    if a != [] && b != [] && a[0] == b[0] {
      LessMeans(a[1..], b[1..]);
      if k :| DiffersAt(a[1..], b[1..], k) {
        assert a[..k + 1] == [a[0]] + a[1..][..k] && b[..k + 1] == [b[0]] + b[1..][..k];
        assert DiffersAt(a, b, k + 1);
      }
      if k :| DiffersAt(a, b, k) {
        assert k > 0 && a[1..][..k - 1] == a[..k][1..] && b[1..][..k - 1] == b[..k][1..];
        assert DiffersAt(a[1..], b[1..], k - 1);
      }
    } else if b != [] {
      if a == [] || a[0] < b[0] { assert DiffersAt(a, b, 0); }
      if k :| DiffersAt(a, b, k) && k > 0 { assert a[..k][0] == b[..k][0]; }
    }
  }

  lemma {:induction false} LessTotal(a: string, b: string)
    requires !StringLess(a, b) && !StringLess(b, a)
    ensures a == b
  {
    if a != [] && b != [] {
      LessTotal(a[1..], b[1..]);
      assert a == [a[0]] + a[1..] && b == [b[0]] + b[1..];
    }
  }

  ghost predicate SortedStrings(s: seq<string>) {
    forall i, j :: 0 <= i < j < |s| ==> !StringLess(s[j], s[i])
  }

  /** What sorting strings promises. */
  ghost predicate SortsStrings(r: seq<string>, s: seq<string>) {
    multiset(r) == multiset(s) && SortedStrings(r)
  }
}
