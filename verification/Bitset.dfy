/** Bitsets as arrays of 64-bit words, and the finite sets of ids they stand for. A word is
    modelled as its 64 bits, least significant first. */
module Bitset {
  import opened Collections

  type Word = w: seq<bool> | |w| == 64 witness Zeros()

  function Zeros(): (w: seq<bool>)
    ensures |w| == 64 && forall k :: 0 <= k < 64 ==> !w[k]
  {
    seq(64, _ => false)
  }

  /** 1 << minor */
  function One(minor: nat): Word
    requires minor < 64
  {
    seq(64, k => k == minor)
  }

  function Or(a: Word, b: Word): Word { seq(64, k requires 0 <= k < 64 => a[k] || b[k]) }

  function And(a: Word, b: Word): Word { seq(64, k requires 0 <= k < 64 => a[k] && b[k]) }

  function AndNot(a: Word, b: Word): Word { seq(64, k requires 0 <= k < 64 => a[k] && !b[k]) }

  function Xor(a: Word, b: Word): Word { seq(64, k requires 0 <= k < 64 => a[k] != b[k]) }

  /** `n` halved `k` times. */
  function Halved(n: nat, k: nat): nat { if k == 0 then n else Halved(n, k - 1) / 2 }

  /** The low 64 bits of a number. */
  function WordOf(n: nat): Word { seq(64, k requires 0 <= k < 64 => Halved(n, k) % 2 == 1) }

  /** The number that the bits of `w` from `k` on stand for. */
  ghost function ValueFrom(w: Word, k: nat): nat
    requires k <= 64
    decreases 64 - k
  {
    if k == 64 then 0 else (if w[k] then 1 else 0) + 2 * ValueFrom(w, k + 1)
  }

  lemma {:induction false} BitsFrom(n: nat, k: nat)
    requires k <= 64 && Halved(n, 64) == 0
    ensures ValueFrom(WordOf(n), k) == Halved(n, k)
    decreases 64 - k
  {
    if k < 64 {
      BitsFrom(n, k + 1);
      assert Halved(n, k + 1) == Halved(n, k) / 2;
    }
  }

  lemma HalvedEight(n: nat, k: nat)
    ensures Halved(n, k + 8) == Halved(n, k) / 256
  {
    assert Halved(n, k + 2) == Halved(n, k + 1) / 2 == Halved(n, k) / 4;
    assert Halved(n, k + 4) == Halved(n, k + 3) / 2 == Halved(n, k + 2) / 4;
    assert Halved(n, k + 6) == Halved(n, k + 5) / 2 == Halved(n, k + 4) / 4;
    assert Halved(n, k + 8) == Halved(n, k + 7) / 2 == Halved(n, k + 6) / 4;
  }

  /** A word made from a number below two to the 64 stands for it. */
  lemma WordOfMeans(n: nat)
    requires n < 0x1_0000_0000_0000_0000
    ensures ValueFrom(WordOf(n), 0) == n
  {
    HalvedEight(n, 0);
    HalvedEight(n, 8);
    HalvedEight(n, 16);
    HalvedEight(n, 24);
    HalvedEight(n, 32);
    HalvedEight(n, 40);
    HalvedEight(n, 48);
    HalvedEight(n, 56);
    hide Halved;
    assert Halved(n, 64) == 0;
    assert Halved(n, 0) == n by { HalvedNone(n); }
    BitsFrom(n, 0);
  }

  lemma HalvedNone(n: nat)
    ensures Halved(n, 0) == n
  {
  }

  /** The number of one bits of a word, as math/bits counts them. */
  function OnesCount(w: Word): nat { |set k | 0 <= k < 64 && w[k]| }

  predicate Has(ws: seq<Word>, x: int) {
    0 <= x < 64 * |ws| && ws[x / 64][x % 64]
  }

  /** The set a sequence of words stands for. */
  ghost function Members(ws: seq<Word>): set<int> { set x | 0 <= x < 64 * |ws| && Has(ws, x) }

  /** Representations of one length are canonical. */
  lemma MembersInjective(a: seq<Word>, b: seq<Word>)
    requires |a| == |b| && Members(a) == Members(b)
    ensures a == b
  {
    forall i | 0 <= i < |a| ensures a[i] == b[i] {
      forall k | 0 <= k < 64 ensures a[i][k] == b[i][k] {
        var x := 64 * i + k;
        assert x / 64 == i && x % 64 == k;
        assert x in Members(a) <==> Has(a, x);
        assert x in Members(b) <==> Has(b, x);
      }
    }
  }

  method NewBitset(bits: nat) returns (b: array<Word>)
    ensures fresh(b) && Members(b[..]) == {}
    ensures bits <= 64 * b.Length < bits + 64
  {
    var extra := if bits % 64 != 0 then 1 else 0;
    b := new Word[bits / 64 + extra](_ => Zeros());
    assert forall x :: 0 <= x < 64 * b.Length ==> !Has(b[..], x);
  }

  method Clone(b: array<Word>) returns (c: array<Word>)
    ensures fresh(c) && c[..] == b[..]
  {
    c := new Word[b.Length](i requires 0 <= i < b.Length reads b => b[i]);
  }

  method Set(b: array<Word>, pos: int)
    requires 0 <= pos < 64 * b.Length
    modifies b
    ensures Members(b[..]) == old(Members(b[..])) + {pos}
  {
    var major, minor := pos / 64, pos % 64;
    ghost var ws := b[..];
    b[major] := Or(b[major], One(minor));
    forall x | 0 <= x < 64 * |ws| ensures Has(b[..], x) <==> x == pos || Has(ws, x) {
    }
  }

  method Clear(b: array<Word>, pos: int)
    requires 0 <= pos < 64 * b.Length
    modifies b
    ensures Members(b[..]) == old(Members(b[..])) - {pos}
  {
    var major, minor := pos / 64, pos % 64;
    ghost var ws := b[..];
    b[major] := AndNot(b[major], One(minor));
    forall x | 0 <= x < 64 * |ws| ensures Has(b[..], x) <==> x != pos && Has(ws, x) {
    }
  }

  method Get(b: array<Word>, pos: int) returns (r: bool)
    requires 0 <= pos < 64 * b.Length
    ensures r <==> pos in Members(b[..])
  {
    var major, minor := pos / 64, pos % 64;
    var w := And(b[major], One(minor));
    r := w != Zeros();
    assert w[minor] == Has(b[..], pos);
  }

  /** popcnt is the cardinality of the set. */
  method Popcnt(b: seq<Word>) returns (total: nat)
    ensures total == |Members(b)|
  {
    total := 0;
    for i := 0 to |b|
      invariant total == |Members(b[..i])|
    {
      MembersSnoc(b[..i], b[i]);
      assert b[..i + 1] == b[..i] + [b[i]];
      total := total + OnesCount(b[i]);
    }
    assert b[..|b|] == b;
  }

  lemma MembersSnoc(ws: seq<Word>, w: Word)
    ensures |Members(ws + [w])| == |Members(ws)| + OnesCount(w)
  {
    var low := set k | 0 <= k < 64 && w[k];
    var high := Shifted(low, 64 * |ws|);
    ShiftedSize(low, 64 * |ws|);
    var ws' := ws + [w];
    forall x | 64 * |ws| <= x < 64 * |ws'| ensures x in Members(ws') <==> x in high {
      var k := x - 64 * |ws|;
      assert x / 64 == |ws| && x % 64 == k;
      assert Has(ws', x) <==> w[k];
      assert k in low <==> x in high;
    }
    forall x | 0 <= x < 64 * |ws| ensures x in Members(ws') <==> x in Members(ws) {
      assert Has(ws', x) <==> Has(ws, x);
    }
    assert Members(ws') == Members(ws) + high && Members(ws) !! high;
  }

  ghost function Xored(h: Word, ws: seq<Word>): Word {
    if ws == [] then h else Xor(Xored(h, ws[..|ws| - 1]), ws[|ws| - 1])
  }

  /** What the hash of a bitset is; equal sets of one length hash equally. */
  ghost function HashOf(ws: seq<Word>): Word { Xored(WordOf(|Members(ws)|), ws) }

  /** How many of the words have bit `k`. */
  ghost function WordsWith(ws: seq<Word>, k: int): nat
    requires 0 <= k < 64
  {
    if ws == [] then 0 else WordsWith(ws[..|ws| - 1], k) + if ws[|ws| - 1][k] then 1 else 0
  }

  lemma {:induction false} XoredBit(h: Word, ws: seq<Word>, k: int)
    requires 0 <= k < 64
    ensures Xored(h, ws)[k] <==> (WordsWith(ws, k) + if h[k] then 1 else 0) % 2 == 1
  {
    if ws != [] { XoredBit(h, ws[..|ws| - 1], k); }
  }

  /** Each bit of the hash is the parity of the words that have it and of the number of elements, as a
      word, having it. */
  method Hash(b: seq<Word>) returns (hash: Word)
    ensures hash == HashOf(b)
    ensures var size := WordOf(|Members(b)|);
      forall k :: 0 <= k < 64 ==> (hash[k] <==> (WordsWith(b, k) + if size[k] then 1 else 0) % 2 == 1)
  {
    var count := Popcnt(b);
    hash := WordOf(count);
    for i := 0 to |b|
      invariant hash == Xored(WordOf(count), b[..i])
    {
      assert b[..i + 1][..i] == b[..i];
      hash := Xor(hash, b[i]);
    }
    assert b[..|b|] == b;
    forall k | 0 <= k < 64 ensures hash[k] <==> (WordsWith(b, k) + if WordOf(count)[k] then 1 else 0) % 2 == 1 {
      XoredBit(WordOf(count), b, k);
    }
  }

  /** Representations of one length are equal exactly when they stand for the same set. */
  method Equals(b: seq<Word>, b2: seq<Word>) returns (r: bool)
    ensures r <==> |b| == |b2| && Members(b) == Members(b2)
  {
    if |b| == |b2| && Members(b) == Members(b2) { MembersInjective(b, b2); }
    if |b| != |b2| {
      return false;
    }
    for i := 0 to |b|
      invariant b[..i] == b2[..i]
    {
      if b[i] != b2[i] {
        return false;
      }
    }
    assert b[..|b|] == b && b2[..|b2|] == b2;
    return true;
  }
}
