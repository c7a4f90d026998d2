/** The doubly linked list of entries that the search edits in place.

    `N` is the list as first built, with the head node at index 0. Lifting removes nodes
    without clearing their own links, so that unlifting in the opposite order can put them
    back. `dead` is the set of indices currently removed. */
module LinkedEntries {
  import opened Collections
  import opened Histories
  import opened Problems
  import opened Entries

  class Node<I, O> {
    const value: Option<Value<I, O>>
    const matching: Node?<I, O>   // of a call: its return; nil for a return and for the head
    const id: int
    var next: Node?<I, O>
    var prev: Node?<I, O>

    constructor (value: Option<Value<I, O>>, matching: Node?<I, O>, id: int)
      ensures this.value == value && this.matching == matching && this.id == id
      ensures next == null && prev == null
    {
      this.value, this.matching, this.id := value, matching, id;
      next, prev := null, null;
    }
  }

  /** The first index after `k` that is not dead, or `len`. */
  ghost function NextLive(dead: set<int>, k: int, len: int): (r: int)
    requires k < len
    ensures k < r <= len && (r < len ==> r !in dead)
    decreases len - k
  {
    if k + 1 == len || k + 1 !in dead then k + 1 else NextLive(dead, k + 1, len)
  }

  /** The last index before `k` that is not dead. */
  ghost function PrevLive(dead: set<int>, k: int): (r: int)
    requires 0 < k && 0 !in dead
    ensures 0 <= r < k && r !in dead
    decreases k
  {
    if k - 1 !in dead then k - 1 else PrevLive(dead, k - 1)
  }

  lemma {:induction false} NextGap(dead: set<int>, k: int, len: int)
    requires k < len
    ensures forall j :: k < j < NextLive(dead, k, len) ==> j in dead
    decreases len - k
  {
    if k + 1 < len && k + 1 in dead { NextGap(dead, k + 1, len); }
  }

  lemma {:induction false} PrevGap(dead: set<int>, k: int)
    requires 0 < k && 0 !in dead
    ensures forall j :: PrevLive(dead, k) < j < k ==> j in dead
    decreases k
  {
    if k - 1 in dead { PrevGap(dead, k - 1); }
  }

  ghost function NodeAt<I, O>(N: seq<Node<I, O>>, k: int): Node?<I, O>
  {
    if 0 <= k < |N| then N[k] else null
  }

  ghost function Nexts<I, O>(N: seq<Node<I, O>>): (r: seq<Node?<I, O>>)
    reads N
    ensures |r| == |N| && forall k :: 0 <= k < |N| ==> r[k] == N[k].next
  {
    seq(|N|, k requires 0 <= k < |N| reads N => N[k].next)
  }

  ghost function Prevs<I, O>(N: seq<Node<I, O>>): (r: seq<Node?<I, O>>)
    reads N
    ensures |r| == |N| && forall k :: 0 <= k < |N| ==> r[k] == N[k].prev
  {
    seq(|N|, k requires 0 <= k < |N| reads N => N[k].prev)
  }

  /** With links `nx` and `pv`, node `k` is linked as in a list without the `dead` nodes. */
  ghost predicate HookedBy<I, O>(N: seq<Node<I, O>>, nx: seq<Node?<I, O>>, pv: seq<Node?<I, O>>, dead: set<int>, k: int)
    requires 0 <= k < |N| == |nx| == |pv| && 0 !in dead
  {
    && nx[k] == NodeAt(N, NextLive(dead, k, |N|))
    && pv[k] == if k == 0 then null else N[PrevLive(dead, k)]
  }

  ghost predicate LinkedBy<I, O>(N: seq<Node<I, O>>, nx: seq<Node?<I, O>>, pv: seq<Node?<I, O>>, dead: set<int>)
    requires |N| == |nx| == |pv| && 0 !in dead
  {
    forall k :: 0 <= k < |N| && k !in dead ==> HookedBy(N, nx, pv, dead, k)
  }

  ghost predicate Hooked<I, O>(N: seq<Node<I, O>>, dead: set<int>, k: int)
    requires 0 <= k < |N| && 0 !in dead
    reads N
  {
    HookedBy(N, Nexts(N), Prevs(N), dead, k)
  }

  /** The nodes that are not dead form a doubly linked list in index order. */
  ghost predicate Linked<I, O>(N: seq<Node<I, O>>, dead: set<int>)
    reads N
  {
    Distinct(N) && 0 !in dead && LinkedBy(N, Nexts(N), Prevs(N), dead)
  }

  lemma LinkedNext<I, O>(N: seq<Node<I, O>>, dead: set<int>, k: int)
    requires Linked(N, dead) && 0 <= k < |N| && k !in dead
    ensures N[k].next == NodeAt(N, NextLive(dead, k, |N|))
  {
    assert HookedBy(N, Nexts(N), Prevs(N), dead, k);
  }

  /** Links of the live nodes when node `i` dies: its two neighbours now see each other. */
  lemma NextWithout(dead: set<int>, i: int, k: int, len: int)
    requires 0 <= k < len && 0 < i < len && i !in dead && k !in dead && k != i
    ensures NextLive(dead + {i}, k, len) == if NextLive(dead, k, len) == i then NextLive(dead, i, len)
      else NextLive(dead, k, len)
  {
    NextGap(dead, k, len);
    NextGap(dead, i, len);
    NextGap(dead + {i}, k, len);
  }

  lemma PrevWithout(dead: set<int>, i: int, k: int)
    requires 0 < k && 0 < i && i !in dead && k !in dead && 0 !in dead && k != i
    ensures PrevLive(dead + {i}, k) == if PrevLive(dead, k) == i then PrevLive(dead, i) else PrevLive(dead, k)
  {
    PrevGap(dead, k);
    PrevGap(dead, i);
    PrevGap(dead + {i}, k);
  }

  lemma Neighbours(dead: set<int>, i: int, k: int, len: int)
    requires 0 <= k < i < len && 0 !in dead && i !in dead && k !in dead
    ensures NextLive(dead, k, len) == i <==> PrevLive(dead, i) == k
  {
    NextGap(dead, k, len);
    PrevGap(dead, i);
  }

  lemma LiveLinksWithout(dead: set<int>, i: int, k: int, len: int)
    requires 0 <= k < len && 0 < i < len && k != i && k !in dead && i !in dead && 0 !in dead
    ensures NextLive(dead + {i}, k, len) == if k == PrevLive(dead, i) then NextLive(dead, i, len)
      else NextLive(dead, k, len)
    ensures 0 < k ==> PrevLive(dead + {i}, k) == if k == NextLive(dead, i, len) then PrevLive(dead, i)
      else PrevLive(dead, k)
  {
    NextWithout(dead, i, k, len);
    if 0 < k { PrevWithout(dead, i, k); }
    if k < i { Neighbours(dead, i, k, len); } else { Neighbours(dead, k, i, len); }
  }

  lemma BypassIsLinked<I, O>(N: seq<Node<I, O>>, nx: seq<Node?<I, O>>, pv: seq<Node?<I, O>>, dead: set<int>, i: int)
    requires 0 < i < |N| == |nx| == |pv| && i !in dead && 0 !in dead && LinkedBy(N, nx, pv, dead)
    ensures LinkedBy(N, nx[PrevLive(dead, i) := nx[i]], SetAt(pv, NextLive(dead, i, |N|), pv[i]), dead + {i})
  {
    assert HookedBy(N, nx, pv, dead, i);
    forall k | 0 <= k < |N| && k !in dead + {i}
      ensures HookedBy(N, nx[PrevLive(dead, i) := nx[i]], SetAt(pv, NextLive(dead, i, |N|), pv[i]), dead + {i}, k)
    {
      assert HookedBy(N, nx, pv, dead, k);
      LiveLinksWithout(dead, i, k, |N|);
    }
  }

  lemma RestoreIsLinked<I, O>(N: seq<Node<I, O>>, nx: seq<Node?<I, O>>, pv: seq<Node?<I, O>>, dead: set<int>, i: int)
    requires 0 < i < |N| == |nx| == |pv| && i !in dead && 0 !in dead
    requires LinkedBy(N, nx, pv, dead + {i}) && HookedBy(N, nx, pv, dead, i)
    ensures LinkedBy(N, nx[PrevLive(dead, i) := N[i]], SetAt(pv, NextLive(dead, i, |N|), N[i]), dead)
  {
    forall k | 0 <= k < |N| && k !in dead
      ensures HookedBy(N, nx[PrevLive(dead, i) := N[i]], SetAt(pv, NextLive(dead, i, |N|), N[i]), dead, k)
    {
      if k != i {
        assert HookedBy(N, nx, pv, dead + {i}, k);
        LiveLinksWithout(dead, i, k, |N|);
        if k < i { Neighbours(dead, i, k, |N|); } else { Neighbours(dead, k, i, |N|); }
      }
    }
  }

  /** The dead nodes have the links given by `nx` and `pv`. */
  ghost predicate KeepsLinks<I, O>(N: seq<Node<I, O>>, dead: set<int>, nx: seq<Node?<I, O>>, pv: seq<Node?<I, O>>)
    requires |N| == |nx| == |pv|
    reads N
  {
    forall k :: 0 <= k < |N| && k in dead ==> N[k].next == nx[k] && N[k].prev == pv[k]
  }

  ghost function SetAt<T>(s: seq<T>, k: int, v: T): (r: seq<T>)
    requires 0 <= k <= |s|
    ensures |r| == |s|
  {
    if k < |s| then s[k := v] else s
  }

  lemma HookedKept<I, O>(N: seq<Node<I, O>>, nx: seq<Node?<I, O>>, pv: seq<Node?<I, O>>, nx': seq<Node?<I, O>>,
        pv': seq<Node?<I, O>>, dead: set<int>, k: int)
    requires 0 <= k < |N| == |nx| == |pv| == |nx'| == |pv'| && 0 !in dead
    requires HookedBy(N, nx, pv, dead, k) && nx'[k] == nx[k] && pv'[k] == pv[k]
    ensures HookedBy(N, nx', pv', dead, k)
  {
  }

  lemma SetKeepsLinks<I, O>(N: seq<Node<I, O>>, nx: seq<Node?<I, O>>, pv: seq<Node?<I, O>>, dead: set<int>,
        a: int, x: Node?<I, O>, b: int, y: Node?<I, O>)
    requires |N| == |nx| == |pv| && 0 <= a < |N| && 0 <= b <= |N| && a !in dead && (b < |N| ==> b !in dead)
    requires Nexts(N) == nx[a := x] && Prevs(N) == SetAt(pv, b, y)
    ensures KeepsLinks(N, dead, nx, pv)
  {
    forall k | 0 <= k < |N| && k in dead ensures N[k].next == nx[k] && N[k].prev == pv[k] {
      assert Nexts(N)[k] == nx[k] && Prevs(N)[k] == pv[k];
    }
  }

  /** The links after the neighbours of node `i` were redirected past it. */
  lemma Unhooked<I, O>(N: seq<Node<I, O>>, nx: seq<Node?<I, O>>, pv: seq<Node?<I, O>>, dead: set<int>, i: int)
    requires 0 < i < |N| == |nx| == |pv| && i !in dead && 0 !in dead && Distinct(N) && LinkedBy(N, nx, pv, dead)
    requires Nexts(N) == nx[PrevLive(dead, i) := nx[i]] && Prevs(N) == SetAt(pv, NextLive(dead, i, |N|), pv[i])
    ensures Linked(N, dead + {i}) && Hooked(N, dead, i) && KeepsLinks(N, dead + {i}, nx, pv)
  {
    assert HookedBy(N, nx, pv, dead, i);
    hide LinkedBy, HookedBy, NextLive, PrevLive, KeepsLinks;
    BypassIsLinked(N, nx, pv, dead, i);
    SetKeepsLinks(N, nx, pv, dead + {i}, PrevLive(dead, i), nx[i], NextLive(dead, i, |N|), pv[i]);
    HookedKept(N, nx, pv, Nexts(N), Prevs(N), dead, i);
  }

  /** The links after the remembered neighbours of node `i` were redirected back to it. */
  lemma Rehooked<I, O>(N: seq<Node<I, O>>, nx: seq<Node?<I, O>>, pv: seq<Node?<I, O>>, dead: set<int>, i: int)
    requires 0 < i < |N| == |nx| == |pv| && i !in dead && 0 !in dead && Distinct(N)
    requires LinkedBy(N, nx, pv, dead + {i}) && HookedBy(N, nx, pv, dead, i)
    requires Nexts(N) == nx[PrevLive(dead, i) := N[i]] && Prevs(N) == SetAt(pv, NextLive(dead, i, |N|), N[i])
    ensures Linked(N, dead) && KeepsLinks(N, dead, nx, pv)
  {
    hide LinkedBy, HookedBy, NextLive, PrevLive, KeepsLinks;
    RestoreIsLinked(N, nx, pv, dead, i);
    SetKeepsLinks(N, nx, pv, dead, PrevLive(dead, i), N[i], NextLive(dead, i, |N|), N[i]);
  }

  lemma NextAtMost(dead: set<int>, i: int, j: int, len: int)
    requires 0 <= i < j < len && j !in dead
    ensures NextLive(dead, i, len) <= j
  {
    NextGap(dead, i, len);
  }

  /** The first half of `lift`: the neighbours of a call are redirected past it; its own links stay.
      There is a node after it. */
  method UnhookCall<I, O>(node: Node<I, O>, ghost N: seq<Node<I, O>>, ghost dead: set<int>, ghost i: int)
    requires Linked(N, dead) && 0 < i < |N| && i !in dead && N[i] == node && NextLive(dead, i, |N|) < |N|
    modifies N
    ensures Linked(N, dead + {i}) && Hooked(N, dead, i) && old(node.next) != null
    ensures KeepsLinks(N, dead + {i}, old(Nexts(N)), old(Prevs(N)))
  {
    assert Hooked(N, dead, i);
    ghost var a, b := PrevLive(dead, i), NextLive(dead, i, |N|);
    assert node.prev == N[a] && node.next == N[b];
    ghost var nx, pv := Nexts(N), Prevs(N);
    assert forall k :: 0 <= k < |N| && k != a ==> N[k] != N[a];
    assert b < |N| ==> forall k :: 0 <= k < |N| && k != b ==> N[k] != N[b];
    hide Linked, LinkedBy, HookedBy, KeepsLinks, NextLive, PrevLive, Distinct;
    node.prev.next := node.next;
    node.next.prev := node.prev;
    assert Nexts(N) == nx[a := nx[i]];
    assert Prevs(N) == SetAt(pv, b, pv[i]);
    Unhooked(N, nx, pv, dead, i);
  }

  /** The second half of `lift`, for a return, which may be last in the list. */
  method Unhook<I, O>(node: Node<I, O>, ghost N: seq<Node<I, O>>, ghost dead: set<int>, ghost i: int)
    requires Linked(N, dead) && 0 < i < |N| && i !in dead && N[i] == node
    modifies N
    ensures Linked(N, dead + {i}) && Hooked(N, dead, i)
    ensures KeepsLinks(N, dead + {i}, old(Nexts(N)), old(Prevs(N)))
  {
    assert Hooked(N, dead, i);
    ghost var a, b := PrevLive(dead, i), NextLive(dead, i, |N|);
    assert node.prev == N[a] && node.next == NodeAt(N, b);
    ghost var nx, pv := Nexts(N), Prevs(N);
    assert forall k :: 0 <= k < |N| && k != a ==> N[k] != N[a];
    assert b < |N| ==> forall k :: 0 <= k < |N| && k != b ==> N[k] != N[b];
    hide Linked, LinkedBy, HookedBy, KeepsLinks, NextLive, PrevLive, Distinct;
    node.prev.next := node.next;
    if node.next != null {
      node.next.prev := node.prev;
    }
    assert Nexts(N) == nx[a := nx[i]];
    assert Prevs(N) == SetAt(pv, b, pv[i]);
    Unhooked(N, nx, pv, dead, i);
  }

  /** The first half of `unlift`: the neighbours that a return still remembers are redirected back to it. */
  method Rehook<I, O>(node: Node<I, O>, ghost N: seq<Node<I, O>>, ghost dead: set<int>, ghost i: int)
    requires 0 < i < |N| && i !in dead && N[i] == node
    requires Linked(N, dead + {i}) && Hooked(N, dead, i)
    modifies N
    ensures Linked(N, dead)
    ensures KeepsLinks(N, dead, old(Nexts(N)), old(Prevs(N)))
  {
    ghost var a, b := PrevLive(dead, i), NextLive(dead, i, |N|);
    assert node.prev == N[a] && node.next == NodeAt(N, b);
    ghost var nx, pv := Nexts(N), Prevs(N);
    assert forall k :: 0 <= k < |N| && k != a ==> N[k] != N[a];
    assert b < |N| ==> forall k :: 0 <= k < |N| && k != b ==> N[k] != N[b];
    hide Linked, LinkedBy, HookedBy, KeepsLinks, NextLive, PrevLive, Distinct;
    node.prev.next := node;
    if node.next != null {
      node.next.prev := node;
    }
    assert Nexts(N) == nx[a := N[i]];
    assert Prevs(N) == SetAt(pv, b, N[i]);
    Rehooked(N, nx, pv, dead, i);
  }

  /** The second half of `unlift`, for a call: there is a node after it. */
  method RehookCall<I, O>(node: Node<I, O>, ghost N: seq<Node<I, O>>, ghost dead: set<int>, ghost i: int)
    requires 0 < i < |N| && i !in dead && N[i] == node && 0 !in dead && NextLive(dead, i, |N|) < |N|
    requires Linked(N, dead + {i}) && Hooked(N, dead, i)
    modifies N
    ensures Linked(N, dead) && old(node.next) != null
    ensures KeepsLinks(N, dead, old(Nexts(N)), old(Prevs(N)))
  {
    ghost var a, b := PrevLive(dead, i), NextLive(dead, i, |N|);
    assert node.prev == N[a] && node.next == N[b];
    ghost var nx, pv := Nexts(N), Prevs(N);
    assert forall k :: 0 <= k < |N| && k != a ==> N[k] != N[a];
    assert b < |N| ==> forall k :: 0 <= k < |N| && k != b ==> N[k] != N[b];
    hide Linked, LinkedBy, HookedBy, KeepsLinks, NextLive, PrevLive, Distinct;
    node.prev.next := node;
    node.next.prev := node;
    assert Nexts(N) == nx[a := N[i]];
    assert Prevs(N) == SetAt(pv, b, N[i]);
    Rehooked(N, nx, pv, dead, i);
  }

  /** Removes a call and its return from the list, keeping the links of both nodes. */
  method Lift<I, O>(entry: Node<I, O>, ghost N: seq<Node<I, O>>, ghost dead: set<int>, ghost i: int, ghost j: int)
    requires Linked(N, dead)
    requires 0 < i < j < |N| && i !in dead && j !in dead
    requires N[i] == entry && N[j] == entry.matching
    modifies N
    ensures Linked(N, dead + {i} + {j}) && old(entry.next) != null
    ensures Hooked(N, dead, i) && Hooked(N, dead + {i}, j)
    ensures KeepsLinks(N, dead, old(Nexts(N)), old(Prevs(N)))
  {
    NextAtMost(dead, i, j, |N|);
    UnhookCall(entry, N, dead, i);
    Unhook(entry.matching, N, dead + {i}, j);
  }

  /** Undoes the last lift: the list is again exactly what it was before it. */
  method Unlift<I, O>(entry: Node<I, O>, ghost N: seq<Node<I, O>>, ghost dead: set<int>, ghost i: int, ghost j: int)
    requires 0 < i < j < |N| && i !in dead && j !in dead
    requires N[i] == entry && N[j] == entry.matching
    requires Linked(N, dead + {i} + {j}) && Hooked(N, dead, i) && Hooked(N, dead + {i}, j)
    modifies N
    ensures Linked(N, dead) && old(entry.next) != null
    ensures KeepsLinks(N, dead, old(Nexts(N)), old(Prevs(N)))
  {
    NextAtMost(dead, i, j, |N|);
    Rehook(entry.matching, N, dead + {i}, j);
    RehookCall(entry, N, dead, i);
  }

  // ---- Building the list

  /** Puts `n` before `mark`; does nothing when there is no mark. */
  method InsertBefore<I, O>(n: Node<I, O>, mark: Node?<I, O>) returns (r: Node<I, O>)
    requires mark != null ==> n != mark && mark.prev != n && mark.prev != mark
    modifies n, mark, if mark == null then null else mark.prev
    ensures r == n
    ensures mark == null ==> n.next == old(n.next) && n.prev == old(n.prev)
    ensures mark != null ==>
      && n.next == mark && mark.prev == n && mark.next == old(mark.next)
      && n.prev == (if old(mark.prev) == null then old(n.prev) else old(mark.prev))
      && (old(mark.prev) != null ==> old(mark.prev).next == n && old(mark.prev).prev == old(mark.prev.prev))
  {
    if mark != null {
      var beforeMark := mark.prev;
      mark.prev := n;
      n.next := mark;
      if beforeMark != null {
        n.prev := beforeMark;
        beforeMark.next := n;
      }
    }
    return n;
  }

  /** `N` is a doubly linked list from its first node to its last. */
  ghost predicate Chain<I, O>(N: seq<Node<I, O>>)
    reads N
  {
    Distinct(N) && forall k :: 0 <= k < |N| ==> N[k].next == NodeAt(N, k + 1) && N[k].prev == NodeAt(N, k - 1)
  }

  /** Inserting an unlinked node before the first node of a list. */
  method Prepend<I, O>(n: Node<I, O>, root: Node?<I, O>, ghost N: seq<Node<I, O>>)
    requires Chain(N) && root == NodeAt(N, 0)
    requires n !in N && n.next == null && n.prev == null
    modifies n, N
    ensures Chain([n] + N)
  {
    assert root != null ==> root == N[0] && root.prev == NodeAt(N, -1);
    var _ := InsertBefore(n, root);
    ghost var N' := [n] + N;
    forall k | 0 <= k < |N'|
      ensures N'[k].next == NodeAt(N', k + 1) && N'[k].prev == NodeAt(N', k - 1)
    {
      if k > 0 {
        assert N'[k] == N[k - 1] && NodeAt(N', k + 1) == NodeAt(N, k);
      }
    }
  }

  /** Node `q - base` carries entry `q`, and points to the node of its return if it is a call. */
  ghost predicate Carries<I, O>(N: seq<Node<I, O>>, h: seq<Entry<I, O>>, base: int)
    requires WellFormed(h) && 0 <= base && |N| + base == |h|
  {
    forall q :: base <= q < |h| ==>
      && N[q - base].id == h[q].id && N[q - base].value == Some(h[q].value)
      && if h[q].IsCall() then base <= ReturnAt(h, h[q].id) && N[q - base].matching == N[ReturnAt(h, h[q].id) - base]
         else N[q - base].matching == null
  }

  /** `matches` finds the return nodes. */
  ghost predicate FindsReturns<I, O>(N: seq<Node<I, O>>, h: seq<Entry<I, O>>, base: int, matches: map<int, Node<I, O>>)
    requires 0 <= base && |N| + base == |h|
  {
    forall q :: base <= q < |h| && !h[q].IsCall() ==> h[q].id in matches && matches[h[q].id] == N[q - base]
  }

  lemma CarriesOneMore<I, O>(n: Node<I, O>, N: seq<Node<I, O>>, h: seq<Entry<I, O>>, base: int,
        matches: map<int, Node<I, O>>)
    requires WellFormed(h) && 0 <= base && |N| + base + 1 == |h| && Carries(N, h, base + 1)
      && FindsReturns(N, h, base + 1, matches)
    requires n.id == h[base].id && n.value == Some(h[base].value)
    requires n.matching == if h[base].IsCall() && n.id in matches then matches[n.id] else null
    ensures Carries([n] + N, h, base)
  {
    var x := h[base].id;
    if h[base].IsCall() {
      assert CallOf(h, base, x);
      var r := ReturnAt(h, x);
      assert base < r && h[r].id == x;
      assert n.matching == ([n] + N)[r - base];
    }
    assert 0 <= x < Count(h);
    assert forall q :: base < q < |h| ==> 0 <= h[q].id < Count(h);
    hide WellFormed, FindsReturns;
  }

  lemma FindsOneMore<I, O>(n: Node<I, O>, N: seq<Node<I, O>>, h: seq<Entry<I, O>>, base: int,
        matches: map<int, Node<I, O>>)
    requires WellFormed(h) && 0 <= base && |N| + base + 1 == |h| && FindsReturns(N, h, base + 1, matches)
    requires n.id == h[base].id
    ensures FindsReturns([n] + N, h, base, if h[base].IsCall() then matches else matches[n.id := n])
  {
  }

  /** The body of the loop: a node for entry `i`, put before the list of the later entries. */
  method AddEntry<I, O>(ghost entries: seq<Entry<I, O>>, ghost i: int, elem: Entry<I, O>, root: Node?<I, O>,
        matches: map<int, Node<I, O>>, ghost N: seq<Node<I, O>>)
    returns (entry: Node<I, O>, matches': map<int, Node<I, O>>)
    requires WellFormed(entries) && 0 <= i < |entries| && elem == entries[i] && |N| + i + 1 == |entries|
    requires Chain(N) && root == NodeAt(N, 0) && Carries(N, entries, i + 1) && FindsReturns(N, entries, i + 1, matches)
    modifies N
    ensures fresh(entry) && Chain([entry] + N) && entry == NodeAt([entry] + N, 0)
    ensures Carries([entry] + N, entries, i) && FindsReturns([entry] + N, entries, i, matches')
  {
    hide WellFormed, Carries, FindsReturns, Chain;
    if !elem.IsCall() {
      entry := new Node(Some(elem.value), null, elem.id);
      matches' := matches[elem.id := entry];
    } else {
      entry := new Node(Some(elem.value), if elem.id in matches then matches[elem.id] else null, elem.id);
      matches' := matches;
    }
    CarriesOneMore(entry, N, entries, i, matches);
    FindsOneMore(entry, N, entries, i, matches);
    Prepend(entry, root, N);
  }

  lemma NothingBuilt<I, O>(entries: seq<Entry<I, O>>, N: seq<Node<I, O>>, matches: map<int, Node<I, O>>)
    requires WellFormed(entries) && N == []
    ensures Carries(N, entries, |entries|) && FindsReturns(N, entries, |entries|, matches)
    ensures Chain(N) && NodeAt(N, 0) == null
  {
  }

  /** Builds the list from the last entry to the first. */
  method MakeLinkedEntries<I, O>(entries: seq<Entry<I, O>>) returns (root: Node?<I, O>, ghost N: seq<Node<I, O>>)
    requires WellFormed(entries)
    ensures |N| == |entries| && root == NodeAt(N, 0)
    ensures Chain(N) && Carries(N, entries, 0) && fresh(N)
  {
    hide WellFormed, Carries, FindsReturns, Chain, NodeAt;
    root, N := null, [];
    var matches: map<int, Node<I, O>> := map[];
    NothingBuilt(entries, N, matches);
    for i := |entries| downto 0
      invariant |N| == |entries| - i
      invariant fresh(N) && Chain(N) && root == NodeAt(N, 0)
      invariant Carries(N, entries, i) && FindsReturns(N, entries, i, matches)
    {
      var entry;
      entry, matches := AddEntry(entries, i, entries[i], root, matches, N);
      root, N := entry, [entry] + N;
    }
  }

  method Length<I, O>(n: Node?<I, O>, ghost N: seq<Node<I, O>>) returns (l: int)
    requires Chain(N) && n == NodeAt(N, 0)
    ensures l == |N|
  {
    var n := n;
    l := 0;
    while n != null
      invariant 0 <= l <= |N| && n == NodeAt(N, l)
      decreases |N| - l
    {
      n := n.next;
      l := l + 1;
    }
  }
}
