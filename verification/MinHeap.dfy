/** The intrusive binary min-heap behind the event loop's timers
    (deps/libuv/src/heap-inl.h).

    The tree is made of nodes that point at their left and right child and at
    their parent.  The ghost sequence `nodes` lists the members in level order:
    the node at position p (counted from 1) is `nodes[p-1]`, its children sit at
    2p and 2p+1 and its parent at p/2.  A tree whose pointers agree with such a
    sequence is complete by construction. */
module MinHeap {
  newtype uint32 = x: int | 0 <= x < 0x1_0000_0000

  class HeapNode {
    var left: HeapNode?
    var right: HeapNode?
    var parent: HeapNode?

    constructor ()
    {
      left, right, parent := null, null, null;
    }
  }

  // The caller's comparison: true if the first node sorts strictly before the second.
  type LessThan = (HeapNode, HeapNode) -> bool

  // Irreflexivity, transitivity and negative transitivity at one triple.
  ghost predicate WeakOrderAt(less: LessThan, a: HeapNode, b: HeapNode, c: HeapNode)
  {
    && !less(a, a)
    && (less(a, b) && less(b, c) ==> less(a, c))
    && (!less(a, b) && !less(b, c) ==> !less(a, c))
  }

  ghost predicate StrictWeakOrder(less: LessThan, members: set<HeapNode>)
  {
    forall a, b, c {:trigger WeakOrderAt(less, a, b, c)} ::
      a in members && b in members && c in members ==> WeakOrderAt(less, a, b, c)
  }

  // ---------------------------------------------------------------- level-order view

  // The node at position p, or null when the position is empty; position 0 is above the root.
  ghost function At(s: seq<HeapNode>, p: nat): HeapNode?
  {
    if 1 <= p <= |s| then s[p-1] else null
  }

  ghost predicate LinkedAt(s: seq<HeapNode>, p: nat)
    requires 1 <= p <= |s|
    reads s[p-1]
  {
    && s[p-1].left == At(s, 2*p)
    && s[p-1].right == At(s, 2*p+1)
    && s[p-1].parent == At(s, p/2)
  }

  ghost predicate Linked(s: seq<HeapNode>)
    reads s
  {
    forall p {:trigger LinkedAt(s, p)} :: 1 <= p <= |s| ==> LinkedAt(s, p)
  }

  // Positions p and q hold different nodes unless they are the same position.
  ghost predicate ApartAt(s: seq<HeapNode>, p: nat, q: nat)
    requires 1 <= p <= |s| && 1 <= q <= |s|
  {
    p != q ==> s[p-1] != s[q-1]
  }

  ghost predicate Distinct(s: seq<HeapNode>)
  {
    forall p, q {:trigger ApartAt(s, p, q)} :: 1 <= p <= |s| && 1 <= q <= |s| ==> ApartAt(s, p, q)
  }

  ghost function Members(s: seq<HeapNode>): set<HeapNode>
  {
    set n | n in s
  }

  // The heap property of the edge from position q up to its parent.
  ghost predicate EdgeOk(less: LessThan, s: seq<HeapNode>, q: nat)
    requires 2 <= q <= |s|
  {
    !less(s[q-1], s[q/2-1])
  }

  ghost predicate Ordered(less: LessThan, s: seq<HeapNode>)
  {
    forall q {:trigger EdgeOk(less, s, q)} :: 2 <= q <= |s| ==> EdgeOk(less, s, q)
  }

  ghost function SwapAt(s: seq<HeapNode>, p: nat, c: nat): seq<HeapNode>
    requires 1 <= p <= |s| && 1 <= c <= |s|
  {
    s[p-1 := s[c-1]][c-1 := s[p-1]]
  }

  // ---------------------------------------------------------------- paths

  // Where a walk ends that starts at position p and reads k bits of path, lowest bit first.
  ghost function Walk(p: nat, path: nat, k: nat): nat
    decreases k
  {
    if k == 0 then p else Walk(2*p + path % 2, path / 2, k - 1)
  }

  lemma {:induction false} WalkDescends(p: nat, path: nat, k: nat)
    ensures Walk(p, path, k) >= p
    ensures k > 0 ==> Walk(p, path, k) >= 2*p
    decreases k
  {
    if k > 0 {
      WalkDescends(2*p + path % 2, path / 2, k - 1);
    }
  }

  ghost function Pow2(k: nat): nat
  {
    if k == 0 then 1 else 2 * Pow2(k - 1)
  }

  lemma MulMonotone(a: nat, b: nat, c: nat)
    requires a <= b
    ensures a * c <= b * c
  {
  }

  lemma MulDouble(a: nat, b: nat)
    ensures (2 * a) * b == a * (2 * b)
  {
  }

  // A walk of k steps from the root ends k levels down: the height is at most log2 of the position.
  lemma {:induction false} WalkHeight(p: nat, path: nat, k: nat)
    ensures p * Pow2(k) <= Walk(p, path, k) < (p + 1) * Pow2(k)
    decreases k
  {
    if k > 0 {
      var q, w := 2*p + path % 2, Pow2(k - 1);
      WalkHeight(q, path / 2, k - 1);
      MulMonotone(2*p, q, w);
      MulMonotone(q + 1, 2*(p + 1), w);
      MulDouble(p, w);
      MulDouble(p + 1, w);
    }
  }

  // The bits of the path from the root to position total, lowest bit first.
  method PathTo(total: uint32) returns (path: uint32, k: uint32)
    requires total >= 1
    ensures Walk(1, path as nat, k as nat) == total as nat
  {
    path := 0;
    k := 0;
    var n := total;
    while n >= 2
      invariant 1 <= n
      invariant Walk(n as nat, path as nat, k as nat) == total as nat
      invariant path as nat < Pow2(k as nat)
      invariant k as nat + n as nat <= total as nat
    {
      WalkHeight(n as nat, path as nat, k as nat);
      MulMonotone(2, n as nat, Pow2(k as nat));
      path := 2*path + n % 2;
      k := k + 1;
      n := n / 2;
    }
  }

  // ---------------------------------------------------------------- order lemmas

  // No member sorts before the root.
  lemma {:induction false} RootIsLeast(less: LessThan, s: seq<HeapNode>, p: nat)
    requires StrictWeakOrder(less, Members(s)) && Ordered(less, s)
    requires 1 <= p <= |s|
    ensures !less(s[p-1], s[0])
  {
    if p == 1 {
      assert WeakOrderAt(less, s[0], s[0], s[0]);
    } else {
      RootIsLeast(less, s, p/2);
      assert EdgeOk(less, s, p);
      assert WeakOrderAt(less, s[p-1], s[p/2-1], s[0]);
    }
  }

  ghost function Swapped(p: nat, c: nat, q: nat): nat
  {
    if q == p then c else if q == c then p else q
  }

  lemma SwapAtReads(s: seq<HeapNode>, p: nat, c: nat, q: nat)
    requires 1 <= p <= |s| && 1 <= c <= |s| && 1 <= q <= |s|
    ensures SwapAt(s, p, c)[q-1] == s[Swapped(p, c, q)-1]
    ensures SwapAt(s, p, c)[Swapped(p, c, q)-1] == s[q-1]
  {
  }

  lemma SwapKeepsMembers(s: seq<HeapNode>, p: nat, c: nat)
    requires 1 <= p <= |s| && 1 <= c <= |s|
    ensures Members(SwapAt(s, p, c)) == Members(s)
  {
    var t := SwapAt(s, p, c);
    forall i | 0 <= i < |s| ensures t[i] in s && s[i] in t {
      SwapAtReads(s, p, c, i+1);
    }
  }

  lemma SwapKeepsDistinct(s: seq<HeapNode>, p: nat, c: nat)
    requires 1 <= p <= |s| && 1 <= c <= |s| && Distinct(s)
    ensures Distinct(SwapAt(s, p, c))
  {
    var t := SwapAt(s, p, c);
    forall q, r | 1 <= q <= |t| && 1 <= r <= |t| ensures ApartAt(t, q, r) {
      SwapAtReads(s, p, c, q);
      SwapAtReads(s, p, c, r);
      assert ApartAt(s, Swapped(p, c, q), Swapped(p, c, r));
    }
  }

  ghost predicate BridgesOver(less: LessThan, s: seq<HeapNode>, p: nat)
    requires 1 <= p <= |s|
  {
    p >= 2 ==>
      && (2*p <= |s| ==> !less(s[2*p-1], s[p/2-1]))
      && (2*p+1 <= |s| ==> !less(s[2*p], s[p/2-1]))
  }

  // All edges hold except possibly the one above p, and p's children do not sort before p's parent.
  ghost predicate OrderedExceptUp(less: LessThan, s: seq<HeapNode>, p: nat)
    requires 1 <= p <= |s|
  {
    && (forall q {:trigger EdgeOk(less, s, q)} :: 2 <= q <= |s| && q != p ==> EdgeOk(less, s, q))
    && BridgesOver(less, s, p)
  }

  // All edges hold except possibly those that touch p.
  ghost predicate OrderedAround(less: LessThan, s: seq<HeapNode>, p: nat)
    requires 1 <= p <= |s|
  {
    && (forall q {:trigger EdgeOk(less, s, q)} :: 2 <= q <= |s| && q != p && q/2 != p ==> EdgeOk(less, s, q))
    && BridgesOver(less, s, p)
  }

  lemma WeakOrderOn(less: LessThan, s: seq<HeapNode>, a: nat, b: nat, c: nat)
    requires StrictWeakOrder(less, Members(s))
    requires 1 <= a <= |s| && 1 <= b <= |s| && 1 <= c <= |s|
    ensures WeakOrderAt(less, s[a-1], s[b-1], s[c-1])
  {
    assert s[a-1] in Members(s) && s[b-1] in Members(s) && s[c-1] in Members(s);
  }

  lemma SiftUpStep(less: LessThan, s: seq<HeapNode>, p: nat)
    requires StrictWeakOrder(less, Members(s))
    requires 2 <= p <= |s| && OrderedExceptUp(less, s, p) && less(s[p-1], s[p/2-1])
    ensures OrderedExceptUp(less, SwapAt(s, p/2, p), p/2)
  {
    var t, r := SwapAt(s, p/2, p), p/2;
    WeakOrderOn(less, s, p, r, p);
    WeakOrderOn(less, s, r, p, r);
    forall q | 2 <= q <= |t| && q != r ensures EdgeOk(less, t, q) {
      if q == p {
      } else if q/2 == p {
        assert BridgesOver(less, s, p);
      } else if q/2 == r {
        assert EdgeOk(less, s, q);
        WeakOrderOn(less, s, q, r, p);
        WeakOrderOn(less, s, q, p, r);
        WeakOrderOn(less, s, p, q, r);
        WeakOrderOn(less, s, p, r, q);
      } else {
        assert EdgeOk(less, s, q);
      }
    }
    if r >= 2 {
      assert EdgeOk(less, s, r);
      if 2*r <= |s| && 2*r != p {
        assert EdgeOk(less, s, 2*r);
        WeakOrderOn(less, s, 2*r, r, r/2);
      }
      if 2*r+1 <= |s| && 2*r+1 != p {
        assert EdgeOk(less, s, 2*r+1);
        WeakOrderOn(less, s, 2*r+1, r, r/2);
      }
    }
  }

  // The child at c is one that no child of p sorts before.
  ghost predicate SmallestChild(less: LessThan, s: seq<HeapNode>, p: nat, c: nat)
    requires 1 <= p <= |s| && 1 <= c <= |s|
  {
    && (2*p <= |s| ==> !less(s[2*p-1], s[c-1]))
    && (2*p+1 <= |s| ==> !less(s[2*p], s[c-1]))
  }

  lemma LeastOfThree(less: LessThan, s: seq<HeapNode>, p: nat, c: nat)
    requires StrictWeakOrder(less, Members(s)) && 1 <= p <= |s| && 1 <= c <= |s|
    requires
      var l, r := At(s, 2*p), At(s, 2*p+1);
      var first := if l != null && less(l, s[p-1]) then 2*p else p;
      c == if r != null && less(r, s[first-1]) then 2*p+1 else first
    ensures SmallestChild(less, s, p, c)
    ensures c != p ==> less(s[c-1], s[p-1])
  {
    WeakOrderOn(less, s, c, p, c);
    if 2*p <= |s| {
      WeakOrderOn(less, s, 2*p, p, c);
      WeakOrderOn(less, s, c, 2*p, p);
      if c == 2*p+1 {
        WeakOrderOn(less, s, 2*p, c, 2*p);
      }
    }
    if 2*p+1 <= |s| {
      WeakOrderOn(less, s, 2*p+1, 2*p+1, p);
    }
  }

  // Where no child sorts before p, all edges hold but perhaps the one above.
  lemma AroundIsUp(less: LessThan, s: seq<HeapNode>, p: nat)
    requires 1 <= p <= |s| && OrderedAround(less, s, p) && SmallestChild(less, s, p, p)
    ensures OrderedExceptUp(less, s, p)
  {
    forall q | 2 <= q <= |s| && q != p ensures EdgeOk(less, s, q) {
      assert q/2 == p ==> q == 2*p || q == 2*p+1;
    }
  }

  lemma SwappedAt(s: seq<HeapNode>, p: nat, c: nat)
    requires 1 <= p <= |s| && 1 <= c <= |s|
    ensures |SwapAt(s, p, c)| == |s| && SwapAt(s, p, c)[c-1] == s[p-1]
  {
  }

  lemma SiftDownStep(less: LessThan, s: seq<HeapNode>, p: nat, c: nat)
    requires StrictWeakOrder(less, Members(s))
    requires 1 <= p <= |s| && 2 <= c <= |s| && c/2 == p && OrderedAround(less, s, p)
    requires less(s[c-1], s[p-1]) && SmallestChild(less, s, p, c)
    ensures OrderedAround(less, SwapAt(s, p, c), c)
  {
    var t := SwapAt(s, p, c);
    forall q | 2 <= q <= |t| && q != c && q/2 != c ensures EdgeOk(less, t, q) {
      if q == p {
        assert BridgesOver(less, s, p);
      } else if q/2 == p {
      } else {
        assert EdgeOk(less, s, q);
      }
    }
    assert 2*c <= |s| ==> EdgeOk(less, s, 2*c);
    assert 2*c+1 <= |s| ==> EdgeOk(less, s, 2*c+1);
  }

  // ---------------------------------------------------------------- the heap itself

  // A pointer-to-pointer of the source: heap->min, or a child field of some node.
  datatype Slot = MinSlot | LeftOf(owner: HeapNode) | RightOf(owner: HeapNode)

  ghost function Opt(n: HeapNode?): set<object>
  {
    if n == null then {} else {n}
  }

  ghost function Sibling(c: nat): nat
  {
    if c % 2 == 0 then c+1 else c-1
  }

  lemma Apart(s: seq<HeapNode>, q: nat, r: nat)
    requires Distinct(s) && q != r
    ensures At(s, q) != null ==> At(s, q) != At(s, r)
  {
    if 1 <= q <= |s| && 1 <= r <= |s| {
      assert ApartAt(s, q, r);
    }
  }

  // The node at p is at no other position.
  lemma ApartFrom(s: seq<HeapNode>, p: nat)
    requires Distinct(s) && 1 <= p <= |s|
    ensures forall q {:trigger At(s, q)} :: q != p ==> s[p-1] != At(s, q)
  {
    forall q | q != p ensures s[p-1] != At(s, q) {
      Apart(s, p, q);
    }
  }

  // The positions whose nodes a swap of p and c writes.
  ghost predicate Touched(p: nat, c: nat, q: nat)
  {
    q == p || q == c || q == Sibling(c) || q == 2*c || q == 2*c+1 || q == p/2
  }

  // The child links of position q are those of the level order s.
  ghost predicate KidsAt(s: seq<HeapNode>, q: nat)
    reads Opt(At(s, q))
  {
    At(s, q) != null ==> At(s, q).left == At(s, 2*q) && At(s, q).right == At(s, 2*q+1)
  }

  // The pointers of the nodes around p and c after the swap, in terms of the order before it.
  ghost predicate AfterSwap(s: seq<HeapNode>, p: nat, c: nat)
    requires 1 <= p <= |s| && 1 <= c <= |s|
    reads s[p-1], s[c-1], Opt(At(s, Sibling(c))), Opt(At(s, 2*c)), Opt(At(s, 2*c+1)), Opt(At(s, p/2))
  {
    var parent, child, sib, gl, gr, grand := s[p-1], s[c-1], At(s, Sibling(c)), At(s, 2*c), At(s, 2*c+1), At(s, p/2);
    && parent.left == gl && parent.right == gr && parent.parent == child
    && child.parent == grand
    && (c == 2*p ==> child.left == parent && child.right == sib)
    && (c == 2*p+1 ==> child.right == parent && child.left == sib)
    && (sib != null ==> sib.parent == child) && KidsAt(s, Sibling(c))
    && (gl != null ==> gl.parent == parent) && KidsAt(s, 2*c)
    && (gr != null ==> gr.parent == parent) && KidsAt(s, 2*c+1)
    && (grand != null ==> grand.parent == At(s, p/2/2)
                          && (p % 2 == 0 ==> grand.left == child && grand.right == At(s, p+1))
                          && (p % 2 == 1 ==> grand.right == child && grand.left == At(s, p-1)))
  }

  lemma UntouchedApart(s: seq<HeapNode>, p: nat, c: nat, q: nat)
    requires Distinct(s) && 1 <= p <= |s| && 1 <= c <= |s| && 1 <= q <= |s| && !Touched(p, c, q)
    ensures s[q-1] !in {s[p-1], s[c-1], At(s, Sibling(c)), At(s, 2*c), At(s, 2*c+1), At(s, p/2)}
  {
    ApartFrom(s, q);
    assert s[p-1] == At(s, p) && s[c-1] == At(s, c);
  }

  // The links of the node at position q once p and its child at c have been swapped.
  ghost predicate RelinkedAt(s: seq<HeapNode>, p: nat, c: nat, q: nat)
    requires 1 <= p <= |s| && 1 <= c <= |s| && 1 <= q <= |s|
    reads s[q-1]
  {
    var r := Swapped(p, c, q);
    && s[q-1].left == At(s, Swapped(p, c, 2*r))
    && s[q-1].right == At(s, Swapped(p, c, 2*r+1))
    && s[q-1].parent == At(s, Swapped(p, c, r/2))
  }

  lemma AroundPair(s: seq<HeapNode>, p: nat, c: nat, q: nat)
    requires 1 <= p && 2 <= c <= |s| && (c == 2*p || c == 2*p+1) && AfterSwap(s, p, c)
    requires 1 <= q <= |s| && (q == p || q == c)
    ensures RelinkedAt(s, p, c, q)
  {
  }

  lemma AroundGrand(s: seq<HeapNode>, p: nat, c: nat, q: nat)
    requires 1 <= p && 2 <= c <= |s| && (c == 2*p || c == 2*p+1) && AfterSwap(s, p, c)
    requires 1 <= q <= |s| && q == p/2
    ensures RelinkedAt(s, p, c, q)
  {
  }

  lemma AroundSibling(s: seq<HeapNode>, p: nat, c: nat)
    requires 1 <= p && 2 <= c <= |s| && (c == 2*p || c == 2*p+1) && AfterSwap(s, p, c)
    requires 1 <= Sibling(c) <= |s|
    ensures RelinkedAt(s, p, c, Sibling(c))
  {
  }

  lemma AroundKin(s: seq<HeapNode>, p: nat, c: nat, q: nat)
    requires 1 <= p && 2 <= c <= |s| && (c == 2*p || c == 2*p+1) && AfterSwap(s, p, c)
    requires 1 <= q <= |s| && (q == 2*c || q == 2*c+1)
    ensures RelinkedAt(s, p, c, q)
  {
  }

  lemma AtSwapped(s: seq<HeapNode>, p: nat, c: nat, q: nat)
    requires 1 <= p <= |s| && 1 <= c <= |s|
    ensures At(SwapAt(s, p, c), q) == At(s, Swapped(p, c, q))
  {
  }

  lemma SwapRelinksAt(s: seq<HeapNode>, p: nat, c: nat, r: nat)
    requires 1 <= p && 2 <= c <= |s| && c/2 == p && 1 <= r <= |s|
    requires var q := Swapped(p, c, r); if Touched(p, c, q) then RelinkedAt(s, p, c, q) else LinkedAt(s, q)
    ensures LinkedAt(SwapAt(s, p, c), r)
  {
    AtSwapped(s, p, c, r);
    AtSwapped(s, p, c, 2*r);
    AtSwapped(s, p, c, 2*r+1);
    AtSwapped(s, p, c, r/2);
  }

  lemma SwapRelinks(s: seq<HeapNode>, p: nat, c: nat)
    requires 1 <= p && 2 <= c <= |s| && c/2 == p
    requires forall q {:trigger LinkedAt(s, q)} :: 1 <= q <= |s| && !Touched(p, c, q) ==> LinkedAt(s, q)
    requires AfterSwap(s, p, c)
    ensures Linked(SwapAt(s, p, c))
  {
    forall r | 1 <= r <= |s| ensures LinkedAt(SwapAt(s, p, c), r) {
      var q := Swapped(p, c, r);
      if q == p || q == c {
        AroundPair(s, p, c, q);
      } else if q == p/2 {
        AroundGrand(s, p, c, q);
      } else if q == Sibling(c) {
        AroundSibling(s, p, c);
      } else if Touched(p, c, q) {
        AroundKin(s, p, c, q);
      } else {
        assert LinkedAt(s, q);
      }
      SwapRelinksAt(s, p, c, r);
    }
  }

  lemma AppendLinks(s: seq<HeapNode>, n: HeapNode)
    requires var p := |s| + 1;
      && n.left == null && n.right == null && n.parent == At(s, p/2)
      && (p >= 2 ==>
            && s[p/2-1].parent == At(s, p/2/2)
            && s[p/2-1].left == (if p % 2 == 0 then n else At(s, p-1))
            && s[p/2-1].right == (if p % 2 == 0 then null else n))
    requires forall q {:trigger LinkedAt(s, q)} :: 1 <= q <= |s| && q != (|s|+1)/2 ==> LinkedAt(s, q)
    ensures Linked(s + [n])
  {
    var t, p := s + [n], |s| + 1;
    forall q | 1 <= q <= p ensures LinkedAt(t, q) {
      assert q < p && q != p/2 ==> LinkedAt(s, q);
    }
  }

  lemma AppendDistinct(s: seq<HeapNode>, n: HeapNode)
    requires n !in s && Distinct(s)
    ensures Distinct(s + [n])
  {
    forall q, r | 1 <= q <= |s|+1 && 1 <= r <= |s|+1 ensures ApartAt(s + [n], q, r) {
      assert q <= |s| && r <= |s| ==> ApartAt(s, q, r);
    }
  }

  lemma DropKeeps(s: seq<HeapNode>)
    requires |s| > 0 && Distinct(s)
    ensures Distinct(s[..|s|-1]) && Members(s[..|s|-1]) == Members(s) - {s[|s|-1]}
    ensures s[|s|-1] !in s[..|s|-1]
  {
    var t := s[..|s|-1];
    forall q, r | 1 <= q <= |t| && 1 <= r <= |t| ensures ApartAt(t, q, r) {
      assert ApartAt(s, q, r);
    }
    forall i | 0 <= i < |t| ensures t[i] != s[|s|-1] {
      assert ApartAt(s, i+1, |s|);
    }
    assert s == t + [s[|s|-1]];
  }

  // Dropping the last node and putting it at index i removes exactly the node that was there.
  lemma ReplaceMembers(s: seq<HeapNode>, i: nat)
    requires Distinct(s) && i + 1 < |s|
    ensures Members(s[..|s|-1][i := s[|s|-1]]) == Members(s) - {s[i]}
  {
    var t := s[..|s|-1][i := s[|s|-1]];
    forall j | 0 <= j < |s| && j != i ensures s[j] in t && s[j] != s[i] {
      assert ApartAt(s, j+1, i+1);
      assert s[j] == t[if j == |s|-1 then i else j];
    }
    forall j | 0 <= j < |t| ensures t[j] in s {
      assert t[j] == s[if j == i then |s|-1 else j];
    }
    forall j | 0 <= j < |t| ensures t[j] != s[i] {
      assert ApartAt(s, i+1, if j == i then |s| else j+1);
    }
  }

  lemma ReplaceOrder(less: LessThan, s: seq<HeapNode>, i: nat)
    requires StrictWeakOrder(less, Members(s)) && Ordered(less, s) && i + 1 < |s|
    ensures OrderedAround(less, s[..|s|-1][i := s[|s|-1]], i+1)
  {
    var p, t := i+1, s[..|s|-1][i := s[|s|-1]];
    forall q | 2 <= q <= |t| && q != p && q/2 != p ensures EdgeOk(less, t, q) {
      assert EdgeOk(less, s, q);
    }
    if p >= 2 {
      assert EdgeOk(less, s, p);
      if 2*p <= |s| {
        assert EdgeOk(less, s, 2*p);
        WeakOrderOn(less, s, 2*p, p, p/2);
      }
      if 2*p+1 <= |s| {
        assert EdgeOk(less, s, 2*p+1);
        WeakOrderOn(less, s, 2*p+1, p, p/2);
      }
    }
  }

  // n has taken over the pointers of position p, and is pointed at instead.
  ghost predicate AfterPut(s: seq<HeapNode>, p: nat, n: HeapNode)
    reads n, Opt(At(s, 2*p)), Opt(At(s, 2*p+1)), Opt(At(s, p/2))
  {
    var gl, gr, grand := At(s, 2*p), At(s, 2*p+1), At(s, p/2);
    && n.left == gl && n.right == gr && n.parent == grand
    && (gl != null ==> gl.parent == n) && KidsAt(s, 2*p)
    && (gr != null ==> gr.parent == n) && KidsAt(s, 2*p+1)
    && (grand != null ==> grand.parent == At(s, p/2/2)
                          && (p % 2 == 0 ==> grand.left == n && grand.right == At(s, p+1))
                          && (p % 2 == 1 ==> grand.right == n && grand.left == At(s, p-1)))
  }

  lemma ReplaceLinks(s: seq<HeapNode>, p: nat, n: HeapNode)
    requires 1 <= p <= |s| && n !in s && AfterPut(s, p, n)
    requires forall q {:trigger LinkedAt(s, q)} ::
      1 <= q <= |s| && q != p && q != 2*p && q != 2*p+1 && q != p/2 ==> LinkedAt(s, q)
    ensures Linked(s[p-1 := n])
  {
    var t := s[p-1 := n];
    forall q | 1 <= q <= |s| ensures LinkedAt(t, q) {
      if q == p {
      } else if q == p/2 {
      } else if q == 2*p || q == 2*p+1 {
      } else {
        assert LinkedAt(s, q);
      }
    }
  }

  lemma ReplaceDistinct(s: seq<HeapNode>, p: nat, n: HeapNode)
    requires 1 <= p <= |s| && n !in s && Distinct(s)
    ensures Distinct(s[p-1 := n])
  {
    var t := s[p-1 := n];
    forall q, r | 1 <= q <= |t| && 1 <= r <= |t| ensures ApartAt(t, q, r) {
      assert ApartAt(s, q, r);
    }
  }

  lemma NeighboursApart(s: seq<HeapNode>, p: nat)
    requires Distinct(s) && 1 <= p <= |s|
    ensures var gl, gr, grand := At(s, 2*p), At(s, 2*p+1), At(s, p/2);
      && (gl != null ==> gl != gr && gl != grand) && (gr != null ==> gr != grand)
      && gl != s[p-1] && gr != s[p-1] && grand != s[p-1]
      && (p >= 2 ==> At(s, 2*(p/2)) != At(s, 2*(p/2)+1))
  {
    Apart(s, 2*p, 2*p+1);
    Apart(s, 2*p, p/2);
    Apart(s, 2*p+1, p/2);
    Apart(s, 2*(p/2), 2*(p/2)+1);
    ApartFrom(s, p);
  }

  lemma NeighboursApartFrom(s: seq<HeapNode>, p: nat, q: nat)
    requires Distinct(s) && 1 <= p <= |s| && 1 <= q <= |s|
    requires q != p && q != 2*p && q != 2*p+1 && q != p/2
    ensures s[q-1] !in {s[p-1], At(s, 2*p), At(s, 2*p+1), At(s, p/2)}
  {
    ApartFrom(s, q);
    assert s[p-1] == At(s, p);
  }

  class Heap {
    var min: HeapNode?
    var nelts: uint32
    ghost var nodes: seq<HeapNode>

    // Shape: complete tree with exactly nelts nodes and agreeing parent and child pointers.
    ghost predicate Shape()
      reads this, nodes
    {
      && |nodes| == nelts as nat
      && Distinct(nodes)
      && min == At(nodes, 1)
      && Linked(nodes)
    }

    ghost predicate Valid(less: LessThan)
      reads this, nodes
    {
      && Shape()
      && Ordered(less, nodes)
    }

    constructor ()
      ensures Shape() && nodes == []
      ensures forall less :: Valid(less)
    {
      min := null;
      nelts := 0;
      nodes := [];
    }

    function Load(slot: Slot): HeapNode?
      reads this, if slot.MinSlot? then {} else {slot.owner}
    {
      match slot
      case MinSlot => min
      case LeftOf(n) => n.left
      case RightOf(n) => n.right
    }

    // The slot that holds position p of the level order.
    ghost predicate SlotOf(slot: Slot, p: nat)
      requires 1 <= p
      reads this
    {
      if p == 1 then slot == MinSlot
      else
        && p/2 <= |nodes|
        && slot == (if p % 2 == 0 then LeftOf(nodes[p/2-1]) else RightOf(nodes[p/2-1]))
    }

    method Store(slot: Slot, n: HeapNode?)
      modifies if slot.MinSlot? then {this as object} else {slot.owner as object}
      ensures slot.MinSlot? ==> min == n && nelts == old(nelts) && nodes == old(nodes)
      ensures slot.LeftOf? ==>
        slot.owner.left == n && slot.owner.right == old(slot.owner.right) && slot.owner.parent == old(slot.owner.parent)
      ensures slot.RightOf? ==>
        slot.owner.right == n && slot.owner.left == old(slot.owner.left) && slot.owner.parent == old(slot.owner.parent)
    {
      match slot
      case MinSlot => min := n;
      case LeftOf(o) => o.left := n;
      case RightOf(o) => o.right := n;
    }

    // Follows the path from the root slot to the slot of position total.
    method Descend(path: uint32, k: uint32, ghost total: nat) returns (parent: Slot, child: Slot)
      requires Shape()
      requires Walk(1, path as nat, k as nat) == total && 1 <= total <= |nodes| + 1
      ensures SlotOf(child, total)
      ensures total == 1 ==> parent == child
      ensures total > 1 ==> SlotOf(parent, total/2)
    {
      parent, child := MinSlot, MinSlot;
      var bits, left := path, k;
      ghost var p: nat := 1;
      while left > 0
        invariant p >= 1 && Walk(p, bits as nat, left as nat) == total
        invariant SlotOf(child, p)
        invariant if p == 1 then parent == child else SlotOf(parent, p/2)
      {
        WalkDescends(p, bits as nat, left as nat);
        assert LinkedAt(nodes, p);
        assert p >= 2 ==> LinkedAt(nodes, p/2);
        parent := child;
        var here := Load(child);
        assert here == nodes[p-1];
        if bits % 2 == 1 {
          child := RightOf(here);
        } else {
          child := LeftOf(here);
        }
        p := 2*p + bits as nat % 2;
        bits := bits / 2;
        left := left - 1;
      }
    }

    // The pointers around a parent and its child: the child's sibling and children and the
    // parent's parent, all different nodes where they exist.
    ghost predicate Surroundings(parent: HeapNode, child: HeapNode, sibling: HeapNode?, left: HeapNode?,
                                 right: HeapNode?, grand: HeapNode?)
      reads this, parent, child, Opt(grand)
    {
      && parent != child && child.left == left && child.right == right && parent.parent == grand
      && ((parent.left == child && parent.right == sibling) || (parent.right == child && parent.left == sibling))
      && (grand == null ==> min == parent)
      && sibling != parent && sibling != child && left != parent && left != child && right != parent && right != child
      && grand != parent && grand != child
      && (left != null ==> left != right && left != sibling && left != grand)
      && (right != null ==> right != sibling && right != grand)
      && (sibling != null ==> sibling != grand)
      && (grand != null ==> (grand.left == parent) != (grand.right == parent))
    }

    // Swaps parent with child in the tree: child moves closer to the root, parent moves away.
    method SwapLinks(parent: HeapNode, child: HeapNode, ghost sib: HeapNode?, ghost gl: HeapNode?,
                     ghost gr: HeapNode?, ghost grand: HeapNode?)
      requires Surroundings(parent, child, sib, gl, gr, grand)
      modifies this`min, parent, child, Opt(sib) + Opt(gl) + Opt(gr) + Opt(grand)
      ensures child.parent == grand && parent.parent == child
      ensures old(parent.left) == child ==> child.left == parent && child.right == sib
      ensures old(parent.left) != child ==> child.right == parent && child.left == sib
      ensures parent.left == gl && parent.right == gr
      ensures sib != null ==> sib.parent == child && sib.left == old(sib.left) && sib.right == old(sib.right)
      ensures gl != null ==> gl.parent == parent && gl.left == old(gl.left) && gl.right == old(gl.right)
      ensures gr != null ==> gr.parent == parent && gr.left == old(gr.left) && gr.right == old(gr.right)
      ensures min == if grand == null then child else old(min)
      ensures grand != null ==> grand.parent == old(grand.parent)
      ensures grand != null && old(grand.left) == parent ==> grand.left == child && grand.right == old(grand.right)
      ensures grand != null && old(grand.left) != parent ==> grand.right == child && grand.left == old(grand.left)
    {
      var tl, tr, tp := parent.left, parent.right, parent.parent;
      parent.left, parent.right, parent.parent := child.left, child.right, child.parent;
      child.left, child.right, child.parent := tl, tr, tp;

      parent.parent := child;
      var sibling;
      if child.left == child {
        child.left := parent;
        sibling := child.right;
      } else {
        child.right := parent;
        sibling := child.left;
      }
      if sibling != null {
        sibling.parent := child;
      }
      if parent.left != null {
        parent.left.parent := parent;
      }
      if parent.right != null {
        parent.right.parent := parent;
      }
      if child.parent == null {
        min := child;
      } else if child.parent.left == parent {
        child.parent.left := child;
      } else {
        child.parent.right := child;
      }
    }

    lemma SurroundingsOf(p: nat, c: nat)
      requires Shape() && 1 <= p && 2 <= c <= |nodes| && c/2 == p
      ensures Surroundings(nodes[p-1], nodes[c-1], At(nodes, Sibling(c)), At(nodes, 2*c), At(nodes, 2*c+1),
        At(nodes, p/2))
    {
      var sp := Sibling(c);
      assert LinkedAt(nodes, p) && LinkedAt(nodes, c);
      assert p >= 2 ==> LinkedAt(nodes, p/2);
      assert At(nodes, sp) != null ==> LinkedAt(nodes, sp);
      assert At(nodes, 2*c) != null ==> LinkedAt(nodes, 2*c);
      assert At(nodes, 2*c+1) != null ==> LinkedAt(nodes, 2*c+1);
      ApartFrom(nodes, p);
      ApartFrom(nodes, c);
      Apart(nodes, sp, p/2);
      Apart(nodes, 2*c, 2*c+1);
      Apart(nodes, 2*c, sp);
      Apart(nodes, 2*c, p/2);
      Apart(nodes, 2*c+1, sp);
      Apart(nodes, 2*c+1, p/2);
      Apart(nodes, 2*(p/2), 2*(p/2)+1);
    }

    // The same swap seen in level order: the node at position p with its child at position c.
    method SwapNodes(parent: HeapNode, child: HeapNode, ghost p: nat, ghost c: nat)
      requires Shape()
      requires 1 <= p && 2 <= c <= |nodes| && c/2 == p
      requires parent == nodes[p-1] && child == nodes[c-1]
      modifies this`min, this`nodes, Members(nodes)
      ensures Shape() && nodes == SwapAt(old(nodes), p, c)
      ensures Members(nodes) == old(Members(nodes))
    {
      hide LinkedAt, Distinct, Touched, AfterSwap, SwapAt;
      SwapAround(parent, child, p, c);
      Reorder(p, c);
    }

    // The pointers after the swap: those around p and c, and all others as before.
    method SwapAround(parent: HeapNode, child: HeapNode, ghost p: nat, ghost c: nat)
      requires Shape()
      requires 1 <= p && 2 <= c <= |nodes| && c/2 == p
      requires parent == nodes[p-1] && child == nodes[c-1]
      modifies this`min, Members(nodes)
      ensures min == if p == 1 then nodes[c-1] else At(nodes, 1)
      ensures AfterSwap(nodes, p, c)
      ensures forall q {:trigger LinkedAt(nodes, q)} :: 1 <= q <= |nodes| && !Touched(p, c, q) ==> LinkedAt(nodes, q)
    {
      ghost var s := nodes;
      ghost var sp := Sibling(c);
      ghost var sib, gl, gr, grand := At(s, sp), At(s, 2*c), At(s, 2*c+1), At(s, p/2);
      SurroundingsOf(p, c);
      assert LinkedAt(s, p) && LinkedAt(s, c);
      assert sib != null ==> LinkedAt(s, sp);
      assert gl != null ==> LinkedAt(s, 2*c);
      assert gr != null ==> LinkedAt(s, 2*c+1);
      assert grand != null ==> LinkedAt(s, p/2);
      SwapLinks(parent, child, sib, gl, gr, grand);
      assert AfterSwap(s, p, c);
      hide AfterSwap, Surroundings;
      forall q | 1 <= q <= |s| && !Touched(p, c, q) ensures LinkedAt(s, q) {
        UntouchedApart(s, p, c, q);
        assert old(LinkedAt(s, q));
      }
    }

    // Brings the level order up to date after SwapLinks.
    ghost method Reorder(p: nat, c: nat)
      requires 1 <= p && 2 <= c <= |nodes| && c/2 == p
      requires |nodes| == nelts as nat && Distinct(nodes)
      requires min == if p == 1 then nodes[c-1] else At(nodes, 1)
      requires AfterSwap(nodes, p, c)
      requires forall q {:trigger LinkedAt(nodes, q)} :: 1 <= q <= |nodes| && !Touched(p, c, q) ==> LinkedAt(nodes, q)
      modifies this`nodes
      ensures Shape() && nodes == SwapAt(old(nodes), p, c)
      ensures Members(nodes) == old(Members(nodes))
    {
      SwapKeepsMembers(nodes, p, c);
      SwapKeepsDistinct(nodes, p, c);
      SwapRelinks(nodes, p, c);
      nodes := SwapAt(nodes, p, c);
    }

    method Insert(newnode: HeapNode, less: LessThan)
      requires Valid(less) && newnode !in nodes
      requires StrictWeakOrder(less, Members(nodes) + {newnode})
      requires nelts < 0xFFFF_FFFF
      modifies this, Members(nodes), newnode
      ensures Valid(less)
      ensures Members(nodes) == old(Members(nodes)) + {newnode}
      ensures nelts == old(nelts) + 1
    {
      ghost var s := nodes;
      AttachLast(newnode);
      assert Members(nodes) == Members(s) + {newnode};
      forall q | 2 <= q <= |s| ensures EdgeOk(less, nodes, q) {
        assert EdgeOk(less, s, q);
      }
      SiftUp(newnode, less, |nodes|);
    }

    lemma LoadOf(slot: Slot, p: nat)
      requires Shape() && 1 <= p <= |nodes| + 1 && SlotOf(slot, p)
      ensures Load(slot) == At(nodes, p)
    {
      if p >= 2 {
        assert LinkedAt(nodes, p/2);
      }
    }

    // Links a node into the left-most free position of the bottom row.
    method AttachLast(newnode: HeapNode)
      requires Shape() && newnode !in nodes && nelts < 0xFFFF_FFFF
      modifies this, Members(nodes), newnode
      ensures Shape() && nodes == old(nodes) + [newnode]
    {
      newnode.left, newnode.right, newnode.parent := null, null, null;
      assert forall q :: 1 <= q <= |nodes| && old(LinkedAt(nodes, q)) ==> LinkedAt(nodes, q);
      var path, k := PathTo(1 + nelts);
      var parent, child := Descend(path, k, |nodes| + 1);
      HangAt(newnode, parent, child, |nodes| + 1);
    }

    // The node goes into the slot of position p, and points to what is in the parent's slot.
    method HangAt(newnode: HeapNode, parent: Slot, child: Slot, ghost p: nat)
      requires Shape() && newnode !in nodes && nelts < 0xFFFF_FFFF && p == |nodes| + 1
      requires newnode.left == null && newnode.right == null
      requires SlotOf(child, p) && (p == 1 ==> parent == child) && (p > 1 ==> SlotOf(parent, p/2))
      modifies this, Members(nodes), newnode
      ensures Shape() && nodes == old(nodes) + [newnode]
    {
      ghost var s := nodes;
      assert p >= 2 ==> LinkedAt(s, p/2);
      LoadOf(if p >= 2 then parent else child, if p >= 2 then p/2 else 1);
      newnode.parent := Load(parent);
      Store(child, newnode);
      nelts := nelts + 1;
      nodes := s + [newnode];
      forall q | 1 <= q <= |s| && q != p/2 ensures LinkedAt(s, q) {
        assert old(LinkedAt(s, q));
        Apart(s, q, p/2);
      }
      AppendLinks(s, newnode);
      AppendDistinct(s, newnode);
    }

    // Moves the node at position p up while it sorts before its parent.
    method SiftUp(node: HeapNode, less: LessThan, ghost start: nat)
      requires Shape() && 1 <= start <= |nodes| && node == nodes[start-1]
      requires StrictWeakOrder(less, Members(nodes)) && OrderedExceptUp(less, nodes, start)
      modifies this`min, this`nodes, Members(nodes)
      ensures Valid(less) && Members(nodes) == old(Members(nodes))
    {
      ghost var p := start;
      assert LinkedAt(nodes, p);
      while node.parent != null && less(node, node.parent)
        invariant Shape() && 1 <= p <= |nodes| && node == nodes[p-1]
        invariant node.parent == At(nodes, p/2)
        invariant Members(nodes) == old(Members(nodes))
        invariant OrderedExceptUp(less, nodes, p)
        decreases p
      {
        SiftUpStep(less, nodes, p);
        SwapNodes(node.parent, node, p/2, p);
        p := p/2;
        assert LinkedAt(nodes, p);
      }
    }

    // The least of a node and its children, at position c.
    method Smallest(child: HeapNode, less: LessThan, ghost p: nat) returns (smallest: HeapNode, ghost c: nat)
      requires Shape() && 1 <= p <= |nodes| && child == nodes[p-1] && StrictWeakOrder(less, Members(nodes))
      ensures 1 <= c <= |nodes| && smallest == nodes[c-1] && (c == p || c/2 == p) && (smallest == child <==> c == p)
      ensures SmallestChild(less, nodes, p, c) && (c != p ==> less(nodes[c-1], nodes[p-1]))
      ensures smallest == child || smallest == child.left || smallest == child.right
      ensures child.left != null ==> !less(child.left, smallest)
      ensures child.right != null ==> !less(child.right, smallest)
    {
      hide StrictWeakOrder;
      assert LinkedAt(nodes, p);
      smallest, c := child, p;
      if child.left != null && less(child.left, smallest) {
        smallest, c := child.left, 2*p;
      }
      if child.right != null && less(child.right, smallest) {
        smallest, c := child.right, 2*p+1;
      }
      LeastOfThree(less, nodes, p, c);
      assert ApartAt(nodes, p, c);
    }

    // Moves the node at position p down while one of its children sorts before it.
    method SiftDown(child: HeapNode, less: LessThan, ghost start: nat) returns (ghost end: nat)
      requires Shape() && 1 <= start <= |nodes| && child == nodes[start-1]
      requires StrictWeakOrder(less, Members(nodes)) && OrderedAround(less, nodes, start)
      modifies this`min, this`nodes, Members(nodes)
      ensures Shape() && Members(nodes) == old(Members(nodes))
      ensures 1 <= end <= |nodes| && child == nodes[end-1] && OrderedExceptUp(less, nodes, end)
    {
      hide Distinct, Linked, StrictWeakOrder, SmallestChild, OrderedAround, OrderedExceptUp, SwapAt;
      ghost var p := start;
      while true
        invariant Shape() && 1 <= p <= |nodes| && child == nodes[p-1]
        invariant Members(nodes) == old(Members(nodes)) && |nodes| == |old(nodes)|
        invariant OrderedAround(less, nodes, p)
        decreases |nodes| - p
      {
        var smallest; ghost var c;
        smallest, c := Smallest(child, less, p);
        if smallest == child {
          AroundIsUp(less, nodes, p);
          end := p;
          return;
        }
        SiftDownStep(less, nodes, p, c);
        SwappedAt(nodes, p, c);
        SwapNodes(child, smallest, p, c);
        p := c;
      }
    }

    method Remove(node: HeapNode?, less: LessThan)
      requires Valid(less) && StrictWeakOrder(less, Members(nodes))
      requires nelts > 0 ==> node != null && node in nodes
      modifies this, Members(nodes)
      ensures Valid(less)
      ensures Members(nodes) == old(Members(nodes)) - {node}
      ensures nelts == if old(nelts) == 0 then 0 else old(nelts) - 1
    {
      if nelts == 0 {
        return;
      }
      ghost var s := nodes;
      ghost var i :| 0 <= i < |s| && s[i] == node;
      var child := DetachLast();
      forall q | 2 <= q < |s| ensures EdgeOk(less, nodes, q) {
        assert EdgeOk(less, s, q);
      }
      DropKeeps(s);
      if child == node {
        if child == min {
          assert false;  // clearing the slot has already cleared heap->min
        }
        return;
      }
      PutInPlace(node, child, i+1);
      assert Members(nodes) == Members(s) - {node} by { ReplaceMembers(s, i); }
      ReplaceOrder(less, s, i);
      var end := SiftDown(child, less, i+1);
      SiftUp(child, less, end);
    }

    // Unlinks the node at the last position, the right-most of the bottom row.
    method DetachLast() returns (child: HeapNode)
      requires Shape() && nelts > 0
      modifies this, Members(nodes)
      ensures Shape() && child == old(nodes[|nodes|-1]) && nodes == old(nodes[..|nodes|-1])
      ensures nelts == old(nelts) - 1
    {
      ghost var s, n := nodes, |nodes|;
      var path, k := PathTo(nelts);
      var _, max := Descend(path, k, n);
      nelts := nelts - 1;

      assert LinkedAt(s, n);
      assert n >= 2 ==> LinkedAt(s, n/2);
      child := Load(max);
      Store(max, null);
      nodes := s[..n-1];
      DropKeeps(s);
      forall q | 1 <= q < n ensures LinkedAt(nodes, q) {
        assert old(LinkedAt(s, q));
        if q != n/2 {
          Apart(s, q, n/2);
        }
      }
    }

    // Puts a detached node where a member sits; the member leaves the heap.
    method PutInPlace(node: HeapNode, child: HeapNode, ghost p: nat)
      requires Shape() && 1 <= p <= |nodes| && nodes[p-1] == node && child !in nodes
      modifies this`min, this`nodes, Members(nodes), child
      ensures Shape() && nodes == old(nodes)[p-1 := child]
    {
      hide LinkedAt, AfterPut, Distinct;
      PutPointers(node, child, p);
      ReplaceLinks(nodes, p, child);
      ReplaceDistinct(nodes, p, child);
      nodes := nodes[p-1 := child];
    }

    // The pointers of the node at position p become the child's, and its children point up at it.
    method TakeKids(node: HeapNode, child: HeapNode, ghost p: nat)
      requires Shape() && 1 <= p <= |nodes| && nodes[p-1] == node && child !in nodes
      modifies child, Opt(At(nodes, 2*p)), Opt(At(nodes, 2*p+1))
      ensures child.left == At(nodes, 2*p) && child.right == At(nodes, 2*p+1) && child.parent == At(nodes, p/2)
      ensures var gl := At(nodes, 2*p); gl != null ==>
        gl.parent == child && gl.left == old(gl.left) && gl.right == old(gl.right)
      ensures var gr := At(nodes, 2*p+1); gr != null ==>
        gr.parent == child && gr.left == old(gr.left) && gr.right == old(gr.right)
    {
      assert LinkedAt(nodes, p);
      NeighboursApart(nodes, p);
      hide Distinct, Linked;
      child.left := node.left;
      child.right := node.right;
      child.parent := node.parent;
      if child.left != null {
        child.left.parent := child;
      }
      if child.right != null {
        child.right.parent := child;
      }
    }

    // Those to the node point at it.
    method PutPointers(node: HeapNode, child: HeapNode, ghost p: nat)
      requires Shape() && 1 <= p <= |nodes| && nodes[p-1] == node && child !in nodes
      modifies this`min, Members(nodes), child
      ensures min == if p == 1 then child else At(nodes, 1)
      ensures AfterPut(nodes, p, child)
      ensures forall q {:trigger LinkedAt(nodes, q)} ::
        1 <= q <= |nodes| && q != p && q != 2*p && q != 2*p+1 && q != p/2 ==> LinkedAt(nodes, q)
    {
      ghost var s := nodes;
      assert LinkedAt(s, p);
      assert p >= 2 ==> LinkedAt(s, p/2);
      assert 2*p <= |s| ==> LinkedAt(s, 2*p);
      assert 2*p+1 <= |s| ==> LinkedAt(s, 2*p+1);
      NeighboursApart(s, p);
      TakeKids(node, child, p);
      if node.parent == null {
        min := child;
      } else if node.parent.left == node {
        node.parent.left := child;
      } else {
        node.parent.right := child;
      }
      forall q | 1 <= q <= |s| && q != p && q != 2*p && q != 2*p+1 && q != p/2 ensures LinkedAt(s, q) {
        assert old(LinkedAt(s, q));
        NeighboursApartFrom(s, p, q);
      }
    }

    method Dequeue(less: LessThan)
      requires Valid(less) && StrictWeakOrder(less, Members(nodes))
      modifies this, Members(nodes)
      ensures Valid(less)
      ensures old(nelts) > 0 ==>
        && old(min) != null && old(min) in old(nodes)
        && (forall m :: m in old(nodes) ==> !less(m, old(min)))
        && Members(nodes) == old(Members(nodes)) - {old(min)}
      ensures old(nelts) == 0 ==> nodes == []
    {
      assert nelts > 0 ==> min == nodes[0];
      forall i: nat | i < |nodes| ensures !less(nodes[i], nodes[0]) {
        RootIsLeast(less, nodes, i+1);
      }
      Remove(min, less);
    }
  }
}
